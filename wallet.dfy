/**
 * Problem3/wallet.ts: the wallet-balance pipeline of WalletPage,
 * filter -> sort -> format -> rows. Amounts are exact `real`s; a price
 * missing from the price table yields `None` where JavaScript yields NaN.
 */
module Wallet {
  import opened Wrappers
  import opened Text

  datatype WalletBalance = WalletBalance(currency: string, amount: real, blockchain: string)

  datatype FormattedWalletBalance =
    FormattedWalletBalance(currency: string, amount: real, formatted: string, blockchain: string)

  /** The props WalletPage hands to one WalletRow. */
  datatype Row = Row(key: string, amount: real, usdValue: Option<real>, formattedAmount: string)

  const DefaultPriority: int := -99

  const RecognisedChains: set<string> := {"Osmosis", "Ethereum", "Arbitrum", "Zilliqa", "Neo"}

  // ---------------------------------------------------------------- priority

  /** getPriority: a total lookup with a default arm. */
  function GetPriority(blockchain: string): (p: int)
    ensures blockchain in RecognisedChains <==> p > DefaultPriority
    ensures blockchain !in RecognisedChains ==> p == DefaultPriority
    ensures p >= DefaultPriority
  {
    if blockchain == "Osmosis" then 100
    else if blockchain == "Ethereum" then 50
    else if blockchain == "Arbitrum" then 30
    else if blockchain == "Zilliqa" then 20
    else if blockchain == "Neo" then 20
    else DefaultPriority
  }

  /** The table itself. */
  lemma PriorityTable(other: string)
    requires other !in RecognisedChains
    ensures GetPriority("Osmosis") == 100 && GetPriority("Ethereum") == 50
    ensures GetPriority("Arbitrum") == 30
    ensures GetPriority("Zilliqa") == 20 && GetPriority("Neo") == 20
    ensures GetPriority(other) == -99
  {
  }

  function Priority(b: WalletBalance): int {
    GetPriority(b.blockchain)
  }

  // ------------------------------------------------------------------ filter

  /** The filter callback exactly as written: recognised chain and amount <= 0. */
  predicate Retained(b: WalletBalance): (r: bool)
    ensures r <==> b.blockchain in RecognisedChains && b.amount <= 0.0
  {
    GetPriority(b.blockchain) > DefaultPriority && b.amount <= 0.0
  }

  function FilterBalances(s: seq<WalletBalance>): (r: seq<WalletBalance>)
    ensures forall b :: b in r <==> b in s && b.blockchain in RecognisedChains && b.amount <= 0.0
    ensures forall b :: multiset(r)[b] == if Retained(b) then multiset(s)[b] else 0
    ensures IsSubsequence(r, s)
  {
    if s == [] then []
    else
      var rest := FilterBalances(s[1..]);
      assert s == [s[0]] + s[1..];
      if Retained(s[0]) then [s[0]] + rest else rest
  }

  /** Positive amounts and unrecognised chains never survive the filter. */
  lemma FilterDrops(s: seq<WalletBalance>, b: WalletBalance)
    requires b.amount > 0.0 || GetPriority(b.blockchain) == DefaultPriority
    ensures b !in FilterBalances(s)
  {
  }

  // -------------------------------------------------------------------- sort

  /** The sort comparator: -1 puts lhs first, 1 puts rhs first, 0 for equal priorities. */
  function ComparePriority(lhs: WalletBalance, rhs: WalletBalance): (c: int)
    ensures c == -1 <==> Priority(lhs) > Priority(rhs)
    ensures c == 1 <==> Priority(rhs) > Priority(lhs)
    ensures c == 0 <==> Priority(lhs) == Priority(rhs)
  {
    var leftPriority := GetPriority(lhs.blockchain);
    var rightPriority := GetPriority(rhs.blockchain);
    if leftPriority > rightPriority then -1
    else if rightPriority > leftPriority then 1
    else 0
  }

  /**
   * The comparator is consistent in the sense Array.prototype.sort demands
   * (section 23.1.3 of ECMA-262): antisymmetric in sign, transitive, and it
   * depends only on the two priorities.
   */
  lemma ComparatorConsistent(a: WalletBalance, b: WalletBalance, c: WalletBalance)
    ensures ComparePriority(a, b) == -ComparePriority(b, a)
    ensures ComparePriority(a, a) == 0
    ensures ComparePriority(a, b) <= 0 && ComparePriority(b, c) <= 0 ==> ComparePriority(a, c) <= 0
    ensures ComparePriority(a, b) < 0 && ComparePriority(b, c) < 0 ==> ComparePriority(a, c) < 0
    ensures Priority(b) == Priority(c) ==> ComparePriority(a, b) == ComparePriority(a, c)
  {
  }

  /** Adjacent balances have non-increasing priority. */
  predicate SortedByPriority(s: seq<WalletBalance>) {
    forall i :: 0 <= i < |s| - 1 ==> Priority(s[i]) >= Priority(s[i + 1])
  }

  /** Sorted adjacent pairs give sorted pairs at any distance. */
  lemma {:induction false} SortedAllPairs(s: seq<WalletBalance>)
    requires SortedByPriority(s)
    ensures forall i, j :: 0 <= i < j < |s| ==> Priority(s[i]) >= Priority(s[j])
  {
    if |s| > 1 {
      var tail := s[1..];
      SortedTail(s);
      SortedAllPairs(tail);
      forall i, j | 0 <= i < j < |s|
        ensures Priority(s[i]) >= Priority(s[j])
      {
        if i > 0 {
          assert s[i] == tail[i - 1] && s[j] == tail[j - 1];
        } else if j > 1 {
          assert s[1] == tail[0] && s[j] == tail[j - 1];
        }
      }
    }
  }

  /** The elements of priority p, in their order in s. */
  function WithPriority(s: seq<WalletBalance>, p: int): seq<WalletBalance> {
    if s == [] then []
    else (if Priority(s[0]) == p then [s[0]] else []) + WithPriority(s[1..], p)
  }

  /** Stable insertion: b goes before the first element the comparator does not rank above it. */
  function Insert(b: WalletBalance, s: seq<WalletBalance>): (r: seq<WalletBalance>)
    ensures multiset(r) == multiset(s) + multiset{b}
  {
    if s == [] || ComparePriority(b, s[0]) <= 0 then [b] + s
    else
      assert s == [s[0]] + s[1..];
      [s[0]] + Insert(b, s[1..])
  }

  lemma {:induction false} InsertSorted(b: WalletBalance, s: seq<WalletBalance>)
    requires SortedByPriority(s)
    ensures SortedByPriority(Insert(b, s))
  {
    if s != [] && ComparePriority(b, s[0]) > 0 {
      var head, tail := s[0], s[1..];
      SortedTail(s);
      var rest := Insert(b, tail);
      InsertSorted(b, tail);
      assert rest[0] == b || rest[0] == tail[0];
      var r := [head] + rest;
      assert Insert(b, s) == r;
      forall i | 0 <= i < |r| - 1
        ensures Priority(r[i]) >= Priority(r[i + 1])
      {
        assert r[i + 1] == rest[i];
        if i > 0 {
          assert r[i] == rest[i - 1];
        }
      }
    } else {
      var r := [b] + s;
      assert Insert(b, s) == r;
      forall i | 0 <= i < |r| - 1
        ensures Priority(r[i]) >= Priority(r[i + 1])
      {
        assert r[i + 1] == s[i];
        if i > 0 {
          assert r[i] == s[i - 1];
        }
      }
    }
  }

  lemma {:induction false} WithPriorityOfCons(b: WalletBalance, s: seq<WalletBalance>, p: int)
    ensures WithPriority([b] + s, p) == (if Priority(b) == p then [b] else []) + WithPriority(s, p)
  {
  }

  /** Insertion keeps the per-priority order: b lands in front of its equals. */
  lemma {:induction false} InsertStable(b: WalletBalance, s: seq<WalletBalance>, p: int)
    ensures WithPriority(Insert(b, s), p) == (if Priority(b) == p then [b] else []) + WithPriority(s, p)
  {
    if s == [] || ComparePriority(b, s[0]) <= 0 {
      WithPriorityOfCons(b, s, p);
    } else {
      var head, tail := s[0], s[1..];
      var rest := Insert(b, tail);
      var hb: seq<WalletBalance> := if Priority(b) == p then [b] else [];
      var hh: seq<WalletBalance> := if Priority(head) == p then [head] else [];
      var wt := WithPriority(tail, p);
      assert Insert(b, s) == [head] + rest;
      assert s == [head] + tail;
      InsertStable(b, tail, p);
      WithPriorityOfCons(head, rest, p);
      WithPriorityOfCons(head, tail, p);
      assert WithPriority(Insert(b, s), p) == hh + (hb + wt);
      assert WithPriority(s, p) == hh + wt;
      if hh == [] {
        assert hh + (hb + wt) == hb + wt && hh + wt == wt;
      } else {
        assert hb == [];
        assert hb + (hh + wt) == hh + wt && hb + wt == wt;
      }
    }
  }

  /** A stable sort by descending priority (insertion sort). */
  function SortByPriority(s: seq<WalletBalance>): (r: seq<WalletBalance>)
    ensures multiset(r) == multiset(s)
    ensures SortedByPriority(r)
    ensures forall p :: WithPriority(r, p) == WithPriority(s, p)
  {
    if s == [] then []
    else
      var rest := SortByPriority(s[1..]);
      InsertSorted(s[0], rest);
      assert s == [s[0]] + s[1..];
      assert forall p :: WithPriority(Insert(s[0], rest), p) == WithPriority(s, p) by {
        forall p ensures WithPriority(Insert(s[0], rest), p) == WithPriority(s, p) {
          InsertStable(s[0], rest, p);
          WithPriorityOfCons(s[0], s[1..], p);
        }
      }
      Insert(s[0], rest)
  }

  /** sortedBalances: the filter followed by the sort. */
  function SortedBalances(balances: seq<WalletBalance>): (r: seq<WalletBalance>)
    ensures multiset(r) == multiset(FilterBalances(balances))
    ensures SortedByPriority(r)
    ensures forall b :: b in r <==> b in balances && b.blockchain in RecognisedChains && b.amount <= 0.0
    ensures forall p :: WithPriority(r, p) == WithPriority(FilterBalances(balances), p)
  {
    var r := SortByPriority(FilterBalances(balances));
    assert forall b :: b in r <==> b in multiset(r);
    assert forall b :: b in FilterBalances(balances) <==> b in multiset(FilterBalances(balances));
    r
  }

  lemma {:induction false} WithPriorityMembers(s: seq<WalletBalance>, p: int)
    ensures forall x :: x in WithPriority(s, p) <==> x in s && Priority(x) == p
  {
    if s != [] {
      WithPriorityMembers(s[1..], p);
      assert s == [s[0]] + s[1..];
    }
  }

  lemma WithPriorityOfHead(s: seq<WalletBalance>)
    ensures s != [] ==> WithPriority(s, Priority(s[0])) != []
  {
  }

  lemma SortedTail(s: seq<WalletBalance>)
    requires s != [] && SortedByPriority(s)
    ensures SortedByPriority(s[1..])
  {
    assert forall i :: 0 <= i < |s| - 1 ==> s[1..][i] == s[i + 1];
  }

  /** The head of a sorted sequence outranks every balance of any sequence with the same priority groups. */
  lemma HeadOutranks(r1: seq<WalletBalance>, r2: seq<WalletBalance>)
    requires r1 != [] && r2 != []
    requires SortedByPriority(r1)
    requires forall p :: WithPriority(r1, p) == WithPriority(r2, p)
    ensures Priority(r1[0]) >= Priority(r2[0])
  {
    var p2 := Priority(r2[0]);
    WithPriorityMembers(r1, p2);
    WithPriorityMembers(r2, p2);
    assert r2[0] in r1;
    var k :| 0 <= k < |r1| && r1[k] == r2[0];
    if k > 0 {
      SortedAllPairs(r1);
      assert Priority(r1[0]) >= Priority(r1[k]);
    }
  }

  /** Two such sequences start with the same balance. */
  lemma SameHead(r1: seq<WalletBalance>, r2: seq<WalletBalance>)
    requires r1 != [] && r2 != []
    requires SortedByPriority(r1) && SortedByPriority(r2)
    requires forall p :: WithPriority(r1, p) == WithPriority(r2, p)
    ensures r1[0] == r2[0]
  {
    HeadOutranks(r1, r2);
    HeadOutranks(r2, r1);
    var p := Priority(r1[0]);
    assert Priority(r2[0]) == p;
    var w1, w2 := WithPriority(r1[1..], p), WithPriority(r2[1..], p);
    assert WithPriority(r1, p) == [r1[0]] + w1;
    assert WithPriority(r2, p) == [r2[0]] + w2;
    assert ([r1[0]] + w1)[0] == r1[0];
    assert ([r2[0]] + w2)[0] == r2[0];
  }

  /** Removing the same head keeps the per-priority orders equal. */
  lemma SameTails(x: WalletBalance, t1: seq<WalletBalance>, t2: seq<WalletBalance>)
    requires forall p :: WithPriority([x] + t1, p) == WithPriority([x] + t2, p)
    ensures forall p :: WithPriority(t1, p) == WithPriority(t2, p)
  {
    forall q
      ensures WithPriority(t1, q) == WithPriority(t2, q)
    {
      WithPriorityOfCons(x, t1, q);
      WithPriorityOfCons(x, t2, q);
      var h: seq<WalletBalance> := if Priority(x) == q then [x] else [];
      assert WithPriority(t1, q) == (h + WithPriority(t1, q))[|h|..];
      assert WithPriority(t2, q) == (h + WithPriority(t2, q))[|h|..];
    }
  }

  /**
   * Any two sequences sorted by descending priority that agree on the order
   * within every priority are equal: every stable sort under this comparator
   * gives the same result as SortByPriority.
   */
  lemma {:induction false} StableSortUnique(r1: seq<WalletBalance>, r2: seq<WalletBalance>)
    requires SortedByPriority(r1) && SortedByPriority(r2)
    requires forall p :: WithPriority(r1, p) == WithPriority(r2, p)
    ensures r1 == r2
    decreases |r1|
  {
    if r1 == [] && r2 == [] {
    } else if r1 == [] {
      WithPriorityOfHead(r2);
      assert false;
    } else if r2 == [] {
      WithPriorityOfHead(r1);
      assert false;
    } else {
      SameHead(r1, r2);
      assert r1 == [r1[0]] + r1[1..];
      assert r2 == [r1[0]] + r2[1..];
      SameTails(r1[0], r1[1..], r2[1..]);
      SortedTail(r1);
      SortedTail(r2);
      StableSortUnique(r1[1..], r2[1..]);
    }
  }

  // ------------------------------------------------------------------ format

  function Abs(x: real): real {
    if x < 0.0 then -x else x
  }

  /**
   * Number.prototype.toFixed() with no argument (section 21.1.3.3 of
   * ECMA-262): a "-" exactly when the value is negative (so -0.3 gives
   * "-0"), then the integer nearest the magnitude, the larger one on a tie.
   */
  function ToFixed(x: real): (s: string)
    ensures |s| > 0
    ensures s[0] == '-' <==> x < 0.0
    ensures var digits := if x < 0.0 then s[1..] else s;
      && |digits| > 0 && AllDigits(digits)
      && (digits[0] == '0' ==> |digits| == 1)
      && Abs(x) - 0.5 < DecimalValue(digits) as real <= Abs(x) + 0.5
  {
    var n: nat := (Abs(x) + 0.5).Floor;
    DecimalRoundTrip(n);
    var s := (if x < 0.0 then "-" else "") + DecimalString(n);
    assert (if x < 0.0 then s[1..] else s) == DecimalString(n);
    s
  }

  /** The contract of ToFixed admits exactly one string. */
  lemma ToFixedUnique(x: real, s: string)
    requires |s| > 0 && (s[0] == '-' <==> x < 0.0)
    requires var digits := if x < 0.0 then s[1..] else s;
      && |digits| > 0 && AllDigits(digits)
      && (digits[0] == '0' ==> |digits| == 1)
      && Abs(x) - 0.5 < DecimalValue(digits) as real <= Abs(x) + 0.5
    ensures s == ToFixed(x)
  {
    var digits := if x < 0.0 then s[1..] else s;
    CanonicalDigits(digits);
    var n := DecimalValue(digits);
    var m: nat := (Abs(x) + 0.5).Floor;
    assert n == m;
    if x < 0.0 {
      assert s == "-" + digits;
    }
  }

  lemma ToFixedExamples()
    ensures ToFixed(-5.0) == "-5"
    ensures ToFixed(-0.3) == "-0"
    ensures ToFixed(0.0) == "0"
    ensures ToFixed(-2.5) == "-3"
    ensures ToFixed(-12.0) == "-12"
  {
  }

  /** The map callback: the balance with its amount rendered by toFixed(). */
  function FormatBalance(b: WalletBalance): (f: FormattedWalletBalance)
    ensures Unformat(f) == b
    ensures f.formatted == ToFixed(b.amount)
  {
    FormattedWalletBalance(b.currency, b.amount, ToFixed(b.amount), b.blockchain)
  }

  /** Drops the `formatted` field again. */
  function Unformat(f: FormattedWalletBalance): WalletBalance {
    WalletBalance(f.currency, f.amount, f.blockchain)
  }

  /** formattedBalances: one formatted balance per sorted balance, in order, nothing else changed. */
  function FormatBalances(s: seq<WalletBalance>): (r: seq<FormattedWalletBalance>)
    ensures |r| == |s|
    ensures forall i :: 0 <= i < |s| ==> Unformat(r[i]) == s[i] && r[i].formatted == ToFixed(s[i].amount)
  {
    if s == [] then [] else [FormatBalance(s[0])] + FormatBalances(s[1..])
  }

  // -------------------------------------------------------------------- rows

  /** The row key `${currency}-${index}`. */
  function RowKey(currency: string, index: nat): (k: string)
    ensures |k| > |currency| + 1 && k[..|currency|] == currency && k[|currency|] == '-'
    ensures var digits := k[|currency| + 1..];
      AllDigits(digits) && DecimalValue(digits) == index
  {
    DecimalRoundTrip(index);
    var k := currency + "-" + DecimalString(index);
    assert k[|currency| + 1..] == DecimalString(index);
    k
  }

  /** The part of a string after its last '-' (all of it when there is none). */
  function AfterLastDash(s: string): (r: string)
    ensures '-' !in r
  {
    if s == [] || s[|s| - 1] == '-' then [] else AfterLastDash(s[..|s| - 1]) + [s[|s| - 1]]
  }

  lemma {:induction false} AfterLastDashOfSuffix(prefix: string, digits: string)
    requires '-' !in digits
    ensures AfterLastDash(prefix + "-" + digits) == digits
    decreases |digits|
  {
    var s := prefix + "-" + digits;
    if digits != [] {
      var d := digits[..|digits| - 1];
      assert s[..|s| - 1] == prefix + "-" + d;
      assert s[|s| - 1] == digits[|digits| - 1];
      AfterLastDashOfSuffix(prefix, d);
    }
  }

  /** The index can be read back from a row key, whatever the currency. */
  lemma RowKeyIndex(currency: string, index: nat)
    ensures AfterLastDash(RowKey(currency, index)) == DecimalString(index)
    ensures DecimalValue(DecimalString(index)) == index
  {
    AfterLastDashOfSuffix(currency, DecimalString(index));
    DecimalRoundTrip(index);
  }

  /** usdValue = prices[currency] * amount; None where JavaScript gives NaN. */
  function UsdValue(b: FormattedWalletBalance, prices: map<string, real>): (v: Option<real>)
    ensures v.Some? <==> b.currency in prices
    ensures b.currency in prices && prices[b.currency] == 1.0 ==> v == Some(b.amount)
  {
    if b.currency in prices then Some(prices[b.currency] * b.amount) else None
  }

  /** The row callback: key from currency and index, value from the price table. */
  function MakeRow(b: FormattedWalletBalance, index: nat, prices: map<string, real>): (r: Row)
    ensures r.key == RowKey(b.currency, index)
    ensures r.amount == b.amount && r.formattedAmount == b.formatted
    ensures r.usdValue.Some? <==> b.currency in prices
  {
    Row(RowKey(b.currency, index), b.amount, UsdValue(b, prices), b.formatted)
  }

  /** The `map` over formatted balances, the callback's index starting at `start`. */
  function RowsFrom(fb: seq<FormattedWalletBalance>, prices: map<string, real>, start: nat): (rows: seq<Row>)
    ensures |rows| == |fb|
    ensures forall i :: 0 <= i < |fb| ==> rows[i] == MakeRow(fb[i], start + i, prices)
  {
    if fb == [] then [] else [MakeRow(fb[0], start, prices)] + RowsFrom(fb[1..], prices, start + 1)
  }

  /** rows: one row per formatted balance, in order, numbered from 0; none dropped for a missing price. */
  function Rows(fb: seq<FormattedWalletBalance>, prices: map<string, real>): (rows: seq<Row>)
    ensures |rows| == |fb|
    ensures forall i :: 0 <= i < |fb| ==>
      && rows[i].amount == fb[i].amount
      && rows[i].formattedAmount == fb[i].formatted
      && rows[i].usdValue == UsdValue(fb[i], prices)
      && rows[i].key == RowKey(fb[i].currency, i)
  {
    RowsFrom(fb, prices, 0)
  }

  /** The suffix of each row's key after its last '-' spells the row's index. */
  lemma RowKeysIndex(fb: seq<FormattedWalletBalance>, prices: map<string, real>)
    ensures var rows := Rows(fb, prices);
      forall i :: 0 <= i < |rows| ==>
        AfterLastDash(rows[i].key) == DecimalString(i) && DecimalValue(AfterLastDash(rows[i].key)) == i
  {
    var rows := Rows(fb, prices);
    forall i | 0 <= i < |rows|
      ensures AfterLastDash(rows[i].key) == DecimalString(i) && DecimalValue(DecimalString(i)) == i
    {
      RowKeyIndex(fb[i].currency, i);
    }
  }

  /** Row keys are pairwise distinct, even when currencies repeat. */
  lemma RowKeysDistinct(fb: seq<FormattedWalletBalance>, prices: map<string, real>)
    ensures var rows := Rows(fb, prices);
      forall i, j :: 0 <= i < j < |rows| ==> rows[i].key != rows[j].key
  {
    RowKeysIndex(fb, prices);
  }

  // ---------------------------------------------------------------- pipeline

  /** The whole of WalletPage's computation: filter, sort, format, rows. */
  function WalletRows(balances: seq<WalletBalance>, prices: map<string, real>): (rows: seq<Row>)
    ensures var sorted := SortedBalances(balances);
      && |rows| == |sorted|
      && forall i :: 0 <= i < |rows| ==>
        rows[i].key == RowKey(sorted[i].currency, i) && rows[i].amount == sorted[i].amount
  {
    Rows(FormatBalances(SortedBalances(balances)), prices)
  }

  /**
   * One row per retained balance, in sorted order. As the filter is written,
   * every row's amount is at most 0, so every formatted amount is "0" or
   * starts with '-'.
   */
  lemma WalletRowsSpec(balances: seq<WalletBalance>, prices: map<string, real>)
    ensures var sorted, rows := SortedBalances(balances), WalletRows(balances, prices);
      && |rows| == |sorted|
      && forall i :: 0 <= i < |rows| ==>
        && rows[i].amount == sorted[i].amount <= 0.0
        && rows[i].formattedAmount == ToFixed(sorted[i].amount)
        && (rows[i].formattedAmount == "0" || rows[i].formattedAmount[0] == '-')
        && (rows[i].usdValue.Some? <==> sorted[i].currency in prices)
  {
  }

  lemma ScenarioAtomEthUnknown()
    ensures var balances := [
        WalletBalance("ATOM", -5.0, "Osmosis"),
        WalletBalance("ETH", 3.0, "Ethereum"),
        WalletBalance("X", -1.0, "Unknown")];
      && SortedBalances(balances) == [WalletBalance("ATOM", -5.0, "Osmosis")]
      && WalletRows(balances, map["ATOM" := 10.0]) == [Row("ATOM-0", -5.0, Some(-50.0), "-5")]
      && WalletRows(balances, map[]) == [Row("ATOM-0", -5.0, None, "-5")]
  {
    var atom := WalletBalance("ATOM", -5.0, "Osmosis");
    ScenarioSorted();
    ScenarioFormatted();
    ScenarioRows(map["ATOM" := 10.0]);
    ScenarioRows(map[]);
  }

  lemma ScenarioSorted()
    ensures SortedBalances([
        WalletBalance("ATOM", -5.0, "Osmosis"),
        WalletBalance("ETH", 3.0, "Ethereum"),
        WalletBalance("X", -1.0, "Unknown")]) == [WalletBalance("ATOM", -5.0, "Osmosis")]
  {
    var atom := WalletBalance("ATOM", -5.0, "Osmosis");
    var eth := WalletBalance("ETH", 3.0, "Ethereum");
    var x := WalletBalance("X", -1.0, "Unknown");
    assert !Retained(x) && !Retained(eth) && Retained(atom);
    FilterCons(x, []);
    FilterCons(eth, [x]);
    FilterCons(atom, [eth, x]);
    assert [atom][1..] == [];
    assert SortByPriority([atom]) == Insert(atom, []) == [atom];
  }

  lemma ScenarioFormatted()
    ensures FormatBalances([WalletBalance("ATOM", -5.0, "Osmosis")]) ==
      [FormattedWalletBalance("ATOM", -5.0, "-5", "Osmosis")]
  {
    var atom := WalletBalance("ATOM", -5.0, "Osmosis");
    assert (Abs(-5.0) + 0.5).Floor == 5;
    assert DecimalString(5) == "5";
    assert ToFixed(-5.0) == "-5";
    assert [atom][1..] == [];
  }

  lemma ScenarioRows(prices: map<string, real>)
    requires prices == map["ATOM" := 10.0] || prices == map[]
    ensures Rows([FormattedWalletBalance("ATOM", -5.0, "-5", "Osmosis")], prices) ==
      [Row("ATOM-0", -5.0, if prices == map[] then None else Some(-50.0), "-5")]
  {
    var f := FormattedWalletBalance("ATOM", -5.0, "-5", "Osmosis");
    assert DecimalString(0) == "0";
    assert RowKey("ATOM", 0) == "ATOM-0";
    assert UsdValue(f, prices) == if prices == map[] then None else Some(-50.0);
  }

  /** Zilliqa and Neo share rank 20 and keep their input order around a higher rank. */
  lemma TieScenario()
    ensures var z, o, n := WalletBalance("ZIL", -1.0, "Zilliqa"), WalletBalance("OSMO", 0.0, "Osmosis"),
                           WalletBalance("NEO", -2.0, "Neo");
      && SortedBalances([z, o, n]) == [o, z, n]
      && SortedBalances([n, o, z]) == [o, n, z]
  {
    var z, o, n := WalletBalance("ZIL", -1.0, "Zilliqa"), WalletBalance("OSMO", 0.0, "Osmosis"),
                   WalletBalance("NEO", -2.0, "Neo");
    assert Priority(z) == 20 && Priority(n) == 20 && Priority(o) == 100;
    TieOrder(z, o, n);
    TieOrder(n, o, z);
  }

  /** Two equal-rank retained balances around a higher-ranked one. */
  lemma TieOrder(a: WalletBalance, hi: WalletBalance, b: WalletBalance)
    requires Retained(a) && Retained(hi) && Retained(b)
    requires Priority(a) == Priority(b) < Priority(hi)
    ensures SortedBalances([a, hi, b]) == [hi, a, b]
  {
    var s := [a, hi, b];
    assert s[0] == a && s[1] == hi && s[2] == b;
    FilterKeepsAll(s);
    SortTie(a, hi, b);
  }

  /** A sequence of retained balances passes the filter unchanged. */
  lemma {:induction false} FilterKeepsAll(s: seq<WalletBalance>)
    requires forall i :: 0 <= i < |s| ==> Retained(s[i])
    ensures FilterBalances(s) == s
  {
    if s != [] {
      assert forall i :: 0 <= i < |s| - 1 ==> s[1..][i] == s[i + 1];
      FilterKeepsAll(s[1..]);
      assert s == [s[0]] + s[1..];
    }
  }

  lemma FilterCons(x: WalletBalance, s: seq<WalletBalance>)
    ensures FilterBalances([x] + s) == (if Retained(x) then [x] else []) + FilterBalances(s)
  {
  }

  lemma SortTie(a: WalletBalance, hi: WalletBalance, b: WalletBalance)
    requires Priority(a) == Priority(b) < Priority(hi)
    ensures SortByPriority([a, hi, b]) == [hi, a, b]
  {
    TieUnique(SortByPriority([a, hi, b]), a, hi, b);
  }

  /** The only sorted arrangement of a, hi, b that keeps a before b. */
  lemma TieUnique(r: seq<WalletBalance>, a: WalletBalance, hi: WalletBalance, b: WalletBalance)
    requires Priority(a) == Priority(b) < Priority(hi)
    requires SortedByPriority(r)
    requires forall p :: WithPriority(r, p) == WithPriority([a, hi, b], p)
    ensures r == [hi, a, b]
  {
    var output := [hi, a, b];
    assert SortedByPriority(output) by {
      assert output[0] == hi && output[1] == a && output[2] == b;
    }
    forall p
      ensures WithPriority(output, p) == WithPriority(r, p)
    {
      GroupsOfThree(a, hi, b, p);
      GroupsOfThree(hi, a, b, p);
    }
    StableSortUnique(r, output);
  }

  lemma GroupsOfThree(x: WalletBalance, y: WalletBalance, z: WalletBalance, p: int)
    ensures WithPriority([x, y, z], p)
      == (if Priority(x) == p then [x] else []) + (if Priority(y) == p then [y] else [])
         + (if Priority(z) == p then [z] else [])
  {
    WithPriorityOfCons(z, [], p);
    WithPriorityOfCons(y, [z], p);
    WithPriorityOfCons(x, [y, z], p);
    assert [z] + [] == [z] && [y] + [z] == [y, z] && [x] + [y, z] == [x, y, z];
  }
}
