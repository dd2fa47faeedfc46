# Wallet list, token search and sum-to-n: a Dafny model

This project models the sequential logic of three small exercises.

- **Wallet page** (`Problem3/wallet.ts`, module `Wallet`). The page runs a
  pipeline over the wallet's balances:
  1. `getPriority` ranks each blockchain.
  2. A filter keeps a balance when its chain is recognised and its amount is
     at most 0. The condition looks inverted, but it is modelled exactly as
     written.
  3. A stable sort orders the kept balances by descending rank.
  4. `toFixed()` formatting adds the `formatted` string.
  5. One row is built per formatted balance. Its key is
     `${currency}-${index}` and its USD value is `prices[currency] * amount`.
- **Sum to n** (`Problem1/sumton.js`, module `SumToN`). The sum is computed
  three ways: a loop, the closed form `n * (1 + n) / 2`, and a recursion.
  The project proves where the three agree and where they do not.
- **Swap form** (`Problem2/src/App.tsx`, module `Swap`). The non-numeric
  parts are modelled:
  - `getTokenPrice`, a first-match lookup with the fallback price 1.0;
  - `filteredTokens`, a case-insensitive substring search;
  - the component state that `handleTokenSelect` and the selector, close
    and search handlers change. It is a class `SwapForm` whose fields are
    those state variables.

Supporting modules:
- `Text` holds decimal rendering of naturals, ASCII lower-casing,
  `includes` and the subsequence relation.
- `Wrappers` holds `Option`.

Modelling choices:
- Amounts and prices are Dafny `real`s. These are exact rationals, not
  floating point.
- A missing price gives `None` where JavaScript gives `NaN`.
- `toFixed()` follows section 21.1.3.3 of ECMA-262. The sign is "-"
  exactly when the value is negative, so -0.3 gives "-0". The digits are
  the integer nearest the magnitude, the larger one on a tie.
- `Array.prototype.sort` has been stable since ES2019 (section 23.1.3 of
  ECMA-262). It is modelled by a stable insertion sort driven by the
  source's comparator. `StableSortUnique` shows that every stable sort with
  this comparator gives the same order, so the choice of algorithm does not
  matter.
- The JavaScript numbers of `sumton.js` are modelled as unbounded integers.
  The formula's `/` is real division, so `SumToNFormula` returns a `real`,
  and its result is proved to be an integer.

Two facts about the code that the model keeps:
- Zilliqa and Neo share rank 20 (Problem3/wallet.ts:25-28), so recognised
  ranks are not distinct.
- `toFixed()` rounds ties away from zero (section 21.1.3.3 of ECMA-262).

## Model

| member | source | states |
|---|---|---|
| `SumToN.SumToNRecursive` | Problem1/sumton.js:15-19 | sum_to_n_c is never negative, and for n > 0 twice the result is n(n+1), the closed form of 1+...+n |
| `SumToN.SumToNLoop` | Problem1/sumton.js:1-8 | sum_to_n_a's loop returns exactly what the recursion returns for every integer n. The result is 0 for n <= 0, and for n >= 0 it equals the formula |
| `SumToN.ConsecutiveProductIsEven` | Problem1/sumton.js:12 | n(1+n) is even for every integer n |
| `SumToN.SumToNFormula` | Problem1/sumton.js:10-13 | the real quotient n(1+n)/2 is the exact integer n(1+n) div 2 for every integer n |
| `SumToN.FormulaAgreesFromMinusOne` | Problem1/sumton.js:10-19 | for n >= -1 the formula equals the recursion, and so the loop |
| `SumToN.FormulaBelowZero` | Problem1/sumton.js:10-19 | for n < 0 the formula gives 1+...+(-1-n), while the loop and the recursion give 0 |
| `SumToN.FormulaAgreesIff` | Problem1/sumton.js:1-19 | the formula agrees with the recursion if and only if n >= -1 |
| `SumToN.NegativeExamples` | Problem1/sumton.js:10-19 | n = -3: the formula gives 3 and the recursion gives 0; n = -1: both give 0 |
| `SumToN.TestFixtures` | Problem1/test_sumton.js:5-10 | fixtures 1→1, 5→15, 10→55, 100→5050 for the recursion and the formula |
| `SumToN.LoopFixtures` | Problem1/test_sumton.js:5-10 | the same fixtures for the loop |
| `Wallet.GetPriority` | Problem3/wallet.ts:17-32 | total; a rank above -99 exactly for the five recognised chains; -99 for every other string; never below -99 |
| `Wallet.PriorityTable` | Problem3/wallet.ts:17-32 | Osmosis 100, Ethereum 50, Arbitrum 30, Zilliqa 20, Neo 20, any other string -99 |
| `Wallet.Retained` | Problem3/wallet.ts:41-48 | the filter callback accepts a balance iff its chain is one of the five recognised chains and its amount is <= 0 |
| `Wallet.FilterBalances` | Problem3/wallet.ts:41-48 | a balance is kept iff its chain is recognised and its amount is <= 0. Kept entries keep their multiplicity and the result is an order-preserving subsequence |
| `Wallet.FilterDrops` | Problem3/wallet.ts:41-48 | positive amounts and unrecognised chains are always dropped |
| `Wallet.FilterCons` | Problem3/wallet.ts:41-48 | the filter decides each balance on its own, front to back |
| `Wallet.ComparePriority` | Problem3/wallet.ts:49-58 | the comparator returns -1, 1 or 0 exactly when lhs's rank is greater, smaller or equal |
| `Wallet.ComparatorConsistent` | Problem3/wallet.ts:49-58 | the comparator is antisymmetric in sign, reflexive at 0 and transitive, and depends only on rank |
| `Wallet.Insert` | Problem3/wallet.ts:49-58 | insertion adds exactly one occurrence of the element |
| `Wallet.InsertSorted` | Problem3/wallet.ts:49-58 | insertion into a rank-sorted sequence keeps it sorted |
| `Wallet.InsertStable` | Problem3/wallet.ts:49-58 | the inserted element lands before its equal-rank peers and their order is unchanged |
| `Wallet.WithPriorityMembers` | Problem3/wallet.ts:49-58 | the rank-p subsequence holds exactly the elements of rank p |
| `Wallet.SortByPriority` | Problem3/wallet.ts:49-58 | the sort is a permutation, ranks do not increase along it, and equal-rank elements keep their input order |
| `Wallet.SortedAllPairs` | Problem3/wallet.ts:49-58 | when neighbours are in non-increasing rank, every earlier balance ranks at least as high as every later one |
| `Wallet.HeadOutranks` | Problem3/wallet.ts:49-58 | the head of a rank-sorted sequence ranks at least as high as the head of any sequence with the same rank groups |
| `Wallet.SameHead` | Problem3/wallet.ts:49-58 | two rank-sorted sequences with the same rank groups start with the same balance |
| `Wallet.SameTails` | Problem3/wallet.ts:49-58 | removing a common head leaves the rank groups equal |
| `Wallet.StableSortUnique` | Problem3/wallet.ts:49-58 | two rank-sorted sequences with the same order within every rank are equal, so any stable sort with this comparator gives this result |
| `Wallet.SortedBalances` | Problem3/wallet.ts:40-59 | sortedBalances is a permutation of the filtered balances. It is sorted by descending rank, stable, and holds exactly the recognised-chain balances with amount <= 0 |
| `Wallet.ToFixed` | Problem3/wallet.ts:66 | toFixed(): "-" first exactly for negative amounts, then decimal digits with no leading zero whose value n satisfies abs(x) - 0.5 < n <= abs(x) + 0.5 |
| `Wallet.ToFixedUnique` | Problem3/wallet.ts:66 | exactly one string meets that description, so the contract fixes toFixed()'s output |
| `Wallet.ToFixedExamples` | Problem3/wallet.ts:66 | -5 gives "-5", -0.3 gives "-0", 0 gives "0", -2.5 gives "-3", -12 gives "-12" |
| `Wallet.FormatBalances` | Problem3/wallet.ts:62-69 | same length and order. Currency, amount and chain are unchanged, and formatted is toFixed of the amount |
| `Wallet.AfterLastDashOfSuffix` | Problem3/wallet.ts:78 | the part after the last '-' of prefix + "-" + s is s when s has no '-' |
| `Wallet.FormatBalance` | Problem3/wallet.ts:63-68 | the map callback keeps every field of the balance and adds toFixed() of its amount |
| `Wallet.RowKey` | Problem3/wallet.ts:78 | the key is the currency, then '-', then decimal digits whose value is the index |
| `Wallet.RowKeyIndex` | Problem3/wallet.ts:78 | the suffix of a row key after its last '-' is the decimal index, which reads back as the index |
| `Wallet.UsdValue` | Problem3/wallet.ts:74 | a value exactly when the currency has a price; with price 1 the value is the amount |
| `Wallet.MakeRow` | Problem3/wallet.ts:73-83 | the row callback's key is built from the currency and index, amount and formatted amount are passed through, and usdValue exists iff the currency has a price |
| `Wallet.RowsFrom` | Problem3/wallet.ts:73-84 | the map builds one row per formatted balance, in order, numbered from the start index |
| `Wallet.Rows` | Problem3/wallet.ts:72-85 | one row per formatted balance, in order, carrying its amount, formatted string, usdValue and key with the row index. No row is dropped for a missing price |
| `Wallet.RowKeysIndex` | Problem3/wallet.ts:73-78 | every row's key ends in its own index after the last '-' |
| `Wallet.RowKeysDistinct` | Problem3/wallet.ts:73-78 | row keys are pairwise distinct even when currencies repeat |
| `Wallet.WalletRows` | Problem3/wallet.ts:40-85 | WalletPage renders one row per sorted balance, in order, keyed by currency and position, with the balance's amount |
| `Wallet.WalletRowsSpec` | Problem3/wallet.ts:40-85 | one row per sorted balance with its amount (always <= 0 as the filter is written) and formatted amount ("0" or starting with '-'). usdValue is present iff a price exists |
| `Wallet.ScenarioAtomEthUnknown` | Problem3/wallet.ts:40-85 | ATOM/-5/Osmosis, ETH/3/Ethereum, X/-1/Unknown leave only ATOM. It becomes row "ATOM-0" with value -50 at price 10, or no value without a price |
| `Wallet.TieScenario` | Problem3/wallet.ts:49-58 | Zilliqa and Neo balances (both rank 20) keep their input order behind an Osmosis balance |
| `Wallet.TieOrder` | Problem3/wallet.ts:40-58 | two equal-rank kept balances around a higher-ranked one sort as higher, first, second |
| `Wallet.FilterKeepsAll` | Problem3/wallet.ts:41-48 | a sequence whose every balance is on a recognised chain with amount at most zero passes the filter unchanged |
| `Wallet.TieUnique` | Problem3/wallet.ts:49-58 | the only rank-sorted arrangement of a higher balance and an equal-rank pair that keeps the pair's order puts the higher one first |
| `Wallet.GroupsOfThree` | Problem3/wallet.ts:49-58 | the rank-p subsequence of three balances keeps exactly those of rank p, in order |
| `Wallet.SortTie` | Problem3/wallet.ts:49-58 | the sort moves the higher rank first and keeps the equal pair in order |
| `Text.DecimalString` | Problem3/wallet.ts:78 | the decimal rendering of the index is non-empty digits without '-', with no leading zero except for 0 |
| `Text.DecimalRoundTrip` | Problem3/wallet.ts:78 | reading a rendered natural back gives the natural |
| `Text.DecimalStringInjective` | Problem3/wallet.ts:78 | distinct indices render differently |
| `Text.CanonicalDigits` | Problem3/wallet.ts:66 | decimal digits without a leading zero are the rendering of their own value |
| `Text.ToLower` | Problem2/src/App.tsx:248-250 | toLowerCase keeps the length and lowers every ASCII letter, character by character |
| `Text.ToLowerIdempotent` | Problem2/src/App.tsx:248-250 | lower-casing twice is lower-casing once |
| `Text.ToLowerEqualIffEqualIgnoringCase` | Problem2/src/App.tsx:248-250 | two strings lower-case alike iff they differ only in ASCII letter case |
| `Text.Includes` | Problem2/src/App.tsx:248-250 | `includes`: the empty needle is in every string, and a needle longer than the string is in none |
| `Text.IncludesIffOccurs` | Problem2/src/App.tsx:248-250 | includes holds iff the needle occurs at some position of the string |
| `Text.SubsequenceOfSelf` | Problem2/src/App.tsx:252 | the unfiltered list is a subsequence of itself |
| `Swap.SymbolMapIsIdentity` | Problem2/src/App.tsx:51-66 | symbolMap has exactly the thirteen listed keys, each mapped to itself |
| `Swap.MappedSymbol` | Problem2/src/App.tsx:51-69 | the lookup `symbolMap[symbol]` with its fallback to `symbol` always gives the symbol itself |
| `Swap.FindPriceIndex` | Problem2/src/App.tsx:70 | find yields the earliest entry with the currency, or none iff no entry has it |
| `Swap.GetTokenPrice` | Problem2/src/App.tsx:49-78 | never null: the first matching entry's price, or 1.0 when nothing matches |
| `Swap.EarliestEntryWins` | Problem2/src/App.tsx:70 | once the symbol has an entry, entries appended after it never change the price |
| `Swap.TokenListShape` | Problem2/src/App.tsx:234-242 | the modal offers seven tokens with pairwise distinct symbols |
| `Swap.TokenListPriced` | Problem2/src/App.tsx:51-66 | every offered token's symbol has its own symbolMap entry, so its price is looked up under its own symbol |
| `Swap.MatchesQuery` | Problem2/src/App.tsx:247-251 | the filter callback holds iff the lower-cased query occurs at some position of the lower-cased symbol, name or address. The empty query always matches |
| `Swap.FilterByQuery` | Problem2/src/App.tsx:247-251 | a token is kept iff the lower-cased query occurs in its lower-cased symbol, name or address. Kept tokens keep their multiplicity and the result is an order-preserving subsequence |
| `Swap.EmptyQueryKeepsAll` | Problem2/src/App.tsx:246-252 | the filter alone would also keep every token for the empty query |
| `Swap.FilteredTokens` | Problem2/src/App.tsx:246-252 | the empty query gives the list itself. Otherwise it gives exactly the matching tokens, with their multiplicity, as an order-preserving subsequence |
| `Swap.FilterIgnoresCase` | Problem2/src/App.tsx:246-252 | queries differing only in ASCII letter case give the same list |
| `Swap.FilterByQueryIgnoresCase` | Problem2/src/App.tsx:247-251 | the filter depends on the query only through its lower-cased form |
| `Swap.SwapForm.constructor` | Problem2/src/App.tsx:17-32 | initial state: SOL to sell, USDC to buy, both modals hidden, empty query, sell panel active |
| `Swap.SwapForm.VisibleTokens` | Problem2/src/App.tsx:234-252 | the open modal lists the token list itself for an empty query, otherwise the matching tokens |
| `Swap.SwapForm.OpenSellSelector` | Problem2/src/App.tsx:275-278 | the sell panel becomes active and its modal is shown; tokens, the other modal and the query are unchanged |
| `Swap.SwapForm.OpenBuySelector` | Problem2/src/App.tsx:315-318 | the buy panel becomes active and its modal is shown; tokens, the other modal and the query are unchanged |
| `Swap.SwapForm.CloseSellModal` | Problem2/src/App.tsx:341 | the sell modal is hidden and nothing else changes |
| `Swap.SwapForm.CloseBuyModal` | Problem2/src/App.tsx:390 | the buy modal is hidden and nothing else changes |
| `Swap.SwapForm.SetSearchQuery` | Problem2/src/App.tsx:356 | the search query becomes the typed text and nothing else changes |
| `Swap.SwapForm.HandleTokenSelect` | Problem2/src/App.tsx:137-170 | sell panel: only sellToken is replaced and the sell modal is hidden. Buy panel: the same for the buy side. The panel is unchanged, the query is cleared, and the next modal lists every token |
| `Swap.SelectSellToken` | Problem2/src/App.tsx:137-170 | opening the sell selector and picking a token changes only the sell side and clears the query |

## Left out

- Floating point. Amounts and prices are exact rationals, so binary
  rounding of doubles is not modelled, and neither are NaN/Infinity
  propagation or `toFixed`'s exponential output for magnitudes of 10^21
  and more. A missing price is an explicit `None`.
- React machinery. `useState`, `useMemo` and their dependency arrays are
  not modelled. `useWalletBalances` and `usePrices` are not part of this
  model: their results are the parameters `balances` and `prices`. The
  `fetch('/prices.json')` effect at Problem2/src/App.tsx:35-46 is I/O, so
  the price list is a parameter too.
- Rendering. This covers `WalletRow` and its props other than key, amount,
  usdValue and formattedAmount, `classes.row`, the `children`/`rest` props,
  `renderTokenLogo`, all JSX, and the components `SwapConfirmationDialog`,
  `TokenSelectionDialog`, `TokenField` and `Navbar`.
- Swap arithmetic. This covers `handleSellAmountChange`,
  `handleBuyAmountChange`, `isSwapDisabled`, `getExchangeRate` and
  `calculateTokenAmount` in Problem2/src/lib/utils.ts. They depend on
  `parseFloat`, IEEE division and `toFixed(6)`/`toFixed(4)`.
- `cn` in utils.ts is a wrapper over external styling libraries, so it is
  not modelled.
- Swap.SwapForm.HandleTokenSelect: does not model the recomputation of the
  other panel's amount (Problem2/src/App.tsx:143-151 and 158-166), because
  that is floating-point swap arithmetic. `sellAmount` and `buyAmount` are
  therefore not fields of `SwapForm`, and the method promises nothing
  about them.
- Swap.GetTokenPrice: the `console.warn` on a missing price is output only
  and is not modelled.
- Swap.MappedSymbol: `symbolMap` is a finite map. Keys inherited from
  JavaScript's object prototype (such as `constructor`) are not modelled.
- Text.ToLower: lower-cases ASCII letters only, not the full Unicode case
  mapping of `toLowerCase`.
- SumToN: non-integer inputs are not modelled, and neither is the loss
  of precision of doubles beyond 2^53. Inputs are integers and arithmetic
  is exact. The JavaScript call-stack limit is not modelled either:
  sum_to_n_c throws a RangeError for n in the tens of thousands, where the
  model still returns n(n+1)/2. The console output of
  Problem1/test_sumton.js is not modelled; only its fixtures are.
