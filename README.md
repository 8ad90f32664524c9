# FatHacks settlement engine, modelled in Dafny

FatHacks is a single-page app for splitting shared expenses among friends. A session
holds a roster of friends and a list of expenses. Each expense has an amount, a payer
and a split: a percentage per friend. From these the app computes who should pay whom.

This project models the core of `src/App.tsx`:

- the `Friend`, `Expense` and `Settlement` records (`types.dfy`, module `Types`).
- the three session handlers (`handlers.dfy`, module `Handlers`).
  - Adding a friend trims the name and appends it.
  - Removing a friend cascades to the expenses that friend paid.
  - Adding an expense checks the form and the 100% total.

  Each handler is a pure function from the old lists to the new ones.
- `calculateSettlements`. It computes the balance dictionary (`ledger.dfy`, module
  `Ledger`). It filters and sorts the debtors and creditors (`ordering.dfy`, module
  `Ordering`). It then runs the greedy matching loop (`pairing.dfy`, module
  `Pairing`). The whole procedure is the method `Engine.CalculateSettlements`
  (`engine.dfy`).
- the worked two- and three-friend scenarios, end to end (`scenarios.dfy`, module
  `Scenarios`).

Modelling decisions:

- **Money.** Money is an exact `real`, so `-debtorBalance === amount` is exact equality.
- **Rounding.** `Math.round(x * 100) / 100` is `floor(x * 100 + 1/2) / 100`.
- **The balance dictionary.** The JavaScript object keyed by friend id is a sequence of
  `Entry(id, bal)` in ascending id order. `Object.entries` lists array-index keys in
  that order. `Date.now()` ids are too large to be array indices, so the app lists them
  in insertion order; "## Left out" says when the two orders agree.
- **Unknown ids.** `balances[id] += x` on an id that is not on the roster gives `NaN`
  in the app, and both filters drop `NaN`. Here the update is skipped instead. The
  debtor and creditor lists come out the same either way.
- **`Array.prototype.sort`.** It is stable, so it is modelled as a stable insertion
  sort. Ties keep dictionary order, which is ascending id.
- **Pure functions and loops.** Each handler and each stage is a pure function. The
  code that loops is also a `method` with loop invariants, proved equal to the
  function:
  - `Ledger.SeedBalances`, `Ledger.ChargeExpense` and `Ledger.ComputeBalances`
    (the two `forEach` passes);
  - `Pairing.Transfer` and `Pairing.SettleGreedy` (the `while` loop);
  - `Engine.CalculateSettlements`.
- **The greedy loop, as written.** At lines 118-119 the loop adds `amount` to
  whatever entry is at the front of each list after the `shift()`. When a party was
  shifted out, that entry belongs to somebody who took no part in the transfer. The
  app's settlements (`Engine.Settlements`) keep this behaviour exactly.
- **The evidently intended loop.** It is modelled as well:
  - `Pairing.GreedyCorrected` and `Engine.SettlementsCorrected`;
  - its conservation property is proved (see Findings).

## Model

| member | source | states |
|---|---|---|
| `Lists.Filter` | src/App.tsx:45-46 | `Array.prototype.filter`: each element is kept exactly as often as in the input when the test holds and never otherwise, and the result is a subsequence of the input |
| `Lists.FilterIdempotent` | src/App.tsx:45-46 | filtering twice with the same test equals filtering once |
| `Lists.FilterKeepsAll` | src/App.tsx:45-46 | a filter whose test holds of every element returns its input unchanged |
| `Lists.FilterDisjoint` | src/App.tsx:96-101 | two filters whose tests never both hold keep at most as many elements together as the input has |
| `Handlers.TextStartBlank` | src/App.tsx:38-39 | `trim()` strips only white space from the front: everything before the first kept character is white space, and that character is not |
| `Handlers.TextEndBlank` | src/App.tsx:38-39 | `trim()` strips only white space from the back: everything after the last kept character is white space, and that character is not |
| `Handlers.Trim` | src/App.tsx:38-39 | the trimmed name is empty exactly when the input is all white space, and otherwise neither starts nor ends with white space |
| `Handlers.TrimIsInfix` | src/App.tsx:38-39 | the trimmed name is a contiguous piece of the input with only white space before and after it |
| `Handlers.AddFriend` | src/App.tsx:36-42 | a blank name leaves the roster unchanged; otherwise the friend with the trimmed name and the new id is appended, and that name is non-empty and starts with a non-space |
| `Handlers.AddFriendKeepsIdsDistinct` | src/App.tsx:39 | when the new id is fresh, adding a friend keeps roster ids pairwise distinct |
| `Handlers.RemoveFriend` | src/App.tsx:44-47 | a friend survives exactly when their id differs from the removed one, and an expense survives exactly when someone else paid it; each survivor keeps every copy it had and the lists keep their order, and the id leaves the roster |
| `Handlers.RemoveFriendIdempotent` | src/App.tsx:44-47 | removing the same friend twice is the same as removing them once |
| `Handlers.RemoveAbsentFriend` | src/App.tsx:44-47 | removing an id that is not on the roster and paid for nothing changes nothing |
| `Handlers.PutShare` | src/App.tsx:55-57 | `acc[id] = pct` appends a share for a new key; in every case the keys become the old keys plus `id`, and `id` now maps to `pct` |
| `Handlers.PutShareFrame` | src/App.tsx:55-57 | writing a key that is already there keeps the number of shares, and every other friend's share stays where it was |
| `Handlers.PutShareInPlace` | src/App.tsx:55-57 | with distinct keys, `acc[id] = pct` replaces the share of `id` in its place and leaves every other share unchanged, or appends one share for a new key |
| `Handlers.PutShareDistinct` | src/App.tsx:55-57 | writing a key into a split object keeps its keys distinct |
| `Handlers.ParseSplits` | src/App.tsx:55-58 | the parsed split has one entry per distinct form id, and its ids are exactly the form's ids |
| `Handlers.ParseDistinctSplits` | src/App.tsx:56 | with distinct form ids the parsed split is the form list in order, and a non-numeric percentage counts as 0 |
| `Handlers.AddExpense` | src/App.tsx:49-80 | nothing is added unless amount, description and payer are all truthy; a complete form is appended with the new id exactly when its percentages total 100 within 0.01; otherwise the expense list is unchanged; the roster never changes |
| `Handlers.TransitionsKeepRecorded` | src/App.tsx:44-80 | adding an expense and removing a friend keep every stored expense complete, with distinct split ids and a total within 0.01 of 100 |
| `Ledger.Put` | src/App.tsx:85 | `balances[id] = 0` keeps keys ascending; the keys become the old keys plus `id`, and no entry appears except the new one |
| `Ledger.PutAt` | src/App.tsx:85 | after `balances[id] = v`, key `id` reads `v` and every other key reads what it read before |
| `Ledger.Adjust` | src/App.tsx:89-91 | `balances[id] += d` keeps the set and order of keys |
| `Ledger.AdjustAt` | src/App.tsx:89-91 | after `balances[id] += d`, key `id` has grown by `d` if it was present, and every other key is unchanged |
| `Ledger.AdjustSum` | src/App.tsx:89-91 | `balances[id] += d` raises the sum of all balances by `d` when `id` is a key, and by nothing otherwise |
| `Ledger.ApplySplits` | src/App.tsx:90-92 | charging a split keeps the keys |
| `Ledger.ApplySplitsAt` | src/App.tsx:90-92 | charging a split lowers each present key by the amount times that key's total percentage over 100 |
| `Ledger.ApplyExpense` | src/App.tsx:89-92 | applying one expense keeps the keys |
| `Ledger.ApplyExpenseAt` | src/App.tsx:89-92 | after one expense, a present key has gained what it paid and lost what it was charged |
| `Ledger.ApplyExpenses` | src/App.tsx:88-93 | applying the expense list keeps the keys |
| `Ledger.ApplyExpensesAt` | src/App.tsx:88-93 | after all expenses, a present key has gained its total paid less its total charged |
| `Ledger.SeedFrom` | src/App.tsx:84-86 | zeroing the roster keeps keys ascending, adds exactly the roster ids, and leaves an all-zero dictionary all zero |
| `Ledger.Balances` | src/App.tsx:83-93 | the dictionary's keys are ascending and are exactly the roster ids, so there are at most as many as friends |
| `Ledger.BalancesAt` | src/App.tsx:83-93 | an id is a key exactly when it is on the roster, and a roster friend's balance is what they paid less what they were charged |
| `Ledger.SeedBalances` | src/App.tsx:84-86 | the `forEach` loop over the roster builds the zeroed dictionary |
| `Ledger.ChargeExpense` | src/App.tsx:89-92 | the body of the expense `forEach`, with its inner loop over the split, applies one expense |
| `Ledger.ComputeBalances` | src/App.tsx:83-93 | the two loops compute the dictionary: keys ascending and exactly the roster ids |
| `Ledger.BalanceOfMember` | src/App.tsx:83-93 | in an ascending dictionary, reading an entry's key yields that entry's balance |
| `Ledger.ChargeAdds` | src/App.tsx:91 | charges for two percentages add up to the charge for their sum |
| `Ledger.ZeroEntries` | src/App.tsx:84-86 | an all-zero dictionary reads 0 at every key and sums to 0 |
| `Ledger.ApplySplitsSum` | src/App.tsx:90-92 | when every split id is a key, a split lowers the sum of balances by the amount times the split's total percentage over 100 |
| `Ledger.ApplyExpensesSum` | src/App.tsx:88-93 | when every payer and split id is a key, the expenses raise the sum of balances by the part of each amount its split leaves uncharged |
| `Ledger.SumOfBalances` | src/App.tsx:83-93 | with every payer and split id on the roster, the balances sum to the uncharged remainder of all expenses |
| `Ledger.FullSplitsAllocateAll` | src/App.tsx:62 | when every split totals exactly 100, nothing is left uncharged |
| `Ledger.ZeroSum` | src/App.tsx:83-93 | with every id on the roster and every split totalling 100, the balances sum to zero |
| `Ordering.Insert` | src/App.tsx:98 | one insertion step of the stable sort: the result is the input plus the entry, as a multiset |
| `Ordering.InsertSorted` | src/App.tsx:98 | insertion keeps a list sorted by the comparator |
| `Ordering.SortByRank` | src/App.tsx:98 | `sort` returns a permutation of its input, sorted by the comparator |
| `Ordering.Debtors` | src/App.tsx:96-98 | exactly the entries with a negative balance, each as often as in the dictionary, most negative first |
| `Ordering.Creditors` | src/App.tsx:99-101 | exactly the entries with a positive balance, each as often as in the dictionary, largest first |
| `Ordering.InsertOrdered` | src/App.tsx:98 | inserting an entry whose id is below every id in an ordered list keeps it ordered by rank, then by id |
| `Ordering.SortOrdered` | src/App.tsx:98 | the stable sort of an id-ascending list is ordered by rank, ties by ascending id |
| `Ordering.SubseqAscending` | src/App.tsx:96-101 | a filtered dictionary keeps its keys ascending |
| `Ordering.TiesByAscendingId` | src/App.tsx:96-101 | debtors are ordered by balance ascending and creditors by balance descending, with equal balances in ascending id order |
| `Pairing.Round2` | src/App.tsx:112 | `Math.round(x * 100) / 100` is within half a cent of `x`, and non-negative for positive `x` |
| `Pairing.MoveFront` | src/App.tsx:118-119 | `list[0][1] += delta` changes the front balance by `delta` and nothing else |
| `Pairing.MoveFrontIds` | src/App.tsx:118-119 | moving a front balance keeps the keys |
| `Pairing.Step` | src/App.tsx:104-119 | one pass removes at most one entry from each list and at least one entry overall |
| `Pairing.StepIds` | src/App.tsx:104-119 | one pass names the two front parties, and each list keeps its keys in order, less its front key when that party was shifted out |
| `Pairing.Greedy` | src/App.tsx:103-120 | the loop emits nothing when either list starts empty; otherwise it emits at least one transfer and at most one fewer than the two lengths together |
| `Pairing.GreedyParties` | src/App.tsx:110-111 | every transfer goes from a listed debtor to a listed creditor |
| `Pairing.PartialDebtorStays` | src/App.tsx:107-119 | a front debtor owing more than the front creditor is owed pays that credit and stays in front, owing the rest |
| `Pairing.PartialCreditorStays` | src/App.tsx:107-119 | a front creditor owed more than the front debtor owes is paid that debt and stays in front, owed the rest |
| `Pairing.SinglePair` | src/App.tsx:103-120 | one debtor and one creditor give a single transfer of the smaller magnitude, rounded |
| `Pairing.AsWrittenMisdirectsAdjustment` | src/App.tsx:115-119 | debtors -30 and -20 against a creditor of 50 give transfers of 30 and -10, which total 20 although 50 is owed |
| `Pairing.Transfer` | src/App.tsx:104-119 | the loop body, written as the source writes it, computes one pass |
| `Pairing.SettleGreedy` | src/App.tsx:103-120 | the `while` loop emits exactly the greedy sequence |
| `Pairing.StepCorrected` | src/App.tsx:115-119 | the intended pass names the two front parties and removes at least one entry |
| `Pairing.GreedyCorrected` | src/App.tsx:103-120 | the intended loop emits nothing when either list starts empty |
| `Pairing.DebtsNonNegative` | src/App.tsx:97 | debtors, all negative, owe a non-negative total |
| `Pairing.CreditsNonNegative` | src/App.tsx:100 | creditors, all positive, are owed a non-negative total |
| `Pairing.CorrectedStepShrinks` | src/App.tsx:107-119 | one intended pass takes the transferred amount off both the total debt and the total credit, and leaves every debtor negative and every creditor positive |
| `Pairing.CorrectedConserves` | src/App.tsx:103-120 | the intended transfers add up to the smaller of total debt and total credit, within half a cent per transfer, and none is negative |
| `Pairing.CorrectedSettlesExample` | src/App.tsx:103-120 | on the same input the intended loop emits transfers of 30 and 20 |
| `Engine.CalculateSettlements` | src/App.tsx:82-123 | returns the greedy settlements of the computed balances; every transfer is between two different roster friends; a non-empty result has fewer transfers than there are friends |
| `Engine.SettlementParties` | src/App.tsx:96-120 | every payer has a negative balance and every payee a positive one, both on the roster |
| `Engine.SettlementCount` | src/App.tsx:103-120 | a non-empty result has fewer transfers than there are friends |
| `Engine.AllSettledNoTransfers` | src/App.tsx:82-123 | when every friend paid exactly what they were charged, no transfer is emitted |
| `Engine.RemovedFriendSettlesNothing` | src/App.tsx:44-47 | after a friend is removed, no transfer names them |
| `Engine.SumInsert` | src/App.tsx:98 | inserting an entry adds its balance to the sum |
| `Engine.SumSorted` | src/App.tsx:98 | sorting keeps the sum of balances |
| `Engine.SumBySign` | src/App.tsx:96-101 | the sum of all balances is the sum of the positive entries plus the sum of the negative ones |
| `Engine.DebtsCreditsSum` | src/App.tsx:96-101 | a list's total debt is minus its sum and its total credit is its sum |
| `Engine.SidesBalance` | src/App.tsx:96-101 | the creditors' total less the debtors' total is the sum of all balances |
| `Engine.CorrectedSettlesEverything` | src/App.tsx:82-123 | for a consistent session with every split totalling 100, debts equal credits, and the intended transfers add up to that total within half a cent each, none negative |
| `Scenarios.TwoBalances` | src/App.tsx:83-93 | A pays 100 split 50/50 with B: balances +50 for A and -50 for B |
| `Scenarios.TwoSides` | src/App.tsx:96-101 | with balances +50 and -50, B is the only debtor and A the only creditor |
| `Scenarios.TwoParty` | src/App.tsx:82-123 | the same session settles as one transfer of 50 from B to A |
| `Scenarios.TrioBalances` | src/App.tsx:83-93 | groceries of 90 paid by A split 33.33/33.33/33.34, then a taxi of 60 paid by B split 50/0/50: balances +30.003, +30.003 and -60.006 |
| `Scenarios.TrioSides` | src/App.tsx:96-101 | C is the only debtor; A and B are the creditors, tied, in id order |
| `Scenarios.TrioGreedy` | src/App.tsx:103-120 | the loop as written emits C to A 30.00, then C to B 0.00 |
| `Scenarios.ThreeParty` | src/App.tsx:82-123 | end to end, B is owed 30.003 but is paid nothing |
| `Scenarios.TrioGreedyCorrected` | src/App.tsx:103-120 | the intended loop emits C to A 30.00 and C to B 30.00 |
| `Scenarios.TrioSettled` | src/App.tsx:103-120 | balances +30.003, +30.003 and -60.006 less what each pays out net under C to A 30.00 and C to B 30.00 are all within a cent of zero |
| `Scenarios.ThreePartyCorrected` | src/App.tsx:82-123 | end to end, the intended loop pays both A and B, and every friend's balance plus what they pay out net is within a cent of zero |

## Left out

- The React component is not modelled: JSX, `useState` and its setters, form state, tabs and styles.
- `Date.now()` ids are parameters of `AddFriend` and `AddExpense`. The app relies on the
  clock for uniqueness, which is not guaranteed. `Handlers.AddFriendKeepsIdsDistinct`
  therefore assumes a fresh id.
- `parseFloat` and `parseInt` are not modelled. The form fields arrive already parsed,
  with `None` for `NaN`. String-to-number conversion is outside the model.
- `alert` is not modelled. The refused submission is the outcome `SplitRejected`.
- IEEE-754 doubles are not modelled. Amounts, percentages and balances are exact
  reals, so floating-point drift in the sums is not captured. Nor are `NaN`/`Infinity`,
  beyond an unknown id's update being dropped.
- Key order of the balance dictionary is ascending id. JavaScript lists integer keys
  below 2^32 - 1 in ascending order, and other keys in insertion order.
  `Date.now()` ids are above that bound, so the app actually enumerates them in
  insertion order. For a roster built by `AddFriend` with a non-decreasing clock, that
  is the same order.
- The split's entry order is the form's `[id, value]` order as given. Only its sum and
  its per-id percentages enter the balances.
- Display lookups of friend names for the settlement list are not modelled.
- `Pairing.Round2`: its contract states the half-cent bound and the sign, not the
  exact value. The exact value is the function's definition.
- `Pairing.GreedyCorrected`: its own contract states only the empty case. Its
  transfer total is stated by `Pairing.CorrectedConserves`, and its parties by
  `Pairing.StepCorrected`.

## Findings

| source | as written | input that shows it | evidently intended | confidence | as-written member | corrected member |
|---|---|---|---|---|---|---|
| src/App.tsx:115-119 | after a debtor or creditor who is paid off is shifted out, `amount` is still added to the new front entry, a party who took no part in the transfer | debtors -30 and -20, creditor +50: transfers 30 and -10, total 20 of the 50 owed | the amount is taken off the two parties of the transfer only, and the transfers add up to what is owed | not executed | `Pairing.AsWrittenMisdirectsAdjustment` | `Pairing.CorrectedConserves` |
| src/App.tsx:115-119 | the same misdirected adjustment reduces the next creditor's credit by what the previous creditor was paid | A pays 90 split 33.33/33.33/33.34, B pays 60 split 50/0/50: C pays A 30.00 and B 0.00, though B is owed 30.003 | C pays A 30.00 and B 30.00, leaving every balance within a cent of zero | not executed | `Scenarios.ThreeParty` | `Scenarios.ThreePartyCorrected` |
