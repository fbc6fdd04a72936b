# Wallet: a Dafny model of the transaction bookkeeping

The wallet is a single-page income/expense tracker. Its `App` component keeps
a list of transactions (type income or expense, date, description, amount),
persists the whole list under the `localStorage` key `transactions`, reloads
it on mount and whenever the backup component signals `storage-imported`,
filters it by type and case-insensitive keyword for display, computes the
income, expense and balance totals over the full list, and lets the user add
an entry through a form. Each displayed row has a delete button that removes
the entry at that row number of the FULL list, which is not always the entry
shown in that row (see "## Findings").

This project models that component state and proves what its operations do:

- `text.dfy` (module `Text`): ASCII `toLowerCase` and `String.prototype.includes`,
  with `includes` characterised as "some window equals the needle".
- `lists.dfy` (module `Lists`): `Array.prototype.filter` with an element
  callback (`Filter`), the positions it keeps (`FilterIndices`), and removal
  by position (`RemoveAt`, the `(_, i) => i !== index` filter).
- `ledger.dfy` (module `Ledger`): the transaction record, the search
  predicate and `Search`, the totals (`TotalIncome`, `TotalExpense`,
  `Overview`) against an independent reference sum `KindSum`, the
  displayed-row deletion finding, and worked scenarios.
- `storage.dfy` (module `Storage`): `localStorage` as a class holding a map
  from keys to stored values, and the loader's reading of a slot.
- `app.dfy` (module `Wallet`): the component as a class `App` whose fields
  are the component's state variables (`transactions`, `filterType`,
  `searchKeyword`, `filteredTransactions`, and the form fields `kind`,
  `date`, `description`, `amount`) and whose methods are the handlers and
  effects. Each method that changes `transactions` ends by running the
  persist-and-search effect, as the effect on `[transactions]` does after
  every such change.

Modelling choices:

- The field `type` is called `kind` (`type` is a Dafny keyword).
- Amounts are integers (cents). The form's amount state holds whatever
  number text was typed, negative values and values with more than two
  decimals included; `min: '0'` and `step: '0.01'` only stop such a form from
  being submitted. `AmountInput` is `Blank` or a non-negative number of
  cents: it omits the values that can never be submitted.
- A stored value is either the empty text (falsy, so the loader skips it) or
  the JSON text of a transaction list, abstracted to that list; a missing key
  reads as `None`, the counterpart of `null`.
- Changing the type selector or the search box does not recompute
  `filteredTransactions`; only the search form's submit and the effect after a
  list change do. `App.Valid()` therefore ties `filteredTransactions` to the
  criteria of the LAST search (ghost fields `searchedType`,
  `searchedKeyword`), not to the current ones.
- The date, description and amount inputs are `required`, so the browser runs
  the submit handler only when all three are filled; `HandleSubmit` reports
  whether that was the case and changes nothing otherwise.
- The current date (`getTodayDate`) is a parameter `today`.
- The loader with a missing or empty slot leaves the list in memory as it
  is (it does not clear it); the model follows index.js:35 here.

## Model

| member | source | states |
|---|---|---|
| `Text.Lower` | index.js:54 | lowercasing keeps the length of the string |
| `Text.LowerChar` | index.js:54 | an upper-case ASCII letter becomes its lower-case partner, any other character is kept, and the result is never upper-case |
| `Text.LowerPointwise` | index.js:54 | lowercasing maps each character on its own and leaves no upper-case ASCII letter |
| `Text.LowerOf` | index.js:54 | a string that agrees character by character with the lowercased characters of `s` is `Lower(s)` |
| `Text.LowerIdempotent` | index.js:54 | lowercasing a lowercased string changes nothing |
| `Text.Contains` | index.js:54 | `includes` accepts the empty needle, every prefix and every suffix of the haystack |
| `Text.ContainsIff` | index.js:54 | `includes` holds exactly when the needle occurs at some position of the haystack |
| `Lists.Filter` | index.js:52-56 | filtering never lengthens a list |
| `Lists.FilterIndices` | index.js:150 | there is one kept position per kept element, each inside the list |
| `Lists.FilterSelectsKept` | index.js:52-56 | `filter` returns the elements at exactly the positions whose element satisfies the callback, in increasing order of position |
| `Lists.FilterSoundComplete` | index.js:52-56 | an element is in the filtered list if and only if it is in the list and satisfies the callback |
| `Lists.FilterKeepsAll` | index.js:52-56 | when every element satisfies the callback, the filtered list is the list itself |
| `Lists.FilterConcat` | index.js:41 | filtering a concatenation is the concatenation of the filtered parts |
| `Lists.FilterSnoc` | index.js:41 | filtering a list extended by one element extends the filtered list by that element exactly when it satisfies the callback |
| `Lists.FilterSingle` | index.js:52-56 | a one-element list is kept exactly when its element satisfies the callback |
| `Lists.FilterIdempotent` | index.js:52-56 | filtering a filtered list with the same callback changes nothing |
| `Lists.FilterPrefix` | index.js:150 | the elements kept before the position of the `row`-th kept element are the first `row` kept elements |
| `Lists.FilterIndicesKept` | index.js:52-56 | the element at every kept position satisfies the callback |
| `Lists.FilterSplitAtKept` | index.js:150 | the filtered list is the elements kept before the `row`-th kept position, that element, and the elements kept after it |
| `Lists.FilterAfterRemovingKept` | index.js:44-47 | removing the full-list position of the `row`-th kept element removes exactly that element, and the filtered list loses exactly its `row`-th entry |
| `Lists.RemoveAt` | index.js:45 | removal at an index inside the list shortens it by one; any other integer leaves the length unchanged |
| `Lists.RemoveAtSpec` | index.js:44-47 | removal at a valid index is the list without that element, the rest in order; an out-of-range or negative index returns the list unchanged |
| `Lists.RemoveAtMultiset` | index.js:45 | removal at a valid index takes out exactly one copy of that element and nothing else |
| `Ledger.Matches` | index.js:53-55 | an entry matches exactly when its type fits the filter and its lowercased description includes the lowercased keyword; the empty-keyword shortcut agrees with `includes` of the empty string |
| `Ledger.Search` | index.js:52-56 | the search result is no longer than the list, and each entry in it is an entry of the list that matches |
| `Ledger.SearchSelectsMatching` | index.js:49-59 | the search result is the matching entries, at strictly increasing positions of the full list: sound, complete and order-preserving |
| `Ledger.SearchSoundComplete` | index.js:52-56 | an entry is shown if and only if it is in the list and matches the type and the keyword |
| `Ledger.SearchAllIsIdentity` | index.js:53-54 | type 'all' with an empty keyword shows the whole list |
| `Ledger.SearchIdempotent` | index.js:49-59 | searching the search result again with the same criteria changes nothing |
| `Ledger.SearchAfterAppend` | index.js:28-31 | after an append, the refreshed search result gains the new entry at its end exactly when it matches |
| `Ledger.SumAmounts` | index.js:61-62 | the `reduce` sum of all amounts equals the income reference sum plus the expense reference sum |
| `Ledger.TotalIncome` | index.js:61 | total income, computed by filter-then-reduce, equals the reference sum of the income amounts of the full list |
| `Ledger.TotalExpense` | index.js:62 | total expense, computed by filter-then-reduce, equals the reference sum of the expense amounts of the full list |
| `Ledger.KindSumConcat` | index.js:61-62 | the per-type total of a concatenation is the sum of the totals of the parts |
| `Ledger.FilterSumIsKindSum` | index.js:61-62 | filter-then-reduce gives the same total as the reference sum of the amounts of one type |
| `Ledger.TotalsPartition` | index.js:61-63 | total income plus total expense is the sum of every amount in the list |
| `Ledger.KindSumNonNegative` | index.js:61-62 | with non-negative amounts, each total is non-negative |
| `Ledger.TotalsAfterAppend` | index.js:40-42 | appending an entry adds its amount to the total of its own type and leaves the other total unchanged |
| `Ledger.KindSumAfterRemove` | index.js:44-47 | removing at a valid index takes that entry's amount out of the total of its type only |
| `Ledger.TotalsAfterRemove` | index.js:44-47 | deletion at a valid index subtracts that entry's amount from its type's total; an out-of-range index changes no total |
| `Ledger.Overview` | index.js:61-63 | the overview figures are the per-type reference sums over the full list, the balance is income minus expense, and income plus expense is the sum of all amounts |
| `Ledger.DisplayedRowDeleteRemovesOtherEntry` | index.js:163 | for any income entry followed by any expense entry, the expense filter shows only the expense entry as row 0, yet removing index 0 from the full list removes the income entry |
| `Ledger.RemoveDisplayedRow` | index.js:150 | the corrected deletion of a displayed row shortens the list by one and takes out exactly one copy of the entry shown in that row |
| `Ledger.RemoveDisplayedRowRemovesShownEntry` | index.js:150-163 | mapping a displayed row back to its full-list position removes exactly the entry shown in that row, and the displayed list loses exactly that row |
| `Ledger.ScenarioSingleIncome` | index.js:61-63 | one income of 1000.00 gives income 1000.00, expense 0 and balance 1000.00 |
| `Ledger.ScenarioExpenseFilter` | index.js:49-63 | an expense filter shows only the expense entry while the totals stay those of the full list |
| `Ledger.ScenarioRemoveMiddle` | index.js:45 | removing index 1 of three entries keeps the first and the third, in order |
| `Ledger.ScenarioKeyword` | index.js:54 | the keyword "rent" matches "Rent - Jan" and "RENT deposit" but not "Groceries", case-insensitively |
| `Storage.LocalStorage.SetItem` | index.js:29 | writing a key stores the value under that key and leaves every other key unchanged |
| `Storage.LocalStorage.GetItem` | index.js:34 | reading a key gives nothing (`null`) exactly when the key is absent, and otherwise the stored value |
| `Storage.Loaded` | index.js:33-38 | the loader installs the stored list when the slot holds one and otherwise keeps the list in memory |
| `Storage.PersistLoadRoundTrip` | index.js:28-38 | loading after persisting a list yields that list, whatever was in memory and whatever else the store holds |
| `Storage.LoadKeepsListWithoutData` | index.js:33-38 | a missing key or an empty stored text leaves the list in memory as it is |
| `Wallet.App.constructor` | index.js:10-31 | mounting starts from the initial state and runs the load and persist effects: the list is the stored list (or empty), the slot holds it, all of it is shown, and the form is reset with today's date |
| `Wallet.App.HandleSearch` | index.js:49-59 | the shown list becomes the search result for the current type and keyword; nothing else changes |
| `Wallet.App.PersistAndSearch` | index.js:28-31 | the slot now holds exactly the list in memory, no other key changes, and the shown list is the search result for the current criteria |
| `Wallet.App.LoadTransactions` | index.js:33-38 | a stored list replaces the list in memory and is persisted and searched again; a missing key or empty text changes nothing at all |
| `Wallet.App.AddTransaction` | index.js:40-42 | the list becomes the old list plus the new entry at the end, persisted and searched again, and the entry's amount is added to its type's total |
| `Wallet.App.DeleteTransaction` | index.js:44-47 | the entry at that position of the FULL list is removed (an out-of-range index removes nothing), persisted and searched again, with its amount taken out of its type's total |
| `Wallet.App.SetFilterType` | index.js:133 | the type criterion changes but the shown list, the list and the totals do not |
| `Wallet.App.SetSearchKeyword` | index.js:143 | the keyword changes but the shown list, the list and the totals do not |
| `Wallet.App.SetFormField` | index.js:112-122 | the form takes the new field values; the list and the shown list are unchanged |
| `Wallet.App.HandleSubmit` | index.js:69-78 | a complete form appends the entry built from its fields, persists and searches, and resets the form to income, today, empty description and empty amount; an incomplete form changes nothing |
| `Wallet.App.HandleCancel` | index.js:80-86 | the form is reset and the list and the shown list are unchanged |
| `Wallet.App.OverviewTotals` | index.js:61-63 | the overview totals are the per-type sums over the full list and the balance is their difference |
| `Wallet.ResetForm` | index.js:74-77 | after a submit or a cancel the form is income with today's date, and it cannot be submitted until filled in again |
| `Wallet.Submittable` | index.js:118-122 | a form the browser lets through has an amount, and the entry built from it has a non-negative amount, a description and a date |
| `Wallet.EntryOf` | index.js:71 | the submitted entry carries the form's type, date, description and amount, and its amount is never negative |
| `Wallet.ImportScenario` | index.js:20-38 | after the backup component overwrites the slot and signals `storage-imported`, the list is the imported list (replaced, not merged); a later signal over an emptied slot keeps it |

## Left out

- Rendering (index.js:88-168), the dialog's `showModal` and `close` (index.js:65-67, 73, 81): display only, no state of the list.
- Registering and removing the `storage-imported` listener (index.js:20-26): event plumbing; the handler itself is `App.LoadTransactions`, which a caller runs when the signal arrives.
- React's state batching and re-render scheduling: each handler is modelled as completing its state change and the effect it triggers before the next event.
- Real `localStorage` and JSON text (index.js:29, 34-36): a stored value is abstracted to the list it encodes or to the empty text; malformed JSON, which makes `JSON.parse` throw, is not modelled.
- `parseFloat` and `toFixed` (index.js:61-62, 71, 94-103, 159): amounts are integers in cents, so floating-point rounding and the two-decimal display are not modelled.
- `getTodayDate` (index.js:4-7): the clock is not modelled; the date is the parameter `today`.
- `Text.Lower`: only ASCII 'A'..'Z' are lowercased, not the full Unicode `toLowerCase` mapping.
- The `local-storage-backup` element and the two imported modules (index.js:1-2, 167): code outside this model; the backup's effect is a caller writing the slot with `LocalStorage.SetItem` and then calling `App.LoadTransactions`.
- Radio values outside 'income'/'expense' and select values outside 'all'/'income'/'expense' cannot arise from the form controls, so `Kind` and `TypeFilter` have only those cases.

## Findings

| source | as written | input that shows it | evidently intended | confidence | as-written member | corrected member |
|---|---|---|---|---|---|---|
| index.js:163 | the delete button of displayed row `index` passes that row number, a position in `filteredTransactions`, to `deleteTransaction`, which removes that position from the full `transactions` list (index.js:45) | list [salary (income), rent (expense)], filter 'expense': row 0 shows rent, and its delete button removes salary | the entry shown in the row is removed | not executed | `Ledger.DisplayedRowDeleteRemovesOtherEntry` | `Ledger.RemoveDisplayedRowRemovesShownEntry` |

`Wallet.App.DeleteTransaction` keeps the behaviour as written, removing by
full-list position. `Ledger.RemoveDisplayedRow` is the corrected deletion:
it maps the row back through `FilterIndices` first. With type 'all' and an
empty keyword the two agree, because the search then shows the whole list
(`Ledger.SearchAllIsIdentity`).
