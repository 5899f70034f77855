# Expense tracker ledger, modelled in Dafny

The expense tracker is a single page. It keeps a list of income and expense records in
memory and mirrors it to local storage. Each change to the list is followed by
recomputing the income total, the expense total, the balance and what is left of the
monthly budget, and by re-rendering the table. A search box filters the table built at load. This project models the logic
of `expenses.js` in Dafny and proves what it does:

- **Ledger operations.** `addTransaction` pushes a record whose id is `length + 1`.
  `deleteTransaction` runs `splice(findIndex(id), 1)`. `saveTransactions` runs a stable
  newest-first sort and then stores the list.
- **Figures.** `updateTotal` computes the totals as `filter` plus `reduce` by type, then
  the balance and the budget remaining. It writes nothing when no budget is stored.
- **Rendering data.** Each row shows the amount signed by its type. Each row is inserted
  above the previous ones, so the table shows the array in reverse.
- **Search.** `filterTable` loops over the rows below the top data row. It shows such a
  row exactly when one of its cells, lower-cased, includes the lower-cased query. The top
  data row is always shown and never counts as a match.
- **`getCurrentDateTime`**, which builds the `YYYY-MM-DDTHH:MM` value of the date field.
- **`updateBudget`**: accepting or refusing a parsed budget.

Files: `wrappers.dfy` (Option), `ledger.dfy` (records, add, delete, sort), `totals.dfy`
(the figures), `display.dfy` (sign and row order), `filter.dfy` (search),
`datetime.dfy` (date string), `tracker.dfy` (the page state as a class, with one method
per handler).

Representation: amounts are integers in minor units. Dates are integer timestamps.
Strings are `seq<char>`. Each local-storage key is an `Option` field of the class
`Tracker.ExpenseTracker`. The alert `updateTotal` raises becomes a returned flag.
Foreign formatting (the currency formatter, `toLocaleString`) becomes function
parameters where cell texts are needed. The amount formatter receives the row's type as
well as its integer amount, because a zero expense is the floating-point -0, and the
always-signed format shows it as "-₹0.00" while a zero income shows "+₹0.00"
(`Filter.ZeroAmountSigns`).

Behaviours of the code worth knowing:

- Deleting an id that no record has is not a no-op. `findIndex` gives -1, and
  `splice(-1, 1)` removes the last record (`Ledger.DeleteMissingId`). So deleting the same
  id twice is not idempotent (`Ledger.DeleteTwiceRemovesTwo`).
- The table does not show the newest record at the top. The array is sorted newest
  first, and each row is inserted in front of the rows already there, so the oldest
  record ends up on top (`Display.SalaryAndRentRows`).
- With no budget stored, `updateTotal` alerts and writes none of the four figures. It
  does not fall back to a default.
- Search matches the text of every cell of a row, the action cell included. That cell's
  text is the white space around the delete button's SVG markup, so a query of one space
  matches every row (`Filter.SpaceQueryMatchesEveryRow`).
- Each row is inserted ahead of the header, so the top data row is the table's first
  child. The selector `tr:not(:first-child)` skips it, and it is shown whatever the query.
  With a single record, no row counts as a match, and "NO MATCHING TRANSACTIONS FOUND"
  appears under a row that stays visible (`Filter.FilterOneRecord`).
- The search acts on a stale table. The search box keeps the table it looked up at load,
  and the first add or delete clears the list and builds a new table, so every later
  search filters the old, detached table and leaves the table on the page as it is.
- At load, `JSON.parse` of malformed stored content throws; it does not yield an empty
  list. The model takes the stored records as already decoded.

## Model

| member | source | states |
|---|---|---|
| Ledger.KindOf | expenses.js:184 | a record is income exactly when the form's type field is "on", otherwise expense |
| Ledger.FindIndex | expenses.js:163 | the result is -1 exactly when no record has the id; otherwise it is the first position holding the id |
| Ledger.DeletePresentId | expenses.js:162-164 | when some record has the id, deleting removes the first such record and only it: length drops by one, the others keep their order, and the multiset loses exactly that record |
| Ledger.DeleteMissingId | expenses.js:163-164 | when no record has the id, `splice(-1, 1)` removes the last record, or nothing from an empty list |
| Ledger.DeleteTwiceRemovesTwo | expenses.js:162-164 | deleting one id twice can remove two different records |
| Ledger.IdReusedAfterDelete | expenses.js:162-193 | after deleting id 1 of two records, the next add reuses id 2. The add sorts the list before any delete button exists, and then deleting id 2, from either record's button, removes whichever of the two records comes first newest-first |
| Ledger.ConsKeepsOrder | expenses.js:193 | a record no older than all that follow can head a newest-first list |
| Ledger.InsertPermutes | expenses.js:193 | inserting one record adds exactly that record to the multiset |
| Ledger.InsertKeepsOrder | expenses.js:193 | inserting into a newest-first list keeps it newest first |
| Ledger.InsertWithDate | expenses.js:193 | inserting a record puts it ahead of the records with its own date and moves nothing else among them |
| Ledger.SortByDateOrdered | expenses.js:193 | after the sort, dates never increase along the list |
| Ledger.SortByDatePermutes | expenses.js:193 | the sorted list is a permutation of the previous one |
| Ledger.SortByDateStable | expenses.js:193 | for every date, the records with that date keep their previous relative order (the sort is stable) |
| Totals.OfKindMembers | expenses.js:76-81 | the filter is no longer than the list; every kept record has the requested type and comes from the list; every record of that type is kept |
| Totals.OfKindCounts | expenses.js:76-81 | each record of the requested type is kept as many times as it occurs, and no other record is kept |
| Totals.OfKindAppend | expenses.js:76-81 | filtering a concatenation concatenates the filtered parts, so the kept records stay in list order |
| Totals.TotalIsKindSum | expenses.js:76-81 | filter-then-reduce equals a one-pass sum of the amounts whose type matches |
| Totals.KindSumPermutation | expenses.js:76-81 | the one-pass sum of a type is the same for any reordering of the records |
| Totals.TotalAfterPush | expenses.js:76-81 | appending a record adds its amount to the total of its own type only |
| Totals.TotalAfterRemove | expenses.js:76-81 | removing the record at a position subtracts its amount from the total of its own type only |
| Totals.TotalPermutation | expenses.js:76-81 | income and expense totals do not depend on record order |
| Totals.TotalsPartition | expenses.js:76-81 | income total plus expense total is the sum of all amounts: each record is counted once |
| Totals.SnapshotPermutation | expenses.js:76-83 | balance and budget remaining, like the totals, depend only on the multiset of records |
| Totals.SnapshotAfterSort | expenses.js:187-193 | the figures computed before `saveTransactions` equal those of the sorted list |
| Totals.SnapshotAfterPush | expenses.js:76-83 | adding an income raises income and balance by its amount; adding an expense raises expense and lowers balance and budget remaining by its amount |
| Totals.SnapshotAfterRemove | expenses.js:76-83 | removing a record undoes exactly its effect on the four figures |
| Totals.SalaryAndRent | expenses.js:76-83 | income 5000 and expense 1200 against budget 2000 give balance 3800 and budget remaining 800 |
| Display.SignedAmount | expenses.js:119-125 | the shown amount has magnitude abs(amount): it is non-negative for income and non-positive for expense |
| Display.RenderedRows | expenses.js:116-153 | the table has one row per record |
| Display.RenderedRowsAt | expenses.js:116-153 | row k from the top shows the record at position length-1-k: the array reversed |
| Display.BuildRows | expenses.js:116-154 | the forEach loop that puts each row first yields exactly the reversed rows |
| Display.ShownSumIsBalance | expenses.js:76-83 | with no negative amounts, the shown signed amounts add up to the balance |
| Display.ShownSumIsKindSums | expenses.js:119-125 | with no negative amounts, the shown signed amounts add up to income minus expense, record by record |
| Display.SalaryAndRentRows | expenses.js:116-193 | a salary dated 2024-01-01 and a rent dated 2024-01-02 sort as [rent, salary], so the salary's row is the top row |
| Filter.Lower | expenses.js:199-207 | lower-casing leaves no upper-case ASCII letter: each becomes its lower-case letter, 32 code points on, and every other character is unchanged |
| Filter.IncludesIffOccurs | expenses.js:208 | `includes` holds exactly when the query occurs at some position of the text |
| Filter.FilterTable | expenses.js:198-219 | row i is shown exactly when one of its cells, lower-cased, includes the lower-cased query; `hasMatches` is true exactly when some row is shown |
| Filter.PositionsPickSelected | expenses.js:203-219 | the flagged positions, read in order, pick out exactly the shown rows |
| Filter.PositionsIncrease | expenses.js:203-219 | the flagged positions strictly increase |
| Filter.PositionsExact | expenses.js:203-219 | a position is listed exactly when its flag is set |
| Filter.SelectIsSubsequence | expenses.js:203-219 | the shown rows are an order-preserving subsequence of the rows, taken at exactly the flagged positions |
| Filter.SelectEmpty | expenses.js:213-220 | nothing is shown exactly when no flag is set |
| Filter.SelectAll | expenses.js:213-215 | with every flag set, every row is shown |
| Filter.EmptyQueryMatchesAll | expenses.js:199-211 | the empty query matches every row that has a cell |
| Filter.FilterWithEmptyQuery | expenses.js:203-220 | over the rows the loop visits, all but the top row, the empty query keeps every one shown, and the no-match message is withheld unless the loop visits none |
| Filter.QueryCaseIgnored | expenses.js:199 | a query and its lower-cased form match the same rows |
| Filter.SpaceQueryMatchesEveryRow | expenses.js:121-151 | a one-space query matches every rendered row, whose six cells are description, amount, payment method, recipient, date and action, through the white space of the action cell |
| Filter.ZeroAmountSigns | expenses.js:119-126 | a zero income and a zero expense have the same integer amount, and a formatter given the type can still show the first with a plus and the second with a minus sign |
| Filter.FilterRenderedTable | expenses.js:198-219 | on the table of a non-empty list, the top row is always shown; each row below it is shown exactly when one of its cells matches the query; `hasMatches` holds exactly when one of those rows matches; with no records there is no table and the call fails |
| Filter.RenderedEmptyQuery | expenses.js:198-223 | on the table of the page the empty query shows every row, and the no-match message is withheld exactly when there are at least two records |
| Filter.FilterOneRecord | expenses.js:198-223 | with a single record its row stays shown for every query, and `hasMatches` is false, so the no-match message appears |
| DateTime.DecimalStringRoundTrip | expenses.js:240-243 | `String(n)` gives digits that read back as n: one digit below 10, two below 100, four for a four-digit year |
| DateTime.Pad2RoundTrip | expenses.js:240-243 | `padStart(2, '0')` of 0 to 99 has length 2 and reads back as the number |
| DateTime.CurrentDateTimeLayout | expenses.js:237-245 | for a four-digit year and in-range fields the string has 16 characters, separators at 4, 7, 10 and 13, hours at 11-13 and minutes at 14-16 |
| DateTime.CurrentDateTimeRoundTrip | expenses.js:237-245 | the string reads back as the clock reading it was built from, with the month back at 0-based |
| Tracker.ExpenseTracker.constructor | expenses.js:2 | the array starts as the stored records, or empty when none are stored |
| Tracker.ExpenseTracker.UpdateTotal | expenses.js:68-89 | with no stored budget it alerts and writes nothing; otherwise it writes the four figures of the current list |
| Tracker.ExpenseTracker.SaveTransactions | expenses.js:192-195 | the list becomes its stable newest-first sort, a permutation of the old list, and is stored |
| Tracker.ExpenseTracker.Push | expenses.js:177-185 | the list grows by one, earlier records are unchanged, and the new last record has id old length + 1, the form's fields, and income exactly when the type field is "on" |
| Tracker.ExpenseTracker.RemoveById | expenses.js:162-164 | the first record with the id is removed; with no such record, the last record is removed |
| Tracker.ExpenseTracker.TotalAndSave | expenses.js:166-167 | `updateTotal` then `saveTransactions`: the list becomes its stable newest-first sort and is stored; the figures written are those of the list before the sort, and also of the sorted list |
| Tracker.ExpenseTracker.TotalSaveRender | expenses.js:166-168 | `updateTotal`, `saveTransactions`, `renderTable`: the list is sorted and stored, the rows are those of the sorted list, the figures are those of the list before the sort, and without a budget one or two alerts are raised |
| Tracker.ExpenseTracker.RenderTable | expenses.js:91-158 | with no records: "No transactions" and no figures; otherwise the rows in reverse array order, then `updateTotal` |
| Tracker.ExpenseTracker.AddTransaction | expenses.js:171-190 | the list becomes the stable sort of the old list plus the new record, is stored and rendered; the figures are those of the old list plus the record; without a budget, two alerts and no figures |
| Tracker.ExpenseTracker.DeleteTransaction | expenses.js:162-169 | the list becomes the stable sort of what the splice left, is stored and rendered; the figures are those of what is left |
| Tracker.ExpenseTracker.UpdateBudget | expenses.js:42-59 | a parsed number is stored and accepted; a non-number is refused and the stored budget stays as it was |

## Left out

- DOM construction and mutation are not modelled: `createElement`, `innerHTML`, `classList`, `style.display`, the SVG markup and moving the message element. The model keeps only the row and cell data these produce.
- Local storage is modelled as two `Option` fields. `JSON.stringify` and `JSON.parse` are foreign, so the stored list is kept as decoded records. A malformed stored value, which makes `JSON.parse` throw, is not modelled.
- `Intl.NumberFormat` and the `.substring(1)` on its output are not modelled: they are locale-dependent foreign calls. The figures are kept as numbers, and the signs the format puts on the four figures are not modelled either. In the table the amount text is a parameter that receives the type (see above).
- `new Date(...)` parsing, `toLocaleString` and the clock are foreign. Dates are integer timestamps, the clock reading is a parameter, and date cell text is a parameter function.
- An invalid date is not modelled. `new Date(...)` of it is NaN, so the comparator of the sort returns NaN, which the sort treats as 0, and such a record compares equal to every other. An integer timestamp cannot express this.
- Floating point is not modelled. `parseFloat`, `isNaN` and `isFinite` are abstracted to an already parsed `Option<int>`. A NaN amount makes the total of its own type NaN, together with the balance and, for an expense, the budget remaining. It cannot arise in the model. The budget's `parseFloat(budgetValue) || 0` is the stored integer itself.
- `Filter.FilterRenderedTable` takes the table to be the one rendered from the records at load. `myTable` is looked up once, at load, and is not looked up again after each add or delete re-renders the list, so later searches act on that first, detached table. This is not modelled. Also not modelled: the "no matching transactions" element staying on the page once inserted, and what follows the failure of the call at load when there are no stored records, which `FilterRenderedTable` reports as `failed`. That TypeError aborts the rest of the load handler, so the search listener is never attached, and the date field is never filled with `getCurrentDateTime()` or focused.
- Filter.Lower: lower-cases ASCII letters only. The full Unicode case mapping of `toLowerCase` is not modelled.
- Event listener wiring, `window.onload`, `alert` (a returned flag instead), `console.log`, `focus`, `setSelectionRange` and `setTimeout` are UI glue and scheduling. They are not modelled, apart from the layout lemma for the ranges the field selects.
- `emptyField` is called by the budget button handler but is not defined in `expenses.js`; it is not part of this model. `showBudgetWarning` only changes the DOM.
