# Procurement entry front end — verified model

This project models the core of a restaurant procurement front end that records daily
purchase logs. It covers three parts of the program:

- **The entry wizard** (`components/EntryForm.tsx`) moves through four steps: welcome, category,
  worksheet and summary.
  - Choosing a category seeds the worksheet from a preset, or with one blank row.
  - On the worksheet the user edits rows, adds and removes them, and can merge the rows that an
    image-recognition service reads from a photo.
  - The summary turns the worksheet into a log. That log keeps only the rows with a non-blank
    name, falls back to the "unknown supplier" text, and carries the grand total.
  - The wizard is class `Entry.EntryForm`. Its fields are the component's state hooks and its
    methods are the handlers.
  - The values the handlers compute are functions of module `Worksheet`.
  - `JsText` models the two JavaScript built-ins the form relies on: `String.prototype.trim` and
    `parseFloat`.
- **The in-memory storage adapter** (`services/storageAdapter.ts`) is class
  `Storage.MemoryStorage`.
  - It has two keyed tables, images and logs, held as `map` fields that the methods update in
    place.
  - It provides a listing of the logs, newest first.
  - Deleting a log also deletes its attached images, one at a time.
  - It reports storage statistics.
- **The dashboard figures** (`components/Dashboard.tsx`) are pure functions of the log list, in
  module `Dashboard`:
  - the copy of the list sorted by date;
  - total spend;
  - total quantity;
  - the number of distinct suppliers;
  - the chart points.

Two modules support these:

- `Types` holds the records of `types.ts`.
- `Chronology` holds the date ordering shared by the adapter and the dashboard. Dates are compared
  through a parameter `instant`, which stands for `new Date(date).getTime()`. Sorting is insertion
  sort, proved to yield a sorted permutation.

Numbers are modelled as exact reals. The form's number inputs hand their raw text to
`handleItemChange`, which stores it in the row as is. A row's quantity and unit price are
therefore `Amount = Num(real) | Text(string)`: a number from a preset or a blank row, or the text
last typed. `Worksheet.Value` reads an amount the way the form does, as `parseFloat(x) || 0`.

`types.ts` as given does not declare `AttachedImage` or a log's `attachments`, although the
adapter uses both. The model gives an image the two fields the adapter reads, `id` and an optional
`compressedSize`, and gives a log an optional list of attached images.

Two behaviours of the program are easy to miss, and the model keeps both:

- The total cost of a confirmed log is the grand total over **all** worksheet rows, blank-named
  rows included. It is not the sum over the rows the log keeps (`Worksheet.AssembledTotalCountsBlankRows`).
- The worksheet is not guaranteed to keep at least one row. Merging a recognition result that
  found no rows into a worksheet of blank rows leaves it empty (`Worksheet.MergeCanEmptyWorksheet`).

## Model

| member | source | states |
|---|---|---|
| JsText.Trim | components/EntryForm.tsx:513 | the definition of `String.prototype.trim`, also used at lines 532 and 540: trim the start, then the end; characterised by JsText.TrimStartSpec, JsText.TrimEndSpec and JsText.TrimEmptyIff |
| JsText.TrimStartSpec | components/EntryForm.tsx:513 | trimming the start removes exactly the leading JavaScript white space and line terminators: the result is a suffix, what was dropped is white space, and the result does not start with white space |
| JsText.TrimEndSpec | components/EntryForm.tsx:513 | the mirror image for the end of the string |
| JsText.TrimEmptyIff | components/EntryForm.tsx:513 | a name trims to the empty string exactly when every character of it is white space |
| JsText.ParseFloat | components/EntryForm.tsx:481-482 | the definition of `parseFloat`: skip leading white space, an optional sign, then the longest `digits[.digits]` prefix; characterised by JsText.ParseDigits and JsText.NoDigitNoNumber |
| JsText.ParseDigits | components/EntryForm.tsx:481-482 | `parseFloat` of a non-empty string of decimal digits is the number those digits denote |
| JsText.NoDigitNoNumber | components/EntryForm.tsx:481-482 | a string without any decimal digit does not parse, so the form counts it as 0 |
| Worksheet.Value | components/EntryForm.tsx:481-482 | the definition of the form's reading of a field (its `parseFloat`, or 0 when that is not a number): a number is itself, text is its parse or 0 when it has none; characterised by JsText.ParseDigits and JsText.NoDigitNoNumber |
| Worksheet.IsNamed | components/EntryForm.tsx:513 | the definition of the row test `name.trim() !== ''` shared by the merge, the submit guard (line 532) and the confirmed log (line 540); characterised by JsText.TrimEmptyIff, Worksheet.Named and Worksheet.CanSubmitIff |
| Worksheet.LineTotal | components/EntryForm.tsx:481-483 | the definition of a row's total as parsed quantity times parsed unit price; characterised by Worksheet.ChangeItem and Worksheet.ChangeItemKeepsConsistent |
| Worksheet.Preset | components/EntryForm.tsx:23-65 | every category but Other has a preset, with a non-empty supplier and at least two rows; the definition holds the preset data itself, whose totals Worksheet.PresetsConsistent checks |
| Worksheet.PresetsConsistent | components/EntryForm.tsx:23-65 | every preset row's total equals its quantity times its unit price |
| Worksheet.Seed | components/EntryForm.tsx:462-472 | a category with a preset seeds exactly the preset's supplier, notes and rows; any other category seeds empty supplier and notes and one blank row; the seed always has a row and consistent totals |
| Worksheet.EditItem | components/EntryForm.tsx:479-484 | the definition of the edit of one row; characterised field by field by the contract of Worksheet.ChangeItem |
| Worksheet.ChangeItem | components/EntryForm.tsx:477-487 | editing row i changes only row i: the list length and every other row are unchanged; name, specification and unit edits replace just that field and keep the total; quantity and unit price edits store the typed text and set the total to parsed quantity times parsed unit price, unparseable text counting as 0 |
| Worksheet.ChangeItemKeepsConsistent | components/EntryForm.tsx:480-484 | after any edit, every row's total is still its quantity times its unit price |
| Worksheet.DropIndex | components/EntryForm.tsx:494 | filtering out index i yields the rows before i followed by the rows after i; an index outside the list changes nothing |
| Worksheet.DropIndexKeepsConsistent | components/EntryForm.tsx:493-495 | removing a row keeps the remaining rows' totals consistent |
| Worksheet.Named | components/EntryForm.tsx:513 | the filter keeps only rows with a non-blank trimmed name, keeps every such row, and never lengthens the list |
| Worksheet.NamedAppend | components/EntryForm.tsx:513 | the filter distributes over concatenation, so it keeps the named rows in their original order |
| Worksheet.NamedIdempotent | components/EntryForm.tsx:513 | filtering twice is filtering once |
| Worksheet.CanSubmitIff | components/EntryForm.tsx:532 | the filtered list is non-empty exactly when some row has a non-blank trimmed name |
| Worksheet.GrandTotal | components/EntryForm.tsx:528 | the sum of the totals of all rows, blank-named ones included; it is not negative when no row total is; characterised by Worksheet.GrandTotalAppend and Worksheet.GrandTotalOfNamed |
| Worksheet.GrandTotalAppend | components/EntryForm.tsx:528 | the grand total of two lists of rows is the sum of their grand totals |
| Worksheet.GrandTotalOfNamed | components/EntryForm.tsx:528 | when every blank-named row totals 0, the grand total equals the total of the named rows alone |
| Worksheet.Merge | components/EntryForm.tsx:512-517 | the merged rows are the current named rows, in order, followed by all recognised rows; a non-empty supplier or notes is kept, an empty one takes the recognised value |
| Worksheet.MergeNamedRows | components/EntryForm.tsx:513-514 | after a merge the named rows are the old named rows followed by the recognised named rows |
| Worksheet.MergeKeepsSubmittable | components/EntryForm.tsx:513-514 | a worksheet with a named row still has one after a merge, so a merge never takes away the right to submit |
| Worksheet.MergeFillsOnlyOnce | components/EntryForm.tsx:515-516 | supplier and notes, once non-empty, survive any later merge |
| Worksheet.MergeKeepsConsistent | components/EntryForm.tsx:513-514 | merging consistent recognised rows keeps every total consistent |
| Worksheet.MergeCanEmptyWorksheet | components/EntryForm.tsx:513-514 | one blank row merged with a result of no rows leaves no rows at all |
| Worksheet.Assemble | components/EntryForm.tsx:539-550 | the confirmed log holds exactly the named rows; its supplier is never empty: it is the current supplier when that is non-empty and the "未知供应商" (unknown supplier) text otherwise; its total cost is the grand total over all rows; it carries the confirmation time, the selected category, the notes and status Stocked |
| Worksheet.AssembledTotalMatchesItems | components/EntryForm.tsx:540-546 | when blank-named rows total 0, the log's total cost equals the sum of its own rows |
| Worksheet.AssembledTotalCountsBlankRows | components/EntryForm.tsx:539-550 | a blank-named row totalling 6 beside a named row totalling 50 gives a log with one row and a total cost of 56 |
| Entry.Greeting | components/EntryForm.tsx:77-80 | the greeting is "早上好" exactly before 12, "下午好" exactly from 12 to before 18, and "晚上好" exactly from 18 |
| Entry.EntryForm.constructor | components/EntryForm.tsx:452-457 | the wizard starts on the welcome step, with category Meat, empty supplier and notes, no rows and no recognition running |
| Entry.EntryForm.Start | components/EntryForm.tsx:557 | start moves from welcome to category |
| Entry.EntryForm.BackFromCategory | components/EntryForm.tsx:563 | back on the category screen stays on the category step |
| Entry.EntryForm.SelectCategory | components/EntryForm.tsx:459-475 | the category is recorded, the worksheet is overwritten by the category's seed, and the wizard moves to the worksheet |
| Entry.EntryForm.SetSupplier | components/EntryForm.tsx:574 | only the supplier changes |
| Entry.EntryForm.SetNotes | components/EntryForm.tsx:575 | only the notes change |
| Entry.EntryForm.ChangeItem | components/EntryForm.tsx:477-487 | the rows become the edited rows and stay consistent when they were |
| Entry.EntryForm.AddRow | components/EntryForm.tsx:489-491 | exactly one blank row is appended and the earlier rows are untouched |
| Entry.EntryForm.RemoveRow | components/EntryForm.tsx:493-495 | exactly row i is removed, the others keep their order, and the length drops by one but stays at least 1 |
| Entry.EntryForm.BeginRecognition | components/EntryForm.tsx:504 | recognition is marked as running |
| Entry.EntryForm.FinishRecognition | components/EntryForm.tsx:507-519 | a result is merged into the worksheet, no result leaves it unchanged, and both clear the running flag; an exception inside the callback leaves the worksheet and the flag as they were |
| Entry.EntryForm.SubmitWorksheet | components/EntryForm.tsx:530-537 | submission is accepted exactly when some row has a non-blank trimmed name, and only then moves to the summary; nothing else changes |
| Entry.EntryForm.BackFromWorksheet | components/EntryForm.tsx:573 | back from the worksheet goes to the category step and keeps the worksheet |
| Entry.EntryForm.BackFromSummary | components/EntryForm.tsx:589 | back from the summary goes to the worksheet and keeps it |
| Entry.EntryForm.ConfirmSummary | components/EntryForm.tsx:539-550 | the emitted log is the assembled worksheet and totals all rows, and the form's state is unchanged; within this model, where recognition merges into the current rows, the log has at least one row |
| Chronology.Key | services/storageAdapter.ts:56 | the definition of the sort key: a log's instant for oldest first (components/Dashboard.tsx:10), its negation for newest first; characterised by Chronology.SortBy and Storage.MemoryStorage.GetLogs |
| Chronology.Insert | components/Dashboard.tsx:10 | inserting into a date-sorted list gives a sorted list holding the old logs plus the new one |
| Chronology.SortBy | components/Dashboard.tsx:10 | sorting gives a date-ordered permutation of the logs |
| Storage.Size | services/storageAdapter.ts:82 | the definition of an image's size, a missing size counting as 0; summed by Storage.TotalSize and characterised by Storage.MemoryStorage.GetStats |
| Storage.TotalSize | services/storageAdapter.ts:81-83 | the definition of the total image size as an order-free sum over the table's keys, a missing size counting as 0; characterised by Storage.SaveImageTotalSize and Storage.DeleteImageTotalSize |
| Storage.SaveImageTotalSize | services/storageAdapter.ts:34-38 | saving an image adds its size to the total image size and takes away the size of the image it replaces |
| Storage.DeleteImageTotalSize | services/storageAdapter.ts:44-47 | deleting an image takes its size away from the total image size |
| Storage.Ids | services/storageAdapter.ts:68-70 | an id is in the set exactly when some attachment carries it |
| Storage.MemoryStorage.constructor | services/storageAdapter.ts:31-32 | both tables start empty |
| Storage.MemoryStorage.SaveImage | services/storageAdapter.ts:34-38 | the image is stored under its id, replacing what was there, nothing else changes, and the id is returned |
| Storage.MemoryStorage.GetImage | services/storageAdapter.ts:40-42 | the image stored under the id, or nothing for an unknown id |
| Storage.MemoryStorage.DeleteImage | services/storageAdapter.ts:44-47 | only that key leaves the image table; the log table is unchanged |
| Storage.MemoryStorage.SaveLog | services/storageAdapter.ts:49-52 | the log is stored under its id, replacing what was there; the other logs and the images are unchanged |
| Storage.MemoryStorage.GetLogs | services/storageAdapter.ts:54-58 | every stored log exactly once, newest first |
| Storage.MemoryStorage.GetLog | services/storageAdapter.ts:60-62 | the log stored under the id, or nothing for an unknown id |
| Storage.MemoryStorage.DeleteLog | services/storageAdapter.ts:64-74 | the log and exactly the images its attachments name are removed; for an unknown id neither table changes |
| Storage.MemoryStorage.GetStats | services/storageAdapter.ts:77-85 | the image count and log count are the table sizes, and the total image size is the sum of the compressed sizes, a missing size counting as 0 |
| Storage.SaveThenGetImage | services/storageAdapter.ts:34-42 | the id returned by saving an image finds that image again |
| Storage.SaveThenGetLog | services/storageAdapter.ts:49-62 | a saved log is found again under its id |
| Dashboard.Data | components/Dashboard.tsx:10 | the chart's data is a permutation of the logs sorted by date, oldest first |
| Dashboard.TotalSpend | components/Dashboard.tsx:12 | the definition of the sum of the logs' total costs; characterised by Dashboard.TotalSpendAppend and Dashboard.TotalSpendPermutation |
| Dashboard.TotalSpendAppend | components/Dashboard.tsx:12 | the total spend of two lists of logs is the sum of their total spends |
| Dashboard.TotalSpendPermutation | components/Dashboard.tsx:12 | total spend does not depend on the order of the logs |
| Dashboard.DataTotalSpend | components/Dashboard.tsx:10-12 | the sorted copy has the same total spend as the logs |
| Dashboard.QuantitySum | components/Dashboard.tsx:13 | the definition of the corrected inner sum: a log's quantities added as numbers, read the way the form reads them; characterised by Dashboard.QuantitySumAsWrittenIff |
| Dashboard.TotalItems | components/Dashboard.tsx:13 | the corrected total quantity: every quantity read as a number the way the form reads it; characterised by Dashboard.TotalItemsAppend and Dashboard.TotalItemsAsWrittenIff |
| Dashboard.QuantitySumAsWritten | components/Dashboard.tsx:13 | the definition of the inner sum as written, where `+` turns into concatenation once a quantity is text; characterised by Dashboard.QuantitySumAsWrittenIff |
| Dashboard.TotalItemsAsWritten | components/Dashboard.tsx:13 | the definition of the total quantity as written; characterised by Dashboard.TotalItemsAsWrittenIff and Dashboard.TypedQuantityConcatenates |
| Dashboard.TotalItemsAppend | components/Dashboard.tsx:13 | the numeric total quantity of two lists of logs is the sum of their totals |
| Dashboard.QuantitySumAsWrittenIff | components/Dashboard.tsx:13 | a log's quantity sum as written turns into a string exactly when some quantity is typed text; otherwise it is the numeric sum |
| Dashboard.TotalItemsAsWrittenIff | components/Dashboard.tsx:13 | the total quantity as written is a number exactly when no row of any log holds typed text, and it then equals the numeric total |
| Dashboard.TypedQuantityConcatenates | components/Dashboard.tsx:13 | one log whose row has the typed quantity "5" gives a string as the total quantity, while the numeric total is 5 |
| Dashboard.Suppliers | components/Dashboard.tsx:14 | a supplier is in the set exactly when some log has it, and there are at most as many as logs |
| Dashboard.UniqueSuppliers | components/Dashboard.tsx:14 | the count of distinct suppliers is at most the number of logs, and is 0 exactly when there are no logs |
| Dashboard.ChartData | components/Dashboard.tsx:26-29 | one point per log, in the same order, each carrying that log's date and total cost |

## Left out

- Rendering, styling, animation, the scroll effect and the chart drawing are not modelled. None of them holds a rule about state.
- The welcome screen's clock is not modelled. `Entry.Greeting` takes the hour as a parameter.
- The confirmation time is not modelled. `Entry.EntryForm.ConfirmSummary` takes `now` as a parameter.
- The date of a log is compared through the parameter `instant`. Date parsing is not modelled.
- The recognition service, `FileReader` and the base64 splitting are not modelled. A recognition outcome is an input to `Entry.EntryForm.FinishRecognition`.
- The upload handler's early return when no file is chosen is not modelled. It changes nothing.
- Entry.EntryForm.ConfirmSummary: the promise of at least one row holds only in this model. In the source a recognition started on the worksheet can finish after the user has moved to the summary, and it filters the rows captured at upload time. If those rows were all blank and the result has no rows, the worksheet becomes empty while on the summary, and confirming emits a log with no rows.
- Entry.EntryForm.FinishRecognition applies the merge to the worksheet as it is when the callback runs. The source's callback reads the rows, supplier and notes captured when the upload started, so edits made in between can be lost. The asynchronous interleaving is not modelled.
- The `catch` block of the upload handler is not modelled. It only covers the synchronous set-up, which the model does not have.
- `alert` and the console output are not modelled.
- JsText.ParseFloat: `parseFloat` is modelled for leading white space, a sign, digits and an optional fraction. Exponents and `Infinity` are not modelled: the model reads `1e3` as 1 where JavaScript reads 1000, and a number input accepts exponent forms.
- Floating-point rounding is not modelled. Numbers are exact reals, so the order of additions does not matter.
- Editing a row's `total` field directly is not modelled. The view offers no such input.
- Entry.EntryForm.RemoveRow requires at least two rows and an index inside the list. The handler has no guard of its own; the view offers the remove button only for existing rows, and only while there are at least two.
- Entry methods require the step on which the view offers their control. The handlers do not check the step themselves.
- Storage.MemoryStorage.GetLogs: a Map's insertion order is not modelled, so the contract promises only a sorted permutation; the relative order of logs with equal dates is open.
- Dashboard.Data: the insertion sort places a log after every log with an equal date, so like the stable `Array.prototype.sort` it keeps the input order of ties; its contract states sortedness and permutation but not this stability.
- The asynchronous (`Promise`) form of the adapter's methods is not modelled. Each method runs as one step.
- The commented-out Supabase adapter is not modelled. It is dead code and a network client.
- `components/Sidebar.tsx` and the `components/ui` atoms are not modelled. They are presentational.

## Findings

| source | as written | input that shows it | evidently intended | confidence | as-written member | corrected member |
|---|---|---|---|---|---|---|
| components/Dashboard.tsx:13 | total quantity adds row quantities with `+`; a quantity typed into the form is stored as its input text (components/EntryForm.tsx:276, 479), so `+` concatenates strings | one log whose only row had "5" typed as its quantity: the figure shown is the string "005", not 5 | the numeric sum of all quantities, typed text read as a number as the form does | not executed; high | Dashboard.TypedQuantityConcatenates | Dashboard.TotalItemsAppend |
