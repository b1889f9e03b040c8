# Complaint admin dashboard: session state and derived views

This project models the data logic of the `Admin` page of the complaint
categorisation dashboard (`app/page.js`). The page keeps four pieces of
session state: the loaded `submissions`, the `filteredSubmissions` shown in
the table, the selected `categoryFilter` and the registered `categories`.
It updates them by four operations:

- the two initial loads from the "complaints" and "categories" collections;
- a change of the category selector;
- adding a category label.

From that state it derives three views:

- the filtered table;
- the per-category counts behind the pie chart;
- the four-column rows handed to the CSV encoder on export.

Layout:

- `text.dfy` (module `Text`): the blank-label guard, with `trim` over a fixed set of whitespace characters.
- `submissions.dfy` (module `Submissions`): the submission record, the exact-match category filter and its properties.
- `distribution.dfy` (module `Distribution`): the `reduce` that builds the per-category counts.
- `export.dfy` (module `Export`): the `csvData` projection.
- `admin.dfy` (module `AdminPage`): class `Admin`, with the four state fields and the operations as methods.

The remote store is not modelled as such:

- A `getDocs` call becomes a `Fetch` argument: `Loaded(data)`, or `FetchFailed` for a rejected call. After a rejection the awaiting load never reaches its state setters.
- The outcome of `addDoc` becomes the `storeAccepts` flag of `AddItem`.

Two places where the page does less than its surrounding markup suggests:

- **Stale view after a late load.** The category selector is bound to `categoryFilter` (app/page.js:259) and the table renders `filteredSubmissions` (app/page.js:307). But `fetchSubmissions` (app/page.js:47-48) sets `filteredSubmissions` to the whole loaded set and does not re-apply `categoryFilter`. So a selection made before the submissions arrive leaves the selector on a label while the table shows everything. `AdminPage.StaleFilterAfterLoad` builds such a state and proves that `InSync()` fails in it. `HandleCategoryChange` always re-establishes `InSync()`. A load re-establishes it when the selector is on "All Categories".
- **The CSV text itself.** The page passes its rows to `Papa.unparse` (app/page.js:100) and implements no quoting, escaping or header of its own. That text belongs to the external encoder, which is not part of this model (see "Left out").

## Model

| member | source | states |
|---|---|---|
| Text.TrimStart | app/page.js:79 | the result is a suffix of the label, the dropped prefix is all whitespace, and the result does not start with whitespace |
| Text.TrimEnd | app/page.js:79 | the result is a prefix of the label, the dropped suffix is all whitespace, and the result does not end with whitespace |
| Text.Trim | app/page.js:79 | the trimmed label is no longer than the label and neither starts nor ends with whitespace; it is empty exactly when all characters of the label are whitespace, the empty label included |
| Text.TrimParts | app/page.js:79 | composing the two halves of the trim gives a middle slice of the label between a leading and a trailing whitespace run; it is empty exactly when the label is all whitespace |
| Submissions.Filter | app/page.js:68-70 | the filtered view is no longer than the submissions; every element carries the selected label; its elements are drawn from the submissions (multiset inclusion) |
| Submissions.View | app/page.js:65-71 | the table for the "All Categories" sentinel is exactly the submissions; for any other label a submission is shown if and only if it is loaded and carries the label, and the table has exactly as many rows as there are submissions carrying the label, so repeated equal documents are all kept; either way the table is an order-preserving subsequence of the submissions |
| Submissions.FilterMembership | app/page.js:67-71 | a submission is in the filtered view if and only if it is a loaded submission whose category equals the selection |
| Submissions.FilterAppend | app/page.js:68-70 | filtering a concatenation is the concatenation of the filtered parts, so relative order is kept |
| Submissions.FilterIsSubsequence | app/page.js:68-70 | the filtered view is an order-preserving subsequence of the submissions |
| Submissions.FilterKeepsAllIff | app/page.js:68-70 | the filter returns the submissions unchanged exactly when every submission carries the label |
| Submissions.FilterEmptyIff | app/page.js:67-71 | a label gives the empty view, not an error, exactly when no submission carries it |
| Submissions.FilterIdempotent | app/page.js:68-70 | filtering the filtered view again by the same label changes nothing |
| Submissions.FilterLength | app/page.js:121-123 | the filtered view has as many elements as there are submissions carrying the label, counted independently over the multiset of labels |
| Distribution.Tally | app/page.js:120-125 | no contract of its own; its keys and values are stated by Distribution.TallySpec |
| Distribution.CategoryCounts | app/page.js:120-125 | no contract of its own; its keys and values are stated by Distribution.CategoryCountsSpec |
| Distribution.TallySpec | app/page.js:120-125 | from any accumulator, the reduce adds exactly the labels of the registry as keys; each maps to the number of submissions carrying it; keys not in the registry keep their values |
| Distribution.CategoryCountsSpec | app/page.js:120-125 | the counts are keyed by exactly the registered labels; each equals the number of submissions carrying it; a registered label with no submission maps to 0; an unregistered submission label is no key |
| Distribution.CountsAfterSubmission | app/page.js:120-125 | one more submission adds 1 to the count of its label if that label is registered and changes no other count; an unregistered submission changes nothing |
| Distribution.DuplicateLabelHarmless | app/page.js:120-125 | registering a label a second time leaves the distribution unchanged |
| Export.ToRecord | app/page.js:92-97 | the row of one submission gives the submission back when its four columns are read back |
| Export.CsvData | app/page.js:92-97 | one exported row per shown submission |
| Export.CsvDataAt | app/page.js:92-97 | row i has Name, Email, Message and Category equal to the name, email, message and category of submission i |
| Export.CsvDataLossless | app/page.js:92-97 | for four-field documents, reading the rows back gives the shown submissions, in order: the projection is one-to-one |
| Export.CsvDataAppend | app/page.js:92-97 | exporting a concatenation exports the parts one after the other |
| AdminPage.Admin.InSync | app/page.js:61-73 | no contract of its own: the table equals Submissions.View of the selection over the loaded submissions, the state `handleCategoryChange` leaves behind |
| AdminPage.Admin.constructor | app/page.js:36-39 | the initial state: no submissions, empty table, the "All Categories" selection and no categories |
| AdminPage.Admin.FetchSubmissions | app/page.js:44-49 | a successful load replaces the submissions wholesale and sets the table to the same loaded sequence; a failed load changes nothing; the selector and the categories are never touched |
| AdminPage.Admin.FetchCategories | app/page.js:51-55 | a successful load replaces the categories wholesale with the loaded names in order; a failed load changes nothing; the submissions, the table and the selector are never touched |
| AdminPage.Admin.HandleCategoryChange | app/page.js:61-73 | the selection is recorded; the sentinel shows exactly the submissions; any other label shows the order-preserving subsequence of exactly the matching submissions; the submissions and categories are unchanged; the table is in sync with the selection afterwards |
| AdminPage.Admin.AddItem | app/page.js:78-88 | a blank label is refused without a store call and changes nothing; otherwise the untrimmed label is sent to the store and, only if the store accepts it, appended once at the end of the categories without deduplication; a failure leaves the categories unchanged; no blank label is ever added |
| AdminPage.Admin.CategoryCounts | app/page.js:120-125 | the page's distribution is keyed by exactly the registered labels, each mapping to the number of loaded submissions carrying it |
| AdminPage.Admin.CsvData | app/page.js:90-97 | the export rows match the shown submissions one to one, in order, field by field |

## Left out

- Firestore I/O (`getDocs`, `addDoc`): foreign network calls. They become the `Fetch` arguments of the loads and the `storeAccepts` flag of `AddItem`. The store's own contents and its document ids are not modelled.
- Document shape: a loaded document is taken to have exactly the four string fields, and a category document exactly a string `name`. Missing fields (`undefined`) and extra fields are not modelled.
- Concurrency: the two loads start without awaiting each other, and `addItem` awaits the store before appending. Each operation is modelled as one atomic step. So interleavings of a load or an `addDoc` with other operations are not modelled. `setCategories(prev => [...prev, category])` is modelled as appending to the registry as it is when the store answers.
- `Papa.unparse`: the CSV text, its header, quoting and escaping, and the output for an empty view belong to an external library. The model stops at the rows handed to it.
- The Blob, the download link and the file name `submissions.csv`: browser plumbing.
- The pie chart: the order of its labels, its colours and its tooltip. The distribution is a Dafny `map`, which has no key order, so the order of `Object.keys` (registry order, except that JavaScript lists integer-like keys first) is not modelled. Neither are keys such as `__proto__`, which a JavaScript object treats specially.
- `alert`, `console.error`, the modal's open/close state, the reset of the text field, and all JSX layout: user interface.
- Text.Trim: trims the ASCII whitespace characters, the no-break space and the byte-order mark only. The other Unicode space separators and line terminators that `String.prototype.trim` also removes are not modelled.
