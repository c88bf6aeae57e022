# Receipts tracker: a Dafny model of the App component

The receipts tracker is a single React component (`src/App.js`). Users sort bills and loans
into categories and subcategories and attach receipts (title, amount, dates, an optional file)
to a subcategory. They can also back the whole collection up to a JSON file and restore it.
With the rendering removed, what is left is a small state machine. This project models it:

- **State** (`App.Store`): one field per `useState` of the component. These are the receipts
  list, the category registry (category name to an ordered list of subcategory names), the
  navigation cursor (`currentCategory`, `currentSubCategory`), the two "new name" inputs, the
  seven draft fields of the receipt form, and the search text.
- **Handlers** (methods of `App.Store`): `addCategory`, `addSubCategory`, `addReceipt`, the
  synchronous part of `handleFileChange` and the image-read callback, the state merge of
  `importBackup`, the data behind `exportBackup`, the navigation clicks and the input setters.
  Each method's `modifies` clause lists only the fields whose setters the handler calls, so
  every other field is provably unchanged.
- **Pure helpers**: the file-name classifier `aiCategorize` (module `Classifier`, written as an
  ordered rule list) and the derived views `totalAmount`, `upcomingPayments` and
  `filteredReceipts` (module `Views`). They rest on models of the JavaScript built-ins the
  component uses: `trim`, `toLowerCase`, `includes` and `startsWith` (module `Text`);
  `filter`, `slice` and `Array.from(new Set(..))` (module `Sequences`); and the stable
  `Array.prototype.sort` (module `Sorting`).

Values that come from outside the component are parameters:
- the clock readings (`Date.now()`, `new Date()`);
- `Number(...)` on the amount text (`toNumber`);
- `new Date(dueDate)` (`dateOf`, which gives None for an invalid date);
- the file the user picked (`FileInfo`);
- the result of `JSON.parse` on a backup (`Option<Backup>`).

The model keeps these details of the code:
- `addSubCategory` does not refuse a current category that is missing from the registry.
  `categories[currentCategory] || []` creates that entry holding just the new name.
- `addReceipt` falls back to 0 only when the amount text is empty. Non-numeric text gives
  `Number(...)`'s NaN, which is stored. `totalAmount` then counts it as 0.
- An amount is not forced to be non-negative.
- The cursor tests are JavaScript truthiness, so a category named "" counts as unset
  (`App.Truthy`).

## Model

| member | source | states |
|---|---|---|
| Text.TrimStart | src/App.js:102 | the result is a suffix of the input that starts with a non-whitespace character; everything cut off is whitespace |
| Text.TrimEnd | src/App.js:102 | the result is a prefix of the input that ends with a non-whitespace character; everything cut off is whitespace |
| Text.Trim | src/App.js:102 | the trimmed string neither starts nor ends with whitespace |
| Text.TrimIsSlice | src/App.js:102 | `trim` returns a slice of its input with only whitespace removed on either side |
| Text.TrimFixed | src/App.js:109 | a string that starts and ends with a non-blank (or is empty) is its own trim |
| Text.TrimEmptyIff | src/App.js:103 | the trimmed name is empty (`!name`) exactly when the input is all whitespace |
| Text.TrimIdempotent | src/App.js:109 | trimming twice equals trimming once |
| Text.Lower | src/App.js:21 | ASCII capitals become small letters; only Latin and Greek capitals are changed, every other character is kept |
| Text.ToLower | src/App.js:21 | lower-casing keeps the length and leaves no ASCII capital behind |
| Text.ToLowerIdempotent | src/App.js:21 | lower-casing a lower-cased string changes nothing |
| Text.StartsWith | src/App.js:92 | `startsWith` holds exactly when the prefix occurs at position 0 |
| Text.Contains | src/App.js:22-24 | the empty string is contained in every string; a contained string is never longer than the text |
| Text.ContainsIff | src/App.js:22 | `includes` holds exactly when the substring occurs at some position |
| Sequences.Filter | src/App.js:170-174 | the filter result is no longer than its input; it holds exactly the input's elements that pass the test |
| Sequences.FilterIsSubsequence | src/App.js:170-174 | filtering keeps the relative order of the kept elements (an order-preserving subsequence) |
| Sequences.FilterMultiset | src/App.js:170-174 | each passing element is kept as often as it occurs; each failing one is dropped |
| Sequences.Take | src/App.js:76 | `slice(0, n)` gives the first min(n, length) elements |
| Sequences.Dedup | src/App.js:113 | `Array.from(new Set(xs))` has no duplicates and holds exactly the elements of xs |
| Sequences.DedupSnoc | src/App.js:113 | adding a name to the set leaves it unchanged when the name is present and appends it otherwise |
| Sequences.DedupOfNoDup | src/App.js:113 | a list without duplicates passes through unchanged |
| Sequences.DedupFixedIff | src/App.js:113 | a list passes through unchanged exactly when it has no duplicates |
| Sequences.DedupFirstOccurrenceOrder | src/App.js:113 | the deduplicated list is ordered by each name's first occurrence in the input |
| Sorting.InsertBy | src/App.js:75 | insertion adds exactly one element, and the result starts with either the new element or the old head |
| Sorting.InsertBySorted | src/App.js:75 | insertion into a key-sorted list keeps it sorted |
| Sorting.SortBy | src/App.js:75 | the sort returns a permutation of its input, sorted by ascending key |
| Sorting.InsertByStable | src/App.js:75 | insertion puts the new element before the existing elements with the same key and does not reorder them |
| Sorting.SortByStable | src/App.js:75 | the sort is stable: for every key, the elements with that key keep their input order |
| Sorting.SortedStableUnique | src/App.js:75 | two key-sorted lists with the same elements of each key, in the same order, are equal |
| Sorting.SortByIsTheStableSort | src/App.js:75 | any stable, sorted permutation of the input equals `SortBy`, so the model sorts exactly as the stable `Array.prototype.sort` does |
| Classifier.Matches | src/App.js:22-24 | a rule without keywords never matches; a two-keyword rule matches exactly when the name includes the first or the second keyword |
| Classifier.FirstMatch | src/App.js:20-26 | the result is None exactly when no rule matches; otherwise it is the suggestion of a matching rule with no matching rule before it |
| Classifier.AiCategorize | src/App.js:20-31 | every suggestion names a subcategory that the built-in registry lists under its category |
| Classifier.AiCategorizeChain | src/App.js:21-25 | the classifier is the source's chain of tests: "dei"/"ρεύμα" gives electricity, then "νερό"/"eydap" gives water, then "vodafone"/"cosmote" gives phone, else no suggestion |
| Classifier.ElectricityBillExample | src/App.js:22 | "DEI-January.pdf" is classified as electricity |
| Views.AmountValue | src/App.js:67 | a NaN amount counts as 0; a number counts as itself |
| Views.TotalAmount | src/App.js:66-69 | the total of receipts none of which has a negative amount is not negative |
| Views.TotalAmountCons | src/App.js:66-69 | a receipt put at the front of the list adds exactly its own amount to the total |
| Views.TotalAmountAppend | src/App.js:66-69 | the total of two lists laid end to end is the sum of their totals |
| Views.TotalAmountExample | src/App.js:67 | amounts 10, NaN and 5.5 total 15.5 (NaN counts as 0) |
| Views.IsUpcoming | src/App.js:74 | an upcoming receipt has a non-empty due date that parses, and its sort key is that date, not before now |
| Views.UpcomingPayments | src/App.js:71-77 | at most six receipts are listed, never more than the list has; when fewer than six are listed, every upcoming receipt is among them |
| Views.SortedCandidates | src/App.js:73-75 | the sorted candidates are exactly the upcoming receipts of the list, none more often than the list has it |
| Views.UpcomingPaymentsBounded | src/App.js:71-77 | at most six receipts are listed, each an upcoming receipt of the list (non-empty, parseable due date not before now), none repeated beyond the list's own count |
| Views.UpcomingPaymentsSorted | src/App.js:75 | the listed receipts are in ascending order of due date |
| Views.UpcomingPaymentsNoneSkipped | src/App.js:73-76 | an upcoming receipt is missing from the list only when six receipts due no later than it fill the list |
| Views.UpcomingPaymentsStable | src/App.js:75-76 | receipts with the same due date are listed in receipts-list order, as a prefix of that date's upcoming receipts |
| Views.WithKeyPrefix | src/App.js:76 | cutting a list short keeps, for every key, a prefix of that key's elements |
| Views.InView | src/App.js:171-173 | with no category or no subcategory selected nothing is in view; with an empty search exactly the receipts of the cursor pair are |
| Views.FilteredReceipts | src/App.js:169-175 | the list is no longer than the receipts and holds exactly the receipts in view |
| Views.FilteredReceiptsSpec | src/App.js:169-175 | the receipt list is an order-preserving subsequence of the receipts; it holds exactly the receipts filed under the cursor pair whose lower-cased title contains the lower-cased search, each as often as the list has it |
| Views.FilteredReceiptsEmptySearch | src/App.js:172 | with an empty search every receipt of the cursor pair is shown |
| App.Truthy | src/App.js:119 | a cursor value is truthy exactly when it is a non-empty string: the falsy values are null and "" |
| App.ScreenOf | src/App.js:177-262 | the dashboard is shown exactly when the category is falsy; the receipt list is shown exactly when both cursor fields are truthy |
| App.SubCategoriesOf | src/App.js:113 | `categories[cat] \|\| []`: the registered list when the category is registered; every name it yields is registered under the category, so an unregistered one yields none |
| App.WithSubCategory | src/App.js:113 | the new subcategory list contains the added name and has no duplicates |
| App.WithSubCategorySpec | src/App.js:113 | the new list is the old one deduplicated (first occurrences, in order), with the name appended when it was absent; a list without duplicates is kept as is |
| App.WithSubCategoryIdempotent | src/App.js:113 | adding the same subcategory name a second time changes nothing |
| App.DefaultRegistryNoDup | src/App.js:30-33 | the built-in registry lists no subcategory twice |
| App.ReceiptTitle | src/App.js:120 | the title is the trimmed title when that is non-blank, else the file name when non-empty, else "Απόδειξη"; it is never empty |
| App.AmountOf | src/App.js:126 | an empty amount text gives amount 0; any other text gives `Number(text)` |
| App.Store.constructor | src/App.js:29-49 | the initial state: no receipts, the built-in registry, no cursor (dashboard), empty inputs and draft, a duplicate-free registry |
| App.Store.AddCategory | src/App.js:101-106 | a blank or existing name changes nothing; otherwise exactly the trimmed name is added, with an empty list, every other entry is unchanged and the input is cleared; no duplicate subcategory is introduced |
| App.Store.AddSubCategory | src/App.js:108-116 | a blank name or falsy current category changes nothing; otherwise only the current category's entry changes (it is created if absent), to the deduplicated old list with the name added once, and the input is cleared |
| App.Store.AddReceipt | src/App.js:118-143 | without a truthy category and subcategory nothing changes; otherwise the new receipt (the cursor pair, the fallback title, amount 0 for empty text, the draft's dates and file) is followed by the old list unchanged, the total grows by exactly the new receipt's amount, and all seven draft fields are cleared |
| App.Store.HandleFileChange | src/App.js:79-98 | with no file nothing changes; otherwise the name and type are recorded, the cursor is overwritten only when the classifier matches, and a non-image clears the preview |
| App.Store.PreviewLoaded | src/App.js:94 | the completed read sets the preview to the reader's result |
| App.Store.ExportBackup | src/App.js:145-146 | the backup holds the current receipts and registry |
| App.Store.ImportBackup | src/App.js:155-167 | a parse failure changes nothing; the receipts are replaced exactly when the backup has receipts, and the registry exactly when it has categories, independently |
| App.Store.SelectCategory | src/App.js:223 | the category becomes the clicked one, leading to the subcategory screen |
| App.Store.BackToDashboard | src/App.js:238 | the category is cleared and the dashboard shows |
| App.Store.SelectSubCategory | src/App.js:252 | the subcategory becomes the clicked one, leading to the receipt list |
| App.Store.BackToSubCategories | src/App.js:265 | the subcategory is cleared and the subcategory screen shows |
| App.Store.SetNewCategory | src/App.js:216 | the new-category input holds the typed value |
| App.Store.SetNewSubCategory | src/App.js:245 | the new-subcategory input holds the typed value |
| App.Store.SetTitle | src/App.js:273 | the title field holds the typed value |
| App.Store.SetAmount | src/App.js:277 | the amount field holds the typed value |
| App.Store.SetDate | src/App.js:281 | the date field holds the chosen value |
| App.Store.SetDueDate | src/App.js:285 | the due-date field holds the chosen value |
| App.Store.SetSearch | src/App.js:305 | the search field holds the typed value |
| App.BackupRoundTrip | src/App.js:145-164 | restoring a just-exported backup leaves the receipts and the registry as they were |
| App.Store.ClearDraft | src/App.js:136-142 | after a receipt is added all seven draft fields are empty |
| App.AddSubCategoryTwice | src/App.js:108-116 | typing the same subcategory name and pressing add twice leaves the registry exactly as one press does |
| App.ImportAndSubCategoryScenario | src/App.js:108-116 | a backup with receipts only replaces the receipts and keeps the registry; adding "Gas" to the bills category twice leaves the registry as the old one with only the bills entry changed, to the old list with "Gas" added once |

## Left out

- Rendering: the JSX, the `styles` object and the layout (src/App.js:3-18, 177-334). Only the screen choice (`App.ScreenOf`) and the click and input handlers are modelled.
- Persistence to local storage (src/App.js:51-64): the startup load and the write-on-every-change effects are browser I/O driven by React subscriptions.
- The file reading and the download: `FileReader` reads, data-URL previews, `Blob`/`URL` in `exportBackup` (src/App.js:92-98, 145-153, 158, 166). These are asynchronous browser I/O. The image-read callback is the separate method `PreviewLoaded`. The model does not capture interleaving of several in-flight reads.
- JSON serialisation and parsing (src/App.js:146, 161): the backup is handled as already-parsed data.
- App.BackupRoundTrip: holds for the parsed data only. Real JSON turns a NaN amount into `null`, and both count as 0 in the total. Parsed values of the wrong shape (e.g. `receipts` not an array) are not modelled, since a `Receipt` is always well formed.
- `Number(...)` on the amount text and `new Date(...)` on due dates: these are parameters (`toNumber`, `dateOf`) and are not defined. Floating-point arithmetic is replaced by exact reals, so `totalAmount`'s rounding and `toFixed` are not modelled.
- Clock readings: the receipt id and its creation time are parameters. Their ISO formatting is not modelled. Id uniqueness is not claimed, because the code does not guard it.
- Text.Lower: covers ASCII letters and Greek capitals, including those with tonos and dialytika. It does not cover the rest of Unicode `toLowerCase`, the final-sigma rule, or Unicode normalisation.
- The registry is a plain map. Lookups of inherited object keys such as "toString", and the key order that `Object.keys` shows on the dashboard, are not modelled.
- Registry membership of a receipt's category pair is not claimed. The code does not enforce it: the classifier and an import can both point the cursor or the registry elsewhere.
- The duplicate-free registry is kept only by the constructor, `AddCategory` and `AddSubCategory`. `ImportBackup` installs whatever registry the backup holds.
