# Clothing catalog: validation, search and edit session

A Dafny model of the decision logic of a browser-side clothing catalog
(`src/App.js`). Products, each tied to a category, are listed from a
remote collection service, filtered by name and category, and created or
edited through a form whose draft is validated before it is sent.

What is modelled:

- **Import dates** (`dates.dfy`, module `Dates`): a strict `DD/MM/YYYY`
  reader standing in for the strict-mode date parse. It takes exactly two
  ASCII digits, `/`, two digits, `/`, four digits, and accepts only a real
  Gregorian date (leap years by the 4/100/400 rule). Whatever it accepts is
  exactly the canonical text of the date it returns, and every real date is
  read back from its canonical text. The "later than now" test is calendar
  order on dates, with today's date passed in as a parameter.
- **Validation** (`validation.dfy`, module `Validation`): the four checks of
  the save handler in the order the code runs them: date format, then name
  length at most 100, then a positive integer quantity, then not a future
  date. The verdict is the message of the first failing check, or
  acceptance with the date that was read.
- **Search** (`sequences.dfy`, `search.dfy`): an order-preserving filter; the
  name criterion is a case-insensitive substring test and the category
  criterion an exact id match. Each criterion is skipped when its input is
  empty.
- **Ordering** (`ordering.dfy`): the stored product list is the fetched list
  sorted ascending by quantity. The sort is stable: equal quantities keep
  their fetched order.
- **Products** (`products.dfy`): the data model; the copy-on-write edit of one
  draft field; the create/replace choice by a truthy id; the category cell
  (first category with the product's id, else `N/A`).
- **App state** (`app.dfy`): a class `Catalog` holding the component state
  (`products`, `categories`, `editingProduct`, `message`), with methods for
  the fetches, Add/Edit/Cancel, the save handler and the delayed message
  clear. A class `ProductForm` holds the form's draft.

The checks run in the code's order: date format, then name, then quantity,
then the future date (`Validation.Validate`, `Validation.FirstFailureDecides`).
The product refresh after a save is started and not awaited; the model takes
its outcome as an input (see below).

## Model

| member | source | states |
|---|---|---|
| `Dates.ParseStrict` | src/App.js:58-62 | an accepted text denotes a real calendar date and is exactly that date's canonical `DD/MM/YYYY` text |
| `Dates.FormatThenParse` | src/App.js:58-62 | every real date with a four-digit year is accepted from its canonical text and read back unchanged |
| `Dates.ParseStrictCharacterised` | src/App.js:58-62 | the reader returns `d` if and only if `d` is a real date whose canonical text is the input |
| `Dates.DecimalValueOfDigits` | src/App.js:58 | reading a zero-padded rendering of a number gives the number back |
| `Dates.DigitsOfDecimalValue` | src/App.js:58 | rendering the value of a digit run at its own width gives the run back, so leading zeros are required |
| `Dates.LeapDay` | src/App.js:58-62 | 29 February is accepted exactly in Gregorian leap years |
| `Dates.ParseFields` | src/App.js:58-62 | on a well-shaped text the day, month and year are the values of the digit pairs and quadruple, and the result depends only on whether that date is real |
| `Dates.NoThirtyFirstOfFebruary` | src/App.js:58-62 | `31/02/2024` is rejected |
| `Dates.NoLeapDayIn2023` | src/App.js:58-62 | `29/02/2023` is rejected |
| `Dates.MalformedTexts` | src/App.js:58-62 | `1/2/2024`, `01-02-2024` and `01/02/24` are rejected |
| `Dates.LeapDayIn2024` | src/App.js:58-62 | `29/02/2024` is accepted as 29 February 2024 |
| `Dates.IsAfterIsStampOrder` | src/App.js:74 | for real dates, "later than" agrees with the numeric order of `YYYYMMDD` |
| `Validation.Validate` | src/App.js:57-77 | rejected exactly when some check fails; the reason is a failing check and no earlier check fails; accepted drafts have a strictly formatted real date, a name of at most 100 characters, a positive integer quantity and a date not after today |
| `Validation.FirstFailureDecides` | src/App.js:57-77 | the verdict is reason `r` if and only if check `r` fails and every check before it passes |
| `Validation.LongNameReported` | src/App.js:64-67 | with a readable date, a name over 100 characters is reported whatever the quantity and date value |
| `Validation.PositiveIntegerMeansAtLeastOne` | src/App.js:69-72 | the quantity rule passes exactly the integers of at least one |
| `Validation.TodayIsNotInTheFuture` | src/App.js:74-77 | a draft passing the first three checks whose date is today or earlier is accepted with that date |
| `Validation.ImpossibleDateRejected` | src/App.js:58-62 | a draft dated `31/02/2024` gets "Invalid date format. Use DD/MM/YYYY" |
| `Validation.AcceptedExampleDate` | src/App.js:58 | `01/01/2020` is read as 1 January 2020 |
| `Validation.AcceptedExample` | src/App.js:57-77 | a draft named "Shirt", quantity 5, dated `01/01/2020` is accepted |
| `Validation.FutureExample` | src/App.js:74-77 | a draft dated `01/01/2999` gets "Import date cannot be in the future" |
| `Products.WithField` | src/App.js:105-107 | the new draft holds the edited value, keeps the id, and differs from the old draft in at most the edited field |
| `Products.LastEditWins` | src/App.js:105-107 | a second edit of the same field overrides the first |
| `Products.EditsOfDifferentFieldsCommute` | src/App.js:105-107 | edits of different fields give the same draft in either order |
| `Products.ApplyEditsKeepsId` | src/App.js:105-107 | no sequence of form edits changes a draft's id |
| `Products.BlankDraftIsCreated` | src/App.js:80-84 | a draft opened by "Add" is sent as a create whatever was typed into it |
| `Products.SaveRequest` | src/App.js:80-84 | the request carries the draft; it is a replace of the draft's id exactly when that id is truthy, else a create |
| `Products.FindCategory` | src/App.js:273 | returns the index of the first category with the id, or none when no category has it |
| `Products.CategoryLabel` | src/App.js:273 | the cell is the name of the first category with the product's id, or `N/A` when there is none or that name is empty |
| `Search.LowerTextIsIdempotent` | src/App.js:44 | lowercasing an already lowercased text changes nothing |
| `Search.SameFoldedText` | src/App.js:44 | texts that differ only in letter case lowercase to the same text |
| `Search.SearchTextIgnoresCase` | src/App.js:44 | for every product, two search texts that differ only in letter case match the same way |
| `Search.ProductNameIgnoresCase` | src/App.js:44 | for every search text, two product names that differ only in letter case match the same way |
| `Search.Includes` | src/App.js:44 | true exactly when the needle occurs at some position of the text |
| `Search.OccursInTail` | src/App.js:44 | after a failed match at the front, occurrences are those of the tail shifted by one |
| `Search.EmptyTextIsEverywhere` | src/App.js:44 | the empty text occurs in every name |
| `Search.EmptyTextFilterKeepsAll` | src/App.js:42-46 | filtering by the empty text would keep every product, so the guard on a non-empty text changes no result |
| `Sequences.SubsequenceElements` | src/App.js:43-51 | everything kept by an order-preserving selection comes from the original |
| `Sequences.Filter` | src/App.js:43-51 | the result is an order-preserving subsequence, every kept element passes, and each passing element is kept as often as it occurs |
| `Sequences.FilterAll` | src/App.js:40-52 | a filter that passes every element returns the list unchanged |
| `Sequences.FilterThenFilter` | src/App.js:42-52 | two filters in a row equal one filter by their conjunction |
| `Search.HandleSearchIsFilter` | src/App.js:39-55 | the two optional filters equal one filter by the combined criterion, with empty inputs matching everything |
| `Search.SearchSoundAndComplete` | src/App.js:39-55 | the rows are an order-preserving subsequence of the products; every row matches; every matching product is shown, as often as stored |
| `Search.NoCriteriaShowsAll` | src/App.js:39-55 | with empty search text and no category the rows are the stored products |
| `Search.ShirtMatchesRedShirt` | src/App.js:44 | "shirt" and "SHIRT" both match "Red Shirt" |
| `Search.ShirtMissesBluePants` | src/App.js:44 | "shirt" does not match "Blue Pants" |
| `Search.SearchByNameExample` | src/App.js:39-55 | searching "shirt" over Red Shirt and Blue Pants shows only Red Shirt |
| `Search.SearchByCategoryExample` | src/App.js:39-55 | selecting category 2 shows only Blue Pants |
| `Search.SearchByBothExample` | src/App.js:39-55 | "shirt" with category 2 shows nothing |
| `Ordering.LowerBoundKept` | src/App.js:21 | a bound below the inserted product and all of the list bounds every element of the result |
| `Ordering.Insert` | src/App.js:21 | inserting into an ordered list keeps it ordered and adds exactly that product |
| `Ordering.SortByQuantity` | src/App.js:21 | the result is ordered by ascending quantity and is a permutation of the input |
| `Ordering.SortedIsUnchanged` | src/App.js:18-22 | an already ordered list is stored exactly as fetched |
| `Ordering.SortIsIdempotent` | src/App.js:18-22 | re-sorting a list the sort has already produced changes nothing |
| `Ordering.InsertIsStable` | src/App.js:21 | insertion keeps the relative order of products of each quantity |
| `Ordering.SortIsStable` | src/App.js:21 | products of equal quantity keep their fetched relative order |
| `Ordering.SubsequenceKeepsOrder` | src/App.js:196 | rows filtered from an ordered list are ordered |
| `App.AfterProductFetch` | src/App.js:18-27 | after a fetch the list is ordered and a permutation of the fetched data; after a failed fetch it is the previous list |
| `App.Catalog.constructor` | src/App.js:6-11 | empty lists, no open form, empty message |
| `App.Catalog.FetchProducts` | src/App.js:18-27 | stores the fetched list sorted by quantity, or keeps the old list on failure; nothing else changes |
| `App.Catalog.FetchCategories` | src/App.js:29-37 | stores the fetched categories, or keeps the old ones on failure; nothing else changes |
| `App.Catalog.Mount` | src/App.js:13-16 | the first render applies both fetches, each with its own outcome |
| `App.Catalog.Add` | src/App.js:233 | opens a form on a draft without a truthy id |
| `App.Catalog.Edit` | src/App.js:277 | opens a form on the chosen product |
| `App.Catalog.Cancel` | src/App.js:244 | closes the form and changes nothing else |
| `App.Catalog.HandleUpdate` | src/App.js:57-93 | a rejected draft sets only its check's message, sends nothing and leaves the form open; a valid draft is sent as a replace or create; on success the message is the success text, products are refreshed, the form closes and a clear is scheduled; on failure the error text is shown and the form stays open |
| `App.Catalog.ClearMessage` | src/App.js:88 | a fired timer empties the message, whatever it then says |
| `App.Catalog.FilteredProducts` | src/App.js:196 | the rows are ordered by quantity and are exactly the stored products that match the search |
| `App.Catalog.CategoryCell` | src/App.js:273 | never empty; the name of the first category with the product's id, or `N/A` when there is none or that name is empty |
| `App.ProductForm.constructor` | src/App.js:95-103 | the form starts from the product it was opened with |
| `App.ProductForm.HandleChange` | src/App.js:105-107 | the draft becomes a copy with only the edited field replaced |
| `App.FillAndSubmit` | src/App.js:105-112 | after a sequence of change events the submitted draft is the opening product with those edits applied in order |
| `App.EditAndSave` | src/App.js:57-112 | Edit, typing, then Save: a valid draft is sent as a replace of the product's id when that id is truthy, else as a create; an invalid draft sends nothing, shows its check's message and keeps the form open on the product |
| `App.AddAndSave` | src/App.js:80-112 | Add, typing, then Save: a valid draft is always sent as a create; an invalid one sends nothing and keeps the form open |
| `App.CancelledEditKeepsProducts` | src/App.js:240-246 | editing a product in the form and cancelling leaves the stored products unchanged and the form closed |

## Left out

- Rendering and styling.
- App.EditAndSave, App.AddAndSave: the browser's own checks from the form markup are not modelled: `required` on every input (src/App.js:124, :136, :148, :160, :170), `type="number"` with `min="1"` and the default step of 1 on the quantity (:154-159), and `maxLength={100}` on the name (:135). The methods model a submit that reaches the submit handler at src/App.js:109-111. Through the page, a draft with an empty field, or with a quantity below 1 or not whole, is stopped by the browser before the save handler runs. The browser shows its own tooltip, so the save handler's message for that draft never appears.
- HTTP requests: their outcomes are parameters (`Response` values, a `saved` flag); the request itself is returned by `HandleUpdate`.
- Dates.ParseStrict: stands in for the date library's strict parse; time zones and the time of day are not modelled. "Now" is today's date, and a date is in the future exactly when it is a later calendar day than today.
- Validation.Validate: the name length is counted in Unicode scalar values, not UTF-16 code units, so names with characters outside the Basic Multilingual Plane are measured differently.
- Validation.Validate: quantity is the already-coerced finite number. NaN and infinities (from non-numeric text) are not modelled; the code rejects them too.
- String-to-number coercions: `categoryId` and the selected category are integers, and the `parseInt` of the selection is not modelled. The form's select stores the id as text, which the strict comparison would then never match.
- Search.LowerText: lowercases ASCII letters only, not the full Unicode case mapping.
- Ordering.SortByQuantity: the library sort is modelled as a stable insertion sort on a sequence. The in-place sort of the response array is not modelled, since that array is not kept anywhere else.
- App.Catalog.HandleUpdate: the un-awaited product refresh after a save is applied at once, with its outcome as a parameter. Interleaving with other events is not modelled, and neither are re-entrant saves while a request is in flight.
- App.Catalog.ClearMessage: the 3000 ms timer is a counter of scheduled clears. The clock is not modelled.
- Diagnostic logging to the console.
- React remounting of the inner form component: the form component is declared inside the page component (src/App.js:95), so every change to the page's state remounts it and resets the draft to `editingProduct` (:96). Such changes include the message set by a rejected save (:60-75), a fired clear (:88) and a completed fetch (:22). The typed draft is then lost. The model's `ProductForm` keeps its draft, so when `App.EditAndSave` keeps the form open on the product, that is the product as opened, not the typed draft.
- Products.BlankDraft: "Add" opens the form on an empty object, whose untyped fields are `undefined`; the model gives them the values `""`, `0.0` and `0` of the default draft at src/App.js:96-103. Two consequences differ from the code, and both need a submission that bypasses the form's required inputs. A draft whose name was never typed makes the name check at src/App.js:64 throw, so nothing is sent and no message is shown, while the model checks the empty name and may accept the draft (and `App.AddAndSave` then promises a create). An untyped code or category is sent as `""` or `0`, where the code leaves those keys out of the request body.
