# Document approval: permissions, visibility and charts

A verified model of the logic in a small document-approval web application.
Users upload documents that carry a priority, and managers approve them. What
a user may do and see depends on an integer permission level. A charts page
summarises the documents. The model covers three pieces:

- `DocumentController` (`document_controller.dfy`). `index` maps the
  permission level to a capability list. It selects the active documents
  (`status` 1) and, for a user whose level is exactly 0, keeps only that
  user's own documents. `stats` selects the active documents. `store`
  validates the fields `name`, `description` and `priority`.
- `WebRoutes` (`web_routes.dfy`). The `/home` route has its own capability
  map, which adds `can_approve` at levels 1 and 2.
- `Graficos` (`graficos.dfy`). The charts page builds a per-relevance tally
  (priority 1 is "Baja", 2 is "Media", anything else is "Alta"). It also
  builds a twelve-slot count of approvals in the trailing twelve months, then
  reorders it into chronological order with matching month labels.
- `Model` (`model.dfy`) holds the shared entities. These are `Document`,
  `User`, `Capability` and `YearMonth`.

The controller and the route are pure, so they are modelled as functions over
a sequence of documents. The document table is the sequence of rows in the
order the query returns them. The charts page works step by step, so it is
modelled as methods with loops: `lineDataCounts` is a local array incremented
in place, and the arrays built with `push` are sequence variables that grow.
Every method is proved against specification functions (`TallyOf`,
`CountInSlot`, `CountApprovedOn`, `MonthsBefore`).

Three facts about the code shape the model:

- There are two capability maps. `/home` (`WebRoutes`) gives `can_approve` at
  levels 1 and 2. `DocumentController::index` sends a table without
  `can_approve`. Both are modelled, and `WebRoutes.HomeExtendsIndex` states
  exactly how they differ.
- `store` validates its fields and does nothing else, so only validation is
  modelled.
- The charts page labels every priority other than 1 and 2 "Alta", not just
  3, and the model does the same.

## Model

| member | source | states |
|---|---|---|
| DocumentController.Capabilities | codigo/app/Http/Controllers/DocumentController.php:20-25 | `can_see` exactly at levels 0..2, `can_create` exactly at 1 and 2, `can_edit`/`can_delete` exactly at 2, never `can_approve`, no duplicates, empty exactly for levels outside 0..2 |
| DocumentController.CapabilitiesTable | codigo/app/Http/Controllers/DocumentController.php:21-24 | the exact ordered lists, also as the string arrays sent: level 2 `["can_see", "can_create", "can_edit", "can_delete"]`, level 1 `["can_see", "can_create"]`, level 0 `["can_see"]`, any other integer `[]` |
| DocumentController.CapabilitiesNested | codigo/app/Http/Controllers/DocumentController.php:20-25 | caps(0) ⊆ caps(1) ⊆ caps(2) |
| DocumentController.Active | codigo/app/Http/Controllers/DocumentController.php:28 | a document is selected iff it is in the table with status 1; the selection is an order-preserving subsequence of the table; nothing is dropped iff every row is active |
| DocumentController.OwnedBy | codigo/app/Http/Controllers/DocumentController.php:32-34 | a document is kept iff its `user_id` is the user's id; the result is an order-preserving subsequence of the input |
| DocumentController.Index | codigo/app/Http/Controllers/DocumentController.php:15-41 | the page carries the level's capability list; every listed document is active and from the table, in table order; at level exactly 0 a document is listed iff it is active and owned by the user; at any other level the list is all active documents |
| DocumentController.LevelZeroSeesNoForeignDocument | codigo/app/Http/Controllers/DocumentController.php:31-35 | every document shown to a level-0 user has that user's id as owner |
| DocumentController.UnknownLevelSeesAllActive | codigo/app/Http/Controllers/DocumentController.php:20-35 | a level outside 0..2 gets an empty capability list and still sees every active document |
| DocumentController.Stats | codigo/app/Http/Controllers/DocumentController.php:43-52 | every returned document is active, every active document is returned, in table order |
| DocumentController.IndexKeyed | codigo/app/Http/Controllers/DocumentController.php:28-39 | the collection `index` hands over keeps each document under its position among the active documents; at level 0 a position is present iff its document is the user's, at other levels every position is present |
| DocumentController.IndexKeyedIsListExactly | codigo/app/Http/Controllers/DocumentController.php:31-39 | that collection serialises as a list iff the level is not 0 or every active document of the user comes before every other active document |
| DocumentController.IndexKeyedSkipsZero | codigo/app/Http/Controllers/DocumentController.php:31-39 | a level-0 user 5 with table `[doc of user 7, doc of user 5]` gets the collection `{1: mine}`, which is not a list, while the intended list is `[mine]` |
| DocumentController.IndexListsKeyedValues | codigo/app/Http/Controllers/DocumentController.php:28-39 | `Index`'s list holds exactly the values of the keyed collection |
| DocumentController.IndexAgreesWithStats | codigo/app/Http/Controllers/DocumentController.php:28-47 | for any level other than 0, `index` lists exactly what `stats` lists |
| DocumentController.ParseIntegerReadsDecimal | codigo/app/Http/Controllers/DocumentController.php:70 | the decimal notation of any natural number `n`, bare or after `+`, passes the `integer` rule with value `n`; after `-` it passes with value `-n` |
| DocumentController.ParseIntegerOnlyDecimal | codigo/app/Http/Controllers/DocumentController.php:70 | every text the `integer` rule accepts with value `v` is the decimal notation of `v` (bare or after `+`, when `v` ≥ 0) or `-` followed by the notation of `-v` (when `v` ≤ 0); nothing else, such as a leading zero, passes |
| DocumentController.DecimalReadsBack | codigo/app/Http/Controllers/DocumentController.php:70 | decimal notation is a canonical digit string that reads back as its number, and starts with `0` only for 0 |
| DocumentController.CanonicalIsDecimal | codigo/app/Http/Controllers/DocumentController.php:70 | every canonical digit string is the decimal notation of its value |
| DocumentController.ValidateStore | codigo/app/Http/Controllers/DocumentController.php:67-71 | accepted iff name is present text of at most 50 characters, description is present text of at most 255, and priority is a present integer in 1..3, with the accepted fields equal to the inputs; otherwise refused with a non-empty error set that names each failing field and no other |
| DocumentController.MissingNameRejected | codigo/app/Http/Controllers/DocumentController.php:68 | a request without a name is refused and `name` is among the errors |
| DocumentController.PriorityTexts | codigo/app/Http/Controllers/DocumentController.php:70 | a non-blank text passes the priority rules iff it is one of "1", "2", "3", "+1", "+2", "+3" |
| WebRoutes.HomeCapabilities | codigo/routes/web.php:17-22 | `can_see` exactly at 0..2, `can_create` and `can_approve` exactly at 1 and 2, `can_edit` and `can_delete` only at 2, no duplicates, empty exactly outside 0..2 |
| WebRoutes.HomeCapabilitiesTable | codigo/routes/web.php:18-21 | the exact ordered lists, also as the string arrays sent: level 2 `["can_see", "can_create", "can_edit", "can_delete", "can_approve"]`, level 1 `["can_see", "can_create", "can_approve"]`, level 0 `["can_see"]`, others `[]` |
| WebRoutes.HomeCapabilitiesNested | codigo/routes/web.php:17-22 | caps(0) ⊆ caps(1) ⊆ caps(2) for the `/home` map |
| WebRoutes.HomeExtendsIndex | codigo/routes/web.php:17-22 | at every level the `/home` list is the `index` list followed by `can_approve` at levels 1 and 2, and equal to it at every other level |
| WebRoutes.HomeAgreesWithIndexExceptApprove | codigo/routes/web.php:17-22 | the two maps grant every capability other than `can_approve` at exactly the same levels |
| Graficos.RelevanceOf | codigo/resources/js/Pages/Graficos.tsx:12 | priority 1 is "Baja", 2 is "Media", every other integer is "Alta" |
| Graficos.TallyOfCounts | codigo/resources/js/Pages/Graficos.tsx:11-15 | the reduce gives distinct keys that match the count map; a key is present iff some document has that relevance; each count is the number of such documents and at least 1; the values sum to the number of documents |
| Graficos.TallyKeysInFirstOccurrenceOrder | codigo/resources/js/Pages/Graficos.tsx:11-15 | the reduce's keys are ordered by the position of the first document carrying each |
| Graficos.FirstIndex | codigo/resources/js/Pages/Graficos.tsx:11-15 | the position of the first document with a relevance: that document has it and no earlier one does |
| Graficos.RelevanceCounts | codigo/resources/js/Pages/Graficos.tsx:11-15 | the loop computes the reduce; it returns the keys, ordered by first occurrence, and the counts, with the same properties |
| Graficos.DoughnutData | codigo/resources/js/Pages/Graficos.tsx:17-25 | labels and data have equal length; each relevance that occurs is labelled exactly once and no other, in order of first occurrence; each value is the number of documents with its label and at least 1; the values sum to the number of documents |
| Graficos.WindowIsTrailingYear | codigo/resources/js/Pages/Graficos.tsx:38-42 | the two-branch year/month test holds iff the approval month is 0 to 11 months before the current month |
| Graficos.SlotContribution | codigo/resources/js/Pages/Graficos.tsx:32-44 | wherever a document stands in the list, it adds one to slot `m` iff it was approved in month `m` of the window; a document without an approval date adds nothing |
| Graficos.LineDataCounts | codigo/resources/js/Pages/Graficos.tsx:27-44 | twelve non-negative slots; slot `m` counts the documents approved in month `m` of the window; the slots sum to the number of documents approved in the window |
| Graficos.SlotIsItsMonth | codigo/resources/js/Pages/Graficos.tsx:38-42 | for a month inside the window, its slot counts exactly the documents approved in that calendar month and year |
| Graficos.MonthsBeforeNumber | codigo/resources/js/Pages/Graficos.tsx:49 | normalising `(year, month - k)` as the `Date` constructor does lands exactly `k` months earlier |
| Graficos.MonthsBeforeInWindow | codigo/resources/js/Pages/Graficos.tsx:48-51 | for `k` in 0..11 the month `k` months back lies in the window, in this year when `k` ≤ the current month and in the previous year otherwise |
| Graficos.SlotOrder | codigo/resources/js/Pages/Graficos.tsx:47-51 | twelve entries, entry `i` is the month number `i` months ago; the entries are distinct and cover 0..11 (a permutation) |
| Graficos.Reorder | codigo/resources/js/Pages/Graficos.tsx:52-56 | entry `i` of `orderLineDataCounts` is the slot named by label `i` |
| Graficos.DateLabels | codigo/resources/js/Pages/Graficos.tsx:58-62 | twelve labels, label `i` naming the month (counted from 1) and year `i` months ago |
| Graficos.LabelOf | codigo/resources/js/Pages/Graficos.tsx:61 | a label's month is in 1..12 |
| Graficos.Reversed | codigo/resources/js/Pages/Graficos.tsx:64-70 | reversal keeps the length and puts element `|s|-1-i` at position `i` |
| Graficos.ReorderIsRotation | codigo/resources/js/Pages/Graficos.tsx:47-69 | permuting by the label order and reversing is the rotation that starts after the current month and ends with it |
| Graficos.RotationKeepsCounts | codigo/resources/js/Pages/Graficos.tsx:54-69 | that rotation is a rearrangement: the multiset of counts is unchanged |
| Graficos.RotationKeepsTotal | codigo/resources/js/Pages/Graficos.tsx:54-69 | that rotation keeps the sum of the counts |
| Graficos.ChartCountsAreMonths | codigo/resources/js/Pages/Graficos.tsx:52-69 | after reordering the slots by the label order and reversing, position `j` holds the approvals of the month `11 - j` months ago, and the total is unchanged |
| Graficos.LineData | codigo/resources/js/Pages/Graficos.tsx:27-75 | twelve labels and twelve counts; label `j` and count `j` both belong to the month `11 - j` months ago, so the first pair is 11 months back and the last is the current month; count `j` is the number of documents approved in exactly that month; the counts sum to the approvals in the window |
| Graficos.ChartMonthsConsecutive | codigo/resources/js/Pages/Graficos.tsx:58-70 | consecutive chart positions are consecutive calendar months, and position 11 is the current month |

## Findings

| source | as written | input that shows it | evidently intended | confidence | as-written member | corrected member |
|---|---|---|---|---|---|---|
| codigo/app/Http/Controllers/DocumentController.php:31-39 | at level 0 the filtered collection keeps its original keys, so it is sent as a JSON object whenever the user's first document is not the first active one; `documents.length` in codigo/resources/js/Pages/Dashboard.tsx:19 is then undefined and the page shows no documents | level-0 user 5, active table `[doc of user 7, doc of user 5]`: the collection is `{1: doc of user 5}` | the user's documents as a list (`filter(...)->values()`) | not executed | DocumentController.IndexKeyedSkipsZero, DocumentController.IndexKeyedIsListExactly | DocumentController.Index, DocumentController.IndexListsKeyedValues |

## Left out

- Framework plumbing. Database queries, Inertia rendering, authentication and
  sessions are not modelled. The table is a sequence of `Document` values, and
  the user is `(id, permissions)`.
- Row order. The queries have no `orderBy`, so the model takes the table's
  order as given. The keys that `Collection::filter` keeps are modelled by
  `IndexKeyed` (see Findings); `Index` is its renumbered list, the values in
  key order. JSON encoding itself is reduced to the predicate `IsList`.
- Permission level type. `match` and `===` compare strictly. The model assumes
  the level arrives as an integer. A level that arrived as the string "0"
  would fall through to the default branch, and that case is not modelled.
- `show`, `edit`, `update`, `destroy` and `create`. In the controller these
  are empty methods. `approve`, `documents`, `indexJson` and `showJson` are
  referenced by routes and tests but are not part of this model, so grouping,
  approval, soft delete and update are not modelled.
- `store` side effects. The method validates and then does nothing, so only
  the validation result is modelled. Error messages are reduced to the set of
  failing fields.
- DocumentController.ParseInteger: does not model the surrounding whitespace
  that PHP's integer filter tolerates, or its 64-bit range. Float inputs are
  treated as non-integers (`Other`), although the filter accepts integral
  floats.
- DocumentController.ValidateStore: booleans are `Other` and refused as a
  priority. In the source the integer filter reads `true` as 1 and the size
  rules then measure the text "1", so a JSON `true` priority is accepted; the
  form in the UI always sends text, so the model leaves this case out.
- DocumentController.ValidateStore: the `max` rules count characters as
  `seq<char>` elements. Multibyte length is not modelled separately.
- Dates. JavaScript `Date` parsing, time zones and invalid date strings are
  abstracted: an approval date is `Option<YearMonth>`, and "now" is a
  parameter. An unparsable date, or an empty `date_approved`, is `None`. In the
  source it also contributes nothing.
- Graficos.MonthsBefore: does not reproduce the `Date` constructor's mapping of
  years 0..99 to 1900..1999, because the current year never falls there.
- Graficos.DateLabels: the label is the pair (month counted from 1, year). The
  string formatting `"m / yyyy"` is not modelled.
- Graficos.LineData: `reverse()` reverses the arrays in place. Here the arrays
  are sequence values and reversal is the function `Reversed`. No other
  reference to these arrays exists, so aliasing plays no part.
- Chart.js configuration, colours and the rendered markup are not modelled.
  Neither are the UI components, seeders and factories.
