# IvoireDocs request engine — a Dafny model

IvoireDocs is a web application for requesting civil-status documents in Côte d'Ivoire: a
citizen picks a document (birth or marriage certificate, criminal record, nationality
certificate), a city and a number of copies, fills in the document's required fields and
submits; a delegate then fetches the document. This project models the logic behind those
pages and proves what it promises:

- `Documents` (src/utils/documents.ts): the four-entry document catalog, the list of cities,
  the three per-city coefficient tables with their defaults, and the price, delegate-share and
  completion-time formulas. Multipliers are integer tenths (1.2 is 12) and `Math.round` is
  written out as `floor(x + 1/2)`; the price is proved to be exact (base prices are multiples
  of 10), the share is proved to be the nearest integer to 60% of the total, and the
  completion offset is a whole number of hours truncated as `setHours` truncates.
- `NewRequest` (src/pages/requests/NewRequestPage.tsx): the form state and its handlers, the
  `validateForm` loop (a method proved equal to the function `Validate`), the record inserted
  on submit, the copies parser and the price recap.
- `RequestList` (src/pages/requests/RequestsPage.tsx): the search / status / document filter,
  the per-status counts, the "En cours" and "Total dépensé" tiles, and the status label and
  badge lookups.
- `Dashboard` (src/pages/dashboard/DashboardPage.tsx): the statistics computed from the ten
  most recent requests and the "À noter" tile. Its `getStatusText` and `getStatusColor` are
  identical, character for character, to the request list's, so they are defined once, in
  `RequestList`.
- `ToastQueue` (src/stores/toast.ts): the notification store as a class `ToastStore` whose
  `toasts` field is replaced by `AddToast`, `RemoveToast` and `ClearAllToasts`, plus the four
  `toast.*` helpers. The id the store generates is a parameter.
- `ServiceGroups` (src/pages/ServicesPage.tsx): the grouping of the catalog by service.
- Support modules: `Types` (the enumerations and records of src/types/index.ts), `Wrappers`
  (`Option`), `Seqs` (an order-preserving `Filter` and its laws) and `JsText` (the JavaScript
  string operations the pages use: `trim`, `toLowerCase`, `includes`, `replace` with a
  one-character pattern, `parseInt`).

Rows fetched from the data store keep `document_type` and `status` as raw strings, because
the pages handle values outside the enumerations (the label falls back to the raw status; a
row with an unknown document type can still match by city). Time is milliseconds since the
epoch, and the current instant is a parameter.

## Model

| member | source | states |
|---|---|---|
| Types.ParseDocumentType | src/types/index.ts:59-63 | reading a document-type tag gives the type with that tag, and None exactly when no type has it |
| Types.DocumentTypeKeyRoundTrip | src/types/index.ts:59-63 | every document type's tag reads back as that type |
| Types.ParseStatus | src/types/index.ts:70-75 | reading a status tag gives the status with that tag, and None exactly when no status has it |
| Types.StatusKeyRoundTrip | src/types/index.ts:70-75 | every status's tag reads back as that status |
| Documents.Config | src/utils/documents.ts:4-37 | each document type's entry has that type, a positive base price that is a multiple of 10, a positive processing time and at least one required field |
| Documents.CatalogFigures | src/utils/documents.ts:4-37 | base prices are 2000, 2500, 3000 and 5000 and processing times 24, 24, 72 and 48 hours |
| Documents.AllConfigs | src/utils/documents.ts:4-37 | `Object.values(DOCUMENT_CONFIGS)` lists the four entries in declaration order |
| Documents.CatalogListsEachTypeOnce | src/utils/documents.ts:4-37 | every document type's entry is in the list, and no two entries share a type |
| Documents.LookupConfig | src/pages/requests/RequestsPage.tsx:105 | looking a string up in the catalog gives the entry whose tag it is, or None when no type has that tag |
| Documents.LookupConfigOfKey | src/pages/requests/RequestsPage.tsx:105 | looking up a type's own tag finds that type's entry |
| Documents.ServiceLabelsDistinct | src/utils/documents.ts:54-58 | the three services have three different display names |
| Documents.CityTablesCoverCities | src/utils/documents.ts:40-51 | the ten cities are distinct and are exactly the keys of each of the three coefficient tables |
| Documents.CityMultiplierTenths | src/utils/documents.ts:83-98 | every multiplier is at least 1.0, a city not in the list gets 1.2, and only Abidjan gets 1.0 |
| Documents.ShippingCost | src/utils/documents.ts:101-116 | every shipping fee is at least 1000, a city not in the list pays 2000, and only Abidjan pays 1000 |
| Documents.DelayMultiplierTenths | src/utils/documents.ts:143-157 | every delay multiplier is at least 1.0, a city not in the list gets 1.3, and only Abidjan gets 1.0 |
| Documents.RoundTenths | src/utils/documents.ts:79 | `Math.round(x / 10)`: the result is within half a unit of x / 10, ties upward |
| Documents.CalculatePrice | src/utils/documents.ts:61-80 | price minus the city's shipping fee is exactly base price × city multiplier × copies: the final rounding changes nothing |
| Documents.PriceExamples | src/utils/documents.ts:61-116 | a birth certificate to Abidjan costs 3000, a criminal record to Man 7500, a marriage certificate to an unlisted city 5000 |
| Documents.PriceMonotoneInCopies | src/utils/documents.ts:73-79 | more copies never cost less |
| Documents.PriceVersusShipping | src/utils/documents.ts:73-79 | zero copies cost exactly the shipping fee; one or more copies cost strictly more |
| Documents.PriceAtLeastAbidjan | src/utils/documents.ts:84-95 | for any non-negative number of copies, no city is cheaper than Abidjan |
| Documents.CalculateDelegateEarnings | src/utils/documents.ts:119-123 | the share is the integer nearest to 60% of the total (never a tie) |
| Documents.EarningsWithinTotal | src/utils/documents.ts:119-123 | for a non-negative total the share is between 0 and the total |
| Documents.EarningsExample | src/utils/documents.ts:119-123 | a total of 7500 gives the delegate 4500 |
| Documents.DelayHours | src/utils/documents.ts:130-135 | the delay is processing time × delay multiplier truncated to whole hours, and never less than the processing time |
| Documents.EstimateCompletionTime | src/utils/documents.ts:126-141 | the estimate is the current instant plus that truncated number of whole hours |
| Documents.DelayAtLeastAbidjan | src/utils/documents.ts:144-155 | no city is estimated to finish earlier than Abidjan |
| Documents.EstimateExample | src/utils/documents.ts:126-157 | a criminal record to Korhogo takes 108 hours |
| NewRequest.InitialStateShowsNothing | src/pages/requests/NewRequestPage.tsx:27-40 | the fresh form is at step 1 with one copy, fails on the missing document, has price 0, no recap and no estimate |
| NewRequest.SelectDocument | src/pages/requests/NewRequestPage.tsx:42-49 | choosing a document sets the type, empties the fields, keeps city and copies, and moves to step 2 |
| NewRequest.SetField | src/pages/requests/NewRequestPage.tsx:51-59 | setting a field stores its value, adds only that key, and changes no other key and nothing else in the form |
| NewRequest.SetCity | src/pages/requests/NewRequestPage.tsx:225 | choosing a city changes the city and nothing else |
| NewRequest.ParseCopies | src/pages/requests/NewRequestPage.tsx:245 | the copies read from the input are never 0 |
| NewRequest.ParseCopiesReadsBack | src/pages/requests/NewRequestPage.tsx:245 | any non-zero count, negative ones and ones above 10 included, is read back as itself by the exact-integer `parseInt` (JavaScript agrees up to 2^53) |
| NewRequest.ParseCopiesDefaults | src/pages/requests/NewRequestPage.tsx:245 | an empty input and "0" both become 1 |
| NewRequest.SetCopies | src/pages/requests/NewRequestPage.tsx:245 | the new count is the parsed input (its `parseInt` value, or 1 when that is NaN or 0), so never 0, and nothing else changes |
| NewRequest.ValidateForm | src/pages/requests/NewRequestPage.tsx:61-80 | the loop with early returns decides exactly what `Validate` does |
| NewRequest.FirstMissingIsFirst | src/pages/requests/NewRequestPage.tsx:73-78 | no field is reported iff all are filled; a reported field is unfilled and every field before it is filled |
| NewRequest.FirstMissingIgnoresOtherKeys | src/pages/requests/NewRequestPage.tsx:73-78 | two forms that agree on the listed fields get the same report |
| NewRequest.ValidIff | src/pages/requests/NewRequestPage.tsx:61-80 | the form passes iff a document and a city are chosen and every required field is non-blank after trimming |
| NewRequest.ValidateOrder | src/pages/requests/NewRequestPage.tsx:61-69 | a missing document is reported first, then a missing city, and a field only when both are set |
| NewRequest.ValidateReportsFirstMissing | src/pages/requests/NewRequestPage.tsx:72-79 | the reported field is the first required field, in catalog order, that is absent or blank |
| NewRequest.ExtraFieldsIgnored | src/pages/requests/NewRequestPage.tsx:72-79 | setting a key the chosen document does not require never changes the verdict |
| NewRequest.SelectDocumentThenValidate | src/pages/requests/NewRequestPage.tsx:42-80 | right after choosing a document the form fails on the city, or else on the document's first required field |
| NewRequest.Submission | src/pages/requests/NewRequestPage.tsx:82-110 | a record is built iff the form validates and a user is signed in; it carries the catalog's service, the computed price, `calculateDelegateEarnings` of that price, the form's fields and status new |
| NewRequest.SubmissionAmounts | src/pages/requests/NewRequestPage.tsx:90-107 | a submitted record with at least one copy costs more than shipping, and the delegate's share lies between 0 and the total |
| NewRequest.FilledByVisibleValue | src/pages/requests/NewRequestPage.tsx:74 | a value starting with a non-blank character counts as filled |
| NewRequest.NegativeCopiesAreSubmitted | src/pages/requests/NewRequestPage.tsx:82-110 | validation ignores the copy count: a filled-in birth-certificate form for -1 copies at Abidjan is submitted with a total of -1000 |
| NewRequest.EstimatedPrice | src/pages/requests/NewRequestPage.tsx:37-38 | the live price is 0 until a document and a city are chosen, then the catalog price |
| NewRequest.EstimatedTime | src/pages/requests/NewRequestPage.tsx:39-40 | an estimate exists iff a document and a city are chosen; it is then `estimateCompletionTime` of that document and city at the current instant, so at least the processing time away |
| NewRequest.Recap | src/pages/requests/NewRequestPage.tsx:251-268 | the recap is shown iff the price is positive; whatever the city, its shipping line is 1000 and its document line the total less 1000, so the two sum to the total |
| NewRequest.RecapShown | src/pages/requests/NewRequestPage.tsx:251 | with a document, a city and at least one copy, the recap is shown |
| NewRequest.RecapSplitRightOnlyForAbidjan | src/pages/requests/NewRequestPage.tsx:258-265 | the shipping line, and so the document line, is right iff the city is Abidjan |
| NewRequest.CorrectedRecap | src/pages/requests/NewRequestPage.tsx:251-268 | with the city's own fee on the shipping line, the document line is exactly base price × multiplier × copies |
| NewRequest.RecapKorhogoExample | src/pages/requests/NewRequestPage.tsx:258-265 | one criminal record to Korhogo shows 5700 + 1000 where the real split is 4200 + 2500 |
| RequestList.FilteredRequests | src/pages/requests/RequestsPage.tsx:103-114 | the filtered list is an order-preserving subsequence, a request is in it iff it matches the search, the status filter and the document filter, and a matching request is kept as many times as it occurs |
| RequestList.NoFilterListsAll | src/pages/requests/RequestsPage.tsx:104-111 | an empty search with both filters on 'all' lists every request |
| RequestList.UnknownDocumentMatchesByCity | src/pages/requests/RequestsPage.tsx:104-108 | a request whose document type is not in the catalog matches the search iff the search is empty or its city contains the term, ignoring case |
| RequestList.CountsOf | src/pages/requests/RequestsPage.tsx:116-123 | 'all' is the number of requests, each of the five counts is the number of requests with that status, and together they never exceed 'all' |
| RequestList.CountIsFilteredLength | src/pages/requests/RequestsPage.tsx:178-183 | the count shown next to a status option is the length of the list that option selects (with an empty search) |
| RequestList.StatusTally | src/pages/requests/RequestsPage.tsx:116-123 | the five status counts sum to the number of requests with a known status |
| RequestList.StatusCountsPartition | src/pages/requests/RequestsPage.tsx:116-123 | when every status is one of the five, the five counts sum to 'all' |
| RequestList.UnderwayTile | src/pages/requests/RequestsPage.tsx:324 | the "En cours" tile counts the requests that are assigned or in progress |
| RequestList.UnderwayTally | src/pages/requests/RequestsPage.tsx:324 | assigned + in_progress is the number of requests in either status, new ones excluded |
| RequestList.SumAmountsAppend | src/pages/requests/RequestsPage.tsx:333 | the sum of amounts over two lists is the sum of the two sums |
| RequestList.TotalSpent | src/pages/requests/RequestsPage.tsx:333 | the running `reduce` equals the sum of amounts over the completed requests only |
| RequestList.TotalSpentIgnoresOthers | src/pages/requests/RequestsPage.tsx:333 | a request that is not completed adds nothing to the total spent |
| RequestList.StatusText | src/pages/requests/RequestsPage.tsx:66-75 | a known status shows its French label; any other string is shown unchanged |
| RequestList.StatusColor | src/pages/requests/RequestsPage.tsx:77-90 | the badge is gray iff the status is new or unknown; completed is green, cancelled red, in_progress blue and assigned yellow |
| RequestList.StatusColorsDistinct | src/pages/requests/RequestsPage.tsx:77-90 | the five statuses get five different badges |
| Dashboard.RecentRows | src/pages/dashboard/DashboardPage.tsx:55-56 | the query returns the first 10 of the newest-first rows, or all of them when there are fewer |
| Dashboard.ComputeStats | src/pages/dashboard/DashboardPage.tsx:63-73 | with no data every figure is 0; otherwise the total is the number of rows and completed counts the completed ones |
| Dashboard.TotalWithinLimit | src/pages/dashboard/DashboardPage.tsx:56-63 | the dashboard total is at most 10 |
| Dashboard.PendingIsNewAssignedInProgress | src/pages/dashboard/DashboardPage.tsx:64 | pending is exactly new + assigned + in progress |
| Dashboard.StatsPartition | src/pages/dashboard/DashboardPage.tsx:63-66 | when every status is one of the five, total = pending + completed + cancelled |
| Dashboard.ToRateTile | src/pages/dashboard/DashboardPage.tsx:216 | the "À noter" tile equals the completed count |
| ToastQueue.WithId | src/stores/toast.ts:23 | the stored toast carries the given fields and the generated id |
| ToastQueue.WithoutId | src/stores/toast.ts:27-31 | removal keeps an order-preserving subsequence holding exactly the toasts with another id, each as many times as it occurred |
| ToastQueue.RemoveAbsentIsNoop | src/stores/toast.ts:27-31 | removing an id no toast has leaves the list unchanged |
| ToastQueue.RemoveIdempotent | src/stores/toast.ts:27-31 | removing an id twice is removing it once |
| ToastQueue.AddThenRemoveRestores | src/stores/toast.ts:20-31 | adding a toast with a fresh id and removing that id restores the list |
| ToastQueue.ToastStore.constructor | src/stores/toast.ts:18 | the queue starts empty |
| ToastQueue.ToastStore.AddToast | src/stores/toast.ts:20-25 | the new toast is appended after all the earlier ones, which are unchanged |
| ToastQueue.ToastStore.RemoveToast | src/stores/toast.ts:27-31 | the new list is the old one without the toasts with that id |
| ToastQueue.ToastStore.ClearAllToasts | src/stores/toast.ts:33-35 | the list is empty afterwards |
| ToastQueue.Success | src/stores/toast.ts:40-47 | appends one success toast with the given title, message and duration |
| ToastQueue.Error | src/stores/toast.ts:49-56 | appends one error toast with the given title, message and duration |
| ToastQueue.Warning | src/stores/toast.ts:58-65 | appends one warning toast with the given title, message and duration |
| ToastQueue.Info | src/stores/toast.ts:67-74 | appends one info toast with the given title, message and duration |
| ServiceGroups.GroupDocuments | src/pages/ServicesPage.tsx:13-32 | a group holds exactly the catalog entries of its service |
| ServiceGroups.GroupContents | src/pages/ServicesPage.tsx:18-30 | mairie = [birth, marriage], sous_prefecture = [nationality], justice = [criminal record], in catalog order |
| ServiceGroups.GroupsPartitionCatalog | src/pages/ServicesPage.tsx:13-32 | an entry is in a group iff its service is that group's |
| ServiceGroups.GroupsCoverCatalog | src/pages/ServicesPage.tsx:13-32 | the groups, shown in the order mairie, sous_prefecture, justice, hold the four entries between them |
| JsText.TrimStart | src/pages/requests/NewRequestPage.tsx:74 | `trimStart` drops a leading run of white space only, and what is left starts with a non-white-space character |
| JsText.TrimEnd | src/pages/requests/NewRequestPage.tsx:74 | `trimEnd` drops a trailing run of white space only, and what is left ends with a non-white-space character |
| JsText.TrimEmptyIffAllWhitespace | src/pages/requests/NewRequestPage.tsx:74 | `trim()` yields the empty string iff every character is JavaScript white space |
| JsText.ToLower | src/pages/requests/RequestsPage.tsx:105-108 | lower-casing keeps the length and lowers each character on its own |
| JsText.ReplaceFirstChangesFirstOccurrence | src/pages/requests/NewRequestPage.tsx:75 | `replace('_', ' ')` changes the first underscore only |
| JsText.ParseIntEmpty | src/pages/requests/NewRequestPage.tsx:245 | `parseInt` of the empty input is `NaN` |
| JsText.ParseIntDecimalString | src/pages/requests/NewRequestPage.tsx:245 | the exact-integer `parseInt` of any integer's decimal text gives that integer back (JavaScript's double result agrees up to 2^53) |

## Left out

- Data-store I/O: the fetches behind the request list and the dashboard, the insert in `handleSubmit`, and the session store are network calls; the model takes the fetched rows as input and returns the record to insert.
- Rendering, routing, icons and the static marketing pages: display only.
- The auto-close timers and animations of the toast component: timing and concurrency.
- The wall clock: `new Date()` is a parameter `now`; the local time zone, daylight saving and the `Date` range are not modelled, and locale formatting of amounts and dates is left out.
- Floating point: multipliers are exact tenths and the model's price is the exact one. For copy counts of realistic size (well below 10^11) the double rounding error of products such as 2000 × 1.1 is far below one half and the page computes the same price; for very large counts, which `parseInt` lets through, the double products and sums lose integer precision and the page's price drifts away from the model's by an amount that grows with the count (36 FCFA for 10^15 birth certificates to Bouaké: 2200000000000001536 against the exact 2200000000000001500).
- JsText.ToLower: only ASCII and Latin-1 capitals are folded; the rest of Unicode case mapping is not modelled.
- Object-prototype keys: a string named like an inherited property (for example "toString") would hit `Object.prototype` in the three coefficient tables (src/utils/documents.ts:84-97, 102-115, 144-157), in `statusMap[...]` (src/pages/requests/RequestsPage.tsx:74) and in `DOCUMENT_CONFIGS[...]?.` inside the filter (src/pages/requests/RequestsPage.tsx:105); the model looks each of them up in a finite table, so no inherited key is ever found.
- Status transitions after creation: no modelled file implements them.
- Documents.CalculateDelegateEarnings: its comment says the 60% share excludes shipping, but the code, and the inline copy in `handleSubmit`, take 60% of the full total; the model follows the code.
- Documents.CalculatePrice: the default `copies = 1` is not modelled; every caller passes copies.
- Toast id generation (clock plus random digits): the id is a parameter, and `AddThenRemoveRestores` asks for it to be fresh.
- NewRequest.ValidateForm: the check `if (!selectedDocConfig) return false` cannot fire once a document is chosen, so it has no branch; the error banner text (`ErrorMessage`) has no contract of its own.
- NewRequest.Submission: the loading flag, the error banner, the success and failure toasts and the navigation after the insert are side effects of `handleSubmit` left out; a failed insert is not modelled.
- NewRequest.ParseCopies: a number input hands over a plain decimal number or the empty string; `parseInt` is modelled more broadly (leading white space, one sign, a `0x` prefix, and digits stopping at the first non-digit, so `1e5` gives 1), but radix arguments are not. JavaScript's `parseInt` returns a double, so counts above 2^53 are rounded to the nearest double ("9007199254740993" reads as 9007199254740992); the model's `parseInt` is exact, so ParseCopiesReadsBack and JsText.ParseIntDecimalString match JavaScript only for magnitudes up to 2^53.
- The descriptive texts and feature list of the services page are display only.
- The request list's `getStatusIcon` is display only.

## Findings

| source | as written | input that shows it | evidently intended | confidence | as-written member | corrected member |
|---|---|---|---|---|---|---|
| src/pages/requests/NewRequestPage.tsx:258-265 | the recap's shipping line is a fixed "1 000 FCFA" and the document line is the total less 1000, whatever the city | one criminal record to Korhogo: shown 5700 + 1000, real split 4200 + 2500 | the shipping line shows the city's own fee and the document line the price of the copies | medium, not executed | NewRequest.RecapKorhogoExample | NewRequest.CorrectedRecap |
