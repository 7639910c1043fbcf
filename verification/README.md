# Logbook client core, modelled in Dafny

The logbook client keeps a list of activity entries (`LogbookEntry`: `no`,
`tanggal`, `modul_fitur`, `aktivitas`, `detail_teknis`, `kendala`,
`solusi`, `status`, `pic`). It reloads the whole list from the server after
every successful change, derives a searched and status-filtered view and a
list of status options from it, exports the view as CSV, and edits entries
through a validated form. This project models that logic:

- `options.dfy` (`Options`): the `null`/`undefined` payload field as `Option`.
- `text.dfy` (`Text`): the JavaScript string operations the code uses.
  These are ASCII `toLowerCase`, `trim` with the ECMAScript white-space set,
  `includes`, `join` and `split` on one character, and the decimal text of
  an integer. Each comes with an independent characterisation or a round trip.
- `seqs.dfy` (`Seqs`): `filter` and `Array.from(new Set(...))`. Their
  contracts state order, multiplicity, distinctness and first-seen order.
- `logbook.dfy` (`Logbook`): the entry record and the normalisation of a
  list payload.
- `view.dfy` (`LogbookView`): `filteredEntries` and `uniqueStatuses`.
- `csv.dfy` (`CsvExport`): the CSV text of the export and a naive reader
  that reads it back.
- `form.dfy` (`LogbookForm`): the form's initial values, `handleChange`,
  `validate` and `handleSubmit`.
- `sync.dfy` (`LogbookSync`): the list, create, update and delete handlers
  as a state machine. Each network round trip is an input: `Ok` with its
  payload, a non-ok response, or an exception. The state keeps the trace of
  round trips, so that "the list always equals what the last list read
  left" is an invariant of every event sequence (`RunMirrors`).

Notes on behaviour the model follows from the code:

- An update whose response is not ok is handled like a success, apart from
  an extra error toast (`src/app/App.tsx:122-131`). The handler shows the
  server message as an error and then as a success, reloads the list and
  closes the form. Only an exception skips the reload.
- The form calls `onClose` as soon as `onSubmit` resolves. Both App
  handlers catch every error, so a valid submit always closes the form,
  even when the create or update failed (`SubmitAlwaysCloses`). The create
  handler's own "keep the form open on failure" branch is therefore not
  visible through the form.
- The code has no date sorting and no pagination. `page` and `limit` are
  never changed (`src/app/App.tsx:32-33`) and are only forwarded in the
  list request (`src/app/App.tsx:40`). The table shows the filtered view in
  list order.
- The export wraps each value in double quotes without escaping. Values
  holding a comma or a line feed break the row structure.
  `ExportRoundTrip` therefore assumes values without those two characters.
  Embedded quotes do not disturb the naive reader.

## Model

| member | source | states |
|---|---|---|
| Logbook.NormalDate | src/app/App.tsx:50 | the kept date is the payload's date when it is present and non-empty, otherwise the clock reading |
| Logbook.Normalize | src/app/App.tsx:48-58 | `no` defaults to 0 and every text field to the empty string exactly when absent; present values are kept as they are |
| Logbook.NormalizeAll | src/app/App.tsx:48-58 | a missing `data` gives the empty list; otherwise one entry per item, same length, same order |
| Logbook.NormalizeAllStable | src/app/App.tsx:48-58 | normalising a payload that echoes an already normalised list returns that list, whatever the clock reads |
| Options.Option.GetOr | src/app/App.tsx:49-57 | `x ?? fallback` is the value when present and the fallback exactly when absent |
| Text.Lower | src/app/App.tsx:204-209 | lower-casing keeps the length and folds each character on its own, leaving non-letters unchanged |
| Text.Contains | src/app/App.tsx:206-209 | `includes` is true exactly when the term occurs at some position of the text |
| Text.EmptyOccursEverywhere | src/app/App.tsx:204-209 | the empty search term occurs in every text |
| Text.LowerIdempotent | src/app/App.tsx:204-209 | lower-casing twice is lower-casing once |
| Text.Trim | src/app/components/LogbookForm.tsx:62-66 | the trimmed text is a piece of the input with no white space at either end, and it is empty exactly when the input is all white space |
| Text.LeadingSpace | src/app/components/LogbookForm.tsx:62-66 | `trim` drops exactly the white space before the first non-space character |
| Text.TrailingSpace | src/app/components/LogbookForm.tsx:62-66 | `trim` drops exactly the white space after the last non-space character |
| Text.TrimEmptyIff | src/app/components/LogbookForm.tsx:62-66 | the leading and trailing white space cover the whole text exactly when it is all white space |
| Text.Join | src/app/App.tsx:186-188 | joining no pieces gives the empty text and joining one piece gives that piece, with no separator added |
| Text.JoinStartsWithFirst | src/app/App.tsx:185-188 | a joined text starts with the first piece |
| Text.JoinEndsWithLast | src/app/App.tsx:185-188 | a joined text ends with the last character of a non-empty last piece |
| Text.Split | src/app/App.tsx:185-188 | a text without the separator splits into itself alone |
| Text.SplitJoin | src/app/App.tsx:185-188 | splitting a join gives the pieces back when no piece holds the separator |
| Text.JoinSplit | src/app/App.tsx:185-188 | joining the pieces of a split gives the text back, for every text |
| Text.JoinAvoids | src/app/App.tsx:185-188 | a join holds a character other than the separator only if some piece does |
| Text.IntToString | src/app/App.tsx:174 | the text of `no` in a CSV row is non-empty and made of digits and a minus sign only |
| Text.ParseIntToString | src/app/App.tsx:174 | reading back the decimal text of `no` gives `no` |
| Seqs.FilterSeq | src/app/App.tsx:203 | `filter` returns an order-preserving subsequence holding exactly the passing elements, each as often as in the input |
| Seqs.FilterKeepsAll | src/app/App.tsx:203 | when every element passes, `filter` returns its input |
| Seqs.FilterIdempotent | src/app/App.tsx:203 | filtering a filtered sequence again with the same predicate changes nothing |
| Seqs.FilterCongruent | src/app/App.tsx:203 | predicates that agree on the elements filter alike |
| Seqs.IndexOf | src/app/App.tsx:217-218 | the first position holding the element, with no earlier occurrence |
| Seqs.IndexOfAppend | src/app/App.tsx:217-218 | appending an element does not move earlier first occurrences |
| Seqs.Dedup | src/app/App.tsx:217-218 | `Array.from(new Set(xs))` has no duplicates and holds exactly the elements of `xs` |
| Seqs.DedupFirstSeenOrder | src/app/App.tsx:217-218 | the distinct elements come in the order of their first occurrence |
| Seqs.FilterKeepsNoDup | src/app/App.tsx:217-219 | dropping the empty status keeps the list free of duplicates |
| Seqs.FilterKeepsFirstSeenOrder | src/app/App.tsx:217-219 | dropping the empty status keeps the first-seen order |
| LogbookView.Filtered | src/app/App.tsx:203-215 | the view is an order-preserving subsequence of the list; an entry is in it exactly when the lower-cased module, activity, PIC or technical detail contains the lower-cased term and the status filter is `all` or equals the status; occurrences are kept |
| LogbookView.FilterShowsAllByDefault | src/app/App.tsx:204-214 | an empty term with the status filter at `all` shows the whole list |
| LogbookView.FilterIdempotentView | src/app/App.tsx:203-215 | filtering the filtered view again with the same inputs changes nothing |
| LogbookView.SearchIgnoresTermCase | src/app/App.tsx:204-209 | lower-casing the term first does not change the view |
| LogbookView.Statuses | src/app/App.tsx:218 | one status per entry, in list order |
| LogbookView.UniqueStatuses | src/app/App.tsx:217-219 | the status options have no duplicate and no empty string, hold every non-empty status of the unfiltered list and nothing else, in first-seen order |
| CsvExport.Label | src/app/App.tsx:161-171 | every column label is non-empty and holds neither a comma nor a line feed |
| CsvExport.Headers | src/app/App.tsx:161-171 | the header has nine labels, label `k` being the `k`-th of the code's list |
| CsvExport.HeadersArePlain | src/app/App.tsx:161-171 | no header label holds a comma or a line feed |
| CsvExport.HeadersEndPlain | src/app/App.tsx:161-171 | the last header label is non-empty and holds no line feed |
| CsvExport.Cells | src/app/App.tsx:173-183 | a row has one value per header label |
| CsvExport.CellRows | src/app/App.tsx:173-183 | `csvRows` has one row of values per filtered entry, in list order |
| CsvExport.QuoteAll | src/app/App.tsx:187 | each value is wrapped in double quotes, in column order |
| CsvExport.Lines | src/app/App.tsx:185-187 | the lines to be joined are the header line followed by one line per entry |
| CsvExport.Csv | src/app/App.tsx:185-188 | the CSV text under a header starts with the header line |
| CsvExport.ExportCsv | src/app/App.tsx:185-188 | the CSV starts with the unquoted header line and does not end with a line feed |
| CsvExport.LastLineEnding | src/app/App.tsx:185-188 | under a header whose last label is non-empty and has no line feed, the CSV is non-empty and its last character is not a line feed: it is the last label's or a row's closing quote |
| CsvExport.RowLineEnding | src/app/App.tsx:187 | a row line ends with a double quote |
| CsvExport.HeaderLineIsPlain | src/app/App.tsx:161-186 | a header line of labels without comma or line feed is one line and splits at commas into its labels |
| CsvExport.QuotedCellsArePlain | src/app/App.tsx:173-187 | for values without comma or line feed, the quoted values hold neither |
| CsvExport.RowLineIsOneLine | src/app/App.tsx:187 | the row of an entry without comma or line feed in its values is a single line |
| CsvExport.RowLineRoundTrip | src/app/App.tsx:187 | splitting such a row at commas and stripping the quotes gives the nine values back |
| CsvExport.LineIsPlain | src/app/App.tsx:185-188 | each line of such a CSV, header or row, holds no line feed |
| CsvExport.LinesArePlain | src/app/App.tsx:185-188 | no line of such a CSV holds a line feed |
| CsvExport.CsvLines | src/app/App.tsx:185-188 | such a CSV splits at line feeds into the header line and one row per entry |
| CsvExport.CsvRow | src/app/App.tsx:185-188 | line `i + 1` of the CSV reads back as the values of entry `i` |
| CsvExport.CsvHeader | src/app/App.tsx:185-188 | the first line reads back as the header labels |
| CsvExport.CsvRows | src/app/App.tsx:185-188 | the later lines read back as the entries' values, in order, one line per entry |
| CsvExport.ExportRoundTrip | src/app/App.tsx:161-188 | reading the CSV back gives the nine labels and, per entry in order, its nine values |
| LogbookForm.Set | src/app/components/LogbookForm.tsx:51 | the named field takes the new value and every other field keeps its own |
| LogbookForm.InitialData | src/app/components/LogbookForm.tsx:28-40 | with no entry every text field is empty and the date is today; with an entry each text field is the entry's, the date is the entry's when non-empty |
| LogbookForm.Initial | src/app/components/LogbookForm.tsx:28-43 | the form mounts with its initial values, no error and not submitting |
| LogbookForm.InitialDataRoundTrip | src/app/components/LogbookForm.tsx:33-39 | opening an entry with a date and submitting unchanged sends exactly that entry's values |
| LogbookForm.HandleChange | src/app/components/LogbookForm.tsx:45-56 | only the named field changes; its error is blanked but its key kept, no key is added, other errors and the submitting flag are untouched |
| LogbookForm.ErrorIf | src/app/components/LogbookForm.tsx:61-66 | one validation step adds the field's key exactly when the field is missing |
| LogbookForm.Message | src/app/components/LogbookForm.tsx:61-66 | every required field has a non-empty error message |
| LogbookForm.Errors | src/app/components/LogbookForm.tsx:59-66 | the error map's keys are exactly the missing required fields, each with its message |
| LogbookForm.Validate | src/app/components/LogbookForm.tsx:58-70 | the errors are exactly the missing required fields, each non-empty; the form is valid exactly when there is none |
| LogbookForm.ValidateIff | src/app/components/LogbookForm.tsx:58-70 | valid exactly when the date is non-empty and module, activity and PIC each hold a non-space character; the other four fields never matter |
| LogbookForm.BlankFormInvalid | src/app/components/LogbookForm.tsx:28-40 | a fresh add form never passes validation |
| LogbookForm.HandleSubmit | src/app/components/LogbookForm.tsx:72-87 | an invalid form records its errors and calls nothing; a valid one calls `onSubmit` with exactly its values, then `onClose` only if that resolves; `isSubmitting` is false afterwards |
| LogbookForm.ChangeThenSubmit | src/app/components/LogbookForm.tsx:45-70 | after editing a required field and submitting, its error is present exactly when the new value is still missing |
| LogbookSync.Init | src/app/App.tsx:24-30 | the app starts with an empty list, not loading, the form closed with no edited entry, an empty search and the status filter at `all` |
| LogbookSync.BeginRefresh | src/app/App.tsx:37 | the loading flag is raised while the list request is out, nothing else changes |
| LogbookSync.Refresh | src/app/App.tsx:36-68 | on an ok response the list becomes the normalised payload; on a non-ok response or an exception it becomes empty with a failure toast; loading is off afterwards; the form is untouched |
| LogbookSync.RefreshTwice | src/app/App.tsx:36-68 | with the same server answer, refreshing twice leaves the same list as once |
| LogbookSync.AddEntry | src/app/App.tsx:75-98 | only an ok response reloads the list and closes the form; otherwise list and form are unchanged and a failure toast is shown |
| LogbookSync.EditEntry | src/app/App.tsx:105-136 | nothing happens without an edited entry; the update is keyed by its `no`; any response reloads, clears the edited entry and closes the form; only an exception leaves them as they were |
| LogbookSync.UpdateRefresh | src/app/App.tsx:127-131 | after an update response the list is reloaded, the edited entry cleared and the form closed |
| LogbookSync.RejectedUpdateStillRefreshes | src/app/App.tsx:122-131 | a non-ok update response still reloads the list and closes the form |
| LogbookSync.DeleteEntry | src/app/App.tsx:139-157 | the removal is keyed by the given `no`; only an ok response reloads; otherwise the list is unchanged and a failure toast is shown; the form is untouched |
| LogbookSync.OpenAddForm | src/app/App.tsx:222-225 | the form opens with no edited entry |
| LogbookSync.OpenEditForm | src/app/App.tsx:227-230 | the form opens on the chosen entry |
| LogbookSync.CloseForm | src/app/App.tsx:232-235 | the form closes and the edited entry is cleared |
| LogbookSync.Dispatch | src/app/App.tsx:317-321 | the form's `onSubmit` sends an update under the edited entry's `no` while editing, and a create otherwise; the view inputs are untouched |
| LogbookSync.SubmitCalls | src/app/components/LogbookForm.tsx:72-87 | performing the calls of a resolving submit changes nothing for an invalid form, else runs the chosen handler and then closes the form |
| LogbookSync.SubmitForm | src/app/App.tsx:317-322 | an invalid form changes nothing; a valid one runs the update handler when editing, else the create handler, then closes the form |
| LogbookSync.SubmitAlwaysCloses | src/app/components/LogbookForm.tsx:58-83 | a submit with a date and a non-space character in module, activity and PIC always ends with the form closed, and a failed create leaves the list unchanged |
| LogbookSync.TableRows | src/app/App.tsx:307-314 | the table shows nothing while loading and the filtered view otherwise |
| LogbookSync.ExportText | src/app/App.tsx:173-188 | the exported text of the filtered view starts with the header line and does not end with a line feed |
| LogbookSync.ExportedRowsPassFilter | src/app/App.tsx:173-188 | every exported row is the values of a list entry passing the current search and status filter, one row per view entry |
| LogbookSync.LastLoadedSkips | src/app/App.tsx:75-157 | round trips other than list reads do not change what the last list read left |
| LogbookSync.LastLoadedList | src/app/App.tsx:36-68 | after a list read, the last list read left its own result |
| LogbookSync.StepMirrors | src/app/App.tsx:36-157 | every event keeps the list equal to what the last list read left, with loading off |
| LogbookSync.DispatchMirrors | src/app/App.tsx:75-136 | the create and update handlers keep the list equal to what the last list read left |
| LogbookSync.RunMirrors | src/app/App.tsx:36-157 | after any sequence of events the list is exactly what the last list read left |
| LogbookSync.InitMirrors | src/app/App.tsx:24-30 | the initial empty list agrees with there being no list read yet |

## Left out

- Network I/O: `fetch`, the URLs and `response.json()` are not modelled. Each round trip is an outcome value, and a failing `response.json()` counts as an exception.
- Toasts: the handlers' `toast` calls are recorded as a list of toasts. The export's success toast is not recorded, because `ExportText` is a pure view of the state rather than a state step. `console` output is not modelled.
- The server `message` is modelled as a string. An absent message, which the code passes to the toast as `undefined`, is not distinguished.
- Delete confirmation: the `Swal` prompt belongs to the table component. The model starts at the confirmed delete.
- Export download: the Blob, the download link and the date-stamped file name depend on the browser and the clock.
- Dates: `tanggal` is opaque text. `new Date(...)` on load is not modelled; a present date is kept as it is. Neither is the `Date` rendering in a CSV value, nor the ISO `toISOString().slice(0, 10)` in the form. Each depends on the clock, time zone or locale. The clock reading used for an absent date is the `now` of the list outcome, and the form's `getLocalDate()` is the `today` parameter.
- Text.Lower: folds the ASCII letters only, while `toLowerCase` folds all of Unicode. So the search is modelled as case-insensitive for ASCII only.
- Text.IntToString: renders `no` as an integer. JavaScript's exponent and fraction formats for other numbers are not modelled.
- Payload typing: payload fields are modelled as strings or an integer. Values of other JSON types, and a non-array `data` (which makes `map` throw), are not modelled.
- Concurrency: two list requests in flight at once are not modelled, nor the Refresh button being disabled while loading. Every handler runs to completion before the next event, so loading is only ever true inside `BeginRefresh`.
- Submission flag: the `isSubmitting = true` state during the await is not modelled, nor the disabled submit button.
- Detail dialog: `handleDetailEntry` and `isDetailOpen` are not modelled. Nothing in the rendered tree calls them.
- Escape key: the listener that closes the form is DOM event plumbing.
- Presentation: `LogbookTable` and `LogbookDetail` are markup plus status-to-style lookups.
- Form contents on submit: a `Submit` event carries the form state as an unconstrained input, and `Step` accepts it even while the form is closed. Reachability of that state from the form's initial values through `handleChange` is not modelled. Every list invariant proved over event sequences (`RunMirrors`) holds for any form contents, so this over-approximates the real form.
- Sorting and pagination: the code implements neither, so there is no date sort or page-window logic to model.
