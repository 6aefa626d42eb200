# PluitPass data store and pages, modelled in Dafny

PluitPass is a school graduation-announcement site. Visitors look up their pass/fail result by NISN
(the national student number). An administrator manages the student registry, the site settings and
JSON backups. This project models the logic under the React views:

- `Store` (src/contexts/DataContext.tsx): the `DataProvider` as a class `DataStore`. Its `students` and
  `settings` fields are replaced by add, update, delete, replace-all and settings merge. It also
  covers the load-time settings migration and the backup export/import. Each method takes its new
  state from a pure function, and lemmas state the properties of those functions.
- `Excel` (src/utils/excelUtils.ts): the mapping from spreadsheet rows to student records.
- `Search` (src/components/StudentSearchForm.tsx): the NISN lookup, the form state that
  `handleSearch` updates, and the visibility gate on status and score.
- `StudentsPage` (src/pages/StudentsPage.tsx): the filter/search pipeline of the admin list, and the
  add/edit form as a class over the shared store.
- `Dashboard` (src/pages/DashboardPage.tsx): status counts, the percentage divisor and the "recent
  students" slice.
- `Countdown` (src/components/Countdown.tsx): splitting a positive number of seconds into days, hours,
  minutes and seconds, and the `isExpired` flag that never resets.
- `Wrappers`, `Seqs` and `Text` are helpers. They model JavaScript built-ins: `filter`, `find`,
  `trim`, `toLowerCase`, `includes`, `||` on strings and `Number.prototype.toString`.

Modelling choices:

- `class` is a Dafny keyword, so the student field and the spreadsheet column are named `className`.
- `status` is a string. The declared type allows three values, but a spreadsheet import stores
  whatever its status cell holds.
- Every settings property is an `Option` (None means the property is absent). A settings object read
  from storage or from a backup may lack any property, and the store keeps what it read.
  `Store.Complete` says that every property is present.
- A `Partial<Student>` patch holds an `Option` per field. Its score is `Option<Option<int>>`, because
  `handleSubmit` passes `score: undefined` explicitly, and the spread then clears the score.
- JavaScript truthiness of an optional string means "present and non-empty" (`Text.Truthy`). For an
  optional number it means "present and non-zero" (`Excel.TruthyNumber`).
- The backup import receives the value `JSON.parse` produced: None when parsing threw, `Null`, or a
  value seen through its `students` and `settings` properties.
- The clock readings (`Date.now()`, read once per added student and once per spreadsheet row), the default announcement date, `Number(formData.score)`, the
  countdown's `differenceInSeconds` and the answers to `window.confirm` are all parameters.

The backup import's fallback differs from a plain "backup, else current" rule. For `schoolYear` and
`additionalInfo`, a missing or empty backup value becomes the hardcoded default, never the current
value (src/contexts/DataContext.tsx:142-143). Only the other four properties fall back to the current
value. The model follows the code. `Store.ImportVersusMigrate` shows where this differs from "spread,
then migrate". `Store.ExportImportRoundTrip` shows that importing one's own export restores the
settings exactly when both of those fields are non-empty.

The score slot of the search result renders `settings.showResults && searchResult.score && (...)`.
For a score of 0 with results shown, that expression is the number 0, which React prints as a bare
"0" in place of the score line. `Search.ShownScore` models the three outcomes (nothing, the bare 0,
the score line).

## Model

| member | source | states |
|---|---|---|
| `Store.WithStudentAdded` | src/contexts/DataContext.tsx:95-101 | exactly one record is appended; the earlier records are unchanged and in order; the new record has the given fields and the decimal timestamp as id |
| `Store.ApplyPatch` | src/contexts/DataContext.tsx:106 | `{ ...student, ...updatedData }`: every field the patch carries takes the patch value (an explicit `undefined` score clears the score), every other field keeps the record's value |
| `Store.WithStudentUpdated` | src/contexts/DataContext.tsx:103-109 | length and order are kept; records with another id are unchanged; every record with the id (not only the first) gets the patch spread over it |
| `Store.WithStudentDeleted` | src/contexts/DataContext.tsx:111-113 | no record with the id remains; every other record is kept as often as it occurred and in its original order |
| `Store.UpdateAbsentId` | src/contexts/DataContext.tsx:103-109 | updating an id no record carries changes nothing |
| `Store.UpdateIdempotent` | src/contexts/DataContext.tsx:103-109 | applying the same patch twice equals applying it once, for every patch (one that moves the records to another id leaves none with the old id, so the second update changes nothing) |
| `Store.DeleteAbsentId` | src/contexts/DataContext.tsx:111-113 | deleting an id no record carries changes nothing |
| `Store.DeleteIdempotent` | src/contexts/DataContext.tsx:111-113 | deleting twice equals deleting once |
| `Store.DeleteUndoesAdd` | src/contexts/DataContext.tsx:95-113 | adding a record under a fresh id and then deleting that id gives back the original registry |
| `Store.DefaultSettings` | src/contexts/DataContext.tsx:43-50 | the defaults are complete, with a non-empty school year and additional info, and results hidden |
| `Store.MergedSettings` | src/contexts/DataContext.tsx:119-121 | properties present in the patch take the patch value; all others keep the current value; complete settings stay complete |
| `Store.MergeIdempotent` | src/contexts/DataContext.tsx:119-121 | applying the same settings patch twice equals applying it once |
| `Store.MigratedSettings` | src/contexts/DataContext.tsx:71-77 | a falsy school year or additional info is replaced by its default, a truthy one is kept; every other property is kept as stored |
| `Store.MigrateIdempotent` | src/contexts/DataContext.tsx:71-77 | migrating twice equals migrating once |
| `Store.MigrateChangesOnlyOldShapes` | src/contexts/DataContext.tsx:71-77 | the migration changes a stored object exactly when its school year or additional info is falsy |
| `Store.ImportedSettings` | src/contexts/DataContext.tsx:137-145 | the backup's properties override the current ones; school year and additional info are the backup value if truthy, else the default, independent of the current value |
| `Store.ImportVersusMigrate` | src/contexts/DataContext.tsx:137-145 | import equals "spread, then migrate" when the backup carries both newer fields; it differs when the backup omits the school year and the current one is set and not the default |
| `Store.Imported` | src/contexts/DataContext.tsx:131-152 | import fails, changing nothing, exactly when parsing failed or gave null; students are replaced exactly when the backup holds an array (an empty one too); settings are imported exactly when the backup holds them |
| `Store.ExportImportRoundTrip` | src/contexts/DataContext.tsx:123-152 | importing one's own export succeeds and restores the students; it restores the settings if and only if the current school year and additional info are non-empty |
| `Store.DataStore.Load` | src/contexts/DataContext.tsx:60-83 | mounting takes the stored students (or none) and the migrated stored settings; with nothing stored it takes the defaults and writes them to storage |
| `Store.DataStore.AddStudent` | src/contexts/DataContext.tsx:95-101 | the registry becomes `WithStudentAdded` of the old one; settings unchanged; storage updated |
| `Store.DataStore.UpdateStudent` | src/contexts/DataContext.tsx:103-109 | the registry becomes `WithStudentUpdated` of the old one; settings unchanged; storage updated |
| `Store.DataStore.DeleteStudent` | src/contexts/DataContext.tsx:111-113 | the registry becomes `WithStudentDeleted` of the old one; settings unchanged; storage updated |
| `Store.DataStore.SetAllStudents` | src/contexts/DataContext.tsx:115-117 | the registry is replaced wholesale; settings unchanged |
| `Store.DataStore.UpdateSettings` | src/contexts/DataContext.tsx:119-121 | the settings become `MergedSettings` of the old ones; students unchanged |
| `Store.DataStore.ExportData` | src/contexts/DataContext.tsx:123-129 | the backup holds the whole registry and the whole settings object |
| `Store.DataStore.ImportData` | src/contexts/DataContext.tsx:131-152 | returns true exactly when `Imported` succeeds, and then takes its state; otherwise nothing changes |
| `Store.Exported` | src/contexts/DataContext.tsx:123-129 | the backup document carries both the whole registry and the whole settings object; `Store.ExportImportRoundTrip` reads it back |
| `Excel.RowToStudent` | src/utils/excelUtils.ts:18-25 | the id is the row id if truthy, else timestamp plus row index, so never empty; name and class use the first truthy of the two aliases, else empty; a missing NISN becomes empty, a text NISN passes through, a numeric one becomes its decimal text (never empty); status is the cell if truthy, else 'pending', and is never checked; a falsy score (0 included) falls through to `nilai` |
| `Excel.RowsToStudents` | src/utils/excelUtils.ts:18-19 | exactly one record per row, in row order, each mapped with its own index and the clock reading taken for that row |
| `Excel.GeneratedId` | src/utils/excelUtils.ts:19 | a generated id is all decimal digits: the timestamp's digits followed by the row index's digits |
| `Excel.GeneratedIdsDistinct` | src/utils/excelUtils.ts:19 | ids generated for two different rows differ whenever the clock did not go backwards between the two readings, even when it ticked |
| `Excel.ImportedIdsDistinct` | src/utils/excelUtils.ts:18-19 | with a clock that never goes backwards during the import, two id-less rows get different ids |
| `Excel.ExplicitIdMayCollide` | src/utils/excelUtils.ts:19 | an explicit row id can equal a generated one |
| `Text.TrimBlank` | src/components/StudentSearchForm.tsx:15 | the trimmed input is empty exactly when the input is all white space |
| `Text.TrimShape` | src/components/StudentSearchForm.tsx:20 | the trimmed input is the slice of the input between a white-space prefix and a white-space suffix, and when non-empty it starts and ends with a non-space character |
| `Text.ContainsIffOccurs` | src/pages/StudentsPage.tsx:36-38 | `includes` holds exactly when the term occurs at some position |
| `Text.NatToStringInjective` | src/utils/excelUtils.ts:19 | distinct numbers have distinct decimal renderings |
| `Text.NatToStringLengthMonotone` | src/utils/excelUtils.ts:19 | a larger number never has a shorter decimal rendering |
| `Seqs.Filter` | src/contexts/DataContext.tsx:112 | `Array.prototype.filter`: no longer than the input, every kept element passes the predicate, and an element is kept iff it occurs in the input and passes (multiplicities and order by `Seqs.FilterMultiset` and `Seqs.FilterIsSubsequence`) |
| `Seqs.FindFirst` | src/components/StudentSearchForm.tsx:20 | `Array.prototype.find`: the index of the first element passing the predicate, and none exactly when no element passes |
| `Search.FindByNisn` | src/components/StudentSearchForm.tsx:20 | a found record is a registered one whose NISN equals the key exactly (stored values are not trimmed) |
| `Search.FindByNisnIsFirstMatch` | src/components/StudentSearchForm.tsx:20 | a found record is the first in registry order with that NISN; nothing is found exactly when no record has it |
| `Search.StatusText` | src/components/StudentSearchForm.tsx:26-55 | with results hidden the text is withheld whatever the status; when shown, 'LULUS' iff passed, 'TIDAK LULUS' iff failed, 'Sedang diproses' otherwise |
| `Search.ShownScore` | src/components/StudentSearchForm.tsx:99-104 | the score line appears exactly when results are shown and the score is present and non-zero, and then shows that score; a bare 0 appears exactly when results are shown and the score is 0; otherwise nothing |
| `Search.HiddenResultsRevealNothing` | src/components/StudentSearchForm.tsx:79-104 | with results hidden, a found student's panel shows neither status nor score |
| `Search.RegistryScenario` | src/contexts/DataContext.tsx:95-113 | adding a student, finding them by NISN, updating status and score, finding the update, deleting them and finding nothing |
| `Search.SearchForm.constructor` | src/components/StudentSearchForm.tsx:7-10 | empty input, no result, no error, not searched |
| `Search.SearchForm.SetNisn` | src/components/StudentSearchForm.tsx:65 | typing changes only the input |
| `Search.SearchForm.HandleSearch` | src/components/StudentSearchForm.tsx:12-24 | input that trims to empty (exactly the all-whitespace input, by `Text.TrimBlank`) only sets 'Silakan masukkan NISN'; otherwise the result is the lookup of the trimmed input, the error is empty iff found and 'Data siswa tidak ditemukan' otherwise, and the form is marked searched; the "Data Tidak Ditemukan" panel is never shown |
| `Search.SearchForm.NotFoundPanelShown` | src/components/StudentSearchForm.tsx:109 | the "Data Tidak Ditemukan" panel can only show in a state where a search found nothing yet left no error, which the form's invariant excludes |
| `StudentsPage.FilteredStudents` | src/pages/StudentsPage.tsx:24-40 | an order-preserving subsequence of the registry holding exactly the records that pass the status filter ('all' restricts nothing) and the lower-case search on name, NISN or class, each as often as registered |
| `StudentsPage.StatusFilter` | src/pages/StudentsPage.tsx:25-31 | filter 'all' passes every record; any other filter passes exactly the records with that status |
| `StudentsPage.MatchesSearch` | src/pages/StudentsPage.tsx:32-40 | an empty search term matches every record |
| `StudentsPage.MatchesSearchIffOccurs` | src/pages/StudentsPage.tsx:32-40 | a record matches exactly when the lower-cased term occurs at some position of its lower-cased name, NISN or class |
| `StudentsPage.SearchIgnoresTermCase` | src/pages/StudentsPage.tsx:34 | lower-casing the term first changes no match |
| `StudentsPage.NoFilterShowsAll` | src/pages/StudentsPage.tsx:24-40 | filter 'all' with an empty term shows the whole registry |
| `StudentsPage.SubmittedData` | src/pages/StudentsPage.tsx:58-64 | the form's text fields pass through; an empty score input gives no score, any other gives the parsed number |
| `StudentsPage.AsPatch` | src/pages/StudentsPage.tsx:66-67 | an update with the submitted data leaves exactly that data on the record and keeps its id |
| `StudentsPage.EditForm` | src/pages/StudentsPage.tsx:79-85 | name, NISN, class and status are copied verbatim; the score becomes its decimal text, or empty when absent |
| `StudentsPage.EditSubmitRoundTrip` | src/pages/StudentsPage.tsx:55-87 | editing a record and submitting the unchanged form writes the record back as it was |
| `StudentsPage.StudentsPageState.constructor` | src/pages/StudentsPage.tsx:9-21 | no search term, filter 'all', form hidden and empty, nothing being edited |
| `StudentsPage.StudentsPageState.ResetForm` | src/pages/StudentsPage.tsx:43-52 | empty fields with status 'pending', nothing being edited, the rest unchanged |
| `StudentsPage.StudentsPageState.OpenAddForm` | src/pages/StudentsPage.tsx:149-152 | a reset form, shown |
| `StudentsPage.StudentsPageState.CancelForm` | src/pages/StudentsPage.tsx:273-276 | a reset form, hidden |
| `StudentsPage.StudentsPageState.HandleSubmit` | src/pages/StudentsPage.tsx:55-74 | when editing, updates the edited record's id with all five fields; otherwise adds; then the form is reset and hidden |
| `StudentsPage.StudentsPageState.HandleEdit` | src/pages/StudentsPage.tsx:77-87 | remembers the record, fills the form from it and shows the form |
| `StudentsPage.StudentsPageState.HandleDelete` | src/pages/StudentsPage.tsx:90-94 | deletes the id only when confirmed |
| `StudentsPage.StudentsPageState.HandleImport` | src/pages/StudentsPage.tsx:97-112 | replaces the registry with the rows mapped under their per-row clock readings, only when the file was read and the user confirmed |
| `Dashboard.CountStatus` | src/pages/DashboardPage.tsx:8-10 | a count is at most the total, and zero exactly when no record has that status |
| `Dashboard.CountIsMultiplicity` | src/pages/DashboardPage.tsx:8-10 | each count equals the number of records with that status |
| `Dashboard.CountsAddUp` | src/pages/DashboardPage.tsx:8-15 | with the three declared statuses only, passed + failed + pending equals the total |
| `Dashboard.PercentDivisor` | src/pages/DashboardPage.tsx:88 | the divisor is never zero and equals the total when there are records |
| `Dashboard.Recent` | src/pages/DashboardPage.tsx:109 | the first min(5, n) records in stored order |
| `Dashboard.RecentIgnoresNewRecords` | src/pages/DashboardPage.tsx:109 | once five records exist, adding one leaves the table unchanged (it shows the oldest) |
| `Countdown.CalculateTimeLeft` | src/components/Countdown.tsx:18-34 | a non-positive difference gives all zeros; a positive one gives days ≥ 0, hours < 24, minutes and seconds < 60 that add back up to the difference and are not all zero |
| `Countdown.SplitAddsUp` | src/components/Countdown.tsx:28-31 | the source's nested remainders add back up to the difference |
| `Countdown.SplitOfTotal` | src/components/Countdown.tsx:28-33 | every in-range non-zero value is the split of its own total, so the split is its inverse |
| `Countdown.CountdownState.constructor` | src/components/Countdown.tsx:14-15 | all zeros, not expired |
| `Countdown.CountdownState.Tick` | src/components/Countdown.tsx:17-43 | the display takes the split; a non-positive difference sets the expired flag, which never reverts |

## Left out

- Local storage, `JSON.stringify` and `JSON.parse`: storage is mirrored in ghost fields, and parsing is an input. Malformed JSON in storage, which throws during mount, is not modelled.
- The order of React effects on mount, which write the initial empty state before the loaded one, is not modelled. The model keeps the end result.
- JSON values of the wrong type are not modelled: `null` or a number in a settings property, a string as `settings`, student array elements that are not student objects, and a non-string `id`, `name`, `class` or `status` cell in a spreadsheet.
- Store.MergedSettings: a patch property that is present but `undefined` is treated as absent. SettingsPage (src/pages/SettingsPage.tsx:9-12, 21-28) does pass `schoolName`, `showResults` and `logoUrl` copied from the current settings, which are `undefined` when the stored object lacks them; the current value is then absent too, so the merged result is the same.
- The XLSX library, `FileReader`, promises and `exportToExcel`: these are library calls and file I/O. The rows reach the model already decoded.
- Excel.RowToStudent: numeric cells are integers only, and a numeric NISN renders without the leading zeros a spreadsheet may have dropped.
- `Date.now()`, `new Date()` and `differenceInSeconds`: clock and date parsing are parameters.
- Countdown.CalculateTimeLeft: the difference is an integer, so an announcement date that does not parse is not modelled. There `differenceInSeconds` gives NaN, `NaN <= 0` is false, the display shows "NaN" and the expired flag is never set (src/components/Countdown.tsx:19-21).
- Excel.ImportedIdsDistinct: assumes the clock does not go backwards during one import; a clock adjustment between two rows' readings could make ids collide.
- The 1-second interval and its disposal in the countdown: these are timers.
- `Math.round` of the dashboard percentage, and `Number(...)` score parsing: both are floating point. The divisor is modelled; the parsed number is a parameter of `HandleSubmit`.
- Text.Lower: lower-cases ASCII letters only, not full Unicode `toLowerCase`.
- `window.confirm` and `alert`: the answer to a confirm is a boolean parameter.
- BackupPage, SettingsPage, HomePage, AdminNavbar and App: rendering, routing, the authentication gate, downloads and `localStorage.clear()`.
- Spread properties of the patch that are not fields of the record, and extra JSON properties, are not modelled.
