# Student attendance: a verified model of the data layer

The application is a small client-side attendance tracker for one class. A
teacher photographs the class, a hosted model names the students it
recognises, and the app turns that answer into one attendance record per
roster student for today, merged into a log kept in the browser's local
storage. Four views read the log: the capture form, the paginated log
table, the reports page and the dashboard. A login form accepts one
hard-coded pair of credentials, but a successful login only navigates to
the dashboard: nothing stores the login and no page checks it, so every
dashboard route opens directly.

This project models that layer in Dafny, one module per source file:

- `Types`: students, attendance records, the recognition result, and exact
  ratios standing in for float percentages.
- `Strings`: ASCII lower-casing and the lexicographic order on date strings.
- `RecordLists`: the shared list operations (`filter`, counting, the set
  of dates) and the intended invariant of at most one record per
  (student, date).
- `LocalStorage`: the storage hook, with a key-to-item store, a mirrored
  value, a setter and the change handler.
- `AttendanceForm`: building today's records from the recognised names,
  the day-replacing merge, and the form's review state.
- `AttendanceLogs`: distinct dates, the date and student filters, the
  newest-first sort, ten-row pages and page navigation.
- `Reports`: distinct-day count, per-student counts, the overall ratio,
  and the ordering by rate.
- `Dashboard`: present and absent today, the seven-day chart, and today's
  ratio.
- `AuthForm`: the field rules, the submit decision and the mode toggle.
- `SeedData`: the seed roster and its distinctness facts.

Pure code (filters, maps, sorts, counts) is modelled as functions with
lemmas about them. Components that update state (the capture form, the log
table's page number, the storage hook, the login form) are modelled as
classes whose methods state their whole new state.

The log table clamps Next to `Math.min(page + 1, totalPages)`. When the
filters leave nothing to show, `totalPages` is 0. Next is then still
enabled on page 1 and moves to page 0, which shows no rows. Previous then
returns to page 1. `AttendanceLogs.NextOnEmptyListGoesToPageZero` states
this behaviour of the code. The model keeps it rather than correcting it.

## Model

| member | source | states |
|---|---|---|
| Strings.LowerChar | src/components/dashboard/attendance-form.tsx:73-75 | upper-case ASCII letters map to lower case, every other character is unchanged, no result is upper case |
| Strings.Lower | src/components/dashboard/attendance-form.tsx:74 | the ASCII lower-casing that stands in for `toLowerCase` keeps the length, leaves no upper-case ASCII letter and changes no other character |
| Strings.LowerIdempotent | src/components/dashboard/attendance-form.tsx:73-75 | lower-casing twice is lower-casing once |
| Strings.Utf16Length | src/components/auth-form.tsx:25 | the JavaScript length counts one code unit per Basic Multilingual Plane character and two otherwise, so it lies between the character count and twice it, and equals the character count when every character is in that plane |
| Strings.Less | src/components/dashboard/attendance-logs-table.tsx:40 | `localeCompare` on dates as plain lexicographic order: a proper prefix comes first, otherwise the first differing character decides |
| Strings.LessCharacterization | src/components/dashboard/attendance-logs-table.tsx:40 | `a < b` iff `a` is a proper prefix of `b` or they first differ at a position where `a` has the smaller character |
| Strings.LessIrreflexive | src/components/dashboard/attendance-logs-table.tsx:40 | the date order is irreflexive |
| Strings.LessTransitive | src/components/dashboard/attendance-logs-table.tsx:40 | the date order is transitive |
| Strings.LessTotal | src/components/dashboard/attendance-logs-table.tsx:40 | any two different dates are ordered one way or the other |
| Strings.LessAsymmetric | src/components/dashboard/attendance-logs-table.tsx:40 | no two dates are each below the other |
| Strings.NotLessTransitive | src/components/dashboard/attendance-logs-table.tsx:47 | "not newer than" is transitive, which the sort relies on for ties |
| RecordLists.Filter | src/components/dashboard/attendance-form.tsx:83 | the result is no longer than the input and holds exactly the input's records that pass the predicate |
| RecordLists.FilterAppend | src/components/dashboard/attendance-form.tsx:83-84 | filtering a concatenation is concatenating the filtered parts, so order is kept |
| RecordLists.FilterMultiset | src/components/dashboard/attendance-logs-table.tsx:44-46 | a filter keeps every copy of a passing record and no copy of a failing one |
| RecordLists.FilterFilter | src/components/dashboard/reports-view.tsx:42-43 | two filters in a row equal one filter by the conjunction |
| RecordLists.FilterLengthCountsIndices | src/components/dashboard/reports-view.tsx:37 | `filter(p).length` is the number of positions holding a record that satisfies `p` |
| RecordLists.DateSet | src/components/dashboard/reports-view.tsx:32 | `new Set(records.map(r => r.date))`: the dates on which anything was recorded |
| RecordLists.FilterKeepsOnePerStudentDay | src/components/dashboard/attendance-form.tsx:83 | filtering preserves at most one record per (student, date) |
| RecordLists.OnePerConcat | src/components/dashboard/attendance-form.tsx:84 | two such lists with no shared (student, date) slot concatenate to such a list |
| RecordLists.DistinctKeysBound | src/components/dashboard/reports-view.tsx:42-44 | records with pairwise different keys, all drawn from a set, are no more than that set's size |
| RecordLists.InjectiveBound | src/components/dashboard/attendance-form.tsx:73-75 | a set mapped one-to-one below `n` has at most `n` elements |
| LocalStorage.ReadStorageValue | src/hooks/use-local-storage.ts:7-18 | without a client, for a missing key, an empty item or an item that does not parse, the default is returned; otherwise the decoded value |
| LocalStorage.Resolve | src/hooks/use-local-storage.ts:30 | a plain value is the new value; an updater function is applied to the mirrored value |
| LocalStorage.Storage.constructor | src/hooks/use-local-storage.ts:8-12 | the store starts with the given client flag and items |
| LocalStorage.ReadAfterWrite | src/hooks/use-local-storage.ts:31-32 | reading back a written key gives the written value |
| LocalStorage.WriteLeavesOtherKeys | src/hooks/use-local-storage.ts:31 | writing one key leaves what every other key reads unchanged |
| LocalStorage.StorageHook.constructor | src/hooks/use-local-storage.ts:21 | the mirror starts as what the store reads for the key |
| LocalStorage.StorageHook.SetValue | src/hooks/use-local-storage.ts:23-40 | without a client or when the write throws, store and mirror are unchanged; otherwise the value (or the updater applied to the mirror) is written under the key alone and mirrored, and reading it back gives the mirror |
| LocalStorage.StorageHook.OnStorageChange | src/hooks/use-local-storage.ts:43-48 | the mirror re-reads the store only for an event on its own key |
| LocalStorage.WriteThenNotify | src/hooks/use-local-storage.ts:31-47 | after one hook writes and another on the same key is notified, both mirror the written value, and the store holds it under that key with every other key unchanged |
| AttendanceForm.IsPresent | src/components/dashboard/attendance-form.tsx:73-75 | true iff some attended name equals the student's name after lower-casing both |
| AttendanceForm.FirstMatch | src/components/dashboard/attendance-form.tsx:73-75 | the first attended position whose name matches, or the list length exactly when none matches |
| AttendanceForm.RecordFor | src/components/dashboard/attendance-form.tsx:76-80 | one student's record is dated today, carries the student's id, and is Present iff an attended name matches case-insensitively |
| AttendanceForm.NewRecords | src/components/dashboard/attendance-form.tsx:72-81 | one record per roster student in roster order, each dated today with that student's id, and Present iff an attended name matches case-insensitively |
| AttendanceForm.NewRecordsAllToday | src/components/dashboard/attendance-form.tsx:77 | every new record is for today: the other-day filter drops them all and the same-day filter keeps them all |
| AttendanceForm.SaveMerge | src/components/dashboard/attendance-form.tsx:83-84 | the merged log is no longer than the old log plus the roster, and holds only old records of other days and today's records of roster students |
| AttendanceForm.SaveReplacesToday | src/components/dashboard/attendance-form.tsx:83-84 | after the merge the other-day records are exactly the old ones in their old order, today's records are exactly the new ones, the length is other-day count plus roster size, and an other-day record is stored iff it was stored before |
| AttendanceForm.SaveIdempotent | src/components/dashboard/attendance-form.tsx:83-84 | saving the same result twice on one day stores what saving once does |
| AttendanceForm.SaveKeepsOnePerStudentDay | src/components/dashboard/attendance-form.tsx:72-84 | with distinct roster ids, a log with at most one record per (student, date) keeps that property through the save |
| AttendanceForm.MatchInjective | src/components/dashboard/attendance-form.tsx:73-75 | with unambiguous names, two different present students are matched by different attended names |
| AttendanceForm.PresentAtMostAttended | src/components/dashboard/attendance-form.tsx:72-81 | with unambiguous names, no more students are marked Present than names were returned |
| AttendanceForm.TwoStudentExample | src/components/dashboard/attendance-form.tsx:72-84 | for a two-student roster and one lower-case match, saving into an empty log gives Present for the match and Absent for the other |
| AttendanceForm.Form.constructor | src/components/dashboard/attendance-form.tsx:20-26 | the form starts with no file, preview, result or error and not loading |
| AttendanceForm.Form.FileChange | src/components/dashboard/attendance-form.tsx:28-40 | a selected file replaces the old one and clears result and error; no selection changes nothing |
| AttendanceForm.Form.PreviewLoaded | src/components/dashboard/attendance-form.tsx:33-35 | the loaded data URI becomes the preview and nothing else changes |
| AttendanceForm.Form.Submit | src/components/dashboard/attendance-form.tsx:42-50 | without a file nothing changes; otherwise loading starts and result and error are cleared |
| AttendanceForm.Form.RecognitionDone | src/components/dashboard/attendance-form.tsx:56-64 | a successful call stores the result, a failed one the fixed error text, and loading stops either way |
| AttendanceForm.Form.SaveAttendance | src/components/dashboard/attendance-form.tsx:68-94 | without a result nothing changes; otherwise the merged log goes through the storage setter (stored and mirrored when the write succeeds) and result, file and preview are cleared |
| SeedData.DefaultStudents | src/lib/data.ts:3-14 | the ten seed students, ids and names as listed |
| SeedData.SeedId | src/lib/data.ts:4-13 | a seed id has four characters and starts with `S` |
| SeedData.DefaultStudentIds | src/lib/data.ts:3-14 | the roster has ten students whose ids are S001 to S010 in order |
| SeedData.DefaultStudentsDistinctIds | src/lib/data.ts:4-13 | the seed ids are pairwise distinct |
| SeedData.DefaultStudentsUnambiguousNames | src/lib/data.ts:4-13 | the seed names differ pairwise even after lower-casing |
| SeedData.DefaultRosterSaveKeepsInvariant | src/lib/data.ts:3-14 | saving against the seed roster keeps at most one record per (student, date) |
| AttendanceLogs.InsertDate | src/components/dashboard/attendance-logs-table.tsx:39-40 | adding a date to a strictly descending list keeps it strictly descending and adds exactly that date |
| AttendanceLogs.UniqueDates | src/components/dashboard/attendance-logs-table.tsx:38-41 | the date list is strictly newest first and holds exactly the recorded dates |
| AttendanceLogs.StrictlyDescendingUnique | src/components/dashboard/attendance-logs-table.tsx:38-41 | two strictly descending lists with the same elements are equal, so the order the set was filled in does not matter |
| AttendanceLogs.UniqueDatesCount | src/components/dashboard/attendance-logs-table.tsx:38-41 | the date list has one entry per distinct recorded date |
| AttendanceLogs.DateFilterMatch | src/components/dashboard/attendance-logs-table.tsx:45 | a record passes the date filter when it is `all` or equals the record's date |
| AttendanceLogs.StudentFilterMatch | src/components/dashboard/attendance-logs-table.tsx:46 | a record passes the student filter when it is `all` or equals the record's student id |
| AttendanceLogs.InsertByDate | src/components/dashboard/attendance-logs-table.tsx:47 | inserting into a newest-first list keeps it newest first and adds exactly that record |
| AttendanceLogs.SortByDateDesc | src/components/dashboard/attendance-logs-table.tsx:47 | the sort returns a permutation of its input, newest first |
| AttendanceLogs.SortByDateDescStable | src/components/dashboard/attendance-logs-table.tsx:47 | the sort is stable: records of one day keep their stored order |
| AttendanceLogs.FilteredRecords | src/components/dashboard/attendance-logs-table.tsx:43-48 | the filtered and sorted list is no longer than the log |
| AttendanceLogs.FilteredRecordsSpec | src/components/dashboard/attendance-logs-table.tsx:43-48 | a record is listed iff it is stored and each filter is `all` or equals its field; each listed record appears as often as it is stored; the list is newest first |
| AttendanceLogs.TotalPages | src/components/dashboard/attendance-logs-table.tsx:50 | the page count is the ceiling of the row count over ten |
| AttendanceLogs.SliceIndex | src/components/dashboard/attendance-logs-table.tsx:51-54 | a resolved slice index lies within the list |
| AttendanceLogs.Slice | src/components/dashboard/attendance-logs-table.tsx:51-54 | `slice` returns at most the list's length, only elements of the list, and exactly `s[start..end]` for in-range indices |
| AttendanceLogs.PageRecords | src/components/dashboard/attendance-logs-table.tsx:51-54 | a page has at most ten rows, page `k >= 1` is rows `10(k-1)` to `10k` clipped to the list, and page 0 is empty |
| AttendanceLogs.PagesUpToPrefix | src/components/dashboard/attendance-logs-table.tsx:51-54 | pages 1 to `k` together are the first `10k` rows |
| AttendanceLogs.PagesCoverFiltered | src/components/dashboard/attendance-logs-table.tsx:50-54 | pages 1 to `totalPages` together are exactly the filtered list |
| AttendanceLogs.PreviousPage | src/components/dashboard/attendance-logs-table.tsx:124 | Previous steps back one page but never below page 1 |
| AttendanceLogs.NextPage | src/components/dashboard/attendance-logs-table.tsx:135 | Next steps forward one page but never past `totalPages` |
| AttendanceLogs.NextOnEmptyListGoesToPageZero | src/components/dashboard/attendance-logs-table.tsx:135-136 | with no rows there are no pages, Next is enabled on page 1 and leads to page 0, which is empty, and Previous leads back to page 1 |
| AttendanceLogs.StudentMap | src/components/dashboard/attendance-logs-table.tsx:36 | the map has exactly the roster ids as keys, and the last roster entry's name wins for its id |
| AttendanceLogs.StudentMapDistinct | src/components/dashboard/attendance-logs-table.tsx:36 | with distinct ids every student's id maps to that student's name |
| AttendanceLogs.DisplayName | src/components/dashboard/attendance-logs-table.tsx:100 | an unknown id or an empty name shows as `Unknown`; a known id with a non-empty name shows that name |
| AttendanceLogs.UnknownStudent | src/components/dashboard/attendance-logs-table.tsx:100 | a record whose student is not on the roster shows as `Unknown` |
| AttendanceLogs.LogsTable.constructor | src/components/dashboard/attendance-logs-table.tsx:31-34 | both filters start at `all` and the page at 1 |
| AttendanceLogs.LogsTable.Filtered | src/components/dashboard/attendance-logs-table.tsx:43-48 | the table's filtered list, no longer than the stored log |
| AttendanceLogs.LogsTable.PageCount | src/components/dashboard/attendance-logs-table.tsx:50 | the page count is the least number of ten-row pages holding the filtered list |
| AttendanceLogs.LogsTable.Visible | src/components/dashboard/attendance-logs-table.tsx:51-54 | at most ten rows are on screen |
| AttendanceLogs.LogsTable.Previous | src/components/dashboard/attendance-logs-table.tsx:124-125 | disabled on page 1; otherwise steps back, never below 1; filters unchanged |
| AttendanceLogs.LogsTable.Next | src/components/dashboard/attendance-logs-table.tsx:135-136 | disabled on the last page; otherwise steps forward, never past the page count; filters unchanged |
| AttendanceLogs.LogsTable.SelectDate | src/components/dashboard/attendance-logs-table.tsx:56-58 | the date filter takes the chosen value, and the page resets to 1 exactly when the value changed |
| AttendanceLogs.LogsTable.SelectStudent | src/components/dashboard/attendance-logs-table.tsx:56-58 | the student filter takes the chosen value, and the page resets to 1 exactly when the value changed |
| Reports.Rate | src/components/dashboard/reports-view.tsx:44 | a student's rate is present over total days, 0 with no days, and at most 100% when present days do not exceed total days |
| Reports.StatFor | src/components/dashboard/reports-view.tsx:41-50 | one student's stat carries the student's id and name and the shared day count, with at most one present day per record |
| Reports.StatForCounts | src/components/dashboard/reports-view.tsx:42-43 | a student's present days are the number of Present records carrying that id |
| Reports.Stats | src/components/dashboard/reports-view.tsx:41-50 | one stat per roster student in roster order, with that student's id, name, Present count and the shared day count |
| Reports.InsertByPresent | src/components/dashboard/reports-view.tsx:51 | inserting into a list ordered by present days keeps it ordered and adds exactly that stat |
| Reports.SortByPresent | src/components/dashboard/reports-view.tsx:51 | the sort returns a permutation of its input, highest present days first |
| Reports.StudentsOfPermutation | src/components/dashboard/reports-view.tsx:41-51 | rearranging stats rearranges the students they describe |
| Reports.StudentsOfStats | src/components/dashboard/reports-view.tsx:41-50 | the unsorted stats describe exactly the roster, in order |
| Reports.EmptyWithoutRecords | src/components/dashboard/reports-view.tsx:30-35 | before mounting, or with no records, the ratio is 0 and there are no stats |
| Reports.SomeRecordSomeDay | src/components/dashboard/reports-view.tsx:32-33 | any record makes the day count positive |
| Reports.ReportDataOf | src/components/dashboard/reports-view.tsx:29-54 | before mounting the report is empty, and a non-empty report lists one stat per roster student |
| Reports.SortedStatsCounts | src/components/dashboard/reports-view.tsx:41-50 | every listed stat carries the number of distinct days and that student's Present count |
| Reports.SortedStatsRoster | src/components/dashboard/reports-view.tsx:41-51 | the listed stats are the roster rearranged, one row per roster entry |
| Reports.SortedStatsByRate | src/components/dashboard/reports-view.tsx:44-51 | down the list, present days and rates never increase |
| Reports.ReportSpec | src/components/dashboard/reports-view.tsx:29-54 | with records on the client, the report lists the sorted stats, and the overall ratio is all Present records over roster size times days, or 0 for an empty roster |
| Reports.OwnPresentRecordsBound | src/components/dashboard/reports-view.tsx:42-43 | under one record per (student, date), a student's Present records are no more than the recorded days |
| Reports.PresentDaysAtMostTotalDays | src/components/dashboard/reports-view.tsx:42-44 | under one record per (student, date), every stat has present days at most total days, so no rate exceeds 100% |
| Dashboard.DayStatsOf | src/app/dashboard/page.tsx:22-24 | present counts the Present records dated that day, and present plus absent is the roster size |
| Dashboard.ChartData | src/app/dashboard/page.tsx:28-38 | one entry per window date in window order, each counted as the today cards are |
| Dashboard.LastBarIsToday | src/app/dashboard/page.tsx:27-36 | when the window ends today, the last bar equals today's numbers |
| Dashboard.WeekChart | src/app/dashboard/page.tsx:27-38 | over a seven-day window ending today, the chart has seven entries and the last equals today's numbers |
| Dashboard.AttendanceRatio | src/app/dashboard/page.tsx:43-44 | the ratio is today's present over the roster size, or 0 for an empty roster |
| Dashboard.RosterIdsCard | src/app/dashboard/page.tsx:24 | there are no more roster ids than roster entries |
| Dashboard.AbsentNotNegative | src/app/dashboard/page.tsx:23-24 | under one record per (student, date) with every record of the day for a roster student, absent is never negative and the ratio is at most 100% |
| AuthForm.LoginSchema | src/components/auth-form.tsx:23-26 | the login schema asks for a well-formed email and a password of at least six UTF-16 code units |
| AuthForm.SignUpSchema | src/components/auth-form.tsx:28-32 | the sign-up schema also asks for a name of at least two UTF-16 code units |
| AuthForm.Accepted | src/components/auth-form.tsx:42 | the schema of the current mode decides |
| AuthForm.KnownTeacher | src/components/auth-form.tsx:74 | the email and the password are exactly the hard-coded teacher credentials |
| AuthForm.Decide | src/components/auth-form.tsx:62-90 | values the mode's schema refuses are rejected; an accepted sign-up succeeds; an accepted login succeeds iff the email and password are exactly the hard-coded ones; any other accepted login fails |
| AuthForm.ShortPasswordRejected | src/components/auth-form.tsx:25-31 | in both modes a password under six UTF-16 code units is rejected |
| AuthForm.TwoCharacterPasswordRejected | src/components/auth-form.tsx:25-31 | a password of at most two characters is rejected whatever those characters are |
| AuthForm.AstralPasswordLength | src/components/auth-form.tsx:25 | three characters outside the Basic Multilingual Plane count as six code units, so they meet the password rule |
| AuthForm.ShortNameRejected | src/components/auth-form.tsx:29 | a sign-up with a name under two UTF-16 code units is rejected |
| AuthForm.LoginIgnoresName | src/components/auth-form.tsx:23-26 | the login's outcome does not depend on the name field |
| AuthForm.Auth.constructor | src/components/auth-form.tsx:39-51 | login mode, not loading, empty fields |
| AuthForm.Auth.Edit | src/components/auth-form.tsx:44-51 | typing changes only the field values |
| AuthForm.Auth.Submit | src/components/auth-form.tsx:62-65 | the press schedules the callback iff not loading and the mode's schema accepts the values; then loading is on and the callback holds those values and that mode |
| AuthForm.Auth.SetMode | src/components/auth-form.tsx:53-59 | setting the mode clears the three fields exactly when the mode changes |
| AuthForm.Auth.TimerFired | src/components/auth-form.tsx:65-89 | a sign-up returns to login mode and stops loading; the known credentials navigate to the dashboard with loading left on; any other login stops loading |
| AuthForm.Auth.ToggleForm | src/components/auth-form.tsx:92-94 | the mode flips and the three fields are cleared |
| AuthForm.Auth.SubmitAndWait | src/components/auth-form.tsx:62-90 | a press followed by the timer ends in the state `Decide` names: a rejection or failed login leaves the mode and fields with loading off, a sign-up returns to login mode with cleared fields, a login navigates to the dashboard with the mode and fields kept and loading on |

## Left out

- The hosted recognition flow (`markAttendanceWithFaceRecognition`) is a foreign model call. Its answer is an arbitrary input, and its failure is the `RecognitionFailed` case.
- The call at attendance-form.tsx:57 passes no `studentRoster`. The model takes the recognition output as given, so that argument has no effect here.
- attendance-form.tsx and attendance-logs-table.tsx use `ALL_STUDENTS`, which src/lib/data.ts does not export. The roster is a parameter; the reports and dashboard views read a `students` key seeded with `DEFAULT_STUDENTS`, and the model takes that list as a parameter too.
- The clock is not modelled. `new Date()`, `format` and `subDays` become parameters: today's date string and the window's date strings.
- The chart's weekday and short-date labels are formatting and are not modelled.
- Float percentages (`* 100`, `toFixed`) become exact `Ratio` values. A rate is `100 * num / den` percent.
- `Reports.SortByPresent` sorts by present days rather than by the float percentage. All stats share the same positive day count, so both orders agree. The sort is stable, as JavaScript's is, but no lemma states that students with equal counts keep roster order.
- `toLowerCase` is modelled for ASCII letters only; other characters are left unchanged.
- `localeCompare` is modelled as plain lexicographic order on characters. This matches the locale order for the digit-and-hyphen `YYYY-MM-DD` strings the app stores.
- JSON is abstract. A stored item is empty, unparseable, or the encoding of a value.
- Each typed key gets its own `Storage` instance. The model does not capture the two keys sharing one browser store.
- The model does not put a bound on storage quota. A write that throws is the `writeSucceeds = false` case.
- `StorageEvent` dispatch and cross-tab delivery are an explicit `OnStorageChange` call.
- LocalStorage.StorageHook.SetValue: state updates take effect at once. React applies `setStoredValue` at the next render, and the setter's closure reads the mirror of the last render, so two setter calls in one handler both start from that render-time mirror (two `x => x + 1` updaters give `s0 + 1`, where the model gives `s0 + 2`). The model assumes a render between setter calls. The one caller in the modelled code, the attendance form's save, makes a single call with a plain value, so its results are unaffected.
- zod's email check is a parameter `isEmail`. Validation messages, toasts and the login's "Forgot password?" link are user interface only.
- `setTimeout` is split into `Submit` and `TimerFired`.
- `router.push` is recorded in the `route` field.
- `FileReader` is not modelled. The preview is the `PreviewLoaded` call, and the photo's bytes are not modelled.
- The asynchronous handlers are modelled as sequential method calls. Overlapping runs, such as a new file selected while recognition is pending, are only the orders those calls can be made in.
- The rendering (JSX, skeletons, navigation, the page wrappers) has no logic and is not modelled.
