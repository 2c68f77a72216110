# jVC scheduling app — a Dafny model of its core logic

The jVC app is a Next.js/Supabase scheduling tool for a youth association.
Members:

- declare whether they attend an event and whether they need an exemption
  ("Freistellung") from their airline employer;
- record vacations and unavailable days ("F-Tage").

Moderators and admins:

- see everyone's availability on a timeline;
- list the exemptions and export them per airline as a PDF;
- export the events in a date range as an iCalendar file;
- invite new users.

This project models the logic behind those features and proves its
properties. Every query result is an input sequence. Every calendar value is
a date plus milliseconds since midnight (`Calendar.Instant`). `getTime()`
becomes `Calendar.Time`, a day count since 0001-01-01 converted to
milliseconds.

Modules, following the program's files:

| module | what it models |
|---|---|
| `Wrappers`, `Text`, `Lists`, `Gates`, `Sorting`, `Records`, `Calendar` | Shared pieces. JavaScript truthiness and `\|\|` fallbacks; `split`/`join`, `trim`, UTF-16 `.length` and `Number()` on digit strings; `filter`. The ordered early-return guard chains (`Gates.FirstFailure`). An in-place insertion sort over an array (`Array.prototype.sort`). The database rows. Dates, labels and `getTime()`. |
| `AttendancePanel` | The attendance section of `EventModalExtended.tsx`, as a class. Its fields are the `event_attendances` store (a map keyed by event and user) and the local `myAttendance` / `myRequiresExemption` state. |
| `Availability` | `AvailabilityView.tsx`: the merged timeline, the item colours and the per-person absence summary. |
| `ExemptionsView` | `ExemptionsView.tsx`: the exemption list, built in a loop and sorted in place. Also the airline filter, date labels, the options list, the export guard and the count line. |
| `ExemptionReport` | `GET /api/exemptions/pdf`: the ordered error responses, the month filter, the rows and their order, the footer and the file name. |
| `ExportDialog` | `ExportDialog.tsx`: the export window, the conversion of events to iCalendar events, the count wording and the default window. |
| `Invite` | `POST /api/admin/invite`: the ordered validation chain and the e-mail pattern. |
| `ResetPassword` | `reset-password/page.tsx`: the password checks, the link-validity test on the URL fragment, and the page state as a class. |

Behaviour of the code a reader may not expect; the model follows the
code:

- **Re-declaring attendance.** Declaring a status writes the dialog's current
  exemption flag, also for `absent`; nothing resets it to false
  (`AttendancePanel.Panel.ChangeAttendance`).
- **Which flag selects exemptions.** The screen list selects events by the
  event-level `requires_exemption` and ignores the attendance's own flag. The
  PDF report selects by the attendance's flag. `ScreenListsWhatReportOmits`
  exhibits an attendance that the screen lists and the report leaves out.
- **PDF row order.** Report rows are sorted by the rendered `dd.MM.yyyy`
  text, so they are ordered by day of month before month.
  `LabelOrderIsNotChronological` gives an example: 02.02.2024 comes before
  15.01.2024.
- **Empty reports.** A report with no candidates, or with none in the
  requested month, is a 404. No empty document is produced.

## Model

| member | source | states |
|---|---|---|
| AttendancePanel.Panel.constructor | src/components/EventModalExtended.tsx:67-84 | Opening the dialog records the user. For a saved event with an existing own row, it loads that row's status and flag; otherwise there is no status and the flag is false. The local view then mirrors the store (`Synced`). |
| AttendancePanel.Panel.ChangeAttendance | src/components/EventModalExtended.tsx:99-136 | With no event id or no user, nothing changes. Withdrawing deletes exactly the caller's row and clears the status and flag. Declaring updates the existing row or inserts exactly one, with the chosen status and the current local flag (also for `absent`); the local status becomes the declared one. Every other row is unchanged, the key set changes only at the caller's key, and `Synced` is preserved. |
| AttendancePanel.Panel.ChangeExemption | src/components/EventModalExtended.tsx:141-152 | The local flag always becomes the box's value. The store changes only when there is an event id, a user and a local status, and then only the caller's flag. Everything else is unchanged, and `Synced` is preserved. |
| AttendancePanel.OfferedExemptionIsStored | src/components/EventModalExtended.tsx:416-428 | While the exemption box is visible (a status other than absent is set), the caller's row exists, is an attending row and holds the flag the box shows. |
| AttendancePanel.SaveBounds | src/components/EventModalExtended.tsx:159-164 | An all-day save runs from 00:00:00 of the start date to 23:59:59 of the end date. Otherwise the chosen times are used on the chosen dates. |
| AttendancePanel.AllDayEndsOneSecondBeforeNextMidnight | src/components/EventModalExtended.tsx:162-163 | The all-day end is exactly one second before the following midnight, in `getTime()` terms. |
| Availability.PersonName | src/components/AvailabilityView.tsx:108-109 | The display name is the person's non-empty `full_name`. It is `Unbekannt` when no profile has the id, or when the profile's `full_name` is null or empty. It is never empty. |
| Availability.NoteSuffix | src/components/AvailabilityView.tsx:117 | The `: note` suffix appears iff the note is non-empty. |
| Availability.VacationsOf | src/components/AvailabilityView.tsx:81 | The vacations kept for a person are exactly that person's. |
| Availability.DaysOf | src/components/AvailabilityView.tsx:82 | The unavailable days kept for a person are exactly that person's. |
| Availability.AvailabilityOfExact | src/components/AvailabilityView.tsx:79-83 | A person's entry holds the profile, and a vacation (a day) is in it iff it belongs to that person. |
| Availability.Availabilities | src/components/AvailabilityView.tsx:79-83 | One entry per profile, in profile order. |
| Availability.LoadData | src/components/AvailabilityView.tsx:55-150 | No profiles → nothing is loaded. Otherwise the users are the per-profile availabilities, and the item list is the events, then the shown vacations, then the shown days. |
| Availability.AppendEvents | src/components/AvailabilityView.tsx:91-102 | The events loop appends one item per event, in order. |
| Availability.AppendVacations | src/components/AvailabilityView.tsx:105-127 | The vacations loop appends the items of the vacations the selection shows, in order. |
| Availability.AppendDays | src/components/AvailabilityView.tsx:130-148 | The days loop appends the items of the days the selection shows, in order. |
| Availability.EventItemsExact | src/components/AvailabilityView.tsx:91-101 | Every event gives exactly one item, whatever the selection, in input order. |
| Availability.VacationItemsSound | src/components/AvailabilityView.tsx:106-107 | Every vacation item comes from a vacation the selection shows (`all` or its own user). |
| Availability.VacationItemsComplete | src/components/AvailabilityView.tsx:107 | Every vacation the selection shows gives its item. |
| Availability.VacationItemsConcat | src/components/AvailabilityView.tsx:106-126 | The vacation items of a concatenation are the concatenation of the items, so input order is kept. |
| Availability.DayItemsSound | src/components/AvailabilityView.tsx:131-132 | Every unavailable-day item comes from a day the selection shows. |
| Availability.DayItemsComplete | src/components/AvailabilityView.tsx:132 | Every day the selection shows gives its item. |
| Availability.DayItemsConcat | src/components/AvailabilityView.tsx:131-147 | The day items of a concatenation are the concatenation of the items. |
| Availability.BlocksInOrder | src/components/AvailabilityView.tsx:88-150 | In a list made of event, vacation and day blocks, an earlier position never belongs to a later block. |
| Availability.MergedLayout | src/components/AvailabilityView.tsx:88-150 | The timeline is all events in input order, then the shown vacations, then the shown days. No vacation or day item precedes an event item, and no day item precedes a vacation item. |
| Availability.AbsenceShownIff | src/components/AvailabilityView.tsx:105-148 | A vacation's (a day's) item is on the timeline iff the selection is `all` or the absence's user. |
| Availability.VacationItemFacts | src/components/AvailabilityView.tsx:115-119 | The id is `vacation-` plus the row id. The title is the beach mark, the person's name, ` - Urlaub` and `: note` when the note is non-empty. The item starts at the start date and ends exactly 24 h after the end date's midnight. |
| Availability.DayItemFacts | src/components/AvailabilityView.tsx:136-140 | The id is `unavailable-` plus the row id. The title is the no-entry mark, the person's name, ` - F-Tag` and `: reason` when the reason is non-empty. The item spans exactly 24 h from the date's midnight. |
| Availability.ItemColours | src/components/AvailabilityView.tsx:163-177 | Vacation → `#f59e0b`/`#d97706`. Unavailable → `#ef4444`/`#dc2626`. Event → its colour or `#3b82f6`. The border equals the background iff the item is an event. |
| Availability.TouchingCountPositive | src/components/AvailabilityView.tsx:203-207 | The vacation count is at most the number of vacations, and positive iff some vacation starts before the view's end and ends after its start. |
| Availability.InsideCountPositive | src/components/AvailabilityView.tsx:209-212 | The day count is at most the number of days, and positive iff some day lies in the view. |
| Availability.TotalPositiveIff | src/components/AvailabilityView.tsx:214-218 | A person's total is the sum of the two counts. It is positive iff some vacation touches the view or some day lies in it. |
| Availability.SummaryRowsExact | src/components/AvailabilityView.tsx:202-220 | One summary row per user, in order, each that user's counts. |
| Availability.SummarySound | src/components/AvailabilityView.tsx:222 | Every kept row has a positive total and is some user's row. |
| Availability.SummaryComplete | src/components/AvailabilityView.tsx:222 | Every user with a positive total is kept. |
| ExemptionsView.AirlineName | src/components/ExemptionsView.tsx:88-107 | No airline id → none. An unknown airline → none. Otherwise the last airline listed under that id decides: its name if non-empty, else none. |
| ExemptionsView.ScreenLeqIsTotalPreorder | src/components/ExemptionsView.tsx:117-121 | The comparator, earlier start and then name, is total and transitive. |
| ExemptionsView.LoadExemptions | src/components/ExemptionsView.tsx:54-123 | An events error → no update. No exempting events → the empty list. An attendances error → no update. Otherwise the list is a permutation of the screen candidates, sorted by start and then name. |
| ExemptionsView.BuildEntries | src/components/ExemptionsView.tsx:95-114 | The loop produces the entries of the attendances whose event and profile both exist, in order. |
| ExemptionsView.SortEntries | src/components/ExemptionsView.tsx:117-121 | The sorted list is a permutation of the entries and is ordered by the comparator. |
| ExemptionsView.EntriesSound | src/components/ExemptionsView.tsx:97-113 | Every entry comes from an attendance whose event and profile exist. |
| ExemptionsView.EntriesComplete | src/components/ExemptionsView.tsx:97-113 | Every attendance whose event and profile exist gives its entry. |
| ExemptionsView.ScreenEntryOrigin | src/components/ExemptionsView.tsx:56-80 | Every screen candidate comes from an onsite or hybrid attendance at an event whose own `requires_exemption` is set. |
| ExemptionsView.ScreenEntryPresent | src/components/ExemptionsView.tsx:56-113 | Every such attendance with a known profile is listed, whatever its own flag. |
| ExemptionsView.FilterByAirline | src/components/ExemptionsView.tsx:132-136 | `all` is the identity. The result holds exactly the entries that match: no airline for `none`, the exact id otherwise. |
| ExemptionsView.FilterByAirlineKeepsOrder | src/components/ExemptionsView.tsx:132-136 | Filtering distributes over concatenation, so the order is kept. |
| ExemptionsView.AirlineOptions | src/components/ExemptionsView.tsx:126-130 | `all`, then `none`, then one option per airline in load order. |
| ExemptionsView.FormatEventDate | src/components/ExemptionsView.tsx:138-150 | Same date and all-day → the date alone. Same date and timed → `date, HH:mm - HH:mm`, with the separators `, ` and ` - ` at fixed positions. Different dates → `start - end`. |
| ExemptionsView.OneDayFormIffSameDate | src/components/ExemptionsView.tsx:142 | For four-digit years, the one-day forms are used iff the event starts and ends on the same date. |
| ExemptionsView.PdfRequest | src/components/ExemptionsView.tsx:152-159 | No request for `all` or `none`. Otherwise the request names the selected airline. |
| ExemptionsView.ExportEnabledIff | src/components/ExemptionsView.tsx:152-195 | The button is enabled iff a specific airline is selected and some entry belongs to it. An enabled button always leads to a request for that airline. |
| ExemptionsView.DownloadTitle | src/components/ExemptionsView.tsx:168 | The title is the selected airline's non-empty name, else `Freistellungen`; it is never empty. |
| ExemptionsView.DownloadName | src/components/ExemptionsView.tsx:169 | The file name reads back as `Freistellungen_`, the title, and `_` with today's ISO date and `.pdf`. |
| ExemptionsView.CountLineReadsBack | src/components/ExemptionsView.tsx:278 | The count line splits into the count, which reads back as the number, and the word for it. |
| Records.ExemptionWord | src/components/ExemptionsView.tsx:278 | `Freistellung` for exactly one, `Freistellungen` otherwise. |
| Records.FindFirst | src/components/ExemptionsView.tsx:98 | `find`: none iff no element matches. Otherwise the result is a matching element. |
| Records.FindLast | src/components/ExemptionsView.tsx:92 | The value a `Map` built from a list keeps under a key: none iff no element matches. Otherwise it is a matching element with no match after it. |
| ExemptionReport.ParseMonth | src/app/api/exemptions/pdf/route.ts:77-85 | A filter is set only when the parameter has two `-`-separated parts that read as non-zero numbers, and then it holds those numbers. A missing or empty parameter, or one without a `-`, sets none. |
| ExemptionReport.ParseMonthRoundTrip | src/app/api/exemptions/pdf/route.ts:79-84 | A well-formed `YYYY-MM` sets exactly that year and month. |
| ExemptionReport.ParseMonthNeedsBothParts | src/app/api/exemptions/pdf/route.ts:81 | `YYYY` alone, or a month of `00`, leaves the filter off. |
| ExemptionReport.ReportDate | src/app/api/exemptions/pdf/route.ts:107-116 | The start label when the two labels agree. Otherwise the start label, ` - ` and the end label. There is no time part. |
| ExemptionReport.ReportDateSingleIffSameDate | src/app/api/exemptions/pdf/route.ts:114 | For four-digit years the single label is used iff the start and end dates are equal. |
| ExemptionReport.ReportRowsSound | src/app/api/exemptions/pdf/route.ts:90-124 | Every row comes from a candidate whose event and profile exist and whose event passes the month filter. |
| ExemptionReport.ReportRowsComplete | src/app/api/exemptions/pdf/route.ts:90-124 | Every candidate whose event and profile exist and whose event passes the filter gives its row. |
| ExemptionReport.CandidateInPeriodIsReported | src/app/api/exemptions/pdf/route.ts:61-124 | An onsite or hybrid attendance with the flag set, by a member of the airline, at an event in the period is reported. |
| ExemptionReport.FilteredRowsAreInMonth | src/app/api/exemptions/pdf/route.ts:99-105 | With a month filter, every row comes from a candidate whose event starts in that year and month. |
| ExemptionReport.RowLeqIsTotalPreorder | src/app/api/exemptions/pdf/route.ts:127-131 | The comparator, label text and then name, is total and transitive. |
| ExemptionReport.LabelOrderIsNotChronological | src/app/api/exemptions/pdf/route.ts:127-131 | Sorting by label text puts 02.02.2024 before 15.01.2024. |
| ExemptionReport.FileName | src/app/api/exemptions/pdf/route.ts:318 | The file name reads back as `Freistellungen_`, the sanitised airline name, `_`, the month parameter (or today's ISO date when it is missing or empty) and `.pdf`. |
| ExemptionReport.SanitizeName | src/app/api/exemptions/pdf/route.ts:318 | The result has one character per UTF-16 code unit. Each character is an ASCII letter, an ASCII digit or `_`. |
| ExemptionReport.SanitizeNameConcat | src/app/api/exemptions/pdf/route.ts:318 | The replacement works character by character: it distributes over concatenation. |
| ExemptionReport.SanitizeNameKeepsAlphanumeric | src/app/api/exemptions/pdf/route.ts:318 | An all-alphanumeric name is left unchanged. |
| ExemptionReport.SanitizeNameIdempotent | src/app/api/exemptions/pdf/route.ts:318 | Sanitising twice is sanitising once. |
| ExemptionReport.FooterReadsBack | src/app/api/exemptions/pdf/route.ts:297-298 | The footer is `Gesamt: ` followed by the count, which reads back as the row count, and the word for it. |
| ExemptionReport.MonthLabelOf | src/app/api/exemptions/pdf/route.ts:138-140 | A month label exists iff the filter is set and its month is 1 to 12. |
| ExemptionReport.ReportOf | src/app/api/exemptions/pdf/route.ts:138-318 | The document holds the given rows, and its footer counts them. It names the airline. It has a month label iff the filter is set to a real month. Its file name is `FileName` of the airline and the month parameter. |
| ExemptionReport.Get | src/app/api/exemptions/pdf/route.ts:15-135 | The response is an error iff one of the seven ordered checks fails, and then it is the first failure. A report holds a permutation of the rows of the selected and month-filtered candidates, sorted by label and name, with the footer and file name. |
| ExemptionReport.Produce | src/app/api/exemptions/pdf/route.ts:61-140 | The content part: a query error, then no candidates, then no rows in the period. Otherwise the sorted rows. |
| ExemptionReport.BuildRows | src/app/api/exemptions/pdf/route.ts:88-124 | The loop with `continue` produces exactly the rows of the filtered candidates, in order. |
| ExemptionReport.SortRows | src/app/api/exemptions/pdf/route.ts:127-131 | The sorted rows are a permutation, ordered by label and then name. |
| ExemptionReport.EarlyFailures | src/app/api/exemptions/pdf/route.ts:19-44 | Unauthenticated → 401 before anything else. Then a missing `airline_id` → 400. Then an unauthorised viewer → 403. |
| ExemptionReport.MonthOfNonEmptyReport | src/app/api/exemptions/pdf/route.ts:133-140 | When a filtered report has rows, the filter's month is a real month, so it gets a label. |
| ExemptionReport.ScreenListsWhatReportOmits | src/app/api/exemptions/pdf/route.ts:61-66 | An attending row without its own flag, at an exempting event, is listed on screen but is never a report candidate. |
| Sorting.InsertionSort | src/app/api/exemptions/pdf/route.ts:127-131 | Sorting in place leaves a permutation of the array, ordered by any total preorder. |
| Sorting.Insert | src/components/ExemptionsView.tsx:117-121 | Inserting the next element keeps the sorted prefix sorted and the contents a permutation. |
| ExportDialog.IcsOf | src/components/ExportDialog.tsx:40-56 | Title and start are kept, and a missing description or location becomes `''`. An all-day event (`allDay` or `is_all_day`) ends one calendar day later and is marked all-day. Any other event keeps its end. |
| ExportDialog.AllDayExportIsOneDayLonger | src/components/ExportDialog.tsx:47-52 | The shifted end is exactly 24 h later in `getTime()` terms. |
| ExportDialog.IcsEventsCount | src/components/ExportDialog.tsx:16-32 | As many events are exported as the window predicate selects, the same predicate the count uses. |
| ExportDialog.IcsEventsSound | src/components/ExportDialog.tsx:29-56 | Every exported event is the conversion of an event in the window. |
| ExportDialog.IcsEventsExact | src/components/ExportDialog.tsx:29-58 | The exported events are exactly the window's events, each converted, in input order. None is dropped, duplicated or reordered. |
| ExportDialog.IcsEventsComplete | src/components/ExportDialog.tsx:29-58 | Every input event whose start lies in the window is exported. |
| ExportDialog.Export | src/components/ExportDialog.tsx:24-67 | Nothing is exported iff a date field is not a valid date. Otherwise the exported events are the converted window events, their number is the displayed count, and the file name carries both dates. |
| ExportDialog.WindowIsByStartDay | src/components/ExportDialog.tsx:29-32 | An event is in the window iff its start date lies between the two dates, inclusive. Its end plays no part. |
| ExportDialog.DefaultWindow | src/components/ExportDialog.tsx:13-14 | The default fields are today's ISO date and the date 30 days later. |
| ExportDialog.DefaultWindowSpans30Days | src/components/ExportDialog.tsx:13-14 | The default fields read back as today and a date exactly 30 days later. |
| ExportDialog.CountWording | src/components/ExportDialog.tsx:111 | `Termin wird` iff the count is 1, else `Termine werden`. |
| Invite.IsValidEmailMatchesPattern | src/app/api/admin/invite/route.ts:9-12 | The computable check holds iff the address matches `^[^\s@]+@[^\s@]+\.[^\s@]+$`: no whitespace, exactly one `@`, a non-empty local part, and a `.` inside the domain with characters on both sides. |
| Invite.ValidEmailMatches | src/app/api/admin/invite/route.ts:10 | A valid address matches the pattern. |
| Invite.MatchingEmailIsValid | src/app/api/admin/invite/route.ts:10 | An address that matches the pattern is valid. |
| Invite.NameOkIff | src/app/api/admin/invite/route.ts:50 | A string name is accepted iff its trimmed UTF-16 length is at least 2. |
| Invite.RoleOf | src/app/api/admin/invite/route.ts:55-56 | A role is accepted iff the field is exactly `normal`, `moderator` or `admin`, and then it is that role. |
| Invite.ValueChecksFirst | src/app/api/admin/invite/route.ts:36-57 | The first failing body check takes the order JSON, body, e-mail, name, role. |
| Invite.ReadBody | src/app/api/admin/invite/route.ts:36-75 | An invitation is sent iff every body check passes; otherwise the reply is the first failure. A sent invitation carries the given e-mail, name and role. Its reply is 400 with the service's message, or success. |
| Invite.Post | src/app/api/admin/invite/route.ts:14-75 | The same for the whole chain: 401, then 403, then the body checks. |
| Invite.AuthorisationComesFirst | src/app/api/admin/invite/route.ts:20-32 | For an unauthenticated or non-admin caller, the answer does not depend on the body and no invitation is sent. |
| ResetPassword.ResetError | src/app/reset-password/page.tsx:40-50 | The mismatch error iff the passwords differ. The length error iff they agree and are shorter than 6. No error iff they agree and are at least 6 long. |
| ResetPassword.LengthBoundary | src/app/reset-password/page.tsx:46 | Length 6 passes and length 5 fails. |
| ResetPassword.DropFirst | src/app/reset-password/page.tsx:26 | `substring(1)`: the string without its first character, and empty for an empty string. |
| ResetPassword.PlusToSpace | src/app/reset-password/page.tsx:26 | Each `+` becomes a space, and nothing else changes. |
| ResetPassword.Lookup | src/app/reset-password/page.tsx:27 | `get`: none iff no pair has the name. Otherwise it is the value of the first pair with that name. |
| ResetPassword.PairsOfSerialized | src/app/reset-password/page.tsx:26 | Parsing a serialised query of plain pairs gives the pairs back. The parser drops one leading `?`, so the first name must not start with `?`. |
| ResetPassword.GetOfSerialized | src/app/reset-password/page.tsx:26-27 | On a serialised query, `get` returns a value iff it is the value of the first pair with that name. |
| ResetPassword.RecoveryLinkIff | src/app/reset-password/page.tsx:20-30 | The link is valid iff there is a session or the first `type` pair of the fragment is `recovery`. This holds with or without a `?` after the `#`. |
| ResetPassword.QuestionMarkFragmentIsValid | src/app/reset-password/page.tsx:26-28 | Without a session, the fragment `#?type=recovery` makes the link valid, because the parser drops the `?`. |
| ResetPassword.ResetForm.constructor | src/app/reset-password/page.tsx:9-14 | The initial state: empty fields, not loading, no error, no success, no valid link. |
| ResetPassword.ResetForm.Shown | src/app/reset-password/page.tsx:69-150 | The invalid-link screen iff the link is not valid. The success screen iff it is valid and the change succeeded. Otherwise the form. |
| ResetPassword.ResetForm.SetPassword | src/app/reset-password/page.tsx:174 | Typing sets the password and nothing else. |
| ResetPassword.ResetForm.SetPasswordConfirm | src/app/reset-password/page.tsx:190 | Typing sets the confirmation and nothing else. |
| ResetPassword.ResetForm.CheckSession | src/app/reset-password/page.tsx:20-31 | The link becomes valid if there is a session or the fragment says `type=recovery`. Nothing else changes. |
| ResetPassword.ResetForm.HandleReset | src/app/reset-password/page.tsx:35-67 | The update is attempted iff both checks pass. The error is the first failed check, or else the update's error. Success and the redirect happen iff the update succeeds. Loading ends false, and the fields and the link state are unchanged. |
| Gates.FirstFailure | src/app/api/admin/invite/route.ts:20-57 | The outcome of an early-return chain: none iff every check passes, else the failure of a failing check. |
| Gates.FirstFailureAt | src/app/api/exemptions/pdf/route.ts:20-56 | When the k-th check is the first to fail, its failure is the outcome. |
| Gates.FirstFailureConcat | src/app/api/exemptions/pdf/route.ts:20-135 | Chaining two guard lists: the first list decides if it fails, otherwise the second does. |
| Calendar.NextDayIsOneDayLater | src/components/AvailabilityView.tsx:119 | The next calendar day is one day number, and exactly 24 h of `getTime()`, later. |
| Calendar.AddDaysCounts | src/components/ExportDialog.tsx:14 | Adding n days moves the day number by exactly n. |
| Calendar.DateLabelRoundTrip | src/app/api/exemptions/pdf/route.ts:107-111 | A `dd.MM.yyyy` label reads back as its date. |
| Calendar.DateLabelInjective | src/app/api/exemptions/pdf/route.ts:114 | For four-digit years, two labels are equal iff the dates are. |
| Calendar.IsoDateRoundTrip | src/components/ExportDialog.tsx:13-18 | Written as `yyyy-MM-dd`, a date parses back to itself. |
| Text.JoinSplit | src/app/api/exemptions/pdf/route.ts:80 | Joining the parts of `split` with the separator gives the string back. |
| Text.SplitJoin | src/app/reset-password/page.tsx:26 | Splitting a join of separator-free parts gives the parts back. |
| Text.Trim | src/app/api/admin/invite/route.ts:50 | The result is a contiguous slice of the input. Only whitespace lies before and after it, and it neither starts nor ends with whitespace. |
| Text.NumberOf | src/app/api/exemptions/pdf/route.ts:80 | `Number()`: `''` is 0, a digit string is its value, and anything else is NaN. |
| Text.LexLeqTotal | src/components/ExemptionsView.tsx:120 | The name order is total. |
| Lists.FilterConcat | src/components/ExemptionsView.tsx:134-135 | `filter` distributes over concatenation. |
| Lists.FilterEmptyIff | src/components/ExportDialog.tsx:16-22 | A filter is empty iff no element is kept. |

## Left out

- Supabase reads and writes, auth calls, `fetch`, blob and anchor
  downloads, `router.push`, `setTimeout` and `alert` are I/O. Query results,
  error flags, the session and the service's error message are parameters.
  The queries' `order by` clauses are not modelled: the inputs are taken in
  the order given.
- Time zones and daylight-saving time are not modelled. All instants are
  wall-clock values in one zone, so "+24 h" is always the next calendar day.
- `toLocaleDateString`, date-fns `format` and `toISOString` are modelled as
  exact `dd.MM.yyyy`, `HH:mm` and `yyyy-MM-dd` labels; the round trips are
  proved for years 1000–9999. The clock is a parameter (`now`).
  `toISOString`'s UTC date in the report's file name is taken to be the
  local date.
- `localeCompare` is approximated by code-point lexicographic order
  (`Text.LexLeq`); collation rules are not modelled.
- Sort stability is not modelled. Both sorts are specified as a permutation
  ordered by the comparator; rows that compare equal may appear in any order.
- Sorting.InsertionSort: the in-place algorithm is one insertion sort, not
  the engine's `Array.prototype.sort` algorithm; only the sort's promise
  (sorted, a permutation) is modelled.
- `Number()` is modelled for the empty string and digit runs only. Signs,
  decimals, exponents, hex and surrounding whitespace read as NaN here.
- `URLSearchParams` percent-decoding is not modelled. The parser does drop
  one leading `?` and read `+` as a space. The round trip is stated for
  names and values without `&`, `=` or `+`.
- Invite.Post: a JSON `null` body makes the destructuring throw, and the
  reply is 500. The engine's TypeError message is not modelled; the fallback
  `Interner Serverfehler` is used.
- The browser's `required` attribute on the reset form's inputs is not
  modelled; empty fields reach the handler's checks.
- pdfkit layout is not modelled: coordinates, fonts, page breaks, striping,
  colours and the `toUpperCase` of the airline heading. The document is its
  title, airline name, month label, rows, footer and file name.
- ical-generator serialisation is not modelled. The export stops at the list
  of event records handed to it and the file name.
- react-big-calendar and moment's view bounds are not modelled; the view
  window is a parameter (`viewStart`, `viewEnd` in milliseconds).
- Availability.TotalPositiveIff: the summary counts absence records, not
  days. This is what the code does, although the fields are named
  `vacationDays`.
- Concurrency between handlers or tabs is not modelled. Each handler runs
  to completion on the state it starts from, and the store writes are taken
  to succeed.
- `loadAttendances` (the participant list refresh) is a plain query after
  each change and is not modelled.
- `handleSubmit`'s event save is not modelled beyond its start and end
  instants (`AttendancePanel.SaveBounds`).
