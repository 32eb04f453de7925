# Cell management: a verified model

The application lets a church follow its home groups ("células"). A leader logs in for one
cell and fills in the weekly report: attendance, visitors, first-time visitors with their
contact details, offerings and a summary. The leader can also edit earlier reports and list
their own reports through a set of filters. The administrator logs in with a password and
gets four views:

- every report, under type, cell, date, period and year filters;
- the cells whose last meeting has gone 24 hours or more without a report ("late reports");
- metrics over the filtered reports, including an attention level per cell;
- goals, in-app notices and the lists of shared material, baptism candidates and events.

The application keeps all of this in one state store. It loads the store from the database and
updates it locally whenever a page calls one of its handlers.

This project models, in Dafny:

- the store and its handlers (`App.tsx`), as the class `App.Store` plus the row mappings
  between records and database rows (module `Rows`);
- the login decision (`pages/Login.tsx`), as module `Login`;
- the page frame (`components/Layout.tsx`): its tabs, the notifications shown, the unread
  count and the WhatsApp chat a notification opens (module `Layout`);
- the administrator's dashboard (`pages/AdminDashboard.tsx`):
  - the report list and its period filter (module `AdminDashboard`);
  - the late-report list (module `LateReports`);
  - the metrics (module `Metrics`);
- the leader's dashboard (`pages/LeaderDashboard.tsx`): the report-entry form as the class
  `LeaderDashboard.ReportEntryForm`, the duplicate-date guard, the visitor checks, the submit
  payload and the leader's filtered list.

Supporting modules:

- `Types` holds the records.
- `Seqs` holds the list operations. They include a stable sort: the property the
  application relies on when it sorts with `Array.prototype.sort`.
- `Text` holds the string functions the pages call: `trim`, `split(...)[0]`, `toLowerCase`,
  `replace(/\D/g, '')` and `Number`.
- `Calendar` provides local-time `Date` fields over day numbers.
- `LocalDates` renders and reads `YYYY-MM-DD` dates.
- `Filters` holds the filter selects shared by both dashboards.

Dates and times are represented as follows:

- A date is a day number (`Day`, where 0 is 1 January 1970).
- An instant is a count of milliseconds in local time.
- "Now" is always a parameter.
- The application compares `YYYY-MM-DD` strings. Because the rendering is injective
  (`LocalDates.LocalDateStringInjective`), comparing day numbers gives the same answers.

A handler that both changes local state and calls the database is modelled in two parts:

- its local update is a method of `App.Store`, whose postcondition states the whole new state;
- its database write is a row function in `Rows`, with a round-trip lemma against the mapping
  `fetchData` applies.

In four places the code behaves differently from what its labels and its forms suggest. The model follows the code:

- A cell with three reports and no visitors at all is Atenção, not Crítico. The code tests
  "two or more reports without visitors" before it looks at the average
  (`Metrics.CriticoIffSingleSilentReport`).
- A cell added and read back loses a dismissal date it carried. The insert leaves
  `dismissed_late_date` out (`Rows.CellRoundTrip`).
- The leader's late flag compares the short weekday name ("Quinta") with the cell's stored day.
  Monday to Friday are stored with their full "-Feira" names (pages/AdminDashboard.tsx:41), so
  every report of a cell meeting on one of those days is flagged late
  (`LeaderDashboard.FeiraDaysAlwaysLate`). 'Sábado' and 'Domingo' compare correctly.
- The time '20:00 - 21:00' of the built-in cells reads its minutes as NaN. Such a cell never
  gets a meeting instant and is never listed as late (`LateReports.ParseClockRange`).

## Model

| member | source | states |
|---|---|---|
| App.Store.constructor | App.tsx:18-59 | the store starts with the given cells, empty lists, and the restored session and tab |
| App.Store.Sync | App.tsx:92-154 | each list is replaced by the mapping of its table's rows (for shares and baptisms, the corrected mapping of "## Findings"); the cell list is replaced only by a non-empty result; a table without data leaves its list; session and tab are unchanged |
| App.Store.SyncCongregation | App.tsx:92-127 | the cell, report, share and baptism parts of that replacement (shares and baptisms through the corrected mapping), nothing else changed |
| App.Store.SyncAgenda | App.tsx:129-154 | the goal, notification and event parts of that replacement, nothing else changed |
| App.SignedIn | App.tsx:180-182 | the session after login is authenticated, has the given role and cell, and is confirmed exactly for the admin |
| App.Store.HandleLogin | App.tsx:180-192 | the new state is the signed-in session on the role's landing tab; nothing else changes |
| App.Store.HandleLogout | App.tsx:194-198 | the session is cleared and the tab returns to 'cadastrar'; nothing else changes |
| App.Store.AddCell | App.tsx:201-206 | the cell is appended under the fresh id; nothing else changes |
| App.SessionAfterCellUpdate | App.tsx:236 | a session on the updated cell sees the new version; any other session is untouched; role and flags never change |
| App.Store.UpdateCell | App.tsx:227-237 | the cells with that id are replaced and the session follows the update; nothing else changes |
| App.Store.DeleteCell | App.tsx:239-242 | exactly the cells with that id are removed |
| App.RemoveId | App.tsx:240 | `filter(x => x.id !== id)` keeps exactly the items with other ids, and removes as many items as carry the id |
| App.RemoveIdOrder | App.tsx:240 | removal works piecewise, so order is kept; a list without the id is untouched; removing twice equals removing once |
| App.ReplaceId | App.tsx:228 | the replacement keeps the length, puts y where the ids match and leaves every other position alone |
| App.ReplaceIdKeys | App.tsx:228 | every position keeps its id, and a list without y's id is unchanged |
| App.ReplaceIdPresent | App.tsx:228 | y is in the result exactly when some item had its id |
| App.ReplaceIdIdempotent | App.tsx:285 | replacing twice equals replacing once |
| App.DismissIn | App.tsx:245 | only the cells with that id get the dismissed date; all others are unchanged |
| App.DismissSilencesAlert | App.tsx:244-247 | dismissing an alert's date changes only the dismissal fields, and removes that cell's alert |
| App.Store.DismissLateAlert | App.tsx:244-247 | the cell list becomes the dismissed list; nothing else changes |
| App.Store.AddNotification | App.tsx:331-336 | an unread notification with the given fields is prepended; nothing else changes |
| App.VisitorNotices | App.tsx:272-276 | one notification per visitor taken |
| App.VisitorNoticesSpec | App.tsx:272-276 | the j-th notification from the front is the one for visitor k-1-j (the last visitor's notice comes first); each is unread, of kind 'visitor', and for the report's cell |
| App.VisitorNoticesStep | App.tsx:273-275 | one more turn of the `forEach` puts the next visitor's notice in front of the earlier ones |
| App.NewVisitorNotices | App.tsx:272 | with a positive first-time count there is one notice per listed visitor; otherwise there are none |
| App.Store.AddReport | App.tsx:250-277 | the report is prepended under the fresh id, and the visitor notices are prepended to the notifications; nothing else changes |
| App.Store.DeleteReport | App.tsx:279-282 | the reports with that id are removed; nothing else changes |
| App.Store.UpdateReport | App.tsx:284-295 | the report replaces those with its id; nothing else changes |
| App.Store.AddGoal | App.tsx:298-301 | the goal is appended under the fresh id |
| App.Store.UpdateGoal | App.tsx:316-317 | the goal replaces those with its id |
| App.Store.DeleteGoal | App.tsx:325-328 | the goals with that id are removed |
| App.MarkRead | App.tsx:339 | the notifications with that id are marked read; all others are unchanged |
| App.MarkReadIdempotent | App.tsx:338-341 | marking twice equals marking once, and afterwards nothing with that id is unread |
| App.Store.MarkNotifRead | App.tsx:338-341 | the notification list becomes the marked list |
| App.Store.DeleteNotification | App.tsx:343-346 | the notifications with that id are removed |
| App.Store.AddShare | App.tsx:348-351 | the share is prepended under the fresh id |
| App.Store.DeleteShare | App.tsx:361-364 | the shares with that id are removed |
| App.Store.AddBaptism | App.tsx:366-369 | the baptism candidate is appended under the fresh id |
| App.EventsAfterAdd | App.tsx:382 | the list with the new event is in date order; it is a permutation of the old list plus the event; events of one date keep their order, with the new event last among them |
| App.Store.AddEvent | App.tsx:379-382 | the event list is the sorted list with the new event: in date order and the old events plus the new one |
| App.Store.DeleteEvent | App.tsx:392-395 | the events with that id are removed, and a list in date order stays in date order |
| Rows.CellRoundTrip | App.tsx:94-99 | a cell inserted (209-224) and fetched back is the cell under its new id with its dismissal cleared; the round trip is exact exactly when there was no dismissal |
| Rows.CellUpdateRoundTrip | App.tsx:229-235 | a row updated with a cell fetches back as that cell, with the row's own dismissal date |
| Rows.CellDismissRoundTrip | App.tsx:246 | the dismissal update changes only the fetched cell's dismissal date |
| Rows.ReportRoundTrip | App.tsx:255-265 | a report inserted and fetched back (105-118) is the report under its new id |
| Rows.ReportUpdateRoundTrip | App.tsx:286-294 | a report row updated with a report of the same cell and id fetches back as that report |
| Rows.GoalRoundTrip | App.tsx:303-308 | a goal inserted and fetched back (132-135) is the goal under its new id |
| Rows.GoalUpdateRoundTrip | App.tsx:318-322 | a goal row updated with a goal of the same id fetches back as that goal |
| Rows.EventRoundTrip | App.tsx:383-389 | an event inserted without an id and fetched back (150-153) differs from the local event only in the id the database gives it |
| Rows.NotificationRoundTrip | App.tsx:335 | a notification inserted and fetched back (141-144) is the unread local one, with the database's id and creation time |
| Rows.MarkReadRoundTrip | App.tsx:340 | the read update changes only the fetched notification's read flag |
| Rows.ShareLinkLostAsWritten | App.tsx:121-123 | as written, a share read back has no `fileUrl`, so it differs from the share inserted at 352-358 |
| Rows.BaptismCellLostAsWritten | App.tsx:125-127 | as written, a baptism read back has no `cellName`, so it differs from the one inserted at 370-376 |
| Rows.ShareRoundTrip | App.tsx:352-358 | with `file_url` renamed, a share read back is the share inserted, link included |
| Rows.BaptismRoundTrip | App.tsx:370-376 | with `cell_name` renamed, a baptism read back is the one inserted, cell included |
| Login.Decide | pages/Login.tsx:18-35 | there is a call exactly when there is no error; an admin with the exact password logs in with no cell; any other admin password gives the password error; a leader with no cell selected gets the selection error; a leader with one logs in with the first cell of that id |
| Login.LoginPage.constructor | pages/Login.tsx:13-16 | the page opens on the leader form, with empty fields and no error |
| Login.LoginPage.HandleLogin | pages/Login.tsx:18-35 | the call made and the error set are those of `Decide`; the form fields are untouched |
| Login.AttemptSession | pages/Login.tsx:23 | a successful attempt gives an authenticated session, confirmed exactly for the admin, with the chosen cell for a leader |
| Layout.Tabs | components/Layout.tsx:24-40 | the admin's seven tabs exactly for the admin, the leader's three otherwise |
| Layout.LandingTabOffered | components/Layout.tsx:40 | the tab opened at login (App.tsx:191), and the one logout returns to, is offered by the menu |
| Layout.FilteredNotifications | components/Layout.tsx:42-47 | a notification is shown exactly when it is in the list and the role is admin, or it has no cell, or it has the session's cell |
| Layout.AdminSeesAll | components/Layout.tsx:44 | the admin's list is the whole list, in order |
| Layout.FilteredKeepsOrder | components/Layout.tsx:43 | filtering works piecewise, and each visible notification is shown as often as it occurs |
| Layout.UnreadCount | components/Layout.tsx:49 | the count is at most the number shown, and is zero exactly when every notification shown is read |
| Layout.UnreadCountSplit | components/Layout.tsx:49 | the count adds up over a split list, and one notification counts 1 exactly when it is shown and unread, so the count is the number of unread notifications shown |
| Layout.NoUnreadIff | components/Layout.tsx:49 | no unread notification among those shown exactly when all of them are read |
| Layout.MarkReadNeverRaisesCount | components/Layout.tsx:49 | marking a notification read (App.tsx:339) never raises the count |
| Layout.WhatsAppFromNotification | components/Layout.tsx:51-65 | a chat opens exactly for a visitor or late notification with a non-empty phone; the number is the phone's digits, in order; the welcome text goes exactly with visitor notifications and the late-report reminder with late notifications |
| AdminDashboard.PeriodYearGate | pages/AdminDashboard.tsx:103-104 | a report of a year other than the selected one never matches; with the year test passed, period 'all' always matches |
| AdminDashboard.BucketMonths | pages/AdminDashboard.tsx:112-127 | month, bimester, quarter and semester buckets are 1, 2, 3 and 6 months wide |
| AdminDashboard.PeriodBuckets | pages/AdminDashboard.tsx:112-127 | each calendar period matches exactly when the report is in the current year and in today's bucket |
| AdminDashboard.PeriodAnnual | pages/AdminDashboard.tsx:128 | 'year' matches exactly the selected year's reports, so together with year 'all' it matches nothing |
| AdminDashboard.PeriodWeek | pages/AdminDashboard.tsx:107-111 | 'week' matches exactly when the report's noon is within seven days of now, in either direction |
| AdminDashboard.PeriodUnknown | pages/AdminDashboard.tsx:129 | an unknown period leaves only the year test |
| AdminDashboard.FilteredReportsForList | pages/AdminDashboard.tsx:133-145 | the list is never longer than the report list |
| AdminDashboard.FilteredListNewestFirst | pages/AdminDashboard.tsx:144 | the list is ordered newest first |
| AdminDashboard.FilteredListContents | pages/AdminDashboard.tsx:134-143 | each report the filters keep appears as often as in the input; nothing else appears |
| AdminDashboard.FilteredListByDate | pages/AdminDashboard.tsx:140 | with a date chosen, a report is listed exactly when it is of that date and matches type and name, whatever period and year say |
| AdminDashboard.FilteredListStable | pages/AdminDashboard.tsx:144 | reports of one date keep their input order |
| AdminDashboard.FilteredGoals | pages/AdminDashboard.tsx:327-333 | the goal list is never longer than the input |
| AdminDashboard.GoalsPartition | pages/AdminDashboard.tsx:327-333 | 'all' shows every goal; 'completed' and 'pending' split the goals between them, by completion |
| AdminDashboard.GoalsKeepOrder | pages/AdminDashboard.tsx:327-333 | each goal list is taken piecewise, so it keeps the goals' order, and lists a goal of its status as often as it occurs |
| AdminDashboard.ToggleGoalCompletion | pages/AdminDashboard.tsx:325 | only the completion flag changes, and it flips |
| AdminDashboard.ToggleMovesGoal | pages/AdminDashboard.tsx:325 | toggling moves a goal between pending and completed, and a second toggle restores it |
| AdminDashboard.CleanTeam | pages/AdminDashboard.tsx:300 | the cleaned team is never longer than the input |
| AdminDashboard.CleanTeamMembers | pages/AdminDashboard.tsx:300 | the cleaned team holds exactly the non-blank members, and cleaning twice changes nothing |
| AdminDashboard.CellFormSubmit | pages/AdminDashboard.tsx:298-305 | an update exactly when a non-empty cell id is being edited (under that id), an add with the form's own id otherwise; the team is cleaned and every other field is the form's |
| AdminDashboard.SendAppNotice | pages/AdminDashboard.tsx:350-360 | nothing is sent without a title and a message; 'all' sends one notice per cell, in cell order; one leader gets exactly one notice; every notice is an admin notice, with no phone and the given title and message |
| LateReports.MeetingDayIndex | pages/AdminDashboard.tsx:149-159 | the weekday index found is between 0 and 6 |
| LateReports.MeetingDayIndexSpec | pages/AdminDashboard.tsx:157-159 | the index is that of the day's first word among dayMap's keys, and there is none exactly when that word is not a key |
| LateReports.ParseClock | pages/AdminDashboard.tsx:166 | a parsed time has non-negative hours and minutes |
| LateReports.ParseClockDefault | pages/AdminDashboard.tsx:166 | an empty time reads as 20:00 |
| LateReports.ParseTimeHhMm | pages/AdminDashboard.tsx:166 | a time written hh:mm reads as those hours and minutes |
| LateReports.ParseClockRange | pages/AdminDashboard.tsx:166-167 | '20:00 - 21:00' reads NaN minutes, so no meeting instant exists |
| LateReports.DaysSinceMeetingDay | pages/AdminDashboard.tsx:162-163 | the step back is between 0 and 6 days |
| LateReports.DaysSinceWeekday | pages/AdminDashboard.tsx:161-164 | stepping back that many days lands on the meeting weekday |
| LateReports.AlertAtMeeting | pages/AdminDashboard.tsx:157-168 | for a known day and a readable time, the check runs against the meeting instant: that day of the week, stepped back from today, at that hour and minute |
| LateReports.MeetingDate | pages/AdminDashboard.tsx:161-173 | a meeting at least a day old falls on its weekday, within the six days before today |
| LateReports.LateAlerts | pages/AdminDashboard.tsx:147-181 | there are never more alerts than cells |
| LateReports.LateReportsList | pages/AdminDashboard.tsx:154-180 | the `forEach` loop returns exactly `LateAlerts` |
| LateReports.CheckCell | pages/AdminDashboard.tsx:157-177 | the callback for one cell yields exactly that cell's alert |
| LateReports.CheckSinceMeeting | pages/AdminDashboard.tsx:169-177 | once the meeting instant is known, the callback yields the alert: none before 24 hours, none for a dismissed date, none when the cell has a report of that date |
| LateReports.LateAlertsAreLateCells | pages/AdminDashboard.tsx:156-180 | the alerted cells are exactly the late cells, in cell order and with multiplicity; every alert is its own cell's alert |
| LateReports.AlertUnreported | pages/AdminDashboard.tsx:169-176 | an alert is for its own cell and for the date of the last meeting; that date is neither dismissed nor reported by the cell |
| LateReports.AlertDate | pages/AdminDashboard.tsx:161-173 | for a time within the day, the alerted date falls on the meeting weekday, within the last six days and before today |
| LateReports.AlertComplete | pages/AdminDashboard.tsx:169-176 | conversely, a meeting 24 hours old or older whose date is neither dismissed nor reported is alerted |
| LateReports.ReportClearsAlert | pages/AdminDashboard.tsx:175 | adding the missing report clears the alert |
| LateReports.DismissalSuppressesOnlyThatDate | pages/AdminDashboard.tsx:174 | dismissing a date suppresses the alert of that date and of no other |
| LateReports.DismissingAlertDateSilences | pages/AdminDashboard.tsx:174 | dismissing the alerted date silences the alert |
| Metrics.OrphanReportsIgnored | pages/AdminDashboard.tsx:195-197 | a report whose cell no longer exists is never counted |
| Metrics.TotalsAreSums | pages/AdminDashboard.tsx:205-214 | each total the reducer builds is the sum of its field over the reports |
| Metrics.RecurrentVisitors | pages/AdminDashboard.tsx:232 | the recurrent count is visitors minus first-timers when that is positive, and 0 otherwise |
| Metrics.Tally | pages/AdminDashboard.tsx:216-228 | the nested loops count exactly the baptized, not baptized, encounter and no-encounter visitors among all listed first-time visitors |
| Metrics.TallySplitsVisitors | pages/AdminDashboard.tsx:224-225 | each visitor falls on exactly one side of each chart |
| Metrics.CellNamesSpec | pages/AdminDashboard.tsx:237-243 | the keys of `cellReports` are distinct and are exactly the cell names of the reports |
| Metrics.GroupByCellName | pages/AdminDashboard.tsx:237-241 | the grouping loop's keys are the names in first-seen order, and each key holds exactly its reports, in report order |
| Metrics.GroupStep | pages/AdminDashboard.tsx:238-241 | one step of that loop keeps the grouping invariant |
| Metrics.LeadingZeroRun | pages/AdminDashboard.tsx:245-248 | the run counts the leading reports without visitors and stops at the first report with visitors |
| Metrics.WeeksWithoutVisitors | pages/AdminDashboard.tsx:245-248 | the `for ... of` loop with `break` returns exactly that run |
| Metrics.LeadingZeroRunUnique | pages/AdminDashboard.tsx:246-248 | the run is the only count with those two properties |
| Metrics.CriticoIffSingleSilentReport | pages/AdminDashboard.tsx:258-270 | with non-negative visitor counts, a group is Crítico exactly when it is a single report without visitors |
| Metrics.TwoSilentReportsIsAtencao | pages/AdminDashboard.tsx:258 | two newest reports without visitors make a group Atenção, whatever comes after |
| Metrics.NormalIff | pages/AdminDashboard.tsx:252-270 | a group is Normal exactly when one of its two newest reports has visitors and the visitor sum is positive |
| Metrics.AttentionLevelsOrder | pages/AdminDashboard.tsx:272-275 | the entries are ordered Crítico, Atenção, Normal; entries of one level keep name order; the entries are a permutation of one entry per name |
| Metrics.EntryCountsGroup | pages/AdminDashboard.tsx:244-250 | each entry covers its name's whole group, with at least one report |
| Metrics.ComputeAttentionLevels | pages/AdminDashboard.tsx:243-275 | the `map` loop over the keys, followed by the sort, returns exactly `AttentionLevels` |
| Metrics.AttentionOf | pages/AdminDashboard.tsx:244-271 | the callback for one name gives exactly that name's entry |
| Metrics.MetricsData | pages/AdminDashboard.tsx:194-278 | the result is built from the reports the selects keep, and only from those reports: totals, tallies, recurrent visitors, total people and attention levels |
| LocalDates.Decimal | pages/AdminDashboard.tsx:92 | `String(n)` is a non-empty run of digits |
| LocalDates.PadStart2 | pages/AdminDashboard.tsx:93-94 | `padStart(2, '0')` keeps a text of two characters or more as it is and pads a shorter one to exactly two |
| LocalDates.PadValue | pages/AdminDashboard.tsx:93-94 | padded digits read back as the number |
| LocalDates.ParseFields | pages/AdminDashboard.tsx:142 | 'YYYY-MM-DD' made of digits reads back as its three fields |
| LocalDates.LocalDateRoundTrip | pages/AdminDashboard.tsx:91-96 | for four-digit years, the rendered date reads back as the same calendar date |
| LocalDates.LocalDateStringInjective | pages/LeaderDashboard.tsx:30-33 | distinct days of four-digit years render as distinct strings, so string equality is day equality |
| Calendar.CivilFromDay | pages/AdminDashboard.tsx:100-101 | the local calendar date of a day is valid, and turning it back into a day number gives the day |
| Calendar.CivilRoundTrip | pages/AdminDashboard.tsx:100-101 | a valid calendar date and its day number convert into each other |
| Calendar.Weekday | pages/LeaderDashboard.tsx:176-179 | `getDay()` lies between 0 and 6 |
| Filters.WithinWeekIff | pages/LeaderDashboard.tsx:239-244 | `Math.ceil(Math.abs(diff) / day) <= 7` holds exactly when the difference is at most seven days |
| Filters.CeilDiv | pages/AdminDashboard.tsx:109 | `Math.ceil(x / d)` is the least count of d-sized steps reaching x |
| Text.TrimEnds | pages/AdminDashboard.tsx:300 | a trimmed text neither starts nor ends with white space |
| Text.TrimStartFacts | pages/LeaderDashboard.tsx:162 | trimming the start keeps a suffix, removes only white space and stops at the first other character |
| Text.TrimEndFacts | pages/LeaderDashboard.tsx:162 | trimming the end keeps a prefix, removes only white space and stops at the last other character |
| Text.TrimIdempotent | pages/AdminDashboard.tsx:300 | trimming twice equals trimming once |
| Text.BeforePrefix | pages/AdminDashboard.tsx:157 | `split(sep)[0]` is a prefix of the text |
| Text.BeforeStop | pages/AdminDashboard.tsx:157 | it stops short of the end only at an occurrence of the separator |
| Text.After | pages/AdminDashboard.tsx:166 | `split(':')[1]` exists exactly when the separator occurs, and the text is the part before, the separator and the part after |
| Text.ToLower | pages/LeaderDashboard.tsx:196 | `toLowerCase` keeps the length and lowers each character; only ASCII and Latin-1 capitals are lowered, which covers the weekday names it is applied to |
| Text.DigitsOnlyMembers | components/Layout.tsx:53 | `replace(/\D/g, '')` keeps exactly the digits |
| Text.DigitsOnlyIdempotent | pages/LeaderDashboard.tsx:146 | stripping non-digits a second time changes nothing |
| Text.WordCountTwo | pages/LeaderDashboard.tsx:154 | a name has two words or more exactly when its trimmed text contains white space |
| Text.ToNumber | pages/AdminDashboard.tsx:166 | `Number` of blank text is 0, and any value read is non-negative; only unsigned decimal digit runs are read, which covers the pieces of an `<input type="time">` value and the default '20:00' |
| Seqs.SortByOrders | pages/AdminDashboard.tsx:144 | the stable sort orders the list by its key |
| Seqs.SortByPermutes | pages/AdminDashboard.tsx:144 | the sort is a permutation |
| Seqs.SortByStable | App.tsx:382 | items of equal key keep their relative order |
| Types.FindCell | pages/AdminDashboard.tsx:135 | `find` returns the first cell with the id, and none exactly when no cell has it |
| LeaderDashboard.EditedReportNoConflict | pages/LeaderDashboard.tsx:54-56 | while editing, the duplicate guard sees exactly the reports with other ids, so a report never conflicts with itself |
| LeaderDashboard.SpliceStart | pages/LeaderDashboard.tsx:137 | `splice(count)` cuts within the list |
| LeaderDashboard.ResizedSpec | pages/LeaderDashboard.tsx:130-141 | a non-negative count gives the list exactly that length; kept visitors are unchanged and new places are blank; a negative count drops that many visitors from the end |
| LeaderDashboard.ResizedSavedBelow | pages/LeaderDashboard.tsx:138 | every index still saved is below the new count and inside the new list |
| LeaderDashboard.ApplyEdit | pages/LeaderDashboard.tsx:143-147 | the edited field takes the typed value, a phone keeps exactly the typed digits, and every other field is unchanged |
| LeaderDashboard.CheckVisitorIff | pages/LeaderDashboard.tsx:152-167 | a visitor is accepted exactly when the trimmed name contains white space, the phone has at least ten characters and the address is not blank |
| LeaderDashboard.DayOfWeek | pages/LeaderDashboard.tsx:176-180 | the name is one of the seven short weekday names |
| LeaderDashboard.LongDayAlwaysLate | pages/LeaderDashboard.tsx:194-196 | a meeting day without white space and longer than any short name marks every report late |
| LeaderDashboard.FeiraDaysAlwaysLate | pages/LeaderDashboard.tsx:194-196 | so does each stored '-Feira' day |
| LeaderDashboard.Payload | pages/LeaderDashboard.tsx:197-212 | youth cells report no children and no kids' offering; other cells report the form's values; attendance, visitors, conversions, weekly visits, first-time count, offering and summary are the form's; the cell, date, visitors and late flag are filled in |
| LeaderDashboard.EditRoundTrip | pages/LeaderDashboard.tsx:86-104 | reading a report into the form and submitting it again (197-214) reproduces the report |
| LeaderDashboard.AllSaved | pages/LeaderDashboard.tsx:190 | when the distinct saved indices are at least as many as the visitors, every visitor is saved |
| LeaderDashboard.ReportEntryForm.constructor | pages/LeaderDashboard.tsx:21-49 | the form starts with no edit, an empty form for today and no visitors |
| LeaderDashboard.ReportEntryForm.HandleFirstTimeCountChange | pages/LeaderDashboard.tsx:130-141 | the count is stored, the list is resized, indices at or past the new count are dropped from the saved list, and the saved indices stay distinct and in range |
| LeaderDashboard.ReportEntryForm.UpdateVisitor | pages/LeaderDashboard.tsx:143-150 | the edit is applied to that visitor, and the visitor's index leaves the saved list |
| LeaderDashboard.ReportEntryForm.HandleSaveVisitor | pages/LeaderDashboard.tsx:152-167 | the result is the first failed check, or Saved; on Saved the index joins the saved set once |
| LeaderDashboard.ReportEntryForm.HandleEditReport | pages/LeaderDashboard.tsx:86-104 | the form shows the report, and all its visitors count as saved |
| LeaderDashboard.ReportEntryForm.CancelEdit | pages/LeaderDashboard.tsx:106-123 | the form is reset to today, with no visitors |
| LeaderDashboard.ReportEntryForm.HandleSubmit | pages/LeaderDashboard.tsx:182-220 | blocked exactly by a duplicate date, then by unsaved visitors; otherwise an update call when editing and an add call when not, with the payload, every visitor saved, and the form reset |
| LeaderDashboard.FilteredNoDuplicates | pages/LeaderDashboard.tsx:138 | filtering keeps the saved indices distinct |
| LeaderDashboard.FilteredReportsList | pages/LeaderDashboard.tsx:222-272 | the list is no longer than the input and is newest first |
| LeaderDashboard.LeaderListContents | pages/LeaderDashboard.tsx:226-270 | each report the leader's filters keep appears as often as in the input; nothing else appears |
| LeaderDashboard.LeaderListStable | pages/LeaderDashboard.tsx:270 | reports of one date keep their input order |
| LeaderDashboard.LeaderKeepsMeans | pages/LeaderDashboard.tsx:227-270 | only the leader's own reports of the selected year are kept; 'year' means the current year; a month number means that month of the selected year |
| LeaderDashboard.LeaderListMismatch | pages/LeaderDashboard.tsx:229-232 | a type or name select that does not fit the leader's own cell empties the list |

## Left out

- The database, the network and the realtime channel (App.tsx:166-178) are left out. A fetch is
  modelled by the rows it returns. A write is modelled by its row function, not by its
  asynchronous call, its error branch or its `alert`.
- Saving the session in `localStorage` and reading it back are left out. The page never passes
  `rememberMe`, so login never saves it (`Login.AttemptSession`).
- The loading screen, the timeout and the DebugOverlay are left out.
- The rendering of every page is left out. This covers the charts, the photo and file uploads,
  speech recognition, and the baptism, share, goal and event forms, whose only logic is the
  handler they call.
- `LeaderDashboard.ReportEntryForm.HandleEditReport`: its switch of the application's tab to
  'cadastrar' and its `window.scrollTo` to the top of the page are left out, because the tab
  belongs to the store's navigation and scrolling is rendering.
- `window.open`, `encodeURIComponent` and the wa.me link around the WhatsApp messages are left
  out. The chat `Layout.WhatsAppFromNotification` opens is modelled, but
  `handleChargeLeader` and `handleSendWhatsAppNotice` are not.
- `Math.random` identifiers and `new Date().toISOString()` are parameters (`tempId`,
  `noticeId`, `now`). One `now` serves every notice that `handleAddReport` creates.
- Floating point is left out. Money is held in integer cents. Averages are held as a sum and a
  count: an average is not above zero exactly when its sum is not.
- Invalid or NaN form numbers are left out. A form field is held as the number `Number` makes
  of it.
- Daylight-saving time is left out. Local time is a fixed offset, so a day lasts 24 hours.
- The order in which the database returns rows is a parameter. The `order(...)` clauses of the
  queries are not modelled.
- `Object.keys(cellReports)` is taken in first-insertion order, which holds for non-numeric
  keys. A cell named with an integer-like string would be listed earlier.
- `cellReports` is a plain object (pages/AdminDashboard.tsx:236-239). A cell named after an
  `Object.prototype` property ('constructor', 'toString', '__proto__') finds a non-array value
  there, so `.push` throws and `metricsData` fails. The model groups such a name like any other.
- The baptism list's delete button (pages/AdminDashboard.tsx:669) calls the report-delete
  handler with the candidate's id. App.tsx has no baptism delete to model.
- App.Store.Sync, App.Store.SyncCongregation: shares and baptisms are loaded with the corrected
  mapping of "## Findings" (`Rows.FetchShare`, `Rows.FetchBaptism`). App.tsx:123 and App.tsx:127
  store the raw rows, so in the program a loaded share has no `fileUrl` and a loaded candidate no
  `cellName` (`Rows.ShareLinkLostAsWritten`, `Rows.BaptismCellLostAsWritten`).
- `Text.ToLower` lowers only ASCII and Latin-1 capitals. `Text.ToNumber` reads only blank text and
  unsigned decimal digit runs, not signs, fractions, exponents or hexadecimal. Every other input
  reads as NaN. The inputs reached are weekday names and pieces of a time field.
- `App.Store.Sync` does not model the `cellsError`/`reportsError` logging. An error is
  modelled as a query with no data.
- Four members are split out for verification cost and have no source lines of their own:
  - `LateReports.CheckSinceMeeting` and `App.Store.SyncCongregation`/`SyncAgenda` are parts of
    one source function;
  - `App.VisitorNoticesStep` is one turn of a loop.
- `AdminDashboard.FilteredReportsForList` states only size in its own contract, and
  `LeaderDashboard.FilteredReportsList` only size and order. The rest is proved in the lemmas
  beside them in the table:
  - order, contents and stability of the admin list in `FilteredListNewestFirst`,
    `FilteredListContents` and `FilteredListStable`;
  - contents and stability of the leader list in `LeaderListContents` and `LeaderListStable`.

## Findings

| source | as written | input that shows it | evidently intended | confidence | as-written member | corrected member |
|---|---|---|---|---|---|---|
| App.tsx:121-123 | `fetchData` stores the share rows unmapped, so a loaded share has `file_url` and no `fileUrl`. The download links in both dashboards read `share.fileUrl` | any share inserted by `handleAddShare` and fetched back | map `file_url` to `fileUrl`, as the other tables are mapped | not executed | Rows.ShareLinkLostAsWritten | Rows.ShareRoundTrip |
| App.tsx:125-127 | `fetchData` stores the baptism rows unmapped, so a loaded candidate has `cell_name` and no `cellName`. The candidate card shows `baptism.cellName` | any candidate inserted by `handleAddBaptism` and fetched back | map `cell_name` to `cellName` | not executed | Rows.BaptismCellLostAsWritten | Rows.BaptismRoundTrip |
