# Staff attendance dashboard — a Dafny model

This project models the core of **employee-hq**, a browser dashboard for staff attendance backed by a
hosted Postgres store. Employees check in and check out once a day. The check-in hour decides
*present* or *late*. A session shorter than four hours becomes *half-day*. The employee page shows
today's row and a monthly summary. Managers see today's counts, the late arrivals, the employees with
no row today and a seven-day trend, and can export every row as CSV. They can also search all records
by profile text and filter them by status. A calendar shows each day's record and marks days by
status. The landing page routes a settled session by its role.

The modules follow the source files:

- `Seqs` holds the array and string operations the pages use (`filter`, `reverse` and `join`), plus
  a `split` used only to state that the exported text splits back into its lines and fields.
- `AttendanceTypes` holds the records of `types/index.ts` and the status counts every page uses.
- `JoinedRows` holds the joined `attendance`/`profiles` rows and the profile normalisation.
- `EmployeeDashboard` holds check-in and check-out as methods on classes. The `AttendanceStore`
  class is the `attendance` table. The `Dashboard` class holds the today card and the `loading`
  flag. The monthly summary is a function.
- `ManagerDashboard` holds the counts, the late and absent lists, the trend and the CSV text, all
  as functions.
- `AllAttendance` holds the search and status filter.
- `AttendanceCalendar` holds the date lookup and the day markers as functions, and the selection as
  the `CalendarState` class.
- `Navigation` holds the landing page's routing. `StatusBadge` holds the badge table.

Modelling conventions:

- Instants are epoch milliseconds. A clock reading carries the instant, its local day and its local
  hour.
- A day is a day number. Its `yyyy-MM-dd` text is one-to-one with it, so maps keyed by that text are
  modelled as maps keyed by the day.
- Text rendering that the code leaves to `date-fns` and to number printing is a parameter: the
  `Formatters` value, and the `dayLabel` function of the trend.
- The store's answer to an insert or an update (success or an error) is a boolean parameter.
- A uniqueness violation on (user, date) is modelled by keying the stored rows by that pair.

Where the behaviour one would expect from the page texts and the code differ, the model follows the
code:

- The check-out handler does not refuse a row that already has a check-out time
  (`employee-hq-main/src/pages/EmployeeDashboard.tsx:153-183`). Only the hidden button prevents a second check-out, so
  `Dashboard.CheckOut` measures again from check-in.
- The monthly query has only a lower bound, `gte('date', monthStart)`, and no end-of-month bound
  (`employee-hq-main/src/pages/EmployeeDashboard.tsx:72-76`). `MonthRows` states exactly that.
- The late test is `hour > 9` on the local hour (`employee-hq-main/src/pages/EmployeeDashboard.tsx:113-114`), so any
  check-in before 10:00, such as 09:15, is present, not late. `SessionScenarios` and `CheckInCutoff`
  state this.
- The absent list holds the profiles that own no row today (`employee-hq-main/src/pages/ManagerDashboard.tsx:85-86`). A
  profile with a row marked `absent` today is therefore not on the absent list, although it is
  counted in `absentToday`. `AbsentCountVersusAbsentList` states the exact gap.

## Model

| member | source | states |
|---|---|---|
| AttendanceTypes.StatusNameInjective | employee-hq-main/src/types/index.ts:19 | the four stored status names are pairwise different, so a status can be recovered from its name |
| AttendanceTypes.StatusCountsPartition | employee-hq-main/src/types/index.ts:19 | every row has exactly one of the four statuses, so the four status counts add up to the number of rows |
| AttendanceTypes.CountStatusPermutation | employee-hq-main/src/pages/EmployeeDashboard.tsx:80-83 | the number of rows with a status does not depend on the order the store returns them in |
| Seqs.Filter | employee-hq-main/src/pages/AllAttendance.tsx:65 | `filter` keeps exactly the elements satisfying the predicate, and never lengthens the input |
| Seqs.FilterPermutation | employee-hq-main/src/pages/ManagerDashboard.tsx:64 | filtering a permutation of a list gives a permutation of the filtered list |
| Seqs.FilterFilter | employee-hq-main/src/pages/AllAttendance.tsx:73 | filtering by one predicate and then another equals filtering by their conjunction, order kept |
| Seqs.ReverseIndex | employee-hq-main/src/pages/ManagerDashboard.tsx:94 | `reverse` keeps the length and puts element k at position n-1-k |
| Seqs.SplitJoin | employee-hq-main/src/pages/ManagerDashboard.tsx:150 | joining parts that avoid the separator is undone by splitting at it |
| Seqs.JoinAvoids | employee-hq-main/src/pages/ManagerDashboard.tsx:136 | a joined text contains another character only if some part does |
| StatusBadge.BadgeVariant | employee-hq-main/src/components/StatusBadge.tsx:9-17 | the lookup is total over the five display statuses, and the muted class is used exactly for `not-marked` |
| StatusBadge.BadgeLabels | employee-hq-main/src/components/StatusBadge.tsx:10-14 | the five labels are Present, Absent, Late, Half Day and Not Marked |
| StatusBadge.BadgeVariantsDistinct | employee-hq-main/src/components/StatusBadge.tsx:9-15 | different display statuses get different labels and different classes |
| Navigation.IndexTarget | employee-hq-main/src/pages/Index.tsx:9-19 | no navigation while loading; a settled session without a user goes to sign-in, a manager to the manager page, anyone else to the employee page |
| Navigation.IndexTargetRoleIndependence | employee-hq-main/src/pages/Index.tsx:11-16 | the role does not matter without a user, and every non-manager role (or none) leads to the same page |
| JoinedRows.NormaliseShapesAgree | employee-hq-main/src/pages/AllAttendance.tsx:52-55 | a profile given as an object and the same profile at the head of a list normalise alike; an empty list and null give no profile |
| JoinedRows.NormaliseRows | employee-hq-main/src/pages/AllAttendance.tsx:52-55 | normalisation keeps the rows and their order, and gives each row the profile normalised from its own join; a failed query gives no rows |
| EmployeeDashboard.CheckInStatus | employee-hq-main/src/pages/EmployeeDashboard.tsx:112-114 | a check-in is late exactly when the local hour is after 9, otherwise present |
| EmployeeDashboard.CheckInCutoff | employee-hq-main/src/pages/EmployeeDashboard.tsx:113-114 | 9:xx still counts as present and 10:00 is the first late hour |
| EmployeeDashboard.HalfDayThreshold | employee-hq-main/src/pages/EmployeeDashboard.tsx:165-174 | the test `hours < 4` on the computed hours is the same as a session shorter than 14,400,000 ms |
| EmployeeDashboard.CheckOutStatus | employee-hq-main/src/pages/EmployeeDashboard.tsx:170-174 | a check-out writes half-day below four hours and keeps the check-in status otherwise |
| EmployeeDashboard.SessionScenarios | employee-hq-main/src/pages/EmployeeDashboard.tsx:112-174 | 08:30 to 17:30 is 9 hours and stays present; 09:15 to 12:00 is 2.75 hours and becomes half-day |
| EmployeeDashboard.UpdateById | employee-hq-main/src/pages/EmployeeDashboard.tsx:176-183 | an update by id keeps the set of rows and every row's id, user and date |
| EmployeeDashboard.UpdateByIdTouchesOne | employee-hq-main/src/pages/EmployeeDashboard.tsx:176-183 | with unique ids, updating by today's row's id changes that row and no other |
| EmployeeDashboard.NewRow | employee-hq-main/src/pages/EmployeeDashboard.tsx:116-123 | the inserted row belongs to the user and today, has the check-in instant, no check-out, and status late exactly after hour 9 |
| EmployeeDashboard.CheckedOut | employee-hq-main/src/pages/EmployeeDashboard.tsx:165-183 | the checked-out row has the check-out instant, hours measured from check-in, half-day below four hours and the old status otherwise, and keeps every other column |
| EmployeeDashboard.AttendanceStore.Insert | employee-hq-main/src/pages/EmployeeDashboard.tsx:116-125 | a second row for the same user and day is refused; a rejected request changes nothing; otherwise exactly the new row is added |
| EmployeeDashboard.AttendanceStore.Update | employee-hq-main/src/pages/EmployeeDashboard.tsx:176-185 | a successful update applies the patch by id; a rejected one changes nothing |
| EmployeeDashboard.ButtonPhases | employee-hq-main/src/pages/EmployeeDashboard.tsx:256-267 | the card never offers both buttons: check-in before a check-in, check-out after it, neither after check-out |
| EmployeeDashboard.GuardAgreesWithIndex | employee-hq-main/src/pages/EmployeeDashboard.tsx:35-39 | the page redirects exactly the sessions the landing page sends to sign-in, and the role never matters |
| EmployeeDashboard.Dashboard.constructor | employee-hq-main/src/pages/EmployeeDashboard.tsx:19-24 | the today card starts as `not-marked` with no times and zero hours, and nothing is in flight |
| EmployeeDashboard.Dashboard.RefreshToday | employee-hq-main/src/pages/EmployeeDashboard.tsx:55-69 | a row for today replaces the card; without one the card keeps what it showed |
| EmployeeDashboard.Dashboard.CheckIn | employee-hq-main/src/pages/EmployeeDashboard.tsx:103-142 | no user: nothing happens; an existing row or a rejected insert: an error and no change; else the new row is stored, the card shows it and offers check-out; `loading` ends false |
| EmployeeDashboard.Dashboard.CheckOut | employee-hq-main/src/pages/EmployeeDashboard.tsx:144-201 | no row: "please check in first"; a rejected update: no change; else today's row is replaced by its checked-out form and the card offers no button; `loading` ends false |
| EmployeeDashboard.MonthRows | employee-hq-main/src/pages/EmployeeDashboard.tsx:72-76 | the month's rows are exactly the user's rows dated on or after the month start |
| EmployeeDashboard.SumHoursConcat | employee-hq-main/src/pages/EmployeeDashboard.tsx:84 | the hour total of two lists is the sum of their totals |
| EmployeeDashboard.SumHoursPermutation | employee-hq-main/src/pages/EmployeeDashboard.tsx:84 | the hour total does not depend on the order of the rows |
| EmployeeDashboard.Summarize | employee-hq-main/src/pages/EmployeeDashboard.tsx:79-85 | the four counts add up to the number of rows, and no rows give an all-zero summary |
| EmployeeDashboard.SummarizePermutation | employee-hq-main/src/pages/EmployeeDashboard.tsx:78-86 | the summary does not depend on the order the store returns the month's rows in |
| EmployeeDashboard.MonthlySummaryOf | employee-hq-main/src/pages/EmployeeDashboard.tsx:71-87 | the counts add up to the number of the user's rows in the month, and a user with none gets zeros |
| ManagerDashboard.GuardAgreesWithIndex | employee-hq-main/src/pages/ManagerDashboard.tsx:29-39 | the page redirects exactly the settled sessions the landing page would not send to the manager page, and loads data exactly for the sessions it keeps |
| ManagerDashboard.PresentOrLateCount | employee-hq-main/src/pages/ManagerDashboard.tsx:64 | the rows marked present or late number the present count plus the late count |
| ManagerDashboard.TodayStats | employee-hq-main/src/pages/ManagerDashboard.tsx:45-71 | present today counts today's present and late rows; present plus absent equals the employee count, which is 0 when unknown |
| ManagerDashboard.LateRecordsOf | employee-hq-main/src/pages/ManagerDashboard.tsx:74 | selecting today's late joined rows and taking their records gives today's late records, in order |
| ManagerDashboard.LateArrivalsAreTodaysLateRecords | employee-hq-main/src/pages/ManagerDashboard.tsx:73-78 | the late list is exactly today's late records in store order, as many as the late count, each with its own normalised profile |
| ManagerDashboard.AbsentEmployees | employee-hq-main/src/pages/ManagerDashboard.tsx:80-87 | a profile is on the absent list exactly when it owns no row today |
| ManagerDashboard.OwnerIdsCount | employee-hq-main/src/pages/ManagerDashboard.tsx:85 | with one row per user, the set of today's owners is as large as today's rows |
| ManagerDashboard.NotAmongCount | employee-hq-main/src/pages/ManagerDashboard.tsx:86 | with distinct profile ids, the filter drops exactly the profiles whose id is in the set |
| ManagerDashboard.AbsentCountVersusAbsentList | employee-hq-main/src/pages/ManagerDashboard.tsx:64-86 | the absent count exceeds the absent list by exactly today's half-day and absent rows |
| ManagerDashboard.TrendDates | employee-hq-main/src/pages/ManagerDashboard.tsx:90-94 | seven dates, oldest first, from six days ago up to today |
| ManagerDashboard.DayRows | employee-hq-main/src/pages/ManagerDashboard.tsx:98-101 | a day's rows are exactly the table's rows with that date |
| ManagerDashboard.WeeklyTrend | employee-hq-main/src/pages/ManagerDashboard.tsx:96-110 | seven points, the k-th labelled and counted for today minus 6 plus k |
| ManagerDashboard.TrendPointCounts | employee-hq-main/src/pages/ManagerDashboard.tsx:103-108 | a point's present, late and absent counts plus the day's half-day rows are all of that day's rows |
| ManagerDashboard.TrendPointLocal | employee-hq-main/src/pages/ManagerDashboard.tsx:98-108 | rows of other dates do not change a point |
| ManagerDashboard.CsvFields | employee-hq-main/src/pages/ManagerDashboard.tsx:139-148 | a row gives eight fields, and a missing check-in or check-out time gives an empty field |
| ManagerDashboard.CsvLines | employee-hq-main/src/pages/ManagerDashboard.tsx:137-149 | the lines exist exactly when every row has a profile, one line per row in order, each the comma join of its row's fields |
| ManagerDashboard.ExportCsv | employee-hq-main/src/pages/ManagerDashboard.tsx:133-150 | no data gives no export; a row without a profile fails the export; nothing else fails |
| ManagerDashboard.HeaderText | employee-hq-main/src/pages/ManagerDashboard.tsx:136 | the header line, the eight column titles joined by commas, splits back into exactly those titles and holds no line break |
| ManagerDashboard.CsvStartsWithHeader | employee-hq-main/src/pages/ManagerDashboard.tsx:135-150 | an exported text starts with the header line |
| ManagerDashboard.CsvLinesOneLineEach | employee-hq-main/src/pages/ManagerDashboard.tsx:137-149 | a data line holds no line break when its row's fields hold none |
| ManagerDashboard.CsvLineFields | employee-hq-main/src/pages/ManagerDashboard.tsx:139-148 | a data line whose fields hold no comma splits back into exactly its row's fields |
| ManagerDashboard.CsvStructure | employee-hq-main/src/pages/ManagerDashboard.tsx:135-150 | when no field holds a comma or line break, the text splits back into the header and one line per row, each splitting back into its row's eight fields |
| AllAttendance.ToLowerChar | employee-hq-main/src/pages/AllAttendance.tsx:67-69 | upper-case ASCII letters map to lower case, every other character is kept, and no upper-case letter remains |
| AllAttendance.ToLowerIdempotent | employee-hq-main/src/pages/AllAttendance.tsx:67-69 | lower-casing twice equals lower-casing once |
| AllAttendance.IncludesAt | employee-hq-main/src/pages/AllAttendance.tsx:67-69 | `includes` holds exactly when the needle occurs at some position of the text |
| AllAttendance.IncludesEmpty | employee-hq-main/src/pages/AllAttendance.tsx:67-69 | every text includes the empty text |
| AllAttendance.FilteredAttendance | employee-hq-main/src/pages/AllAttendance.tsx:65-74 | fails exactly when some record has no profile; otherwise keeps exactly the records whose name, id or department includes the term ignoring case and whose status passes the selector |
| AllAttendance.EmptySearchKeepsAll | employee-hq-main/src/pages/AllAttendance.tsx:65-74 | an empty search with `all` selected lists every record unchanged |
| AllAttendance.SearchIgnoresCase | employee-hq-main/src/pages/AllAttendance.tsx:66-69 | a term and its lower-cased form select the same records |
| AllAttendance.StatusNarrowsAll | employee-hq-main/src/pages/AllAttendance.tsx:71 | selecting one status gives the `all` list narrowed to that status, order kept |
| AllAttendance.PageRows | employee-hq-main/src/pages/AllAttendance.tsx:52-74 | the page fails exactly when a fetched row normalises to no profile; every listed row is a fetched record with its own normalised profile |
| AllAttendance.GuardIsManagerGuard | employee-hq-main/src/pages/AllAttendance.tsx:22-32 | the page uses the manager page's guard: redirect exactly when settled and not routed to the manager page, fetch exactly for a manager |
| AttendanceCalendar.AttendanceMap | employee-hq-main/src/components/AttendanceCalendar.tsx:17-19 | the map's dates are exactly the records' dates, and each is bound to a record of that date |
| AttendanceCalendar.LastWithDate | employee-hq-main/src/components/AttendanceCalendar.tsx:17-19 | each date is bound to the last record in input order with that date |
| AttendanceCalendar.MarkedDays | employee-hq-main/src/components/AttendanceCalendar.tsx:31-36 | a day is in a status's marker list exactly when a record of that day has that status |
| AttendanceCalendar.ModifierCounts | employee-hq-main/src/components/AttendanceCalendar.tsx:31-36 | the four marker lists together are as long as the input |
| AttendanceCalendar.MarkedConcat | employee-hq-main/src/components/AttendanceCalendar.tsx:32-35 | marker lists keep input order: the markers of a concatenation are those of its parts, one after the other |
| AttendanceCalendar.StatusColorsDistinct | employee-hq-main/src/components/AttendanceCalendar.tsx:21-28 | the four statuses get four different colours |
| AttendanceCalendar.CalendarState.constructor | employee-hq-main/src/components/AttendanceCalendar.tsx:14-15 | the calendar opens on today with no record shown |
| AttendanceCalendar.CalendarState.HandleDateSelect | employee-hq-main/src/components/AttendanceCalendar.tsx:45-51 | a cleared selection changes nothing; a chosen day becomes the selection and shows the last record of that day, or none when the day has no record |

## Left out

- The queries themselves are not modelled: their ordering (`order('date', desc)`), their limits (100 rows, 7 recent rows) and the filters run by the store. Each page's model takes the returned rows as input, and only the monthly bound (`MonthRows`) and the per-day selection (`DayRows`) are written out.
- The employee page's list of the last seven records is left out, because it only stores a query result.
- Time zones, `Date` arithmetic and all `date-fns` formatting are left out. A clock reading carries its local day and hour, and text renderings are parameters.
- JavaScript number arithmetic and printing (`toFixed`, number-to-text in the CSV) are left out. Hours are exact reals and printing is a parameter.
- AllAttendance.ToLowerChar: lower-cases the ASCII letters only, not the full Unicode case mapping of `toLowerCase`.
- EmployeeDashboard.Dashboard.CheckOut: a stored row without a check-in time is modelled as a failed check-out that changes nothing. The code passes null to `parseISO`, whose outcome depends on the library version.
- EmployeeDashboard.Dashboard.CheckIn: the refresh after success is not awaited in the code (`employee-hq-main/src/pages/EmployeeDashboard.tsx:132`). The model performs it at once, before `loading` is cleared, and refreshes only the today card, not the monthly card.
- EmployeeDashboard.Dashboard.CheckOut: the refresh after success is not awaited in the code (`employee-hq-main/src/pages/EmployeeDashboard.tsx:192`). The model performs it at once, before `loading` is cleared, and refreshes only the today card, not the monthly card.
- EmployeeDashboard.MonthlySummaryOf: gives the summary of the rows a successful monthly query returns. When the query returns no data, the code keeps the card's previous value (`employee-hq-main/src/pages/EmployeeDashboard.tsx:78`); that path is not modelled.
- A rejected insert or update is a boolean parameter carrying the store's answer. Error message texts and toasts are left out.
- Concurrency between overlapping requests and re-renders is not modelled. Each handler runs to completion in turn.
- The trend's per-date query failing (`data?` giving 0) is not modelled separately. Each point is counted from the table's rows for its date.
- Rendering is left out: the charts, the stat cards, the calendar widget and its class names, the CSV `Blob` download and the loading screens.
- The session store (`stores/authStore.ts`), the route table (`App.tsx`) and `AttendanceHistory.tsx` are not part of this model. The session is an input value.
- `created_at` and `updated_at` columns are not modelled, because no modelled operation reads them.
