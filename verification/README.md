# Proofs about the school attendance backend

A model, in Dafny, of the parts of the backend that keep state and promise something about every run:
the login limiter, the tuition ledger and its reports, the ingest of attendance punches from devices,
the choice of punches to notify, weekly timetables with their Excel export and import, school
closures, device tokens against the push switch, background work and shutdown, the phone number
normaliser and the rfid_tag hint. `dafny verify dfyconfig.toml` checks everything.

Objects that the program updates in place are classes here (`Limiter`, `Group`, `ClosureTable`,
`TokenStore`, `Server`), its loops are loops, and each method is proved against a function or a
declarative predicate whose own properties are then proved as lemmas. Database tables are maps or
sequences. A transaction is one atomic step, except where statement order is the point: the tuition
ledger and the device tokens are state machines whose steps are single SQL statements, with the row
locks PostgreSQL holds until commit.

| file | about |
|---|---|
| `LoginLimiter.dfy`, `AdminLogins.dfy` | the limiter, its runs and bounds; the admin login with its two limiters, and many logins at once |
| `TuitionLedger.dfy`, `TuitionViews.dfy`, `MoneyReports.dfy` | balances under interleaving, the academic-year switch, the reports |
| `AttLog.dfy`, `PunchStore.dfy`, `PunchProtocol.dfy`, `PunchWindows.dfy` | parsing, storing, resending and notifying punches |
| `Timetable.dfy`, `TimetableSheet.dfy`, `TimetableImport.dfy`, `TimetableRoundTrip.dfy`, `FloatText.dfy` | the two validators, the workbook reader, export and import, numbers as ParseFloat reads them |
| `Closures.dfy`, `DeviceTokens.dfy`, `BackgroundGroup.dfy` | closures, push tokens, background goroutines and shutdown |
| `Phone.dfy`, `RfidTag.dfy` | the two exact characterisations |
| `Text.dfy`, `Decimal.dfy`, `Sets.dfy`, `Wrappers.dfy` | strings, decimal text, set sizes, optional values |

Three places where the code does not do what its comments or rules say:

- The year switch freezes the ending year's list, but does not lock the students. A grade edited between
  its INSERT and its commit changes the list at the commit: `TuitionViews.SwitchKeepsViewExactly` says
  for exactly which students, and `TuitionViews.GradeEditMovesView` gives such a run.
- Registering a device token marks it seen now and drops the least recently seen beyond ten. A token
  moved from another parent keeps its id and loses every tie: with ten tokens of the new parent seen at
  the same instant, the registration succeeds and the token it registered is the one dropped.
  `DeviceTokens.RegisteredIsKept` says exactly when, and `DeviceTokens.MovedTokenLost` gives the table.
- A batch from an active device is to be refused with 503 only when the database fails transiently; bad
  data never is. The PINs of a batch go to the database as they are, and PostgreSQL takes no text with a
  U+0000: the look-up fails with a data error, which is answered 503 like any other. Without transient
  failures 503 is answered exactly to a batch that was read and has such a PIN
  (`PunchStore.Server.Handle`); `PunchStore.NulBody` is one, and `PunchProtocol.BlockedBatch` says that
  the device then never gets past it.

The limiter promises a bound for each window that starts at a key's attempt (`LoginLimiter.WindowBound`).
A stretch of the same length that straddles a reset holds up to twice as many failures
(`LoginLimiter.RateBound`), for every limit and window really that many
(`LoginLimiter.RateBoundIsTight`), and no more than the limit when no window opens in it after a
failure (`LoginLimiter.StretchBound`).

## Model

| member | source | states |
|---|---|---|
| LoginLimiter.InFlightIsOutstanding | internal/ratelimit/login.go:45-50 | in every run of paired calls, an entry's inFlight is exactly the key's reservations not yet finished, and a key without entry has none |
| LoginLimiter.AlwaysSound | internal/ratelimit/login.go:67-139 | in every reachable state failures + inFlight is at most maxFailures for each key, no window starts in the future, and at most MaxKeys keys are tracked |
| LoginLimiter.RateBound | internal/ratelimit/login.go:67-119 | any half-open stretch of window length in which no attempt for the key succeeds has at most 2 x maxFailures failures of it, whatever crosses a reset or is swept and recreated |
| LoginLimiter.RateBoundIsTight | internal/ratelimit/login.go:67-119 | for every limit, window and key cap, a legal run without success has 2 x maxFailures failures of the key, even at one instant, so no smaller bound holds |
| LoginLimiter.StretchBound | internal/ratelimit/login.go:67-119 | a stretch of window length without success has at most maxFailures failures of the key when no window of the key opens in it after a failure |
| LoginLimiter.WindowBound | internal/ratelimit/login.go:67-119 | from the call that opens a window of a key until the next one opens, at most maxFailures attempts fail if none succeeds |
| LoginLimiter.LockoutHolds | internal/ratelimit/login.go:67-139 | an entry with maxFailures failures stays unchanged until start + window, whatever calls, sweeps and capacity pressure other keys cause |
| LoginLimiter.LockoutRefuses | internal/ratelimit/login.go:91-93 | until then every call for that key is an attempt that is refused with the time left to start + window |
| LoginLimiter.RefusalDelay | internal/ratelimit/login.go:74-95 | every refusal names a delay in (0, window]; a refusal for lack of room happens only with MaxKeys keys tracked and a real sweep less than one second earlier |
| LoginLimiter.LastSweepIsReal | internal/ratelimit/login.go:129-139 | lastSweep is always the time of an Allow that really swept, despite being set back to force a sweep |
| LoginLimiter.Limiter.constructor | internal/ratelimit/login.go:55-63 | a new limiter has made no call and is in the initial state |
| LoginLimiter.Limiter.Allow | internal/ratelimit/login.go:67-96 | the call is appended to the run, the fields are what the run leaves, and the answer is the one the run theorems are about |
| LoginLimiter.Limiter.Reserve | internal/ratelimit/login.go:71-95 | the statements under the mutex produce exactly the modelled state and verdict |
| LoginLimiter.Limiter.Finish | internal/ratelimit/login.go:99-119 | the outcome is appended to the run and the fields are what the run leaves |
| LoginLimiter.Limiter.Sweep | internal/ratelimit/login.go:129-139 | removes exactly the expired entries with nothing in flight, and only once a window |
| LoginLimiter.Limiter.Len | internal/ratelimit/login.go:122-126 | the number of keys tracked after the calls made so far |
| AdminLogins.AdminLogin | internal/handlers/admin.go:117-172 | the exact calls of one login on every path, and whether it is admitted; each call is a step of the machine of interleaved logins, after which the login holds nothing and both limiters have outstanding what they had |
| AdminLogins.AlwaysLegal | internal/handlers/admin.go:117-172 | however any number of logins interleave between their calls, both limiters see a legal run, and what each key has outstanding is the number of logins in flight that hold it |
| AdminLogins.NoneLeaks | internal/handlers/admin.go:117-172 | when no login is in flight, no reservation of any key is outstanding |
| AdminLogins.LoginRateBound | internal/handlers/admin.go:117-172 | the rate bound holds for the runs that interleaved logins really make |
| TuitionLedger.NeverNegative | internal/handlers/tuition.go:445-551 | however payment, discount, void, fee and year-switch transactions interleave by statements, every committed state has fee - discount - payments that count >= 0 for every account |
| TuitionLedger.InvariantStep | internal/handlers/tuition.go:519-551 | each statement, commit, abort, atomic apply_to_existing or student edit keeps the balances, the schema and what every open transaction relies on through its locks |
| TuitionLedger.PaymentCommit | internal/handlers/tuition.go:680-697 | committing a payment, with the account it may have inserted, keeps every balance non-negative |
| TuitionLedger.DiscountCommit | internal/handlers/tuition.go:623-639 | committing a discount keeps every balance non-negative |
| TuitionLedger.VoidCommit | internal/handlers/tuition.go:729-754 | committing a void keeps the balances and does not break what a transaction holding the account has read, although void never locks the account |
| TuitionLedger.SwitchCommit | internal/handlers/tuition.go:776-817 | committing a year switch keeps the balances: the accounts it creates have no payments yet |
| TuitionLedger.ApplyOk | internal/handlers/tuition.go:445-514 | a fee applied to existing accounts keeps all balances non-negative and disturbs no open transaction |
| TuitionLedger.PaidVoid | internal/handlers/tuition.go:729-754 | voiding takes exactly that payment's amount off its own account's sum and nothing off any other |
| TuitionViews.FreezeKeepsView | internal/handlers/tuition.go:186-222 | freezing lists the same students with the same grade, fee, discount, paid and remaining as the live view |
| TuitionViews.SwitchKeepsView | internal/handlers/tuition.go:776-817 | committing a switch preserves the ending year's list when the students are those the INSERT saw |
| TuitionViews.SwitchKeepsViewExactly | internal/handlers/tuition.go:776-817 | a student's row survives the switch if and only if the student had an account or was not edited in a way that changes what is frozen |
| TuitionViews.GradeEditMovesView | internal/handlers/tuition.go:789-809 | a run in which a grade edited between INSERT and commit changes the ending year's row |
| TuitionViews.OtherYearStep | internal/handlers/tuition.go:445-551 | while a year is not current no step creates an account of it or changes a grade or fee in it; only a discount set on an account changes that account |
| TuitionViews.OtherYearFrozen | internal/handlers/tuition.go:776-817 | over any stretch of a run, across further year switches: no account of the year appears or changes grade or fee, and an account changes at all only when some step sets a discount on it |
| MoneyReports.Summarize | internal/handlers/tuition.go:291-311 | the items are the records that pass the has_remaining filter, each total is the sum of its column over them, and remaining = fee - discount - collected |
| MoneyReports.TuitionList | internal/handlers/tuition.go:265-313 | the rows are those of the listed students, the totals are the column sums of the rows shown and close, and without filter total_collected is the sum of the year's payments that are not voided |
| MoneyReports.ListCollectsYear | internal/handlers/tuition.go:186-222 | what the listed students paid, added up, counts every payment of the year that is not voided exactly once |
| MoneyReports.GroupingTotal | internal/handlers/expenses.go:482-510 | grouping rows by any key and adding the groups gives the total of the rows |
| MoneyReports.ByMonth | internal/handlers/expenses.go:512-568 | ascending months, exactly those of the two queries, each with exactly its expenses, collections and difference; no collections when filtered |
| MoneyReports.ExpensesSummary | internal/handlers/expenses.go:482-570 | spent is the sum of the categories, collected the sum of the payment months, the difference theirs, and the months are exactly those of the two queries, ascending; no collected amount and no difference with a category filter |
| MoneyReports.SpentAgrees | internal/handlers/expenses.go:482-510 | on one snapshot the category totals and the month totals both add up to the year's expenses that are not voided, with or without a category filter |
| MoneyReports.CollectedAgrees | internal/handlers/expenses.go:541-568 | on one snapshot collected equals the total_collected of the year's unfiltered tuition list and the sum of the months; the difference is collected minus spent, and the monthly differences are collected minus the monthly expenses |
| MoneyReports.DifferenceAgrees | internal/handlers/expenses.go:541-568 | on one snapshot, without a category filter, the difference is the sum of the monthly differences |
| MoneyReports.MonthsAgree | internal/handlers/expenses.go:512-568 | each month holds exactly the sums of its own expense and payment rows, and no month with rows is missing |
| AttLog.ParseConcat | internal/handlers/hardware.go:53-128 | parsing is a homomorphism: a body cut at a line end parses to the events of the parts, in order |
| AttLog.ParseTrim | internal/handlers/hardware.go:56 | trimming the whole body first loses and changes no event |
| AttLog.ParsePrintTime | internal/handlers/hardware.go:110-120 | every valid date and time printed as YYYY-MM-DD HH:MM:SS parses back to itself |
| AttLog.ParsePrintedLine | internal/handlers/hardware.go:58-127 | a printed event reads back as itself in the positional and in the key=value format, whatever other fields follow |
| AttLog.ParsePrinted | internal/handlers/hardware.go:53-128 | any mix of printed lines of both formats with blank and malformed lines between parses to exactly those events in order |
| AttLog.ParseATTLOG | internal/handlers/hardware.go:53-128 | the loop computes the parse the lemmas describe |
| AttLog.ReadLine | internal/handlers/hardware.go:58-127 | one line gives its event, or none exactly where the loop skips the line |
| AttLog.BatchCounts | internal/handlers/hardware.go:231-256 | lines counts the non-blank lines, and lines - parsed is the number of malformed ones |
| PunchStore.Accounting | internal/handlers/hardware.go:405-407 | inserted + duplicates + rejected is the number of student events, also with repeats inside the batch |
| PunchStore.InsertedExact | internal/handlers/hardware.go:479-484 | the inserted rows are exactly the rows that are new in the table, each once |
| PunchStore.StoredTwice | internal/handlers/hardware.go:479-484 | storing a batch again, from any device, changes nothing and inserts nothing |
| PunchStore.InsertBulk | internal/handlers/hardware.go:486-523 | done means the table and result of inserting the accepted rows with none rejected; a data error leaves the table as it was and means a row was not acceptable |
| PunchStore.InsertEach | internal/handlers/hardware.go:527-560 | ends in the same table and inserted rows as the bulk insert, and counts the rejected rows |
| PunchStore.NewPinsExact | internal/handlers/hardware.go:340-347 | the listed PINs are exactly those of the batch outside the known ones, each once |
| PunchStore.Server.Route | internal/handlers/hardware.go:340-381 | when the look-up succeeds, which it does exactly for PINs that are texts unless it fails transiently, splits a batch into the student rows in order and the distinct PINs that match no student |
| PunchStore.Server.StoreTeachers | internal/handlers/hardware.go:416-471 | stores all teacher rows of the batch, or none when one is rejected; the unknown PINs are those matching neither a student nor a teacher |
| PunchStore.Server.StoreStudents | internal/handlers/hardware.go:383-393 | bulk insert with row-by-row fallback ends in one table whichever path ran |
| PunchStore.Server.Persist | internal/handlers/hardware.go:328-409 | a failure anywhere leaves both tables unchanged; otherwise both tables, the inserted rows, duplicates, rejected and unknown PINs are exactly the batch's; with no transient error it succeeds if and only if no PIN has a U+0000 |
| PunchStore.Server.Handle | internal/handlers/hardware.go:139-283 | 503 changes nothing; OK for a batch read from an active device stores its accepted punches and queues today's new ones, once; any other OK stores nothing; without transient failures 503 is answered if and only if a batch read from an active device has a PIN with a U+0000 |
| PunchStore.NulBody | internal/handlers/hardware.go:53-128 | a body that parses to one event whose PIN has a U+0000, at any valid time |
| PunchStore.SplitPunchesByDay | internal/handlers/hardware.go:294-308 | keeps the rows of today in order and counts exactly those dated before and after it |
| PunchProtocol.AlwaysOk | internal/handlers/hardware.go:139-283 | over any run of pushes, failures, lost replies and resends by any devices, while devices are disabled and students change: a batch a device let go was stored, or answered OK without being stored, and nothing behind its head was; no batch with a PIN that is no text was stored; the table holds the old rows and exactly the accepted punches of the batches stored, each once under a device that sent it; no punch is queued for notification twice |
| PunchProtocol.AcknowledgedIsStored | internal/handlers/hardware.go:139-283 | every accepted punch of a batch that the device heard OK for, and that was not ignored, is stored, for the students known at some push |
| PunchProtocol.BlockedBatch | internal/handlers/hardware.go:256-261 | a device whose batch has a PIN with a U+0000 stays at it in every run unless the server drops it unread: neither it nor any batch behind it is stored or dropped |
| PunchProtocol.PushHead | internal/handlers/hardware.go:139-283 | a request as the server handles it is one step of the protocol: what it commits, ignores or refuses, on the real tables; without failures a batch read from an active device is committed exactly when its PINs are texts |
| PunchProtocol.SameRows | internal/handlers/hardware.go:328-409 | two runs that stored the same batches from the same table end with the same rows, whatever failed or was resent |
| PunchProtocol.DrainedRows | internal/handlers/hardware.go:228-283 | when all queues are drained, nothing was ignored and the students did not change, the rows are exactly the accepted punches of all batches |
| PunchProtocol.OneDeviceTable | internal/handlers/hardware.go:328-409 | with one device the whole tables of such runs agree, the device stored with each row included |
| PunchWindows.MinuteTextInjective | internal/handlers/hardware.go:625-630 | within one date, HH12:MI AM texts are equal exactly for equal minutes |
| PunchWindows.SelectedExact | internal/handlers/hardware.go:623-636 | the query selects a stored punch if and only if it falls on a school day and is the earliest of its check-in or check-out window, and calls it a check-out exactly when it is the earliest of the check-out window |
| PunchWindows.NotesDecrease | internal/handlers/hardware.go:586-616 | over any interleaving of batches and queries, whatever closures change between queries, the notified check-ins (or check-outs) of a student on a date have strictly decreasing times |
| PunchWindows.InOrderAtMostOne | internal/handlers/hardware.go:586-616 | when punches arrive in order each student gets at most one check-in and one check-out notification a date, whatever closures change meanwhile |
| PunchWindows.ManualNeverMisclassified | internal/handlers/manual_attendance.go:340-372 | a manual punch whose window was empty is selected on a school day, and as the kind requested |
| Timetable.WeekIsCanonical | internal/handlers/admin.go:1230-1270 | the stored day names are trimmed and are their own canonical form |
| Timetable.DayOkExact | internal/handlers/admin.go:1234-1252 | the sorted check accepts exactly the permutations of 1 to 5 and of 1 to 6 |
| Timetable.SortSorts | internal/handlers/admin.go:1235-1236 | the sort is ascending and keeps how often each number occurs |
| Timetable.GoodWeekExact | internal/handlers/admin.go:1324-1344 | no slot twice and every used day complete, if and only if each day's numbers are empty or such a permutation |
| Timetable.CapIsImplied | internal/handlers/admin.go:1223-1227 | a good week has at most 30 periods, so the cap of PUT excludes nothing more |
| Timetable.PutExact | internal/handlers/admin.go:1284-1346 | PUT accepts exactly the requests with valid texts in which each day is complete |
| Timetable.NormalisePeriod | internal/handlers/admin.go:1299-1323 | one period is refused or rewritten to its stored form |
| Timetable.NormaliseInPlace | internal/handlers/admin.go:1297-1329 | rewrites the request's periods in place and succeeds exactly when all are valid and no slot repeats |
| Timetable.ValidateScheduleRequest | internal/handlers/admin.go:1284-1346 | accepts exactly the requests described, and the accepted array then holds what is stored |
| TimetableSheet.HeaderExact | internal/handlers/schedule_excel.go:495-531 | a row gives the columns if and only if each of the six fields is named by exactly one cell |
| TimetableSheet.TitleIsNotHeader | internal/handlers/schedule_excel.go:495-531 | a row with text in its first cell only, even a header name, is never taken for the header |
| TimetableSheet.MatchHeader | internal/handlers/schedule_excel.go:495-531 | the loop computes that classification, including the row with fewer than three names and the broken header |
| TimetableSheet.PeriodNumberOfText | internal/handlers/schedule_excel.go:559-562 | a printed number is read as itself from 1 to 6 and refused otherwise |
| FloatText.ReadWholeOfText | internal/handlers/schedule_excel.go:559-562 | ParseFloat of a printed whole number gives that number from 1 to 6, and no other number passes |
| FloatText.ReadWholeOfDecimal | internal/handlers/schedule_excel.go:559-562 | a period written with a point and any number of zeros is read as the same period |
| FloatText.RoundsToOne | internal/handlers/schedule_excel.go:559-562 | whatever the digits, point and exponent, the number rounds to at most one whole number from 1 to 6 |
| TimetableSheet.ValidScheduleRow | internal/handlers/schedule_excel.go:538-577 | reports no problem exactly for a row that means a period, and returns that period |
| TimetableSheet.ReadSheet | internal/handlers/schedule_excel.go:406-490 | finds the header in the first ten rows, returns the entries of the valid rows below it in order, reports a problem exactly for a broken header or an invalid row, and stops at the limit of rows shared by all sheets |
| TimetableImport.ReadWorkbook | internal/handlers/schedule_excel.go:260-386 | accepts exactly the workbooks whose rows together are good weeks of the class asked for or of up to 100 classes, refuses the file as a whole exactly in the stated cases, and returns each class sorted |
| TimetableImport.GroupEntries | internal/handlers/schedule_excel.go:321-350 | no problem exactly when no row is of another class and no slot repeats; the classes and the numbers per day are then those of the rows |
| TimetableImport.FinishClasses | internal/handlers/schedule_excel.go:357-374 | no problem exactly when every class has whole days; every class is sorted |
| TimetableImport.SortOrders | internal/handlers/schedule_excel.go:367-373 | without repeated slots the stored order is strictly by day of the week, then by number |
| TimetableImport.SortKeeps | internal/handlers/schedule_excel.go:367-373 | sorting keeps the periods |
| TimetableImport.AcceptedInPasses | internal/handlers/schedule_excel.go:317-374 | the passes together check exactly the acceptance rule |
| TimetableRoundTrip.ImportRow | internal/handlers/schedule_excel.go:538-577 | reading a written row back gives the same period as the normalisation of PUT, or both refuse it |
| TimetableRoundTrip.SameAcceptance | internal/handlers/schedule_excel.go:317-386 | PUT and the import accept the same non-empty timetables of a class, and store the same periods |
| TimetableRoundTrip.EmptyTimetable | internal/handlers/schedule_excel.go:351-353 | the one difference: an empty timetable is accepted by PUT and refused by the import of one class |
| TimetableRoundTrip.Export | internal/handlers/schedule_excel.go:148-216 | a sheet exactly for a valid class that is known, with titles, header row and the 30 rows of the grid |
| TimetableRoundTrip.LookupExact | internal/handlers/schedule_excel.go:157-171 | the grid query finds in each slot exactly the stored period of that slot |
| TimetableRoundTrip.ExportImport | internal/handlers/schedule_excel.go:148-386 | importing the export of a non-empty good week reports no problem and gives exactly the same periods, strictly in week order |
| TimetableRoundTrip.PutExportImport | internal/handlers/schedule_excel.go:148-386 | whatever PUT accepts and stores survives export and import |
| TimetableRoundTrip.ExportBlank | internal/handlers/schedule_excel.go:351-353 | the export of a class without periods imports as no class, and is refused for that class |
| Closures.ConflictsIsSharing | internal/handlers/holidays.go:264-286 | the overlap query finds a row exactly when the two closures share a date, open ends included |
| Closures.AlwaysSound | internal/handlers/holidays.go:371-400 | after any sequence of creates and cancels every closure has start <= end and no two share a date |
| Closures.CancelFromTodayOn | internal/handlers/holidays.go:546-573 | cancelling on day T removes exactly the cancelled closure's dates from T on and leaves all other coverage, kinds and starts as they were |
| Closures.CancelReopens | internal/handlers/holidays.go:546-573 | those dates become school or weekend days, and every other date keeps its day type |
| Closures.DayOnUnique | internal/handlers/attendance.go:80-101 | every date has exactly one answer, and on a weekday the covering closure is unique |
| Closures.ClosureTable.Register | internal/handlers/holidays.go:371-400 | refused and previewed closures change nothing, a stored one is added under a fresh id, and the table stays sound |
| Closures.ClosureTable.CancelToday | internal/handlers/holidays.go:426-455 | not found, already over, deleted or ended yesterday, in the order the code decides, and the table stays sound |
| Closures.SchoolDaysBetween | internal/handlers/holidays.go:143-152 | the number of dates from start to end that are not Friday or Saturday |
| Closures.NextSchoolWeekday | internal/handlers/holidays.go:154-159 | the first date on or after t that is not Friday or Saturday, at most two days later |
| DeviceTokens.OffMeansNoToken | internal/handlers/mobile.go:760-795 | however registrations, switches, removals of tokens and account changes interleave by statements, no committed state has a token of a parent whose push is off |
| DeviceTokens.InvariantStep | internal/handlers/parent_account.go:224-246 | every statement, commit and abort keeps the table safe, the locks compatible and what each open transaction knows true |
| DeviceTokens.RegistrationCap | internal/handlers/mobile.go:779-795 | after one registration the parent has at most ten tokens, the most recently seen of those it had and the new one; other parents lose at most the moved token |
| DeviceTokens.RegisteredIsKept | internal/handlers/mobile.go:779-795 | the token just registered stays if and only if fewer than ten others of the parent come before it |
| DeviceTokens.MovedTokenEvicted | internal/handlers/mobile.go:779-795 | ten other tokens of the parent that come before the registered one evict it |
| DeviceTokens.MovedTokenLost | internal/handlers/mobile.go:740-795 | a table of tokens the handler accepts, within all limits, in which a registration that succeeds drops the token it registered |
| DeviceTokens.TopIsNewest | internal/handlers/mobile.go:787-791 | every kept token is newer than every evicted one |
| DeviceTokens.TokenStore.RegisterDeviceToken | internal/handlers/mobile.go:760-795 | the whole new table in each case: parent gone, push off, or upserted and capped |
| DeviceTokens.TokenStore.SetPushEnabled | internal/handlers/parent_account.go:224-246 | sets the switch, and turning it off deletes exactly that parent's tokens |
| BackgroundGroup.NoLostWakeup | internal/background/background.go:20-78 | in every run no channel is closed twice, and a waiter's channel is closed or is the current idle one with work still running |
| BackgroundGroup.Group.Go | internal/background/background.go:20-26 | counts one more running goroutine and keeps the group consistent |
| BackgroundGroup.Group.Done | internal/background/background.go:27-43 | the last return closes the idle channel, which is never closed already, and clears it |
| BackgroundGroup.Group.BeginWait | internal/background/background.go:57-70 | returns at once exactly when nothing runs, else hands out the one open idle channel |
| BackgroundGroup.ShutdownSafe | cmd/api/main.go:313-350 | when HTTP and cron really stopped, shutdown closes the database exactly when it returns 0, and from then on no tracked task runs or can start |
| BackgroundGroup.WaitEnds | cmd/api/main.go:338-342 | once the last tracked task has returned, shutdown's wait can end |
| Phone.NormalizeExact | internal/phone/phone.go:25-48 | a text is accepted exactly when, cleaned, it is one of the seven prefixes and a 7 with nine digits, and the result is +964 and that number |
| Phone.NormalizeIdempotent | internal/phone/phone.go:22-48 | the canonical form is a fixed point |
| Phone.NormalizeAgrees | internal/phone/phone.go:22-48 | two accepted spellings agree if and only if they carry the same subscriber number |
| Phone.IgnoredAnywhere | internal/phone/phone.go:12-34 | an ignored character anywhere in the text never matters |
| RfidTag.NextFreeIsLeast | internal/handlers/admin.go:331-343 | the hint is the least number above the tag with at most 14 digits that is no stored tag, and is null exactly when there is none, whatever the stored texts |
| RfidTag.LeastFreeIsCandidate | internal/handlers/admin.go:331-343 | looking only at tag + 1 and the successors of taken tags misses nothing |
| RfidTag.NextFreeIsValid | internal/handlers/admin.go:314-343 | the hint is itself a valid tag and is not taken |

## Left out

- HTTP routing, JSON and multipart reading, authentication, status codes and message texts: only whether a request is accepted or refused is kept.
- bcrypt, JWT, Firebase, excelize, zip and the database driver: opaque; a credential check, a worksheet's rows and a statement's failure are inputs.
- PostgreSQL itself: atomic commit, unique keys, row locks held to commit and one committed snapshot per statement are taken as given; a commit whose outcome is unknown counts as not committed.
- Clocks: readings are integers in nanoseconds, nondecreasing and at least one window after Go's zero time; saturation of Go's Duration is not modelled, since it affects no comparison made here.
- AdminLogins.AlwaysLegal: the mobile login and account deletion pair their limiter calls the same way and are not modelled separately.
- TuitionLedger.NeverNegative: an account is its (student, year) and a payment its place in the history; apply_to_existing is one atomic step, whose own interleavings are not modelled; in a payment or discount the student check and the INSERT of the account are one statement, and in a year switch the UPDATE of the setting is one with the commit.
- TuitionViews.SwitchKeepsView: weaker than the promise, because the promise fails for a student edited during the switch; the exact condition is TuitionViews.SwitchKeepsViewExactly.
- MoneyReports.ByMonth: months are numbers (12 * year + month) kept in order while they are entered, where the program fills a map and sorts it at the end.
- MoneyReports.CollectedAgrees: the queries of both reports are taken on one snapshot, which the handlers do not enforce.
- AttLog.ParsePrintTime: other spellings that Go's time.Parse takes for the same layout (a fraction of a second) are not modelled.
- PunchStore.Server.Persist: text is a sequence of code points; a PIN whose bytes are not UTF-8, which the database refuses like a U+0000, is not modelled.
- PunchStore.Server.Handle: device lookup and the reading of the request body are inputs; the notification stage is the queue of punches handed to it; teacher rows dropped for a data reason are not counted, as in the program.
- PunchProtocol.AlwaysOk: which rows the database accepts is fixed for a run. With several devices only the rows, not the device stored with each, are independent of the interleaving.
- PunchProtocol.DrainedRows: the students are the same at every push that stores a batch; without that, PunchProtocol.SameRows is what holds.
- PunchWindows.NotesDecrease: no punch is deleted during a run; deleting a manual punch can make a later one the first of its window.
- PunchWindows.SelectedExact: the join with students and parents, and the status column, are not modelled.
- FloatText.ReadWholeOfText: a number is an optional sign, digits with an optional point, and an optional exponent, rounded to the nearest double. Hexadecimal floats such as 0x5p0, which ParseFloat also takes, and its cutting of exponents of six or more digits are not modelled.
- TimetableSheet.ReadSheet: the rewriting of numeric grade and section cells such as 1.0, formula cells without a saved value and the file and unzip limits depend on cell types and bytes, which rows of texts do not have.
- TimetableImport.ReadWorkbook: it takes rows of texts, with the same limits as TimetableSheet.ReadSheet; the number of problems is kept, but not their order, texts or the cap on how many are shown.
- Timetable.ValidateScheduleRequest: a request without a periods field is refused before; letters outside ASCII whose lower case is in no day name are left as they are.
- Replacing a class's rows after an import, previews of an import and the listing of classes: one DELETE and one INSERT a period, which add only easy members.
- Closures.AlwaysSound: dates are day numbers; titles, notes and the broadcast to parents are not part of this model.
- DeviceTokens.OffMeansNoToken: evictions interleaved by statements may delete any unlocked tokens, and removing tokens or an account is one step; the cap of ten is proved for atomic registrations only (DeviceTokens.RegistrationCap), since concurrent ones can overshoot it.
- BackgroundGroup.ShutdownSafe: panics inside tasks, which the group recovers, end a task like a return.
- Phone.NormalizeExact: text is a sequence of code points; bytes that are not UTF-8 are not modelled.
- RfidTag.NextFreeIsLeast: the set of stored tags is one snapshot; another student may take the hinted tag before it is used.
- Banners, the activity log, settings, devices, broadcasts, paging and command-line tools: mostly input and output.
