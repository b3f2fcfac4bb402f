# Medislot appointment core in Dafny

This project models the appointment core of Medislot, a doctor-booking web
application with a Node/Express backend and React panels. It covers two parts:

- **Admin "All Appointments" view.** This includes its date parser
  (`parseDate`), the slot-date reader (`extractDateParts`) with its May→April
  remap, the filter effect, the statistics effect, and the choice of which list
  is shown.
- **Admin dashboard's "Latest Bookings" list.** This includes its filter effect,
  the list it renders, and its "no match" message.

The doctor-panel controller of the backend is modelled as well:

- cancelling and completing an appointment, with its guards, the saved status
  and the patient e-mail;
- the doctor dashboard aggregates;
- the availability toggle.

Modules follow the program's structure:

- `Wrappers`, `Strings`, `Seqs`: `Option`, and the JavaScript string and array
  built-ins the core relies on. These are `split`, `includes`, `toLowerCase`,
  `replace` of the first match, `Number.parseInt`, `filter` and `reverse`.
- `Calendar`: the proleptic Gregorian calendar and `new Date(year, month, day)`.
  Out-of-range months and days roll over, and years 0–99 are read as 1900–1999.
- `DateParsing`: `parseDate` and `extractDateParts`.
  - The three regular-expression forms are stated as predicates over `Split`.
  - The ISO form is proved equal to a character-by-character pattern.
- `Appointments`: the appointment record, the doctor-name filter and the choice of the rendered list, all shared by both views.
- `AllAppointments`: the admin appointments view.
- `AdminDashboard`: the admin dashboard bookings list.
- `DoctorController`: `appointmentCancel`, `appointmentComplete`,
  `doctorDashboard`, `changeAvailablity`.

Calls into code that is not modelled are parameters of the model:

- **`new Date(str)` on free text.** This is `fallback : string -> Option<CalDate>`.
  `None` stands for an invalid date.
- **Locale-dependent functions of the dashboard matcher.** These are the
  app's `slotDateFormat`, `toLocaleString`, `getDate`, `getFullYear` and
  `toDateString`, gathered in `AdminDashboard.DateEnv`.
- **Mail transport's failure.** This is `mailFailure : Option<string>`.
- **Engine's error text for a missing doctor.** This is `readError`.

React effects are pure functions of the state they depend on. The previous
filtered list is an argument, because an effect that does not run leaves it unchanged.

The model follows the code as written, including these behaviours:

- **Slot dates in May are read as April, and so is a May filter day.**
  - A text slot date naming May has month index 4. `extractDateParts` remaps it
    to April (3).
  - The filter effect remaps a filter day in May the same way.
  - Numeric slot dates (`D_M_YYYY`, ISO, `DD-MM-YYYY`) are not remapped.
    - A May filter day therefore never matches a numeric May slot date.
    - It does match text slot dates of both April and May.
  - The lemmas `DateParsing.TextDisagreesInMay`, `AllAppointments.MayFilterMismatch`,
    `AllAppointments.AprilFilterMatchesMayText` and
    `AllAppointments.MayFilterThroughEffect` state these consequences.
- **Out-of-range numeric dates are accepted and roll over.** `2025-02-30` is
  2 March 2025 (`DateParsing.IsoRollsOver`). They are not rejected.
- **A failing mail transport turns a committed change into a failure reply.**
  The appointment has already been saved when `sendMail` throws, yet the reply
  has `success: false` and the error's message (`DoctorController.Commit`).
- **The terminal-state guard reads the two booleans.** It does not read the
  `status` text.

## Model

| member | source | states |
|---|---|---|
| Strings.ToLower | admin/src/pages/Admin/AllAppointments.jsx:151 | lower-casing keeps the length and maps every character by itself (ASCII letters lowered) |
| Strings.Split | admin/src/pages/Admin/AllAppointments.jsx:39 | `split` with a one-character separator yields at least one part, no part holds the separator, and joining the parts with it gives back the input |
| Strings.Contains | admin/src/pages/Admin/AllAppointments.jsx:151 | `includes`: the searched text occurs as a contiguous block at some position |
| Strings.SplitJoin | admin/src/pages/Admin/AllAppointments.jsx:77 | splitting a join of separator-free parts gives back exactly those parts |
| Strings.SplitThree | admin/src/pages/Admin/AllAppointments.jsx:44 | a string made of three separator-free blocks splits into exactly those three blocks |
| Strings.SplitFour | admin/src/pages/Admin/AllAppointments.jsx:77 | a string made of four separator-free blocks splits into exactly those four blocks |
| Strings.RemoveFirst | admin/src/pages/Admin/AllAppointments.jsx:90 | `replace(",", "")` deletes the first comma and keeps everything before and after it; a comma-free string is left as it is |
| Strings.ParseIntPrefix | admin/src/pages/Admin/AllAppointments.jsx:79 | `parseInt(_, 10)` of a digit block followed by a non-digit is the block's decimal value |
| Strings.ParseInt | admin/src/pages/Admin/AllAppointments.jsx:79 | `Number.parseInt(s, 10)`: leading white space is skipped, an optional sign read, then the longest digit run; NaN when there is none |
| Strings.ParseIntNoDigits | admin/src/pages/Admin/AllAppointments.jsx:90 | `parseInt` of a string without digits is NaN |
| Strings.DigitsValue | admin/src/pages/Admin/AllAppointments.jsx:39 | `Number` of a zero-padded decimal rendering gives back the number |
| Seqs.Filter | admin/src/pages/Admin/AllAppointments.jsx:150-152 | `filter` keeps an order-preserving subsequence that holds every passing value exactly as often as the input does and no other value: all of the input when all pass, nothing when none pass |
| Seqs.FilterUnique | admin/src/pages/Admin/AllAppointments.jsx:150-152 | the contract of `filter` fixes its result: any order-preserving selection keeping each passing value as often as it occurs and nothing else is the filtered list |
| Seqs.FilterFilter | admin/src/pages/Admin/AllAppointments.jsx:149-197 | filtering by one test and then by another is one filter by their conjunction |
| Seqs.FilterLength | admin/src/pages/Admin/AllAppointments.jsx:129-131 | the length of a filtered list is the number of passing positions, counted one by one |
| Seqs.Reverse | backend/controllers/doctorController.js:300 | `reverse` puts element `i` at position `n-1-i` |
| Calendar.DaysIn | admin/src/pages/Admin/AllAppointments.jsx:40 | every month of the Gregorian calendar has 28 to 31 days |
| Calendar.Normalize | admin/src/pages/Admin/AllAppointments.jsx:40 | the date constructor's roll-over of month and day always yields a real calendar date |
| Calendar.MakeDate | admin/src/pages/Admin/AllAppointments.jsx:40 | `new Date(y, m, d)` with integer fields always yields a valid date (no NaN for these inputs) |
| Calendar.MakeDateTwoDigitYear | admin/src/pages/Admin/AllAppointments.jsx:40 | a year field between 0 and 99 is read as a year of the 1900s |
| Calendar.MakeDateOfValid | admin/src/pages/Admin/AllAppointments.jsx:40 | a valid date with a year outside 0–99 is constructed as itself |
| Calendar.MakeDateDayAfterLast | admin/src/pages/Admin/AllAppointments.jsx:40 | the day after a month's last day rolls over to the first of the next month, across the year end |
| Calendar.MakeDateDayZero | admin/src/pages/Admin/AllAppointments.jsx:40 | day 0 is the last day of the previous month, across the year start |
| Calendar.MakeDateMonthTwelve | admin/src/pages/Admin/AllAppointments.jsx:40 | month index 12 is January of the next year |
| DateParsing.NumericFields | admin/src/pages/Admin/AllAppointments.jsx:38-51 | year, month and day are read exactly when the string has one of the three numeric shapes |
| DateParsing.ParseDate | admin/src/pages/Admin/AllAppointments.jsx:33-68 | a numeric-shaped string always parses to a valid date; any other string gets exactly what the engine's free-text parser gives |
| DateParsing.IsoShapeIsPattern | admin/src/pages/Admin/AllAppointments.jsx:38 | the split-based ISO shape is exactly the pattern four digits, dash, two digits, dash, two digits |
| DateParsing.DashShapeIsPattern | admin/src/pages/Admin/AllAppointments.jsx:43 | the split-based `DD-MM-YYYY` shape is exactly the pattern two digits, dash, two digits, dash, four digits |
| DateParsing.UnderscoreShapeIsPattern | admin/src/pages/Admin/AllAppointments.jsx:48 | the split-based `D_M_YYYY` shape is exactly the pattern of one or two digits, underscore, one or two digits, underscore, four digits |
| DateParsing.NoDashNoDashShape | admin/src/pages/Admin/AllAppointments.jsx:38-46 | a string without a dash has neither the ISO nor the `DD-MM-YYYY` shape |
| DateParsing.IsoFields | admin/src/pages/Admin/AllAppointments.jsx:38-40 | an ISO-shaped string yields its year, month and day digit blocks as numbers |
| DateParsing.DashFields | admin/src/pages/Admin/AllAppointments.jsx:43-45 | a `DD-MM-YYYY` string yields year, month and day from the third, second and first blocks |
| DateParsing.UnderscoreFields | admin/src/pages/Admin/AllAppointments.jsx:48-50 | a `D_M_YYYY` string with one- or two-digit day and month yields its blocks as numbers |
| DateParsing.JoinedDigitsExclude | admin/src/pages/Admin/AllAppointments.jsx:38-51 | three digit blocks joined by one separator contain no other separator and split back into the blocks |
| DateParsing.IsoParsesToMakeDate | admin/src/pages/Admin/AllAppointments.jsx:38-40 | the ISO rendering of any printable date parses to the constructed date of its fields |
| DateParsing.DashParsesToMakeDate | admin/src/pages/Admin/AllAppointments.jsx:43-45 | the `DD-MM-YYYY` rendering parses to the constructed date of its fields |
| DateParsing.UnderscoreParsesToMakeDate | admin/src/pages/Admin/AllAppointments.jsx:48-50 | the `D_M_YYYY` rendering parses to the constructed date of its fields |
| DateParsing.NumericFormsAgree | admin/src/pages/Admin/AllAppointments.jsx:33-68 | all three numeric renderings of a valid date with a four-digit year parse back to that date |
| DateParsing.IsoRollsOver | admin/src/pages/Admin/AllAppointments.jsx:38-40 | `2025-02-30` is accepted and becomes 2 March 2025 |
| DateParsing.FebruaryThirtieth | admin/src/pages/Admin/AllAppointments.jsx:40 | the constructor turns 30 February 2025 into 2 March 2025 |
| DateParsing.FirstMonthFrom | admin/src/pages/Admin/AllAppointments.jsx:83-88 | the scan returns the first month abbreviation, from the given index on, that occurs in the string, or none when none occurs |
| DateParsing.FindMonth | admin/src/pages/Admin/AllAppointments.jsx:82-88 | the month found is the first of the twelve abbreviations that occurs anywhere in the string, and none is found only when none occurs |
| DateParsing.FindOnlyMonth | admin/src/pages/Admin/AllAppointments.jsx:82-88 | when exactly one abbreviation occurs, the scan finds it |
| DateParsing.RemapMay | admin/src/pages/Admin/AllAppointments.jsx:96-99 | only May changes: it becomes April, every other month index is kept, and April is reached from April and May alone |
| DateParsing.OnlyMonthBetween | admin/src/pages/Admin/AllAppointments.jsx:83-88 | with no letters around it, one abbreviation contains no other |
| DateParsing.MonthBetween | admin/src/pages/Admin/AllAppointments.jsx:82-88 | an abbreviation surrounded by letter-free text is the one the scan finds |
| DateParsing.TextParts | admin/src/pages/Admin/AllAppointments.jsx:76-104 | the text path fails exactly when there is no space, fewer than three tokens, a first token that is NaN, no month abbreviation, or a last token that is NaN once its first comma is removed; otherwise the day is the first token read by `parseInt`, the year the last token read the same way, and the month the first abbreviation found, May read as April |
| DateParsing.TextPartsOf | admin/src/pages/Admin/AllAppointments.jsx:76-101 | any three or more tokens with a numeric first token, a month abbreviation in the string and a numeric last token yield that day, the remapped month and that year |
| DateParsing.ExtractDateParts | admin/src/pages/Admin/AllAppointments.jsx:71-121 | the text path decides when it succeeds; otherwise the result is the date parser's |
| DateParsing.LongTextSplit | admin/src/pages/Admin/AllAppointments.jsx:77 | a `D Mon YYYY` slot date splits into day, month name and year |
| DateParsing.LongTextMonth | admin/src/pages/Admin/AllAppointments.jsx:82-88 | the month scan of a `D Mon YYYY` slot date finds exactly its month |
| DateParsing.LongTextParts | admin/src/pages/Admin/AllAppointments.jsx:76-101 | a `D Mon YYYY` slot date reads as its day, year and remapped month |
| DateParsing.TrailingTokenIsYear | admin/src/pages/Admin/AllAppointments.jsx:77-90 | the year comes from the last token whatever it is: `D Mon YYYY t` takes its year from `t` and fails when `t` does not start with a number |
| DateParsing.TimeSuffixReadAsYear | admin/src/pages/Admin/AllAppointments.jsx:77-90 | a slot date followed by a time, as in `23 Jun 2025 10:30`, is read with the year 10 |
| DateParsing.NoTextPathWithoutSpace | admin/src/pages/Admin/AllAppointments.jsx:76 | a string without a space never takes the text path |
| DateParsing.NumericFormsHaveNoSpace | admin/src/pages/Admin/AllAppointments.jsx:76 | the numeric renderings never take the text path |
| DateParsing.TextAgreesWithNumeric | admin/src/pages/Admin/AllAppointments.jsx:71-121 | outside May, the text, underscore, ISO and dashed renderings of a date all read back as that same date |
| DateParsing.TextDisagreesInMay | admin/src/pages/Admin/AllAppointments.jsx:93-99 | in May the text rendering reads as April while the underscore rendering reads as May |
| Appointments.ByDoctor | admin/src/pages/Admin/AllAppointments.jsx:149-153 | the doctor step (the same in Dashboard.jsx lines 27-31) is an order-preserving sublist keeping each appointment whose lower-cased doctor name contains the lower-cased filter exactly as often as it occurs, and no other; all of them with no filter |
| AllAppointments.DateMatches | admin/src/pages/Admin/AllAppointments.jsx:166-199 | an appointment matches the filter day when its slot date yields parts equal to the day, the year and the filter month with May read as April; a slot date without parts never matches |
| AllAppointments.FilterEffect | admin/src/pages/Admin/AllAppointments.jsx:144-207 | with no appointments the previous filtered list stays; otherwise the result is an order-preserving sublist holding each appointment both active filters keep exactly as often as it occurs, and no other; an unparseable filter date leaves the date step out |
| AllAppointments.Kept | admin/src/pages/Admin/AllAppointments.jsx:149-199 | an appointment survives the effect when it passes the doctor filter (if set) and the date filter (if set and parseable) |
| AllAppointments.FilterEffectIsOneFilter | admin/src/pages/Admin/AllAppointments.jsx:144-207 | the effect's two narrowing steps equal one `filter` of the appointments by the combined test |
| AllAppointments.CountsCover | admin/src/pages/Admin/AllAppointments.jsx:129-131 | completed, pending and cancelled counts add up to the list length plus the items carrying both flags |
| AllAppointments.NoCompletedNoEarnings | admin/src/pages/Admin/AllAppointments.jsx:129-132 | with no completed item the statistics report zero completed appointments and zero earnings |
| AllAppointments.ComputeStats | admin/src/pages/Admin/AllAppointments.jsx:124-141 | the count is the list length; the completed, pending (neither flag) and cancelled counts are the numbers of such items; the earnings are the sum of the amounts of the completed items; the three counts cover the list exactly when no item has both flags |
| AllAppointments.SumOfCompleted | admin/src/pages/Admin/AllAppointments.jsx:129-132 | summing the amounts of the completed sublist gives the amounts of the completed items added one by one |
| AllAppointments.StatsSource | admin/src/pages/Admin/AllAppointments.jsx:125-126 | statistics read the filtered list when it is non-empty or a filter is in force, the full list otherwise |
| AllAppointments.StatsDescribeDisplayed | admin/src/pages/Admin/AllAppointments.jsx:124-216 | after the filter effect ran on a non-empty list, statistics describe exactly the displayed list |
| AllAppointments.StaleStatsOnEmptyList | admin/src/pages/Admin/AllAppointments.jsx:125-145 | when the appointment list is emptied with no filter, the table is empty while the statistics still read the stale filtered list |
| AllAppointments.FilterMatchesSameDay | admin/src/pages/Admin/AllAppointments.jsx:156-199 | outside May, a picked day matches slot dates of the same day in all four renderings |
| AllAppointments.MayFilterMismatch | admin/src/pages/Admin/AllAppointments.jsx:181-192 | a May filter day matches text slot dates of that day in May and April but no numeric rendering of it |
| AllAppointments.AprilFilterMatchesMayText | admin/src/pages/Admin/AllAppointments.jsx:93-99 | an April filter day matches a text slot date of the same day in May |
| AllAppointments.MayFilterThroughEffect | admin/src/pages/Admin/AllAppointments.jsx:144-207 | filtering by a May day keeps a `D May YYYY` slot and drops a `D_5_YYYY` slot of the same day |
| AdminDashboard.Formats | admin/src/pages/Admin/Dashboard.jsx:48-54 | five spellings of the picked day are looked for |
| AdminDashboard.AnyContained | admin/src/pages/Admin/Dashboard.jsx:65 | `some(includes)` holds exactly when one of the spellings occurs in the text |
| AdminDashboard.BookingDateMatches | admin/src/pages/Admin/Dashboard.jsx:34-75 | the per-booking date test: a formatter that throws rejects the booking; otherwise one of the five spellings occurs in the formatted date or the `toDateString`s agree |
| AdminDashboard.BookingDateMatchesIff | admin/src/pages/Admin/Dashboard.jsx:35-74 | a booking matches the date filter exactly when its slot date formats without error and one of the five day-month-year compositions occurs in it, or the two `toDateString`s agree |
| AdminDashboard.DashboardFilterEffect | admin/src/pages/Admin/Dashboard.jsx:22-83 | without latest bookings the previous filtered list stays; otherwise the result is an order-preserving sublist holding each booking both active filters keep exactly as often as it occurs, and no other; all of them with no filter |
| AdminDashboard.DashboardFilterIsOneFilter | admin/src/pages/Admin/Dashboard.jsx:22-83 | the two narrowing steps equal one `filter` of the latest bookings by the combined test |
| AdminDashboard.DoctorOnlyFilter | admin/src/pages/Admin/Dashboard.jsx:27-31 | with only the doctor filter in force the result is the doctor-name filter of the latest list |
| AdminDashboard.FormatterErrorExcludes | admin/src/pages/Admin/Dashboard.jsx:68-74 | a booking whose slot date the formatter throws on is dropped by an active date filter |
| Appointments.Displayed | admin/src/pages/Admin/AllAppointments.jsx:216 | the filtered list is shown while a filter is in force, the full list otherwise; the dashboard chooses its bookings list the same way (Dashboard.jsx line 173) |
| Appointments.DoctorMatches | admin/src/pages/Admin/AllAppointments.jsx:151 | the doctor-name test: the lower-cased doctor name contains the lower-cased filter text |
| AdminDashboard.NoMatchMessageIffEmptyList | admin/src/pages/Admin/Dashboard.jsx:196-200 | the message appears exactly when a filter is in force and the rendered list is empty |
| AdminDashboard.ShowNoMatchMessage | admin/src/pages/Admin/Dashboard.jsx:196 | the message condition: a filter in force and an empty filtered list |
| AdminDashboard.DisplayedAfterEffect | admin/src/pages/Admin/Dashboard.jsx:22-173 | after the effect the rendered list is an order-preserving sublist of the latest bookings holding each booking the filters keep exactly as often as it occurs, and no other |
| DoctorController.Letter | backend/controllers/doctorController.js:112-117 | the letter body mentions the slot date and the slot time |
| DoctorController.Commit | backend/controllers/doctorController.js:98-122 | the record is saved with the new status and flag first; a letter with the right subject and slot goes to a non-empty patient address only; a throwing transport makes the reply a failure carrying its message while the save stands |
| DoctorController.Transition | backend/controllers/doctorController.js:73-127 | guards in order: missing id, other doctor, already final, each failing with its own message and leaving collection and mail log unchanged; once all three pass, the request is the commit |
| DoctorController.AppointmentCancel | backend/controllers/doctorController.js:73-127 | an allowed cancel sets status "Cancelled" and the cancelled flag and nothing else; any refused request changes nothing and fails |
| DoctorController.AppointmentComplete | backend/controllers/doctorController.js:152-206 | an allowed completion sets status "Completed" and the completed flag and nothing else; any refused request changes nothing and fails |
| DoctorController.TransitionFrame | backend/controllers/doctorController.js:73-127 | every request keeps the same ids, never changes another record, grows the mail log by at most one letter, and replies with success only after finalizing the requested record |
| DoctorController.TransitionKeepsFlagsExclusive | backend/controllers/doctorController.js:93-100 | no request ever leaves a record both cancelled and completed |
| DoctorController.TransitionKeepsStatusesAgree | backend/controllers/doctorController.js:98-100 | every request keeps each status text in agreement with its two flags |
| DoctorController.FinalIsTerminal | backend/controllers/doctorController.js:171-175 | after a successful cancel or complete, every further request on that appointment fails, changes nothing and sends nothing; by its doctor it fails as already final |
| DoctorController.FinalRefused | backend/controllers/doctorController.js:92-96 | a request on a cancelled or completed record fails and changes neither collection nor mail log, with the already-final message for its own doctor: there is no edge out of or between the final states |
| DoctorController.RetrySendsAtMostOneLetter | backend/controllers/doctorController.js:92-120 | two identical requests send at most one letter and the second fails |
| DoctorController.OwnAppointments | backend/controllers/doctorController.js:276 | the query keeps, in stored order, each appointment of the doctor exactly as often as it occurs, and no other |
| DoctorController.TotalEarnings | backend/controllers/doctorController.js:278-284 | the first pass sums the amount of exactly the completed-or-paid appointments, as the reference sum over the list defines it |
| DoctorController.CountPatients | backend/controllers/doctorController.js:286-292 | the second pass counts each distinct patient id once, so the count equals the number of distinct ids and never exceeds the number of appointments |
| DoctorController.CommitFramed | backend/controllers/doctorController.js:98-122 | a committed request keeps the ids, changes only the requested record and appends at most one letter |
| DoctorController.Summarize | backend/controllers/doctorController.js:278-301 | earnings equal the sum of amounts over completed-or-paid appointments; the patient count is the number of distinct patient ids and at most the appointment count; the latest list is the input reversed |
| DoctorController.DoctorDashboard | backend/controllers/doctorController.js:271-309 | the dashboard aggregates are those of the doctor's own appointments |
| DoctorController.ChangeAvailability | backend/controllers/doctorController.js:224-237 | an existing doctor's availability flag is negated with nothing else changed; an unknown id changes nothing and the reply is a failure |
| DoctorController.ToggleTwiceRestores | backend/controllers/doctorController.js:224-237 | toggling availability twice restores the doctor collection |

## Left out

- Network, HTTP, authentication middleware and React rendering are not modelled. Each handler is a function of its request fields and the stored documents.
- Console logging is left out. It has no effect on results.
- Concurrency is not modelled. Two requests racing on one appointment are treated as run one after the other.
- Persistence failures other than the mail transport's are left out. A `save` or `findById` that throws would give `success: false` with the driver's message.
- `new Date(str)` on free text is a parameter. So are the app's `slotDateFormat` and the locale-dependent `toLocaleString`, `toDateString` and `getDate`/`getFullYear` of the dashboard matcher. They are engine- and locale-dependent.
- `new Date(y, m, d)` on the numeric forms is modelled in local time, with no time-of-day. Time-zone and daylight-saving effects are out of scope.
- Strings.ToLower: only ASCII letters are lowered. Full Unicode case mapping is out of scope.
- Amounts are integers. Floating-point sums are not modelled.
- `Number(app.amount)` on a non-numeric amount would produce NaN. It is not modelled.
- Strings.ParseIntPrefix: `parseInt` is modelled on the digit strings the core produces. The float rounding of very long digit strings is not modelled.
- DoctorController.Letter: only the sentence of each letter carrying the slot date and time is modelled. The fixed wording around it is left out.
- The other fields of a `{ success: false, message: error.message }` reply are not modelled.
- `docId.toString()` throwing on a missing `docId` is not modelled. A missing `docData` in the doctor-name filter is not modelled either.
- Other controllers of the same file are not part of this model: `loginDoctor`, `appointmentsDoctor`, `doctorList`, `doctorProfile` and `updateDoctorProfile`. The same holds for the blog files and the cards and dialogs of the views.
- The admin dashboard's card counts come from the server. They are not modelled.
- The `typeof dateString === "string"` test is subsumed: slot dates are strings in the model.
- The `try`/`catch` of `extractDateParts` is not modelled separately. Nothing in the modelled paths throws for a string.
- Calendar.MakeDate: the engine's date range limit (about 275,760 years either side of 1970) is not modelled. The numeric forms carry at most four-digit years, so they never reach it.
