# Eye-care reminder matching, modelled in Dafny

This project models the deciding logic of a personal eye-care tracker. Users
record eye-drop schedules and ophthalmology appointments. Every minute
something decides which reminders fire:

- the on-request route `GET /api/notifications` returns a list of
  notifications for one user;
- the background job logs one line per reminder for all users;
- the dashboard shows each schedule's next dose time, whether a dose is due
  now, and the number of days until the next appointment;
- the medication form edits a schedule's list of time slots before saving it.

Time is passed in. An instant is an integer number of milliseconds since the
epoch. A calendar date is a day number, and `new Date("YYYY-MM-DD")` is
midnight UTC of that day. The local minute of the day, from
`toTimeString()`, is a separate parameter, and the current time string is
its zero-padded `HH:MM` formatting. `Math.ceil(ms / 86400000)` is integer
ceiling division.

Modules, one file each:

- `Common` (common.dfy): `Option`, and `Includes` for `Array.prototype.includes`.
- `Clock` (clock.dfy): days, `DaysUntil`, `HH:MM` formatting and parsing, and JavaScript string order.
- `Records` (records.dfy): schedules, appointments, query results, and the appointment date-window filter.
- `Notifications` (notifications.dfy): the route handler, a method with nested loops.
- `Scheduler` (scheduler.dfy): one tick of the background job, a method with loops.
- `Dashboard` (dashboard.dfy): `getCurrentTimeStatus`, as functions.
- `Medications` (medications.dfy): the form state as a class, plus the pure list functions its handlers use.

Four behaviours of the code are easy to misread, and the model states them
as the code has them:

- The route's loop on its own would remind of a past appointment, with the
  message "Eye appointment tomorrow", because a negative `daysUntil` is
  `<= 1`. Only the query's lower date bound keeps such rows out
  (`PastAppointmentWouldSayTomorrow`, `WeekWindowAppointment`).
- The route emits one notification per matching time entry, so a time
  listed twice gives two notifications. Given the same schedule rows, the
  background job logs a schedule at most once (`JobVersusRoute`).
- The background job applies no `daysUntil` rule. It logs every appointment
  dated today or tomorrow. Given the same appointment rows in the same
  order at the same instant, the route's week window, cut down by its
  `daysUntil <= 1` rule, gives exactly the notifications of those same
  appointments, in the same order, so the i-th logged line and the i-th
  route notification come from the same appointment (`WindowsAgree`). In
  the running program the two do not see the same rows: the route reads
  only the signed-in user's rows and the job every user's, with no fixed
  order for either.
- The form hides "+ Add another time" at six slots, but editing a stored
  schedule that already has six times opens it with a seventh, empty, slot;
  filling it submits seven times (`EditCanSubmitSevenTimes`).

## Model

| member | source | states |
|---|---|---|
| `Common.Includes` | backend/cron/scheduler.js:39 | `includes` is true exactly when the value is an element of the list |
| `Clock.CeilDiv` | backend/routes/notifications.js:58 | the result `r` is the ceiling of `x / d`: `d*(r-1) < x <= d*r` |
| `Clock.DaysUntil` | src/components/Dashboard.tsx:186-189 | the days-until figure is the ceiling of (appointment midnight − now) over one day |
| `Clock.DaysUntilIsCalendarDistance` | backend/routes/notifications.js:57-58 | `daysUntil` equals the appointment's day minus today's UTC day: 0 today, 1 tomorrow, negative in the past |
| `Clock.FormatTime` | backend/routes/notifications.js:11 | the current time string is a well-formed zero-padded `HH:MM` |
| `Clock.ParseFormat` | backend/routes/notifications.js:11 | reading a formatted minute back gives the same minute |
| `Clock.FormatParse` | backend/routes/notifications.js:44 | every well-formed time is the formatting of its own minute |
| `Clock.SameStringIffSameMinute` | backend/routes/notifications.js:44 | a stored time equals the current time string iff it is well formed and denotes the current minute; a malformed entry never matches |
| `Clock.LexLessIrreflexive` | src/components/Dashboard.tsx:69 | no string is strictly greater than itself |
| `Clock.NothingBelowEmpty` | src/components/Dashboard.tsx:69 | `''` is never greater than the current time |
| `Clock.LexOrderIsChronological` | src/components/Dashboard.tsx:69 | for well-formed times, JavaScript string `<` agrees with chronological order |
| `Records.DateWindow` | backend/routes/notifications.js:28-33 | a row is returned iff its date lies in `[from, to]`, both ends included |
| `Records.DateWindowAppend` | backend/routes/notifications.js:32-33 | the date filter keeps the rows' relative order |
| `Notifications.GetNotifications` | backend/routes/notifications.js:10-70 | a failed query gives status 400 with its message; otherwise the body is the medication notifications, then the appointment notifications of the 7-day window |
| `Notifications.TimeMatchesCount` | backend/routes/notifications.js:43-51 | one schedule yields one notification per entry equal to the current time, so a duplicated time yields two |
| `Notifications.MedicationNotificationsAppend` | backend/routes/notifications.js:42-53 | medication notifications follow schedule order |
| `Notifications.MedicationCountIsMatchingPairs` | backend/routes/notifications.js:42-53 | the number of medication notifications equals the number of (schedule, time) pairs with `time == currentTime` |
| `Notifications.MedicationNotificationShape` | backend/routes/notifications.js:44-50 | each medication notification has type medication, title "Medication Reminder", timestamp `now`, and message "Time to take " + the name of a due schedule |
| `Notifications.AppointmentNotificationShape` | backend/routes/notifications.js:61-66 | each appointment notification has type appointment, title "Appointment Reminder" and timestamp `now` |
| `Notifications.AppointmentNotificationsAppend` | backend/routes/notifications.js:56-68 | appointment notifications follow appointment order |
| `Notifications.AppointmentRule` | backend/routes/notifications.js:56-67 | an appointment yields exactly one notification if `daysUntil <= 1` and none otherwise; its message is "today" when `daysUntil == 0` and "tomorrow" otherwise |
| `Notifications.TodayMessageIffZero` | backend/routes/notifications.js:64 | the message is "Eye appointment today" iff `daysUntil == 0` |
| `Notifications.WeekWindowAppointment` | backend/routes/notifications.js:25-67 | for an appointment inside the week window: "today" if dated today, "tomorrow" if dated tomorrow, nothing if later |
| `Notifications.PastAppointmentWouldSayTomorrow` | backend/routes/notifications.js:58-64 | without the window, a past appointment would yield one notification saying "tomorrow" |
| `Notifications.MedicationBeforeAppointment` | backend/routes/notifications.js:39-68 | no medication notification follows an appointment notification |
| `Notifications.SameTimestamp` | backend/routes/notifications.js:49-65 | every notification carries the timestamp `now` |
| `Notifications.EmptyInputsGiveEmptyList` | backend/routes/notifications.js:39-70 | no schedules and no appointments give an empty list |
| `Scheduler.Tick` | backend/cron/scheduler.js:14-50 | the log is the "Checking" line, then the medication lines, then one line per appointment of the 1-day window; a null result logs nothing for its kind |
| `Scheduler.OneSchedule` | backend/cron/scheduler.js:38-42 | a schedule is logged once if its times include the current time, and not at all otherwise |
| `Scheduler.MedicationLinesAppend` | backend/cron/scheduler.js:38-42 | medication lines follow schedule order |
| `Scheduler.AtMostOneLinePerSchedule` | backend/cron/scheduler.js:38-42 | there are at most as many medication lines as schedules |
| `Scheduler.MedicationLinesAreDue` | backend/cron/scheduler.js:39-40 | each medication line names the medication and user of a schedule whose times include the current time |
| `Scheduler.OneLinePerAppointment` | backend/cron/scheduler.js:46-50 | each appointment yields exactly one line, in order, with no days-until filter |
| `Scheduler.TickLogOrder` | backend/cron/scheduler.js:14-50 | the log opens with the "Checking" line, and medication lines come before appointment lines |
| `Scheduler.NullResultsLogNothing` | backend/cron/scheduler.js:37-46 | with both results null, only the "Checking" line is written |
| `Scheduler.MedicationLinesCount` | backend/cron/scheduler.js:38-42 | the number of medication lines is the number of schedules whose times include the current time |
| `Scheduler.LoggedAtMostMatching` | backend/cron/scheduler.js:39 | logged schedules are at most the matching pairs, with equality iff no schedule lists the current time twice |
| `Scheduler.JobVersusRoute` | backend/cron/scheduler.js:38-42 | for one and the same schedule sequence, the job logs at most as many medication reminders as the route returns, with equality iff no schedule lists the current time twice |
| `Scheduler.LineTexts` | backend/cron/scheduler.js:40-48 | each medication line reads `"Medication reminder: <name> for user <user>"` for a due schedule, each appointment line `"Appointment reminder for user <user>"` for its appointment |
| `Scheduler.WeekRowIsTomorrowRow` | backend/routes/notifications.js:25-67 | one appointment row gives the route the same notifications whether the week window or the job's 1-day window keeps it |
| `Scheduler.WeekNotificationsAreTomorrowNotifications` | backend/cron/scheduler.js:26-34 | for one and the same row sequence and instant, the route's notifications for its 7-day window equal its notifications for the job's 1-day window |
| `Scheduler.TomorrowNotifications` | backend/routes/notifications.js:56-67 | each appointment dated today or tomorrow yields exactly one notification, in order, carrying its own day distance |
| `Scheduler.WindowsAgree` | backend/cron/scheduler.js:26-34 | for one and the same row sequence and instant, the route's appointment notifications are exactly those of the job's window, one per logged line, the i-th notification and the i-th line coming from the same appointment |
| `Dashboard.FirstLaterIndex` | src/components/Dashboard.tsx:69 | `find` stops at the first time greater than the current time, or finds none when none is greater |
| `Dashboard.CurrentTimeStatus` | src/components/Dashboard.tsx:65-73 | `isPending` iff the current time is in `times`; `nextTime` is absent iff `times` is empty, and otherwise is an element of `times` |
| `Dashboard.NextTimeIsFirstLater` | src/components/Dashboard.tsx:69 | if some time is greater than the current time, `nextTime` is the first such time in list order |
| `Dashboard.NextTimeWraps` | src/components/Dashboard.tsx:69 | if no time is greater, `nextTime` wraps to `times[0]` |
| `Dashboard.NextTimeIsCurrentOnlyByWrapping` | src/components/Dashboard.tsx:69 | `nextTime` equals the current time only if it wrapped and `times[0]` is the current time |
| `Dashboard.NextTimeIsChronological` | src/components/Dashboard.tsx:69 | for well-formed times, `nextTime` is the first entry chronologically after the current minute |
| `Medications.RemoveAt` | src/components/Medications.tsx:123-126 | an in-range index removes exactly that slot and keeps the others in order; an out-of-range index changes nothing |
| `Medications.ValidTimes` | src/components/Medications.tsx:56 | the submitted times contain no empty string |
| `Medications.ValidTimesCounts` | src/components/Medications.tsx:56 | every non-empty time keeps its number of occurrences, and the length drops by the number of empty slots |
| `Medications.ValidTimesAppend` | src/components/Medications.tsx:56 | the filter keeps the original order |
| `Medications.ValidTimesKeepsFilled` | src/components/Medications.tsx:56 | a list with no empty slots is submitted unchanged |
| `Medications.AddThenRemove` | src/components/Medications.tsx:116-126 | removing the slot just added restores the list |
| `Medications.EditThenSubmit` | src/components/Medications.tsx:90 | an edited schedule submitted untouched sends back exactly its stored times |
| `Medications.ClearIsRemoveOnSubmit` | src/components/Medications.tsx:128-132 | clearing a slot submits the same times as removing it |
| `Medications.OfferedButtonsKeepSlotCount` | src/components/Medications.tsx:229-249 | add is offered below 6 slots and remove above 1, so using only those buttons keeps between 1 and 6 slots |
| `Medications.EditCanSubmitSevenTimes` | src/components/Medications.tsx:90 | a stored six-time schedule opens for editing with seven slots, no add button, and submits seven times once the last slot is filled |
| `Medications.RequiredSlotsAreSubmitted` | src/components/Medications.tsx:227 | when the required slots (index < frequency) are filled, the first min(frequency, slots) times are submitted unchanged and in order |
| `Medications.MedicationForm.constructor` | src/components/Medications.tsx:19-24 | the form starts blank: name `''`, frequency 1, times `['']`, notes `''`, no editing id, closed |
| `Medications.MedicationForm.AddTimeSlot` | src/components/Medications.tsx:116-121 | the length grows by one, the new last slot is `''`, earlier slots are unchanged, and no other field changes |
| `Medications.MedicationForm.RemoveTimeSlot` | src/components/Medications.tsx:123-126 | the times become `RemoveAt(old times, index)`, and no other field changes |
| `Medications.MedicationForm.UpdateTimeSlot` | src/components/Medications.tsx:128-132 | the length is kept, slot `index` becomes `value`, every other slot is unchanged, and no other field changes |
| `Medications.MedicationForm.HandleEdit` | src/components/Medications.tsx:86-95 | the form holds the schedule's fields, its times followed by one `''`, notes or `''`, its id as the editing id, and is open |
| `Medications.MedicationForm.CancelForm` | src/components/Medications.tsx:134-143 | the form is reset to name `''`, frequency 1, times `['']`, notes `''`, no editing id, closed |
| `Medications.MedicationForm.HandleSubmit` | src/components/Medications.tsx:52-84 | with no session nothing is sent; otherwise the request carries the fields with empty slots filtered out, PUT when an id is being edited and POST otherwise; a successful response resets the form |

## Left out

- Database access: the Supabase queries are inputs. The user filter is assumed done. The date filter is `Records.DateWindow`, and the row order is whatever order the rows arrive in. The other routes (appointments, schedules, users) and the server setup are pass-through CRUD.
- Clocks and time zones: `new Date()`, the local `toTimeString` and the UTC `toISOString` are parameters. `now` gives the UTC day. `localMinute` gives the current time string, and nothing ties it to `now`.
- `nextWeek` and `tomorrow` are computed with a local-time `setDate` and then converted to a UTC date. The model uses today + 7 and today + 1, so a daylight-saving shift that moves the UTC date is not captured.
- Parsing of date strings: every appointment date is already a day number.
- Floating point: `Math.ceil` over a floating-point quotient is integer ceiling division. JavaScript's `-0` makes no difference, because `-0 === 0`.
- The job's "Checking" line uses its own `new Date()`. Its instant is modelled as the tick's `now`, and the ISO rendering of instants is not modelled.
- Timestamps are the integer instant, not its `toISOString()` text.
- Exceptions: the 500 path of the route and the "Cron job error" path of the job are out. They run when a row is malformed, for example a null `times_of_day`, and the model's records always have a list.
- Timers and delivery: the cron schedule, the client's 60-second polling, the 5-second toast, and HTTP transport, including request URLs.
- JavaScript compares strings by UTF-16 code unit, and `LexLess` compares by character. The two agree on the digit-and-colon times the order lemmas are about.
- `Medications.MedicationForm.UpdateTimeSlot`: requires an index inside the list. The form only calls it for a rendered slot. An out-of-range assignment in JavaScript would leave holes in the array, and that is not modelled.
- The form's other field handlers (name, frequency and notes inputs), `fetchSchedules`, `handleDelete`, and all rendering.
- Authentication, the quote picker, and the other pages.
- `Scheduler.JobVersusRoute`, `Scheduler.WeekNotificationsAreTomorrowNotifications` and `Scheduler.WindowsAgree` compare the job and the route over one shared row sequence at one instant. In the program the route's queries keep only the signed-in user's rows (`.eq('user_id', …)`) and the job's keep every user's, and neither query fixes an order. So for the running system the lemmas say nothing about which user's rows each side sees or in what order they arrive.
