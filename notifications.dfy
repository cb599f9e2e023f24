/** The on-request reminder matcher behind `GET /api/notifications`: for one
    signed-in user it turns the current minute, the user's schedules and the
    user's appointments of the coming week into the list of notifications
    the client shows. */
module Notifications {
  import opened Clock
  import opened Records

  /** Days ahead covered by the appointment query (`nextWeek`). */
  const WeekDays: int := 7

  datatype Kind = MedicationReminder | AppointmentReminder

  /** One element of the response body `{ type, title, message, timestamp }`. */
  datatype Notification = Notification(kind: Kind, title: string, message: string, timestamp: int)

  datatype Response = Json(body: seq<Notification>) | BadRequest(error: string)

  function MedicationNotification(medicationName: string, now: int): Notification
  {
    Notification(MedicationReminder, "Medication Reminder", "Time to take " + medicationName, now)
  }

  function AppointmentMessage(daysUntil: int): string
  {
    "Eye appointment " + (if daysUntil == 0 then "today" else "tomorrow")
  }

  function AppointmentNotification(daysUntil: int, now: int): Notification
  {
    Notification(AppointmentReminder, "Appointment Reminder", AppointmentMessage(daysUntil), now)
  }

  // ---------------------------------------------------------------------
  // What the loops build
  // ---------------------------------------------------------------------

  /** The notifications the inner loop pushes for one schedule: one per
      entry of `times` that string-equals `currentTime`, in list order. */
  function TimeMatches(medicationName: string, times: seq<string>, currentTime: string, now: int): seq<Notification>
    decreases |times|
  {
    if times == [] then []
    else
      TimeMatches(medicationName, times[..|times| - 1], currentTime, now)
      + (if times[|times| - 1] == currentTime then [MedicationNotification(medicationName, now)] else [])
  }

  /** The medication part of the list: the schedules in order, each
      contributing its matches. */
  function MedicationNotifications(schedules: seq<Schedule>, currentTime: string, now: int): seq<Notification>
    decreases |schedules|
  {
    if schedules == [] then []
    else
      var last := schedules[|schedules| - 1];
      MedicationNotifications(schedules[..|schedules| - 1], currentTime, now)
      + TimeMatches(last.medicationName, last.timesOfDay, currentTime, now)
  }

  /** The notification one appointment yields: one when `daysUntil <= 1`. */
  function AppointmentMatch(appointment: Appointment, now: int): seq<Notification>
  {
    var daysUntil := DaysUntil(appointment.nextAppointmentDay, now);
    if daysUntil <= 1 then [AppointmentNotification(daysUntil, now)] else []
  }

  function AppointmentNotifications(appointments: seq<Appointment>, now: int): seq<Notification>
    decreases |appointments|
  {
    if appointments == [] then []
    else
      AppointmentNotifications(appointments[..|appointments| - 1], now)
      + AppointmentMatch(appointments[|appointments| - 1], now)
  }

  /** The whole response body: medication notifications, then appointment
      notifications. */
  function NotificationList(now: int, currentTime: string, schedules: seq<Schedule>, appointments: seq<Appointment>): seq<Notification>
  {
    MedicationNotifications(schedules, currentTime, now) + AppointmentNotifications(appointments, now)
  }

  /** The appointments the route's query returns: the user's rows dated
      from today through `nextWeek`. */
  function WeekAppointments(rows: seq<Appointment>, now: int): seq<Appointment>
  {
    DateWindow(rows, UtcDay(now), UtcDay(now) + WeekDays)
  }

  // ---------------------------------------------------------------------
  // The route handler
  // ---------------------------------------------------------------------

  /** The handler: `now` is the instant, `localMinute` its local minute of the
      day (`toTimeString`), `schedules` the user's schedule query and
      `appointments` the user's appointment rows, still to be narrowed to the
      week window. Either query failing yields status 400 with its message. */
  method GetNotifications(now: int, localMinute: int, schedules: Query<Schedule>, appointments: Query<Appointment>)
    returns (response: Response)
    requires 0 <= localMinute < MinutesPerDay
    ensures schedules.QueryError? ==> response == BadRequest(schedules.message)
    ensures schedules.Rows? && appointments.QueryError? ==> response == BadRequest(appointments.message)
    ensures schedules.Rows? && appointments.Rows? ==>
      response == Json(NotificationList(now, FormatTime(localMinute), schedules.data, WeekAppointments(appointments.data, now)))
  {
    var currentTime := FormatTime(localMinute);
    var currentDate := UtcDay(now);
    if schedules.QueryError? {
      return BadRequest(schedules.message);
    }
    if appointments.QueryError? {
      return BadRequest(appointments.message);
    }
    var scheduleRows := schedules.data;
    var appointmentRows := DateWindow(appointments.data, currentDate, currentDate + WeekDays);

    var notifications: seq<Notification> := [];
    var i := 0;
    while i < |scheduleRows|
      invariant 0 <= i <= |scheduleRows|
      invariant notifications == MedicationNotifications(scheduleRows[..i], currentTime, now)
    {
      var schedule := scheduleRows[i];
      var j := 0;
      while j < |schedule.timesOfDay|
        invariant 0 <= j <= |schedule.timesOfDay|
        invariant notifications == MedicationNotifications(scheduleRows[..i], currentTime, now)
          + TimeMatches(schedule.medicationName, schedule.timesOfDay[..j], currentTime, now)
      {
        var time := schedule.timesOfDay[j];
        if time == currentTime {
          notifications := notifications + [MedicationNotification(schedule.medicationName, now)];
        }
        assert schedule.timesOfDay[..j + 1][..j] == schedule.timesOfDay[..j];
        assert TimeMatches(schedule.medicationName, schedule.timesOfDay[..j + 1], currentTime, now)
          == TimeMatches(schedule.medicationName, schedule.timesOfDay[..j], currentTime, now)
          + (if time == currentTime then [MedicationNotification(schedule.medicationName, now)] else []);
        j := j + 1;
      }
      assert schedule.timesOfDay[..j] == schedule.timesOfDay;
      assert scheduleRows[..i + 1][..i] == scheduleRows[..i];
      i := i + 1;
    }
    assert scheduleRows[..i] == scheduleRows;

    var k := 0;
    while k < |appointmentRows|
      invariant 0 <= k <= |appointmentRows|
      invariant notifications == MedicationNotifications(scheduleRows, currentTime, now)
        + AppointmentNotifications(appointmentRows[..k], now)
    {
      var appointment := appointmentRows[k];
      var daysUntil := CeilDiv(Midnight(appointment.nextAppointmentDay) - now, MsPerDay);
      if daysUntil <= 1 {
        notifications := notifications + [AppointmentNotification(daysUntil, now)];
      }
      assert appointmentRows[..k + 1][..k] == appointmentRows[..k];
      k := k + 1;
    }
    assert appointmentRows[..k] == appointmentRows;
    return Json(notifications);
  }

  // ---------------------------------------------------------------------
  // Properties of the list
  // ---------------------------------------------------------------------

  /** One notification per matching entry: a time listed twice in one
      schedule yields two identical notifications. */
  lemma {:induction false} TimeMatchesCount(medicationName: string, times: seq<string>, currentTime: string, now: int)
    ensures TimeMatches(medicationName, times, currentTime, now)
      == seq(multiset(times)[currentTime], _ => MedicationNotification(medicationName, now))
    decreases |times|
  {
    if times != [] {
      var init := times[..|times| - 1];
      assert times == init + [times[|times| - 1]];
      assert multiset(times) == multiset(init) + multiset{times[|times| - 1]};
      TimeMatchesCount(medicationName, init, currentTime, now);
    }
  }

  /** Concatenating schedule lists concatenates their notifications. */
  lemma {:induction false} MedicationNotificationsAppend(xs: seq<Schedule>, ys: seq<Schedule>, currentTime: string, now: int)
    ensures MedicationNotifications(xs + ys, currentTime, now)
      == MedicationNotifications(xs, currentTime, now) + MedicationNotifications(ys, currentTime, now)
    decreases |ys|
  {
    if ys == [] {
      assert xs + ys == xs;
    } else {
      var init := ys[..|ys| - 1];
      assert (xs + ys)[..|xs + ys| - 1] == xs + init;
      MedicationNotificationsAppend(xs, init, currentTime, now);
    }
  }

  /** The number of (schedule, time) pairs whose time is `currentTime`. */
  function MatchingPairs(schedules: seq<Schedule>, currentTime: string): nat
  {
    if schedules == [] then 0
    else multiset(schedules[0].timesOfDay)[currentTime] + MatchingPairs(schedules[1..], currentTime)
  }

  /** The list holds exactly one medication notification per matching
      (schedule, time) pair. */
  lemma {:induction false} MedicationCountIsMatchingPairs(schedules: seq<Schedule>, currentTime: string, now: int)
    ensures |MedicationNotifications(schedules, currentTime, now)| == MatchingPairs(schedules, currentTime)
    decreases |schedules|
  {
    if schedules != [] {
      var s := schedules[0];
      assert schedules == [s] + schedules[1..];
      MedicationNotificationsAppend([s], schedules[1..], currentTime, now);
      assert [s][..0] == [];
      TimeMatchesCount(s.medicationName, s.timesOfDay, currentTime, now);
      MedicationCountIsMatchingPairs(schedules[1..], currentTime, now);
    }
  }

  /** Every medication notification has type `medication`, title
      "Medication Reminder", the timestamp `now`, and the message
      "Time to take " followed by the name of one of the schedules. */
  lemma {:induction false} MedicationNotificationShape(schedules: seq<Schedule>, currentTime: string, now: int)
    ensures forall n :: n in MedicationNotifications(schedules, currentTime, now) ==>
      && n.kind == MedicationReminder
      && n.title == "Medication Reminder"
      && n.timestamp == now
      && exists s :: s in schedules && currentTime in s.timesOfDay && n.message == "Time to take " + s.medicationName
    decreases |schedules|
  {
    if schedules != [] {
      var init, last := schedules[..|schedules| - 1], schedules[|schedules| - 1];
      MedicationNotificationShape(init, currentTime, now);
      TimeMatchesCount(last.medicationName, last.timesOfDay, currentTime, now);
      forall n | n in MedicationNotifications(schedules, currentTime, now)
        ensures exists s :: s in schedules && currentTime in s.timesOfDay && n.message == "Time to take " + s.medicationName
      {
        if n !in MedicationNotifications(init, currentTime, now) {
          assert n in TimeMatches(last.medicationName, last.timesOfDay, currentTime, now);
          assert multiset(last.timesOfDay)[currentTime] > 0;
          assert last in schedules;
        } else {
          var s :| s in init && currentTime in s.timesOfDay && n.message == "Time to take " + s.medicationName;
          assert s in schedules;
        }
      }
    }
  }

  /** Every appointment notification has type `appointment`, title
      "Appointment Reminder" and the timestamp `now`. */
  lemma {:induction false} AppointmentNotificationShape(appointments: seq<Appointment>, now: int)
    ensures forall n :: n in AppointmentNotifications(appointments, now) ==>
      n.kind == AppointmentReminder && n.title == "Appointment Reminder" && n.timestamp == now
    decreases |appointments|
  {
    if appointments != [] {
      AppointmentNotificationShape(appointments[..|appointments| - 1], now);
    }
  }

  /** Concatenating appointment lists concatenates their notifications. */
  lemma {:induction false} AppointmentNotificationsAppend(xs: seq<Appointment>, ys: seq<Appointment>, now: int)
    ensures AppointmentNotifications(xs + ys, now) == AppointmentNotifications(xs, now) + AppointmentNotifications(ys, now)
    decreases |ys|
  {
    if ys == [] {
      assert xs + ys == xs;
    } else {
      var init := ys[..|ys| - 1];
      assert (xs + ys)[..|xs + ys| - 1] == xs + init;
      AppointmentNotificationsAppend(xs, init, now);
    }
  }

  /** One appointment yields exactly one notification when `daysUntil <= 1`
      and none otherwise; its message says "today" exactly when
      `daysUntil == 0`. */
  lemma AppointmentRule(appointment: Appointment, now: int)
    ensures var d := DaysUntil(appointment.nextAppointmentDay, now);
      && |AppointmentNotifications([appointment], now)| == (if d <= 1 then 1 else 0)
      && (d <= 1 ==> AppointmentNotifications([appointment], now)[0].message
                     == (if d == 0 then "Eye appointment today" else "Eye appointment tomorrow"))
  {
    assert [appointment][..0] == [];
  }

  /** The message reads "today" if and only if `daysUntil` is 0. */
  lemma TodayMessageIffZero(daysUntil: int)
    ensures AppointmentMessage(daysUntil) == "Eye appointment today" <==> daysUntil == 0
  {
    if daysUntil != 0 {
      assert |AppointmentMessage(daysUntil)| != |"Eye appointment today"|;
    }
  }

  /** For an appointment the week window lets through, the rule comes down
      to calendar days: dated today it yields "Eye appointment today",
      dated tomorrow "Eye appointment tomorrow", later in the week nothing. */
  lemma WeekWindowAppointment(appointment: Appointment, now: int)
    requires InDateWindow(appointment, UtcDay(now), UtcDay(now) + WeekDays)
    ensures AppointmentNotifications([appointment], now) ==
      if appointment.nextAppointmentDay == UtcDay(now) then [AppointmentNotification(0, now)]
      else if appointment.nextAppointmentDay == UtcDay(now) + 1 then [AppointmentNotification(1, now)]
      else []
  {
    DaysUntilIsCalendarDistance(appointment.nextAppointmentDay, now);
    assert [appointment][..0] == [];
  }

  /** Without the window's lower bound the loop alone would remind of a
      past appointment: `daysUntil` is negative, hence `<= 1`, and the
      message says "tomorrow". */
  lemma PastAppointmentWouldSayTomorrow(appointment: Appointment, now: int)
    requires appointment.nextAppointmentDay < UtcDay(now)
    ensures AppointmentNotifications([appointment], now)
      == [AppointmentNotification(appointment.nextAppointmentDay - UtcDay(now), now)]
    ensures AppointmentNotifications([appointment], now)[0].message == "Eye appointment tomorrow"
  {
    DaysUntilIsCalendarDistance(appointment.nextAppointmentDay, now);
    assert [appointment][..0] == [];
  }

  /** All medication notifications come before all appointment
      notifications. */
  lemma MedicationBeforeAppointment(now: int, currentTime: string, schedules: seq<Schedule>, appointments: seq<Appointment>)
    ensures var r := NotificationList(now, currentTime, schedules, appointments);
      forall i, j :: 0 <= i < j < |r| && r[i].kind == AppointmentReminder ==> r[j].kind == AppointmentReminder
  {
    var meds := MedicationNotifications(schedules, currentTime, now);
    var appts := AppointmentNotifications(appointments, now);
    var r := meds + appts;
    MedicationNotificationShape(schedules, currentTime, now);
    AppointmentNotificationShape(appointments, now);
    forall i | 0 <= i < |meds|
      ensures r[i].kind == MedicationReminder
    {
      assert r[i] == meds[i] && meds[i] in meds;
    }
    forall j | |meds| <= j < |r|
      ensures r[j].kind == AppointmentReminder
    {
      assert r[j] == appts[j - |meds|] && appts[j - |meds|] in appts;
    }
  }

  /** Every notification carries the same timestamp, `now`. */
  lemma SameTimestamp(now: int, currentTime: string, schedules: seq<Schedule>, appointments: seq<Appointment>)
    ensures forall n :: n in NotificationList(now, currentTime, schedules, appointments) ==> n.timestamp == now
  {
    MedicationNotificationShape(schedules, currentTime, now);
    AppointmentNotificationShape(appointments, now);
  }

  /** No schedules and no appointments give an empty body, not an error. */
  lemma EmptyInputsGiveEmptyList(now: int, localMinute: int)
    requires 0 <= localMinute < MinutesPerDay
    ensures NotificationList(now, FormatTime(localMinute), [], WeekAppointments([], now)) == []
  {
  }
}
