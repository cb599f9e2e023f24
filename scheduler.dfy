/** The background reminder job: once a minute it loads every user's
    schedules and the appointments of today and tomorrow, and writes one log
    line per reminder. */
module Scheduler {
  import opened Common
  import opened Clock
  import opened Records
  import Notifications

  /** Days ahead covered by the job's appointment query (`tomorrow`). */
  const WindowDays: int := 1

  /** The console lines of one tick. */
  datatype LogLine =
    | Checking(timestamp: int)                             // "Checking for reminders..." and the tick's instant
    | MedicationLine(medicationName: string, userId: string)
    | AppointmentLine(userId: string)
  {
    /** The text of a reminder line. */
    function Text(): string
      requires !Checking?
    {
      match this
      case MedicationLine(name, user) => "Medication reminder: " + name + " for user " + user
      case AppointmentLine(user) => "Appointment reminder for user " + user
    }
  }

  /** One line per schedule whose times include `currentTime`, in schedule order. */
  function MedicationLines(schedules: seq<Schedule>, currentTime: string): seq<LogLine>
    decreases |schedules|
  {
    if schedules == [] then []
    else
      var last := schedules[|schedules| - 1];
      MedicationLines(schedules[..|schedules| - 1], currentTime)
      + (if Includes(last.timesOfDay, currentTime) then [MedicationLine(last.medicationName, last.userId)] else [])
  }

  /** One line per appointment, whatever its date. */
  function AppointmentLines(appointments: seq<Appointment>): seq<LogLine>
    decreases |appointments|
  {
    if appointments == [] then []
    else AppointmentLines(appointments[..|appointments| - 1]) + [AppointmentLine(appointments[|appointments| - 1].userId)]
  }

  /** The appointments the job's query returns: dated today or tomorrow. */
  function TomorrowAppointments(rows: seq<Appointment>, now: int): seq<Appointment>
  {
    DateWindow(rows, UtcDay(now), UtcDay(now) + WindowDays)
  }

  /** The log of one tick. A query whose `data` is null logs nothing for its kind. */
  function TickLog(now: int, currentTime: string, schedules: Option<seq<Schedule>>, appointments: Option<seq<Appointment>>): seq<LogLine>
  {
    [Checking(now)]
    + (if schedules.Some? then MedicationLines(schedules.value, currentTime) else [])
    + (if appointments.Some? then AppointmentLines(TomorrowAppointments(appointments.value, now)) else [])
  }

  /** One tick of the job. `schedules` is the `data` of the all-users
      schedule query, `appointments` that of the appointment query before its
      date filter; `None` stands for a null `data`. */
  method Tick(now: int, localMinute: int, schedules: Option<seq<Schedule>>, appointments: Option<seq<Appointment>>)
    returns (log: seq<LogLine>)
    requires 0 <= localMinute < MinutesPerDay
    ensures log == TickLog(now, FormatTime(localMinute), schedules, appointments)
  {
    log := [Checking(now)];
    var currentTime := FormatTime(localMinute);
    var currentDate := UtcDay(now);

    if schedules.Some? {
      var rows := schedules.value;
      var i := 0;
      while i < |rows|
        invariant 0 <= i <= |rows|
        invariant log == [Checking(now)] + MedicationLines(rows[..i], currentTime)
      {
        var schedule := rows[i];
        if Includes(schedule.timesOfDay, currentTime) {
          log := log + [MedicationLine(schedule.medicationName, schedule.userId)];
        }
        assert rows[..i + 1][..i] == rows[..i];
        i := i + 1;
      }
      assert rows[..i] == rows;
    }
    ghost var afterMedication := log;
    assert afterMedication == [Checking(now)] + (if schedules.Some? then MedicationLines(schedules.value, currentTime) else []);

    if appointments.Some? {
      var rows := DateWindow(appointments.value, currentDate, currentDate + WindowDays);
      var k := 0;
      while k < |rows|
        invariant 0 <= k <= |rows|
        invariant log == afterMedication + AppointmentLines(rows[..k])
      {
        log := log + [AppointmentLine(rows[k].userId)];
        assert rows[..k + 1][..k] == rows[..k];
        k := k + 1;
      }
      assert rows[..k] == rows;
    }
  }

  // ---------------------------------------------------------------------
  // Properties of the log
  // ---------------------------------------------------------------------

  /** A schedule is logged once if `currentTime` is among its times and not
      at all otherwise, however often the time is listed. */
  lemma OneSchedule(schedule: Schedule, currentTime: string)
    ensures MedicationLines([schedule], currentTime)
      == if currentTime in schedule.timesOfDay then [MedicationLine(schedule.medicationName, schedule.userId)] else []
  {
    assert [schedule][..0] == [];
  }

  lemma {:induction false} MedicationLinesAppend(xs: seq<Schedule>, ys: seq<Schedule>, currentTime: string)
    ensures MedicationLines(xs + ys, currentTime) == MedicationLines(xs, currentTime) + MedicationLines(ys, currentTime)
    decreases |ys|
  {
    if ys == [] {
      assert xs + ys == xs;
    } else {
      var init := ys[..|ys| - 1];
      assert (xs + ys)[..|xs + ys| - 1] == xs + init;
      MedicationLinesAppend(xs, init, currentTime);
    }
  }

  /** At most one medication line per schedule per tick. */
  lemma {:induction false} AtMostOneLinePerSchedule(schedules: seq<Schedule>, currentTime: string)
    ensures |MedicationLines(schedules, currentTime)| <= |schedules|
    decreases |schedules|
  {
    if schedules != [] {
      AtMostOneLinePerSchedule(schedules[..|schedules| - 1], currentTime);
    }
  }

  /** Every medication line names a schedule whose times include
      `currentTime`, with that schedule's medication and user. */
  lemma {:induction false} MedicationLinesAreDue(schedules: seq<Schedule>, currentTime: string)
    ensures forall line :: line in MedicationLines(schedules, currentTime) ==>
      exists s :: s in schedules && currentTime in s.timesOfDay && line == MedicationLine(s.medicationName, s.userId)
    decreases |schedules|
  {
    if schedules != [] {
      var init, last := schedules[..|schedules| - 1], schedules[|schedules| - 1];
      MedicationLinesAreDue(init, currentTime);
      forall line | line in MedicationLines(schedules, currentTime)
        ensures exists s :: s in schedules && currentTime in s.timesOfDay && line == MedicationLine(s.medicationName, s.userId)
      {
        if line in MedicationLines(init, currentTime) {
          var s :| s in init && currentTime in s.timesOfDay && line == MedicationLine(s.medicationName, s.userId);
          assert s in schedules;
        } else {
          assert last in schedules;
        }
      }
    }
  }

  /** Every appointment in the window yields exactly one line, in order,
      with no days-until filter. */
  lemma {:induction false} OneLinePerAppointment(appointments: seq<Appointment>)
    ensures |AppointmentLines(appointments)| == |appointments|
    ensures forall i :: 0 <= i < |appointments| ==> AppointmentLines(appointments)[i] == AppointmentLine(appointments[i].userId)
    decreases |appointments|
  {
    if appointments != [] {
      OneLinePerAppointment(appointments[..|appointments| - 1]);
    }
  }

  /** The console text of the reminder lines: each medication line reads
      "Medication reminder: <name> for user <user>" for a due schedule, and
      each appointment line "Appointment reminder for user <user>" for its
      appointment. */
  lemma LineTexts(schedules: seq<Schedule>, currentTime: string, appointments: seq<Appointment>)
    ensures forall line :: line in MedicationLines(schedules, currentTime) ==>
      exists s :: s in schedules && currentTime in s.timesOfDay && line.MedicationLine?
        && line.Text() == "Medication reminder: " + s.medicationName + " for user " + s.userId
    ensures |AppointmentLines(appointments)| == |appointments|
    ensures forall i :: 0 <= i < |appointments| ==>
      AppointmentLines(appointments)[i].AppointmentLine?
      && AppointmentLines(appointments)[i].Text() == "Appointment reminder for user " + appointments[i].userId
  {
    MedicationLinesAreDue(schedules, currentTime);
    OneLinePerAppointment(appointments);
    forall line | line in MedicationLines(schedules, currentTime)
      ensures exists s ::
        s in schedules && currentTime in s.timesOfDay && line.MedicationLine?
        && line.Text() == "Medication reminder: " + s.medicationName + " for user " + s.userId
    {
      var s :| s in schedules && currentTime in s.timesOfDay && line == MedicationLine(s.medicationName, s.userId);
      assert line.Text() == "Medication reminder: " + s.medicationName + " for user " + s.userId;
    }
  }

  /** The log opens with the "Checking" line, and medication lines come
      before appointment lines. */
  lemma TickLogOrder(now: int, currentTime: string, schedules: Option<seq<Schedule>>, appointments: Option<seq<Appointment>>)
    ensures var log := TickLog(now, currentTime, schedules, appointments);
      && log[0] == Checking(now)
      && forall i, j :: 0 < i < j < |log| && log[i].AppointmentLine? ==> log[j].AppointmentLine?
  {
    var meds := if schedules.Some? then MedicationLines(schedules.value, currentTime) else [];
    var appts := if appointments.Some? then AppointmentLines(TomorrowAppointments(appointments.value, now)) else [];
    var log := [Checking(now)] + meds + appts;
    if schedules.Some? {
      MedicationLinesAreDue(schedules.value, currentTime);
    }
    if appointments.Some? {
      OneLinePerAppointment(TomorrowAppointments(appointments.value, now));
    }
    forall i | 1 <= i < 1 + |meds|
      ensures log[i].MedicationLine?
    {
      assert log[i] == meds[i - 1] && meds[i - 1] in meds;
    }
    forall j | 1 + |meds| <= j < |log|
      ensures log[j].AppointmentLine?
    {
      assert log[j] == appts[j - 1 - |meds|];
    }
  }

  /** A null query result logs nothing for its kind. */
  lemma NullResultsLogNothing(now: int, currentTime: string)
    ensures TickLog(now, currentTime, None, None) == [Checking(now)]
  {
  }

  // ---------------------------------------------------------------------
  // The job against the on-request route
  // ---------------------------------------------------------------------

  function LoggedSchedules(schedules: seq<Schedule>, currentTime: string): nat
  {
    if schedules == [] then 0
    else (if currentTime in schedules[0].timesOfDay then 1 else 0) + LoggedSchedules(schedules[1..], currentTime)
  }

  lemma {:induction false} MedicationLinesCount(schedules: seq<Schedule>, currentTime: string)
    ensures |MedicationLines(schedules, currentTime)| == LoggedSchedules(schedules, currentTime)
    decreases |schedules|
  {
    if schedules != [] {
      var s := schedules[0];
      assert schedules == [s] + schedules[1..];
      MedicationLinesAppend([s], schedules[1..], currentTime);
      OneSchedule(s, currentTime);
      MedicationLinesCount(schedules[1..], currentTime);
    }
  }

  lemma {:induction false} LoggedAtMostMatching(schedules: seq<Schedule>, currentTime: string)
    ensures LoggedSchedules(schedules, currentTime) <= Notifications.MatchingPairs(schedules, currentTime)
    ensures LoggedSchedules(schedules, currentTime) == Notifications.MatchingPairs(schedules, currentTime)
      <==> forall s :: s in schedules ==> multiset(s.timesOfDay)[currentTime] <= 1
    decreases |schedules|
  {
    if schedules != [] {
      LoggedAtMostMatching(schedules[1..], currentTime);
      var s := schedules[0];
      assert (currentTime in s.timesOfDay) == (multiset(s.timesOfDay)[currentTime] > 0);
      assert forall t :: t in schedules <==> t == s || t in schedules[1..];
    }
  }

  /** Given one and the same schedule sequence, the job logs at most as
      many medication reminders as the route returns notifications, and
      exactly as many precisely when no schedule lists `currentTime` twice.
      (The route reads only one user's rows, the job every user's.) */
  lemma JobVersusRoute(schedules: seq<Schedule>, currentTime: string, now: int)
    ensures |MedicationLines(schedules, currentTime)| <= |Notifications.MedicationNotifications(schedules, currentTime, now)|
    ensures |MedicationLines(schedules, currentTime)| == |Notifications.MedicationNotifications(schedules, currentTime, now)|
      <==> forall s :: s in schedules ==> multiset(s.timesOfDay)[currentTime] <= 1
  {
    MedicationLinesCount(schedules, currentTime);
    LoggedAtMostMatching(schedules, currentTime);
    Notifications.MedicationCountIsMatchingPairs(schedules, currentTime, now);
  }

  /** One appointment contributes the same route notifications whether
      the row is kept by the week window or by the job's tomorrow window. */
  lemma WeekRowIsTomorrowRow(a: Appointment, now: int)
    ensures var c := UtcDay(now);
      Notifications.AppointmentNotifications(if InDateWindow(a, c, c + Notifications.WeekDays) then [a] else [], now)
      == Notifications.AppointmentNotifications(if InDateWindow(a, c, c + WindowDays) then [a] else [], now)
  {
    var c := UtcDay(now);
    if InDateWindow(a, c, c + Notifications.WeekDays) {
      Notifications.WeekWindowAppointment(a, now);
    }
  }

  /** Over one and the same row sequence at one instant, the route's
      `daysUntil <= 1` rule cuts its week of appointments down to exactly
      the job's window: both give the same notifications. */
  lemma {:induction false} WeekNotificationsAreTomorrowNotifications(rows: seq<Appointment>, now: int)
    ensures Notifications.AppointmentNotifications(Notifications.WeekAppointments(rows, now), now)
      == Notifications.AppointmentNotifications(TomorrowAppointments(rows, now), now)
    decreases |rows|
  {
    if rows != [] {
      var init, last := rows[..|rows| - 1], rows[|rows| - 1];
      var c := UtcDay(now);
      WeekNotificationsAreTomorrowNotifications(init, now);
      var lastWeek := if InDateWindow(last, c, c + Notifications.WeekDays) then [last] else [];
      var lastTomorrow := if InDateWindow(last, c, c + WindowDays) then [last] else [];
      assert Notifications.WeekAppointments(rows, now) == Notifications.WeekAppointments(init, now) + lastWeek;
      assert TomorrowAppointments(rows, now) == TomorrowAppointments(init, now) + lastTomorrow;
      Notifications.AppointmentNotificationsAppend(Notifications.WeekAppointments(init, now), lastWeek, now);
      Notifications.AppointmentNotificationsAppend(TomorrowAppointments(init, now), lastTomorrow, now);
      WeekRowIsTomorrowRow(last, now);
    }
  }

  /** Every appointment dated today or tomorrow yields exactly one route
      notification, in order, saying "today" or "tomorrow" by its date. */
  lemma {:induction false} TomorrowNotifications(appointments: seq<Appointment>, now: int)
    requires forall a :: a in appointments ==> InDateWindow(a, UtcDay(now), UtcDay(now) + WindowDays)
    ensures |Notifications.AppointmentNotifications(appointments, now)| == |appointments|
    ensures forall i :: 0 <= i < |appointments| ==>
      Notifications.AppointmentNotifications(appointments, now)[i]
      == Notifications.AppointmentNotification(appointments[i].nextAppointmentDay - UtcDay(now), now)
    decreases |appointments|
  {
    if appointments != [] {
      var init, last := appointments[..|appointments| - 1], appointments[|appointments| - 1];
      assert forall a :: a in init ==> a in appointments;
      TomorrowNotifications(init, now);
      assert last in appointments;
      DaysUntilIsCalendarDistance(last.nextAppointmentDay, now);
    }
  }

  /** The two appointment windows differ (one day against seven), yet over
      one and the same row sequence at one instant the route notifies about
      exactly the appointments the job logs: the i-th logged line and the
      i-th route notification come from the same appointment, the one dated
      today or tomorrow. (The route reads only one user's rows, the job
      every user's, and neither query fixes an order.) */
  lemma WindowsAgree(rows: seq<Appointment>, now: int)
    ensures var tomorrow := TomorrowAppointments(rows, now);
      var route := Notifications.AppointmentNotifications(Notifications.WeekAppointments(rows, now), now);
      && route == Notifications.AppointmentNotifications(tomorrow, now)
      && |route| == |AppointmentLines(tomorrow)| == |tomorrow|
      && forall i :: 0 <= i < |tomorrow| ==>
        && route[i] == Notifications.AppointmentNotification(tomorrow[i].nextAppointmentDay - UtcDay(now), now)
        && AppointmentLines(tomorrow)[i] == AppointmentLine(tomorrow[i].userId)
  {
    var tomorrow := TomorrowAppointments(rows, now);
    WeekNotificationsAreTomorrowNotifications(rows, now);
    TomorrowNotifications(tomorrow, now);
    OneLinePerAppointment(tomorrow);
  }
}
