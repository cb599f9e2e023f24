/** The two stored record kinds the reminder logic reads, and the shape in
    which the hosted database hands back a query's rows. */
module Records {
  import opened Common

  /** A row of `eye_drop_schedules`. `timesOfDay` is kept exactly as stored:
      neither deduplicated nor validated. */
  datatype Schedule = Schedule(
    id: int,
    userId: string,
    medicationName: string,
    frequency: int,
    timesOfDay: seq<string>,
    notes: Option<string>)

  /** A row of `appointments`; dates are day numbers (see module Clock). */
  datatype Appointment = Appointment(
    id: int,
    userId: string,
    lastCheckupDay: Option<int>,
    nextAppointmentDay: int,
    notes: Option<string>)

  /** The `{ data, error }` pair of a database query: rows, or an error message. */
  datatype Query<T> = Rows(data: seq<T>) | QueryError(message: string)

  predicate InDateWindow(a: Appointment, from: int, to: int)
  {
    from <= a.nextAppointmentDay <= to
  }

  /** `.gte('next_appointment_date', from).lte('next_appointment_date', to)`:
      the rows whose next appointment falls in `[from, to]`, both ends
      included, in the order the rows came. */
  function DateWindow(rows: seq<Appointment>, from: int, to: int): (r: seq<Appointment>)
    ensures forall a :: a in r <==> a in rows && InDateWindow(a, from, to)
    ensures |r| <= |rows|
    decreases |rows|
  {
    if rows == [] then []
    else
      var last := rows[|rows| - 1];
      DateWindow(rows[..|rows| - 1], from, to) + (if InDateWindow(last, from, to) then [last] else [])
  }

  /** Filtering commutes with concatenation, so the window keeps the rows'
      relative order. */
  lemma {:induction false} DateWindowAppend(xs: seq<Appointment>, ys: seq<Appointment>, from: int, to: int)
    ensures DateWindow(xs + ys, from, to) == DateWindow(xs, from, to) + DateWindow(ys, from, to)
    decreases |ys|
  {
    if ys != [] {
      var init := ys[..|ys| - 1];
      assert (xs + ys)[..|xs + ys| - 1] == xs + init;
      DateWindowAppend(xs, init, from, to);
    } else {
      assert xs + ys == xs;
    }
  }
}
