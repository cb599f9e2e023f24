/** Instants, calendar days and "HH:MM" times of day.

    An instant is an integer number of milliseconds since the epoch (what
    `Date.prototype.getTime` returns). A calendar date such as "2024-03-02"
    is a day number counted from the epoch; `new Date("2024-03-02")` is
    midnight UTC of that day. A time of day is the five-character 24-hour
    string "HH:MM" that `toTimeString().slice(0, 5)` produces. */
module Clock {

  /** `1000 * 60 * 60 * 24`, the divisor of every days-until expression. */
  const MsPerDay: int := 1000 * 60 * 60 * 24

  const MinutesPerDay: int := 24 * 60

  // ---------------------------------------------------------------------
  // Days
  // ---------------------------------------------------------------------

  /** `Math.ceil(x / d)` for an integer `x` and a positive integer `d`,
      computed without floating point: the least `r` with `x <= d * r`. */
  function CeilDiv(x: int, d: int): (r: int)
    requires d > 0
    ensures d * (r - 1) < x <= d * r
  {
    -((-x) / d)
  }

  /** The UTC calendar day of an instant: the date part of `toISOString()`. */
  function UtcDay(now: int): int
  {
    now / MsPerDay
  }

  /** Midnight UTC of a day: the instant `new Date("YYYY-MM-DD")` denotes. */
  function Midnight(day: int): int
  {
    day * MsPerDay
  }

  /** `Math.ceil((new Date(date) - now) / (1000 * 60 * 60 * 24))`: the number
      of whole or partial days from `now` until midnight of `day`. */
  function DaysUntil(day: int, now: int): (r: int)
    ensures MsPerDay * (r - 1) < Midnight(day) - now <= MsPerDay * r
  {
    CeilDiv(Midnight(day) - now, MsPerDay)
  }

  /** Because `now` lies within its own UTC day, the rounded-up figure is
      exactly the number of calendar days between the two dates: 0 on the
      day itself, 1 the day before, negative once the day has passed. */
  lemma DaysUntilIsCalendarDistance(day: int, now: int)
    ensures DaysUntil(day, now) == day - UtcDay(now)
  {
    var r := DaysUntil(day, now);
    var c, m := now / MsPerDay, now % MsPerDay;
    assert now == c * MsPerDay + m && 0 <= m < MsPerDay;
    assert Midnight(day) - now == (day - c) * MsPerDay - m;
    // The ceiling is unique: r - 1 < day - c <= r, hence r == day - c.
    assert MsPerDay * (r - 1) < MsPerDay * (day - c);
    assert MsPerDay * (day - c - 1) < MsPerDay * r;
  }

  // ---------------------------------------------------------------------
  // Times of day
  // ---------------------------------------------------------------------

  predicate IsDigit(c: char)
  {
    '0' <= c <= '9'
  }

  function DigitValue(c: char): int
    requires IsDigit(c)
  {
    c as int - '0' as int
  }

  function Digit(d: int): (c: char)
    requires 0 <= d < 10
    ensures IsDigit(c) && DigitValue(c) == d
  {
    ('0' as int + d) as char
  }

  /** A valid zero-padded 24-hour time "HH:MM": hours 00-23, minutes 00-59. */
  predicate WellFormedTime(s: string)
  {
    && |s| == 5
    && IsDigit(s[0]) && IsDigit(s[1]) && s[2] == ':' && IsDigit(s[3]) && IsDigit(s[4])
    && 10 * DigitValue(s[0]) + DigitValue(s[1]) < 24
    && 10 * DigitValue(s[3]) + DigitValue(s[4]) < 60
  }

  /** The minute of the day a well-formed "HH:MM" denotes. */
  function MinuteOf(s: string): (m: int)
    requires WellFormedTime(s)
    ensures 0 <= m < MinutesPerDay
  {
    (10 * DigitValue(s[0]) + DigitValue(s[1])) * 60 + 10 * DigitValue(s[3]) + DigitValue(s[4])
  }

  /** `toTimeString().slice(0, 5)` for an instant whose local minute of the
      day is `minute`: hours and minutes, each padded to two digits. */
  function FormatTime(minute: int): (s: string)
    requires 0 <= minute < MinutesPerDay
    ensures WellFormedTime(s)
  {
    var h, m := minute / 60, minute % 60;
    [Digit(h / 10), Digit(h % 10), ':', Digit(m / 10), Digit(m % 10)]
  }

  /** Formatting a minute and reading it back gives the same minute. */
  lemma ParseFormat(minute: int)
    requires 0 <= minute < MinutesPerDay
    ensures MinuteOf(FormatTime(minute)) == minute
  {
    var s := FormatTime(minute);
    var h, m := minute / 60, minute % 60;
    assert DigitValue(s[0]) == h / 10 && DigitValue(s[1]) == h % 10;
    assert DigitValue(s[3]) == m / 10 && DigitValue(s[4]) == m % 10;
  }

  /** Every well-formed time is the formatting of its own minute, so the
      format is the only spelling of a minute. */
  lemma FormatParse(s: string)
    requires WellFormedTime(s)
    ensures FormatTime(MinuteOf(s)) == s
  {
    var minute := MinuteOf(s);
    var h := 10 * DigitValue(s[0]) + DigitValue(s[1]);
    var m := 10 * DigitValue(s[3]) + DigitValue(s[4]);
    assert minute / 60 == h && minute % 60 == m;
    var t := FormatTime(minute);
    assert t[0] == s[0] && t[1] == s[1] && t[3] == s[3] && t[4] == s[4];
  }

  /** A stored time string-equals the formatted current minute exactly when
      it is well formed and denotes that minute; a malformed entry never does. */
  lemma SameStringIffSameMinute(t: string, minute: int)
    requires 0 <= minute < MinutesPerDay
    ensures t == FormatTime(minute) <==> WellFormedTime(t) && MinuteOf(t) == minute
  {
    if t == FormatTime(minute) {
      ParseFormat(minute);
    }
    if WellFormedTime(t) && MinuteOf(t) == minute {
      FormatParse(t);
    }
  }

  // ---------------------------------------------------------------------
  // JavaScript string order
  // ---------------------------------------------------------------------

  /** `a < b` on JavaScript strings: lexicographic by character, a proper
      prefix ordered first. */
  predicate LexLess(a: string, b: string)
    decreases |a|
  {
    if |b| == 0 then false
    else if |a| == 0 then true
    else a[0] < b[0] || (a[0] == b[0] && LexLess(a[1..], b[1..]))
  }

  lemma {:induction false} LexLessIrreflexive(a: string)
    ensures !LexLess(a, a)
    decreases |a|
  {
    if |a| > 0 {
      LexLessIrreflexive(a[1..]);
    }
  }

  /** Nothing is below the empty string, so `''` is never "later" than any time. */
  lemma NothingBelowEmpty(a: string)
    ensures !LexLess(a, "")
  {
  }

  /** On two strings of length five, `LexLess` compares position by
      position until the first difference. */
  lemma LexLessFive(a: string, b: string)
    requires |a| == 5 && |b| == 5
    ensures LexLess(a, b) ==
      (a[0] < b[0] || (a[0] == b[0] &&
      (a[1] < b[1] || (a[1] == b[1] &&
      (a[2] < b[2] || (a[2] == b[2] &&
      (a[3] < b[3] || (a[3] == b[3] && a[4] < b[4]))))))))
  {
    var a1, b1 := a[1..], b[1..];
    var a2, b2 := a1[1..], b1[1..];
    var a3, b3 := a2[1..], b2[1..];
    var a4, b4 := a3[1..], b3[1..];
    assert a4[1..] == [] && b4[1..] == [];
    assert LexLess(a4, b4) == (a[4] < b[4]);
    assert LexLess(a3, b3) == (a[3] < b[3] || (a[3] == b[3] && LexLess(a4, b4)));
    assert LexLess(a2, b2) == (a[2] < b[2] || (a[2] == b[2] && LexLess(a3, b3)));
    assert LexLess(a1, b1) == (a[1] < b[1] || (a[1] == b[1] && LexLess(a2, b2)));
  }

  /** For well-formed times, string order is chronological order: this is
      what lets the dashboard compare times of day with `>`. */
  lemma LexOrderIsChronological(a: string, b: string)
    requires WellFormedTime(a) && WellFormedTime(b)
    ensures LexLess(a, b) <==> MinuteOf(a) < MinuteOf(b)
  {
    LexLessFive(a, b);
  }
}
