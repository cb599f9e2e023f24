/** The dashboard's per-schedule status: the next dose time and whether a
    dose is due this minute. */
module Dashboard {
  import opened Common
  import opened Clock

  datatype TimeStatus = TimeStatus(nextTime: Option<string>, isPending: bool)

  /** The index `times.find(time => time > currentTime)` stops at: the first
      entry that sorts after `currentTime`, if any. */
  function FirstLaterIndex(times: seq<string>, currentTime: string): (r: Option<nat>)
    ensures r.Some? ==> r.value < |times| && LexLess(currentTime, times[r.value])
    ensures r.Some? ==> forall j :: 0 <= j < r.value ==> !LexLess(currentTime, times[j])
    ensures r.None? ==> forall j :: 0 <= j < |times| ==> !LexLess(currentTime, times[j])
  {
    if times == [] then None
    else if LexLess(currentTime, times[0]) then Some(0)
    else match FirstLaterIndex(times[1..], currentTime)
      case None => None
      case Some(k) => Some(k + 1)
  }

  /** `times.find(...)`: the element at that index (`undefined` when none). */
  function FindLater(times: seq<string>, currentTime: string): Option<string>
  {
    match FirstLaterIndex(times, currentTime)
    case None => None
    case Some(i) => Some(times[i])
  }

  /** `getCurrentTimeStatus(times)`, with the local minute as a parameter:
      `nextTime` is the found time unless it is falsy (`undefined`, or `''`),
      in which case `times[0]` (`undefined` for an empty list); `isPending`
      is `times.includes(currentTime)`. */
  function CurrentTimeStatus(times: seq<string>, localMinute: int): (status: TimeStatus)
    requires 0 <= localMinute < MinutesPerDay
    ensures status.isPending <==> FormatTime(localMinute) in times
    ensures times == [] <==> status.nextTime.None?
    ensures status.nextTime.Some? ==> status.nextTime.value in times
  {
    var currentTime := FormatTime(localMinute);
    var found := FindLater(times, currentTime);
    var nextTime :=
      if found.Some? && found.value != "" then found
      else if |times| > 0 then Some(times[0])
      else None;
    TimeStatus(nextTime, Includes(times, currentTime))
  }

  /** When some time sorts after the current one, `nextTime` is the first
      such time in list order. */
  lemma NextTimeIsFirstLater(times: seq<string>, localMinute: int, k: nat)
    requires 0 <= localMinute < MinutesPerDay
    requires k < |times| && LexLess(FormatTime(localMinute), times[k])
    requires forall j :: 0 <= j < k ==> !LexLess(FormatTime(localMinute), times[j])
    ensures CurrentTimeStatus(times, localMinute).nextTime == Some(times[k])
  {
    var currentTime := FormatTime(localMinute);
    var r := FirstLaterIndex(times, currentTime);
    NothingBelowEmpty(currentTime);
  }

  /** When no time sorts after the current one, `nextTime` wraps to the
      first entry. */
  lemma NextTimeWraps(times: seq<string>, localMinute: int)
    requires 0 <= localMinute < MinutesPerDay
    requires times != []
    requires forall j :: 0 <= j < |times| ==> !LexLess(FormatTime(localMinute), times[j])
    ensures CurrentTimeStatus(times, localMinute).nextTime == Some(times[0])
  {
    var r := FirstLaterIndex(times, FormatTime(localMinute));
  }

  /** Because the comparison is strict, `nextTime` is the current time only
      by wrapping: then no time is later and `times[0]` is the current time. */
  lemma NextTimeIsCurrentOnlyByWrapping(times: seq<string>, localMinute: int)
    requires 0 <= localMinute < MinutesPerDay
    requires CurrentTimeStatus(times, localMinute).nextTime == Some(FormatTime(localMinute))
    ensures times[0] == FormatTime(localMinute)
    ensures forall j :: 0 <= j < |times| ==> !LexLess(FormatTime(localMinute), times[j])
  {
    var currentTime := FormatTime(localMinute);
    var r := FirstLaterIndex(times, currentTime);
    NothingBelowEmpty(currentTime);
    LexLessIrreflexive(currentTime);
  }

  /** For well-formed times the string comparison picks the first entry that
      is chronologically later than the current minute. */
  lemma NextTimeIsChronological(times: seq<string>, localMinute: int, k: nat)
    requires 0 <= localMinute < MinutesPerDay
    requires forall j :: 0 <= j < |times| ==> WellFormedTime(times[j])
    requires k < |times| && MinuteOf(times[k]) > localMinute
    requires forall j :: 0 <= j < k ==> MinuteOf(times[j]) <= localMinute
    ensures CurrentTimeStatus(times, localMinute).nextTime == Some(times[k])
  {
    var currentTime := FormatTime(localMinute);
    ParseFormat(localMinute);
    LexOrderIsChronological(currentTime, times[k]);
    forall j | 0 <= j < k
      ensures !LexLess(currentTime, times[j])
    {
      LexOrderIsChronological(currentTime, times[j]);
    }
    NextTimeIsFirstLater(times, localMinute, k);
  }
}
