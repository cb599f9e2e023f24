/** The medication form's time-slot editor: the form state, the handlers
    that add, remove, change and clear time slots, the edit prefill, the
    submit filter and the reset. */
module Medications {
  import opened Common
  import opened Records

  /** "+ Add another time" is shown only below this many slots. */
  const MaxSlots: int := 6

  // ---------------------------------------------------------------------
  // The lists the handlers build
  // ---------------------------------------------------------------------

  /** `[...times, '']`: the list with one empty slot appended, as
      `addTimeSlot` and the edit prefill build it. */
  function WithEmptySlot(times: seq<string>): seq<string>
  {
    times + [""]
  }

  /** `times.filter((_, i) => i !== index)`: every slot except the one at
      `index`; an index outside the list removes nothing. */
  function RemoveAt(times: seq<string>, index: int): (r: seq<string>)
    ensures 0 <= index < |times| ==> r == times[..index] + times[index + 1..]
    ensures !(0 <= index < |times|) ==> r == times
    decreases |times|
  {
    if times == [] then []
    else (if index == 0 then [] else [times[0]]) + RemoveAt(times[1..], index - 1)
  }

  /** `times.filter(time => time !== '')`: the times `handleSubmit` sends. */
  function ValidTimes(times: seq<string>): (r: seq<string>)
    ensures "" !in r
    ensures |r| <= |times|
    decreases |times|
  {
    if times == [] then []
    else
      var last := times[|times| - 1];
      ValidTimes(times[..|times| - 1]) + (if last != "" then [last] else [])
  }

  /** The filter drops exactly the empty slots: every non-empty time keeps
      its number of occurrences. */
  lemma {:induction false} ValidTimesCounts(times: seq<string>)
    ensures forall t :: t != "" ==> multiset(ValidTimes(times))[t] == multiset(times)[t]
    ensures |ValidTimes(times)| == |times| - multiset(times)[""]
    decreases |times|
  {
    if times != [] {
      var init, last := times[..|times| - 1], times[|times| - 1];
      assert times == init + [last];
      ValidTimesCounts(init);
    }
  }

  /** The filter keeps the non-empty times in their original order:
      filtering a concatenation filters each part. */
  lemma {:induction false} ValidTimesAppend(xs: seq<string>, ys: seq<string>)
    ensures ValidTimes(xs + ys) == ValidTimes(xs) + ValidTimes(ys)
    decreases |ys|
  {
    if ys == [] {
      assert xs + ys == xs;
    } else {
      var init := ys[..|ys| - 1];
      assert (xs + ys)[..|xs + ys| - 1] == xs + init;
      ValidTimesAppend(xs, init);
    }
  }

  /** A list without empty slots passes the filter unchanged. */
  lemma {:induction false} ValidTimesKeepsFilled(times: seq<string>)
    requires "" !in times
    ensures ValidTimes(times) == times
    decreases |times|
  {
    if times != [] {
      ValidTimesKeepsFilled(times[..|times| - 1]);
    }
  }

  /** An appended empty slot is removed again by the same index. */
  lemma AddThenRemove(times: seq<string>)
    ensures RemoveAt(WithEmptySlot(times), |times|) == times
  {
  }

  /** Editing a stored schedule and submitting it untouched sends back
      exactly the stored times: the extra empty slot never reaches the
      server. */
  lemma EditThenSubmit(stored: seq<string>)
    requires "" !in stored
    ensures ValidTimes(WithEmptySlot(stored)) == stored
  {
    ValidTimesAppend(stored, [""]);
    ValidTimesKeepsFilled(stored);
    assert ValidTimes([""]) == [];
  }

  /** Clearing a slot's input submits the same times as removing the slot. */
  lemma ClearIsRemoveOnSubmit(times: seq<string>, index: nat)
    requires index < |times|
    ensures ValidTimes(times[index := ""]) == ValidTimes(RemoveAt(times, index))
  {
    var before, after := times[..index], times[index + 1..];
    assert times[index := ""] == (before + [""]) + after;
    assert RemoveAt(times, index) == before + after;
    calc {
      ValidTimes((before + [""]) + after);
      { ValidTimesAppend(before + [""], after); }
      ValidTimes(before + [""]) + ValidTimes(after);
      { assert (before + [""])[..|before + [""]| - 1] == before; }
      ValidTimes(before) + ValidTimes(after);
      { ValidTimesAppend(before, after); }
      ValidTimes(before + after);
    }
  }

  // ---------------------------------------------------------------------
  // What the form shows
  // ---------------------------------------------------------------------

  /** `times_of_day.length < 6`: the add button is rendered. */
  predicate AddOffered(times: seq<string>)
  {
    |times| < MaxSlots
  }

  /** `times_of_day.length > 1`: each slot's remove button is rendered. */
  predicate RemoveOffered(times: seq<string>)
  {
    |times| > 1
  }

  /** `required={index < frequency}`: the browser refuses to submit while
      this slot is empty. */
  predicate SlotRequired(index: int, frequency: int)
  {
    index < frequency
  }

  /** Using only the offered buttons, a form with one to six slots keeps
      one to six slots. */
  lemma OfferedButtonsKeepSlotCount(times: seq<string>, index: int)
    requires 1 <= |times| <= MaxSlots
    ensures AddOffered(times) ==> 1 <= |WithEmptySlot(times)| <= MaxSlots
    ensures RemoveOffered(times) ==> 1 <= |RemoveAt(times, index)| <= MaxSlots
  {
  }

  /** The edit prefill bypasses the six-slot limit: a stored schedule with
      six times opens with a seventh, empty, slot (the add button is then
      hidden, but the slot is already there), and filling it submits seven
      times. */
  lemma EditCanSubmitSevenTimes(stored: seq<string>, extra: string)
    requires |stored| == MaxSlots && "" !in stored && extra != ""
    ensures |WithEmptySlot(stored)| == MaxSlots + 1 && !AddOffered(WithEmptySlot(stored))
    ensures ValidTimes(WithEmptySlot(stored)[MaxSlots := extra]) == stored + [extra]
    ensures |ValidTimes(WithEmptySlot(stored)[MaxSlots := extra])| == MaxSlots + 1
  {
    assert WithEmptySlot(stored)[MaxSlots := extra] == stored + [extra];
    ValidTimesAppend(stored, [extra]);
    ValidTimesKeepsFilled(stored);
    assert [extra][..0] == [];
  }

  /** A form the browser lets through (every required slot filled) submits
      its first `min(frequency, slots)` times unchanged and in order, ahead of
      whatever optional times follow. */
  lemma RequiredSlotsAreSubmitted(times: seq<string>, frequency: int)
    requires forall i :: 0 <= i < |times| && SlotRequired(i, frequency) ==> times[i] != ""
    ensures var k := if frequency < 0 then 0 else if frequency < |times| then frequency else |times|;
      k <= |ValidTimes(times)| && ValidTimes(times)[..k] == times[..k]
  {
    var k := if frequency < 0 then 0 else if frequency < |times| then frequency else |times|;
    assert times == times[..k] + times[k..];
    ValidTimesAppend(times[..k], times[k..]);
    assert "" !in times[..k];
    ValidTimesKeepsFilled(times[..k]);
  }

  // ---------------------------------------------------------------------
  // The form state
  // ---------------------------------------------------------------------

  /** `PUT /api/schedules/:id` when editing, `POST /api/schedules` otherwise. */
  datatype Verb = Post | Put(id: int)

  /** The body `handleSubmit` sends: the form fields with the filtered times. */
  datatype SaveRequest = SaveRequest(verb: Verb, medicationName: string, frequency: int, timesOfDay: seq<string>, notes: string)

  /** `editingId ? PUT : POST`: the id 0 is falsy and so also posts. */
  function VerbFor(editingId: Option<int>): Verb
  {
    if editingId.Some? && editingId.value != 0 then Put(editingId.value) else Post
  }

  /** The component's `formData`, `editingId` and `showForm` state. */
  class MedicationForm {
    var medicationName: string
    var frequency: int
    var timesOfDay: seq<string>
    var notes: string
    var editingId: Option<int>
    var showForm: bool

    /** The blank form: what `useState` starts with and `cancelForm` restores. */
    predicate IsBlank()
      reads this
    {
      && medicationName == "" && frequency == 1 && timesOfDay == [""] && notes == ""
      && editingId == None && !showForm
    }

    constructor ()
      ensures IsBlank()
    {
      medicationName, frequency, timesOfDay, notes := "", 1, [""], "";
      editingId, showForm := None, false;
    }

    /** `addTimeSlot`: one more, empty, slot at the end. */
    method AddTimeSlot()
      modifies this`timesOfDay
      ensures timesOfDay == WithEmptySlot(old(timesOfDay))
      ensures |timesOfDay| == |old(timesOfDay)| + 1 && timesOfDay[|timesOfDay| - 1] == ""
      ensures timesOfDay[..|old(timesOfDay)|] == old(timesOfDay)
    {
      timesOfDay := WithEmptySlot(timesOfDay);
    }

    /** `removeTimeSlot(index)`: drops the slot at `index`, keeping the rest
        in order; an index outside the list changes nothing. */
    method RemoveTimeSlot(index: int)
      modifies this`timesOfDay
      ensures timesOfDay == RemoveAt(old(timesOfDay), index)
    {
      timesOfDay := RemoveAt(timesOfDay, index);
    }

    /** `updateTimeSlot(index, value)`: copies the list, assigns the one
        entry, and stores the copy. The form calls it only with the index of
        a rendered slot. */
    method UpdateTimeSlot(index: nat, value: string)
      requires index < |timesOfDay|
      modifies this`timesOfDay
      ensures |timesOfDay| == |old(timesOfDay)|
      ensures timesOfDay[index] == value
      ensures forall i :: 0 <= i < |timesOfDay| && i != index ==> timesOfDay[i] == old(timesOfDay)[i]
    {
      var current := timesOfDay;
      var newTimes := new string[|current|](i requires 0 <= i < |current| => current[i]);
      newTimes[index] := value;
      timesOfDay := newTimes[..];
    }

    /** `handleEdit(schedule)`: loads the schedule, with one extra empty slot
        after its times, and opens the form for editing it. */
    method HandleEdit(schedule: Schedule)
      modifies this
      ensures medicationName == schedule.medicationName && frequency == schedule.frequency
      ensures timesOfDay == WithEmptySlot(schedule.timesOfDay)
      ensures notes == (if schedule.notes.Some? then schedule.notes.value else "")
      ensures editingId == Some(schedule.id) && showForm
    {
      medicationName := schedule.medicationName;
      frequency := schedule.frequency;
      timesOfDay := WithEmptySlot(schedule.timesOfDay);
      notes := if schedule.notes.Some? then schedule.notes.value else "";
      editingId := Some(schedule.id);
      showForm := true;
    }

    /** `cancelForm`: closes the form, clears the editing id and blanks the fields. */
    method CancelForm()
      modifies this
      ensures IsBlank()
    {
      showForm := false;
      editingId := None;
      medicationName, frequency, timesOfDay, notes := "", 1, [""], "";
    }

    /** `handleSubmit`: without a session nothing happens; otherwise the form
        is sent with its empty slots filtered out, and a successful response
        resets the form. `responseOk` is the server's answer. */
    method HandleSubmit(signedIn: bool, responseOk: bool) returns (request: Option<SaveRequest>)
      modifies this
      ensures !signedIn ==> request == None
      ensures signedIn ==> request == Some(SaveRequest(VerbFor(old(editingId)), old(medicationName),
        old(frequency), ValidTimes(old(timesOfDay)), old(notes)))
      ensures signedIn && responseOk ==> IsBlank()
      ensures !(signedIn && responseOk) ==>
        && medicationName == old(medicationName) && frequency == old(frequency)
        && timesOfDay == old(timesOfDay) && notes == old(notes)
        && editingId == old(editingId) && showForm == old(showForm)
    {
      if !signedIn {
        return None;
      }
      var validTimes := ValidTimes(timesOfDay);
      request := Some(SaveRequest(VerbFor(editingId), medicationName, frequency, validTimes, notes));
      if responseOk {
        CancelForm();
      }
    }
  }
}
