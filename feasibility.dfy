/** The slots a lab may be placed in: its locked slot, or the day-major cross
    product of its feasible days and times, each defaulting when empty. */
module Feasibility {
  import opened Types
  import Dates

  datatype Slot = Slot(day: Day, time: SlotTime)

  /** The days used when a lab lists none. */
  const DefaultDays: seq<Day> := [Sun, Mon, Tue, Wed, Thu]

  /** The times used when a lab lists none. */
  const DefaultTimes: seq<SlotTime> := [8, 11, 14]

  /** The scheduler's hard-coded defaults are the calendar's teaching week and
      its full list of times. */
  lemma DefaultsMatchCalendar()
    ensures DefaultDays == Dates.Weekdays()
    ensures DefaultTimes == Dates.AllTimes()
  {
  }

  /** One day paired with each time, in order. */
  function Row(d: Day, times: seq<SlotTime>): (r: seq<Slot>)
    ensures |r| == |times|
  {
    if times == [] then [] else Row(d, times[..|times| - 1]) + [Slot(d, times[|times| - 1])]
  }

  lemma {:induction false} RowAt(d: Day, times: seq<SlotTime>, k: nat)
    requires k < |times|
    ensures Row(d, times)[k] == Slot(d, times[k])
    decreases |times|
  {
    if k < |times| - 1 {
      RowAt(d, times[..|times| - 1], k);
    }
  }

  lemma {:induction false} RowHas(d: Day, times: seq<SlotTime>, s: Slot)
    ensures s in Row(d, times) <==> s.day == d && s.time in times
    decreases |times|
  {
    if times != [] {
      var n := |times|;
      RowHas(d, times[..n - 1], s);
      assert times == times[..n - 1] + [times[n - 1]];
    }
  }

  /** One more time in the inner loop adds one slot at the end of the row. */
  lemma RowStep(d: Day, times: seq<SlotTime>, ti: nat)
    requires ti < |times|
    ensures Row(d, times[..ti + 1]) == Row(d, times[..ti]) + [Slot(d, times[ti])]
  {
    assert times[..ti + 1][..ti] == times[..ti];
  }

  /** One more day in the outer loop adds that day's row at the end. */
  lemma CrossProductStep(days: seq<Day>, times: seq<SlotTime>, di: nat)
    requires di < |days|
    ensures CrossProduct(days[..di + 1], times) == CrossProduct(days[..di], times) + Row(days[di], times)
  {
    assert days[..di + 1][..di] == days[..di];
  }

  /** Every day paired with every time, day-major. */
  function CrossProduct(days: seq<Day>, times: seq<SlotTime>): seq<Slot>
  {
    if days == [] then []
    else CrossProduct(days[..|days| - 1], times) + Row(days[|days| - 1], times)
  }

  /** One slot per day and time. */
  lemma {:induction false} CrossProductLength(days: seq<Day>, times: seq<SlotTime>)
    ensures |CrossProduct(days, times)| == |days| * |times|
    decreases |days|
  {
    if days != [] {
      CrossProductLength(days[..|days| - 1], times);
      assert |days| * |times| == (|days| - 1) * |times| + |times|;
    }
  }

  /** Position `di * |times| + ti` holds day `di` with time `ti`. */
  lemma {:induction false} CrossProductAt(days: seq<Day>, times: seq<SlotTime>, di: nat, ti: nat)
    requires di < |days| && ti < |times|
    ensures di * |times| + ti < |CrossProduct(days, times)|
    ensures CrossProduct(days, times)[di * |times| + ti] == Slot(days[di], times[ti])
    decreases |days|
  {
    var n := |days|;
    var front := CrossProduct(days[..n - 1], times);
    CrossProductLength(days[..n - 1], times);
    if di < n - 1 {
      CrossProductAt(days[..n - 1], times, di, ti);
      assert di * |times| + ti < |front|;
    } else {
      assert di * |times| == |front|;
      RowAt(days[n - 1], times, ti);
    }
  }

  /** A slot is in the product exactly when its day and its time are listed. */
  lemma {:induction false} CrossProductHas(days: seq<Day>, times: seq<SlotTime>, s: Slot)
    ensures s in CrossProduct(days, times) <==> s.day in days && s.time in times
    decreases |days|
  {
    if days != [] {
      var n := |days|;
      CrossProductHas(days[..n - 1], times, s);
      RowHas(days[n - 1], times, s);
      assert days == days[..n - 1] + [days[n - 1]];
    }
  }

  function DaysOf(lab: Lab): (ds: seq<Day>)
    ensures ds != []
  {
    if |lab.feasibleDays| > 0 then lab.feasibleDays else DefaultDays
  }

  function TimesOf(lab: Lab): (ts: seq<SlotTime>)
    ensures ts != []
  {
    if |lab.feasibleTimes| > 0 then lab.feasibleTimes else DefaultTimes
  }

  predicate IsLockedLab(lab: Lab)
  {
    lab.lockedDay.Some? && lab.lockedTime.Some?
  }

  /** What `getFeasibleSlots` returns for a lab. */
  function FeasibleSlots(lab: Lab): seq<Slot>
  {
    if IsLockedLab(lab) then [Slot(lab.lockedDay.value, lab.lockedTime.value)]
    else CrossProduct(DaysOf(lab), TimesOf(lab))
  }

  /** A locked lab has exactly its locked slot; any other lab has one slot per
      listed (or default) day and time, and so at least one. */
  lemma FeasibleSlotsCount(lab: Lab)
    ensures IsLockedLab(lab) ==> |FeasibleSlots(lab)| == 1
    ensures !IsLockedLab(lab) ==> |FeasibleSlots(lab)| == |DaysOf(lab)| * |TimesOf(lab)|
    ensures |FeasibleSlots(lab)| >= 1
  {
    if !IsLockedLab(lab) {
      CrossProductLength(DaysOf(lab), TimesOf(lab));
      assert |DaysOf(lab)| >= 1 && |TimesOf(lab)| >= 1;
      assert |DaysOf(lab)| * |TimesOf(lab)| >= 1;
    }
  }

  /** With nothing listed and nothing locked, a lab may go in any of the 15
      weekday slots. */
  lemma UnconstrainedLabHasFifteenSlots(lab: Lab)
    requires !IsLockedLab(lab) && lab.feasibleDays == [] && lab.feasibleTimes == []
    ensures |FeasibleSlots(lab)| == 15
    ensures forall s: Slot :: s in FeasibleSlots(lab) <==> DayIndex(s.day) < 5
  {
    CrossProductLength(DefaultDays, DefaultTimes);
    forall s: Slot
      ensures s in FeasibleSlots(lab) <==> DayIndex(s.day) < 5
    {
      CrossProductHas(DefaultDays, DefaultTimes, s);
      assert s.time in DefaultTimes;
    }
  }

  /** Which slots a lab may take. */
  lemma FeasibleSlotsHas(lab: Lab, s: Slot)
    ensures IsLockedLab(lab) ==> (s in FeasibleSlots(lab) <==> s == Slot(lab.lockedDay.value, lab.lockedTime.value))
    ensures !IsLockedLab(lab) ==> (s in FeasibleSlots(lab) <==> s.day in DaysOf(lab) && s.time in TimesOf(lab))
  {
    if !IsLockedLab(lab) {
      CrossProductHas(DaysOf(lab), TimesOf(lab), s);
    }
  }

  /** `getFeasibleSlots`: the nested loops push one slot per day and time. */
  method GetFeasibleSlots(lab: Lab) returns (slots: seq<Slot>)
    ensures slots == FeasibleSlots(lab)
  {
    if lab.lockedDay.Some? && lab.lockedTime.Some? {
      return [Slot(lab.lockedDay.value, lab.lockedTime.value)];
    }
    slots := [];
    var days := if |lab.feasibleDays| > 0 then lab.feasibleDays else DefaultDays;
    var times := if |lab.feasibleTimes| > 0 then lab.feasibleTimes else DefaultTimes;
    for di := 0 to |days|
      invariant slots == CrossProduct(days[..di], times)
    {
      ghost var done := slots;
      var day := days[di];
      for ti := 0 to |times|
        invariant slots == done + Row(day, times[..ti])
      {
        RowStep(day, times, ti);
        slots := slots + [Slot(day, times[ti])];
      }
      assert times[..|times|] == times;
      CrossProductStep(days, times, di);
    }
    assert days[..|days|] == days;
  }
}
