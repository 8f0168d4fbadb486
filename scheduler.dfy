/** The scheduling run: locked assignments are kept, the remaining labs are
    ordered hardest first and each is given the best free TA and slot, or is
    reported unassigned with a reason. */
module Scheduler {
  import opened Types
  import opened Prng
  import opened Feasibility
  import opened Difficulty
  import opened Matching
  import opened Validation

  const NoSlotsReason: string := "No feasible time slots available"
  const NoTAReason: string := "No available TA found (all TAs are at capacity or have conflicts)"

  /** Everything the run has built so far: the two result lists, each TA's
      assignments, the occupied `(day, time, taId)` keys with their lab ids,
      and the shared generator state. */
  datatype Progress = Progress(
    assignments: seq<Assignment>,
    unassigned: seq<UnassignedLab>,
    loads: map<string, seq<Assignment>>,
    occupancy: map<SlotKey, string>,
    rng: bv32)

  /** `taAssignments.get(id) || []`. */
  function LoadsOf(loads: map<string, seq<Assignment>>, id: string): seq<Assignment>
  {
    if id in loads then loads[id] else []
  }

  /** `tas.forEach(ta => taAssignments.set(ta.id, []))`. */
  function InitialLoads(tas: seq<TA>): map<string, seq<Assignment>>
  {
    if tas == [] then map[] else InitialLoads(tas[..|tas| - 1])[tas[|tas| - 1].id := []]
  }

  /** Taking an assignment into the run: appended to the result, to its TA's
      list, and its key marked with its lab. */
  function Record(p: Progress, a: Assignment): Progress
  {
    p.(assignments := p.assignments + [a],
       loads := p.loads[a.taId := LoadsOf(p.loads, a.taId) + [a]],
       occupancy := p.occupancy[KeyOf(a) := a.labId])
  }

  /** `existingAssignments.filter(a => a.locked)`. */
  function LockedOf(existing: seq<Assignment>): seq<Assignment>
  {
    if existing == [] then []
    else
      var rest := LockedOf(existing[..|existing| - 1]);
      if IsLocked(existing[|existing| - 1]) then rest + [existing[|existing| - 1]] else rest
  }

  /** The loop over the locked assignments. */
  function LockAll(p: Progress, locked: seq<Assignment>): Progress
  {
    if locked == [] then p else Record(LockAll(p, locked[..|locked| - 1]), locked[|locked| - 1])
  }

  /** `new Set(lockedAssignments.map(a => a.labId))`. */
  function LabIdsOf(assignments: seq<Assignment>): set<string>
  {
    set a | a in assignments :: a.labId
  }

  /** `labs.filter(lab => !lockedLabIds.has(lab.id))`. */
  function Unlocked(labs: seq<Lab>, lockedIds: set<string>): seq<Lab>
  {
    if labs == [] then []
    else
      var rest := Unlocked(labs[..|labs| - 1], lockedIds);
      if labs[|labs| - 1].id in lockedIds then rest else rest + [labs[|labs| - 1]]
  }

  /** The assignment built from the winning candidate. */
  function NewAssignment(lab: Lab, m: Match): Assignment
  {
    Assignment(lab.id, m.ta.id, m.slot.day, m.slot.time, Some(false), ScoreMeta(m.baseScore, m.loadPenalty, m.tieBreak))
  }

  /** One turn of the loop over the ordered labs. */
  function Place(p: Progress, lab: Lab, tas: seq<TA>): Progress
  {
    var slots := FeasibleSlots(lab);
    if |slots| == 0 then p.(unassigned := p.unassigned + [UnassignedLab(lab, NoSlotsReason)])
    else
      var (cands, st) := Candidates(p.rng, tas, slots, p.loads, p.occupancy);
      var best := Best(cands);
      if best.None? then p.(unassigned := p.unassigned + [UnassignedLab(lab, NoTAReason)], rng := st)
      else Record(p.(rng := st), NewAssignment(lab, best.value))
  }

  function PlaceAll(p: Progress, labs: seq<Lab>, tas: seq<TA>): Progress
  {
    if labs == [] then p else Place(PlaceAll(p, labs[..|labs| - 1], tas), labs[|labs| - 1], tas)
  }

  /** The state after the locked assignments are taken in. */
  function Start(tas: seq<TA>, globalSeed: int, existing: seq<Assignment>): Progress
  {
    LockAll(Progress([], [], InitialLoads(tas), map[], SeedState(globalSeed)), LockedOf(existing))
  }

  /** The labs still to place, in input order. */
  function ToPlace(labs: seq<Lab>, existing: seq<Assignment>): seq<Lab>
  {
    Unlocked(labs, LabIdsOf(LockedOf(existing)))
  }

  /** The labs to place hardest first, as ordered from the seeded generator. */
  function Ordered(labs: seq<Lab>, globalSeed: int, existing: seq<Assignment>): seq<Lab>
  {
    ByDifficulty(SeedState(globalSeed), ToPlace(labs, existing))
  }

  /** The run's final state. */
  function Run(labs: seq<Lab>, tas: seq<TA>, globalSeed: int, existing: seq<Assignment>): Progress
  {
    var p := Start(tas, globalSeed, existing);
    var n := |ToPlace(labs, existing)|;
    PlaceAll(p.(rng := Advance(SeedState(globalSeed), n)), Ordered(labs, globalSeed, existing), tas)
  }

  /** What `scheduleAssignments` returns. */
  function Schedule(labs: seq<Lab>, tas: seq<TA>, globalSeed: int, existing: seq<Assignment>): ScheduleResult
  {
    var q := Run(labs, tas, globalSeed, existing);
    ScheduleResult(q.assignments, q.unassigned)
  }

  lemma InitialLoadsStep(tas: seq<TA>, i: nat)
    requires i < |tas|
    ensures InitialLoads(tas[..i + 1]) == InitialLoads(tas[..i])[tas[i].id := []]
  {
    assert tas[..i + 1][..i] == tas[..i];
  }

  lemma LockAllStep(p: Progress, locked: seq<Assignment>, k: nat)
    requires k < |locked|
    ensures LockAll(p, locked[..k + 1]) == Record(LockAll(p, locked[..k]), locked[k])
  {
    assert locked[..k + 1][..k] == locked[..k];
  }

  lemma PlaceAllStep(p: Progress, labs: seq<Lab>, tas: seq<TA>, k: nat)
    requires k < |labs|
    ensures PlaceAll(p, labs[..k + 1], tas) == Place(PlaceAll(p, labs[..k], tas), labs[k], tas)
  {
    assert labs[..k + 1][..k] == labs[..k];
  }

  /** The locked loop leaves the generator alone. */
  lemma {:induction false} LockAllKeepsRng(p: Progress, locked: seq<Assignment>)
    ensures LockAll(p, locked).rng == p.rng
    ensures LockAll(p, locked).unassigned == p.unassigned
    decreases |locked|
  {
    if locked != [] {
      LockAllKeepsRng(p, locked[..|locked| - 1]);
    }
  }

  /** The TA lists agree with the result, and every assignment's key is occupied. */
  ghost predicate Tracks(p: Progress)
  {
    && (forall a :: a in p.assignments ==> KeyOf(a) in p.occupancy)
    && (forall id :: LoadOf(p.loads, id) == Count(p.assignments, id))
  }

  predicate UniqueIds(tas: seq<TA>)
  {
    forall i, j :: 0 <= i < j < |tas| ==> tas[i].id != tas[j].id
  }

  /** No listed TA holds more labs than their maximum. */
  predicate WithinCapacity(assignments: seq<Assignment>, tas: seq<TA>)
  {
    forall ta :: ta in tas ==> Count(assignments, ta.id) <= ta.maxLabs
  }

  lemma CountAppend(assignments: seq<Assignment>, a: Assignment, id: string)
    ensures Count(assignments + [a], id) == Count(assignments, id) + (if a.taId == id then 1 else 0)
  {
    assert (assignments + [a])[..|assignments|] == assignments;
  }

  lemma {:induction false} InitialLoadsEmpty(tas: seq<TA>, id: string)
    ensures LoadOf(InitialLoads(tas), id) == 0
    decreases |tas|
  {
    if tas != [] {
      InitialLoadsEmpty(tas[..|tas| - 1], id);
    }
  }

  /** Taking an assignment in keeps the bookkeeping right, and keeps keys
      distinct when its key was free. */
  lemma RecordTracks(p: Progress, a: Assignment)
    requires Tracks(p)
    ensures Tracks(Record(p, a))
    ensures DistinctKeys(p.assignments) && KeyOf(a) !in p.occupancy ==> DistinctKeys(Record(p, a).assignments)
  {
    var q := Record(p, a);
    forall id
      ensures LoadOf(q.loads, id) == Count(q.assignments, id)
    {
      CountAppend(p.assignments, a, id);
    }
    if DistinctKeys(p.assignments) && KeyOf(a) !in p.occupancy {
      forall i, j | 0 <= i < j < |q.assignments|
        ensures KeyOf(q.assignments[i]) != KeyOf(q.assignments[j])
      {
        assert q.assignments[i] == p.assignments[i];
        if j < |p.assignments| {
          assert q.assignments[j] == p.assignments[j];
        }
      }
    }
  }

  /** The locked loop appends the locked assignments and keeps the bookkeeping. */
  lemma {:induction false} LockAllAppends(p: Progress, locked: seq<Assignment>)
    requires Tracks(p)
    ensures LockAll(p, locked).assignments == p.assignments + locked
    ensures Tracks(LockAll(p, locked))
    decreases |locked|
  {
    if locked != [] {
      var front := locked[..|locked| - 1];
      LockAllAppends(p, front);
      RecordTracks(LockAll(p, front), locked[|locked| - 1]);
      assert locked == front + [locked[|locked| - 1]];
    }
  }

  /** After the locked loop: the result is exactly the locked assignments,
      and the bookkeeping agrees with them. */
  lemma StartFacts(tas: seq<TA>, globalSeed: int, existing: seq<Assignment>)
    ensures Start(tas, globalSeed, existing).assignments == LockedOf(existing)
    ensures Start(tas, globalSeed, existing).unassigned == []
    ensures Start(tas, globalSeed, existing).rng == SeedState(globalSeed)
    ensures Tracks(Start(tas, globalSeed, existing))
  {
    var p0 := Progress([], [], InitialLoads(tas), map[], SeedState(globalSeed));
    forall id
      ensures LoadOf(p0.loads, id) == Count(p0.assignments, id)
    {
      InitialLoadsEmpty(tas, id);
    }
    LockAllAppends(p0, LockedOf(existing));
    LockAllKeepsRng(p0, LockedOf(existing));
  }

  /** The best candidate for a lab in the state `p`, and the shared state after the search. */
  function Search(p: Progress, lab: Lab, tas: seq<TA>): (Option<Match>, bv32)
  {
    var (cands, st) := Candidates(p.rng, tas, FeasibleSlots(lab), p.loads, p.occupancy);
    (Best(cands), st)
  }

  /** Every lab has a feasible slot, so one turn either records the best
      candidate or reports the lab for want of a TA. */
  lemma PlaceCases(p: Progress, lab: Lab, tas: seq<TA>)
    ensures var (best, st) := Search(p, lab, tas);
      Place(p, lab, tas) ==
        if best.None? then p.(unassigned := p.unassigned + [UnassignedLab(lab, NoTAReason)], rng := st)
        else Record(p.(rng := st), NewAssignment(lab, best.value))
  {
    FeasibleSlotsCount(lab);
  }

  /** A lab finds no TA exactly when no listed TA has room and is free at
      one of its feasible slots; otherwise the new assignment is unlocked,
      at a feasible slot, with a listed TA who had room and was free there. */
  lemma PlaceChoice(p: Progress, lab: Lab, tas: seq<TA>)
    ensures var best := Search(p, lab, tas).0;
      && (best.None? <==> forall ta, slot :: ta in tas && slot in FeasibleSlots(lab) ==> !Eligible(ta, slot, p.loads, p.occupancy))
      && (best.Some? ==>
            var a := NewAssignment(lab, best.value);
            && a.labId == lab.id && a.locked == Some(false)
            && Slot(a.day, a.time) in FeasibleSlots(lab)
            && best.value.ta in tas && best.value.ta.id == a.taId
            && LoadOf(p.loads, a.taId) < best.value.ta.maxLabs
            && KeyOf(a) !in p.occupancy)
  {
    var slots := FeasibleSlots(lab);
    FindBestCorrect(p.rng, tas, slots, p.loads, p.occupancy);
  }

  /** One lab keeps the bookkeeping, distinct keys and, with unique TA ids,
      every listed TA within capacity. */
  lemma PlaceKeeps(p: Progress, lab: Lab, tas: seq<TA>)
    requires Tracks(p) && DistinctKeys(p.assignments)
    ensures Tracks(Place(p, lab, tas)) && DistinctKeys(Place(p, lab, tas).assignments)
    ensures UniqueIds(tas) && WithinCapacity(p.assignments, tas) ==> WithinCapacity(Place(p, lab, tas).assignments, tas)
  {
    PlaceCases(p, lab, tas);
    PlaceChoice(p, lab, tas);
    var (best, st) := Search(p, lab, tas);
    if best.Some? {
      var a := NewAssignment(lab, best.value);
      var r := p.(rng := st);
      RecordTracks(r, a);
      if UniqueIds(tas) && WithinCapacity(p.assignments, tas) {
        var chosen := best.value.ta;
        forall ta | ta in tas
          ensures Count(p.assignments + [a], ta.id) <= ta.maxLabs
        {
          CountAppend(p.assignments, a, ta.id);
          if ta.id == a.taId {
            var i :| 0 <= i < |tas| && tas[i] == ta;
            var j :| 0 <= j < |tas| && tas[j] == chosen;
            assert i == j;
          }
        }
      }
    }
  }

  /** The lab loop keeps the bookkeeping, distinct keys and capacity. */
  lemma {:induction false} PlaceAllKeeps(p: Progress, labs: seq<Lab>, tas: seq<TA>)
    requires Tracks(p) && DistinctKeys(p.assignments)
    ensures Tracks(PlaceAll(p, labs, tas)) && DistinctKeys(PlaceAll(p, labs, tas).assignments)
    ensures UniqueIds(tas) && WithinCapacity(p.assignments, tas) ==> WithinCapacity(PlaceAll(p, labs, tas).assignments, tas)
    decreases |labs|
  {
    if labs != [] {
      var front := labs[..|labs| - 1];
      PlaceAllKeeps(p, front, tas);
      PlaceKeeps(PlaceAll(p, front, tas), labs[|labs| - 1], tas);
    }
  }

  /** One lab keeps the bookkeeping, whatever the keys before it. */
  lemma PlaceTracks(p: Progress, lab: Lab, tas: seq<TA>)
    requires Tracks(p)
    ensures Tracks(Place(p, lab, tas))
  {
    PlaceCases(p, lab, tas);
    var (best, st) := Search(p, lab, tas);
    if best.Some? {
      RecordTracks(p.(rng := st), NewAssignment(lab, best.value));
    }
  }

  /** The lab loop keeps the bookkeeping, whatever the keys before it. */
  lemma {:induction false} PlaceAllTracks(p: Progress, labs: seq<Lab>, tas: seq<TA>)
    requires Tracks(p)
    ensures Tracks(PlaceAll(p, labs, tas))
    decreases |labs|
  {
    if labs != [] {
      PlaceAllTracks(p, labs[..|labs| - 1], tas);
      PlaceTracks(PlaceAll(p, labs[..|labs| - 1], tas), labs[|labs| - 1], tas);
    }
  }

  /** The assignment at `j` takes a key no earlier assignment holds, and
      goes to a listed TA who held fewer than their maximum before it. */
  predicate FreshAt(assignments: seq<Assignment>, j: nat, tas: seq<TA>)
    requires j < |assignments|
  {
    && KeyOf(assignments[j]) !in KeySet(assignments[..j])
    && exists ta :: ta in tas && ta.id == assignments[j].taId && Count(assignments[..j], ta.id) < ta.maxLabs
  }

  /** Appending keeps every earlier position fresh. */
  lemma FreshAppend(xs: seq<Assignment>, a: Assignment, lo: nat, tas: seq<TA>)
    requires forall j :: lo <= j < |xs| ==> FreshAt(xs, j, tas)
    ensures forall j :: lo <= j < |xs| ==> FreshAt(xs + [a], j, tas)
  {
    forall j | lo <= j < |xs|
      ensures FreshAt(xs + [a], j, tas)
    {
      assert (xs + [a])[..j] == xs[..j] && (xs + [a])[j] == xs[j];
      assert FreshAt(xs, j, tas);
    }
  }

  /** An assignment on a free key, for a listed TA below their maximum,
      is fresh where it is appended. */
  lemma RecordFresh(p: Progress, a: Assignment, ta: TA, tas: seq<TA>)
    requires Tracks(p) && KeyOf(a) !in p.occupancy
    requires ta in tas && ta.id == a.taId && LoadOf(p.loads, a.taId) < ta.maxLabs
    ensures FreshAt(p.assignments + [a], |p.assignments|, tas)
  {
    assert (p.assignments + [a])[..|p.assignments|] == p.assignments;
    assert KeyOf(a) !in KeySet(p.assignments);
  }

  /** One lab keeps the positions from `lo` on fresh. */
  lemma PlaceFresh(p: Progress, lab: Lab, tas: seq<TA>, lo: nat)
    requires Tracks(p)
    requires forall j :: lo <= j < |p.assignments| ==> FreshAt(p.assignments, j, tas)
    ensures var q := Place(p, lab, tas);
      forall j :: lo <= j < |q.assignments| ==> FreshAt(q.assignments, j, tas)
  {
    PlaceCases(p, lab, tas);
    PlaceChoice(p, lab, tas);
    var best := Search(p, lab, tas).0;
    if best.Some? {
      var a := NewAssignment(lab, best.value);
      FreshAppend(p.assignments, a, lo, tas);
      RecordFresh(p, a, best.value.ta, tas);
    }
  }

  /** Every assignment the lab loop appends is fresh with respect to all
      the assignments before it, the ones it started from included. */
  lemma {:induction false} PlaceAllFresh(p: Progress, labs: seq<Lab>, tas: seq<TA>)
    requires Tracks(p)
    ensures forall j :: |p.assignments| <= j < |PlaceAll(p, labs, tas).assignments| ==>
      FreshAt(PlaceAll(p, labs, tas).assignments, j, tas)
    decreases |labs|
  {
    if labs != [] {
      var front := labs[..|labs| - 1];
      var mid := PlaceAll(p, front, tas);
      PlaceAllFresh(p, front, tas);
      PlaceAllTracks(p, front, tas);
      PlaceFresh(mid, labs[|labs| - 1], tas, |p.assignments|);
    }
  }

  /** The lab loop only appends, one entry per lab. */
  lemma {:induction false} PlaceAllGrows(p: Progress, labs: seq<Lab>, tas: seq<TA>)
    ensures var q := PlaceAll(p, labs, tas);
      && |p.assignments| <= |q.assignments| && |p.unassigned| <= |q.unassigned|
      && q.assignments[..|p.assignments|] == p.assignments
      && q.unassigned[..|p.unassigned|] == p.unassigned
      && |q.assignments| - |p.assignments| + |q.unassigned| - |p.unassigned| == |labs|
    decreases |labs|
  {
    if labs != [] {
      var mid := PlaceAll(p, labs[..|labs| - 1], tas);
      PlaceAllGrows(p, labs[..|labs| - 1], tas);
      PlaceCases(mid, labs[|labs| - 1], tas);
      var q := PlaceAll(p, labs, tas);
      assert q.assignments[..|p.assignments|] == mid.assignments[..|p.assignments|];
      assert q.unassigned[..|p.unassigned|] == mid.unassigned[..|p.unassigned|];
    }
  }

  /** What the lab loop appends. */
  predicate NewAssignmentOk(a: Assignment, labs: seq<Lab>, tas: seq<TA>)
  {
    && a.locked == Some(false)
    && (exists lab :: lab in labs && lab.id == a.labId && Slot(a.day, a.time) in FeasibleSlots(lab))
    && (exists ta :: ta in tas && ta.id == a.taId)
  }

  /** Every assignment the lab loop appends is unlocked and puts one of its
      labs in a feasible slot with a listed TA. */
  lemma {:induction false} PlaceAllNew(p: Progress, labs: seq<Lab>, tas: seq<TA>)
    ensures forall a :: a in PlaceAll(p, labs, tas).assignments && a !in p.assignments ==> NewAssignmentOk(a, labs, tas)
    decreases |labs|
  {
    if labs != [] {
      var n := |labs|;
      var front := labs[..n - 1];
      var mid := PlaceAll(p, front, tas);
      PlaceAllNew(p, front, tas);
      PlaceCases(mid, labs[n - 1], tas);
      PlaceChoice(mid, labs[n - 1], tas);
      forall a | a in PlaceAll(p, labs, tas).assignments && a !in p.assignments
        ensures NewAssignmentOk(a, labs, tas)
      {
        if a in mid.assignments {
          assert NewAssignmentOk(a, front, tas);
        } else {
          assert labs[n - 1] in labs;
        }
      }
    }
  }

  /** Every lab the lab loop reports unassigned is one of its labs and lacked a TA. */
  lemma {:induction false} PlaceAllUnassigned(p: Progress, labs: seq<Lab>, tas: seq<TA>)
    ensures forall u :: u in PlaceAll(p, labs, tas).unassigned && u !in p.unassigned ==>
      u.reason == NoTAReason && u.lab in labs
    decreases |labs|
  {
    if labs != [] {
      var n := |labs|;
      var front := labs[..n - 1];
      var mid := PlaceAll(p, front, tas);
      PlaceAllUnassigned(p, front, tas);
      PlaceCases(mid, labs[n - 1], tas);
      forall u | u in PlaceAll(p, labs, tas).unassigned && u !in p.unassigned
        ensures u.reason == NoTAReason && u.lab in labs
      {
        if u in mid.unassigned {
          assert u.lab in front;
        }
      }
    }
  }

  lemma {:induction false} UnlockedFacts(labs: seq<Lab>, lockedIds: set<string>)
    ensures forall lab :: lab in Unlocked(labs, lockedIds) <==> lab in labs && lab.id !in lockedIds
    decreases |labs|
  {
    if labs != [] {
      var front := labs[..|labs| - 1];
      UnlockedFacts(front, lockedIds);
      assert labs == front + [labs[|labs| - 1]];
    }
  }

  /** The run's final state starts from the locked assignments, with the
      generator advanced past the ordering draws. */
  lemma RunIs(labs: seq<Lab>, tas: seq<TA>, globalSeed: int, existing: seq<Assignment>)
    ensures var p := Start(tas, globalSeed, existing).(rng := Advance(SeedState(globalSeed), |ToPlace(labs, existing)|));
      Run(labs, tas, globalSeed, existing) == PlaceAll(p, Ordered(labs, globalSeed, existing), tas)
  {
  }

  /** The schedule starts with the locked assignments, in order, and the
      new assignments and unassigned labs together number the labs still to
      place (which lab goes where is `ScheduleAccountsEachLab`). */
  lemma ScheduleKeepsLockedAndAccounts(labs: seq<Lab>, tas: seq<TA>, globalSeed: int, existing: seq<Assignment>)
    ensures var r := Schedule(labs, tas, globalSeed, existing);
      var locked := LockedOf(existing);
      && |locked| <= |r.assignments|
      && r.assignments[..|locked|] == locked
      && |r.assignments| - |locked| + |r.unassignedLabs| == |ToPlace(labs, existing)|
  {
    StartFacts(tas, globalSeed, existing);
    var toPlace := ToPlace(labs, existing);
    var ordered := Ordered(labs, globalSeed, existing);
    ByDifficultyCorrect(SeedState(globalSeed), toPlace);
    assert |ordered| == |toPlace| by {
      assert |multiset(ordered)| == |multiset(toPlace)|;
    }
    var p := Start(tas, globalSeed, existing).(rng := Advance(SeedState(globalSeed), |toPlace|));
    RunIs(labs, tas, globalSeed, existing);
    PlaceAllGrows(p, ordered, tas);
  }

  /** Every assignment the run adds to the locked ones is unlocked and puts
      a lab still to place in one of its feasible slots with a listed TA. */
  lemma ScheduleNewAssignments(labs: seq<Lab>, tas: seq<TA>, globalSeed: int, existing: seq<Assignment>)
    ensures var r := Schedule(labs, tas, globalSeed, existing);
      forall a :: a in r.assignments && a !in LockedOf(existing) ==> NewAssignmentOk(a, ToPlace(labs, existing), tas)
  {
    StartFacts(tas, globalSeed, existing);
    var toPlace := ToPlace(labs, existing);
    var ordered := Ordered(labs, globalSeed, existing);
    ByDifficultyCorrect(SeedState(globalSeed), toPlace);
    var p := Start(tas, globalSeed, existing).(rng := Advance(SeedState(globalSeed), |toPlace|));
    RunIs(labs, tas, globalSeed, existing);
    PlaceAllNew(p, ordered, tas);
    forall a | a in Schedule(labs, tas, globalSeed, existing).assignments && a !in LockedOf(existing)
      ensures NewAssignmentOk(a, toPlace, tas)
    {
      assert NewAssignmentOk(a, ordered, tas);
      var lab :| lab in ordered && lab.id == a.labId && Slot(a.day, a.time) in FeasibleSlots(lab);
      assert lab in multiset(toPlace);
    }
  }

  /** Every assignment the run adds takes a `(day, time, TA)` key that no
      earlier assignment holds and goes to a listed TA below their maximum,
      even when the locked assignments themselves clash. */
  lemma ScheduleNewAssignmentsFresh(labs: seq<Lab>, tas: seq<TA>, globalSeed: int, existing: seq<Assignment>)
    ensures var r := Schedule(labs, tas, globalSeed, existing);
      forall j :: |LockedOf(existing)| <= j < |r.assignments| ==> FreshAt(r.assignments, j, tas)
  {
    StartFacts(tas, globalSeed, existing);
    var p := Start(tas, globalSeed, existing).(rng := Advance(SeedState(globalSeed), |ToPlace(labs, existing)|));
    RunIs(labs, tas, globalSeed, existing);
    PlaceAllFresh(p, Ordered(labs, globalSeed, existing), tas);
  }

  /** Every unassigned lab is one still to place, and the reason is always
      that no TA was found: every lab has a feasible slot. */
  lemma ScheduleUnassigned(labs: seq<Lab>, tas: seq<TA>, globalSeed: int, existing: seq<Assignment>)
    ensures forall u :: u in Schedule(labs, tas, globalSeed, existing).unassignedLabs ==>
      u.reason == NoTAReason && u.lab in ToPlace(labs, existing)
  {
    StartFacts(tas, globalSeed, existing);
    var toPlace := ToPlace(labs, existing);
    var ordered := Ordered(labs, globalSeed, existing);
    ByDifficultyCorrect(SeedState(globalSeed), toPlace);
    var p := Start(tas, globalSeed, existing).(rng := Advance(SeedState(globalSeed), |toPlace|));
    RunIs(labs, tas, globalSeed, existing);
    PlaceAllUnassigned(p, ordered, tas);
    forall u | u in Schedule(labs, tas, globalSeed, existing).unassignedLabs
      ensures u.reason == NoTAReason && u.lab in toPlace
    {
      assert u.lab in ordered;
      assert u.lab in multiset(toPlace);
    }
  }

  /** The lab ids of a list of assignments, in order. */
  function AssignedIds(assignments: seq<Assignment>): (ids: seq<string>)
    ensures |ids| == |assignments|
  {
    if assignments == [] then []
    else AssignedIds(assignments[..|assignments| - 1]) + [assignments[|assignments| - 1].labId]
  }

  /** The ids of the labs reported unassigned, in order. */
  function UnassignedIds(unassigned: seq<UnassignedLab>): (ids: seq<string>)
    ensures |ids| == |unassigned|
  {
    if unassigned == [] then []
    else UnassignedIds(unassigned[..|unassigned| - 1]) + [unassigned[|unassigned| - 1].lab.id]
  }

  /** The ids of a list of labs, in order. */
  function LabIds(labs: seq<Lab>): (ids: seq<string>)
    ensures |ids| == |labs|
  {
    if labs == [] then [] else LabIds(labs[..|labs| - 1]) + [labs[|labs| - 1].id]
  }

  lemma {:induction false} AssignedIdsAppend(xs: seq<Assignment>, ys: seq<Assignment>)
    ensures AssignedIds(xs + ys) == AssignedIds(xs) + AssignedIds(ys)
    decreases |ys|
  {
    if ys != [] {
      var front := ys[..|ys| - 1];
      AssignedIdsAppend(xs, front);
      assert (xs + ys)[..|xs + ys| - 1] == xs + front;
      assert (xs + ys)[|xs + ys| - 1] == ys[|ys| - 1];
    } else {
      assert xs + ys == xs;
    }
  }

  lemma {:induction false} LabIdsAppend(xs: seq<Lab>, ys: seq<Lab>)
    ensures LabIds(xs + ys) == LabIds(xs) + LabIds(ys)
    decreases |ys|
  {
    if ys != [] {
      var front := ys[..|ys| - 1];
      LabIdsAppend(xs, front);
      assert (xs + ys)[..|xs + ys| - 1] == xs + front;
      assert (xs + ys)[|xs + ys| - 1] == ys[|ys| - 1];
    } else {
      assert xs + ys == xs;
    }
  }

  /** Taking the lab at `i` out of a list takes its id out of the ids. */
  lemma LabIdsRemove(t: seq<Lab>, i: nat)
    requires i < |t|
    ensures multiset(LabIds(t)) == multiset(LabIds(t[..i] + t[i + 1..])) + multiset{t[i].id}
  {
    var a, x, b := t[..i], t[i], t[i + 1..];
    var la, lb := LabIds(a), LabIds(b);
    assert LabIds(t) == LabIds(a + [x]) + lb by {
      assert t == (a + [x]) + b;
      LabIdsAppend(a + [x], b);
    }
    assert LabIds(a + [x]) == la + [x.id] by {
      assert (a + [x])[..|a|] == a;
    }
    assert LabIds(a + b) == la + lb by {
      LabIdsAppend(a, b);
    }
    assert multiset(la + [x.id] + lb) == multiset(la) + multiset{x.id} + multiset(lb);
  }

  /** Taking the lab at `i` out of a list takes it out of the multiset. */
  lemma LabsRemove(t: seq<Lab>, i: nat)
    requires i < |t|
    ensures multiset(t) == multiset(t[..i] + t[i + 1..]) + multiset{t[i]}
  {
    assert t == t[..i] + [t[i]] + t[i + 1..];
  }

  /** Adding the same lab to two multisets of labs that end up equal means they were equal. */
  lemma LabsCancel(a: multiset<Lab>, b: multiset<Lab>, x: Lab)
    requires a + multiset{x} == b + multiset{x}
    ensures a == b
  {
    forall y
      ensures a[y] == b[y]
    {
      assert (a + multiset{x})[y] == (b + multiset{x})[y];
    }
  }

  /** Reordering labs reorders their ids: the multiset of ids is kept. */
  lemma {:induction false} LabIdsPermutation(s: seq<Lab>, t: seq<Lab>)
    requires multiset(s) == multiset(t)
    ensures multiset(LabIds(s)) == multiset(LabIds(t))
    decreases |s|
  {
    if s == [] {
      assert |t| == |multiset(t)| == 0;
    } else {
      var x := s[|s| - 1];
      var s' := s[..|s| - 1];
      assert multiset(s) == multiset(s') + multiset{x} by {
        assert s == s' + [x];
      }
      assert x in multiset(t);
      var i :| 0 <= i < |t| && t[i] == x;
      var t' := t[..i] + t[i + 1..];
      LabsRemove(t, i);
      LabsCancel(multiset(s'), multiset(t'), x);
      LabIdsPermutation(s', t');
      LabIdsRemove(t, i);
      assert LabIds(s) == LabIds(s') + [x.id];
    }
  }

  /** One turn adds the lab's id once: as a new assignment or as an unassigned lab. */
  lemma PlaceAccounts(p: Progress, lab: Lab, tas: seq<TA>)
    ensures var q := Place(p, lab, tas);
      multiset(AssignedIds(q.assignments)) + multiset(UnassignedIds(q.unassigned))
        == multiset(AssignedIds(p.assignments)) + multiset(UnassignedIds(p.unassigned)) + multiset{lab.id}
  {
    PlaceCases(p, lab, tas);
    var q := Place(p, lab, tas);
    if Search(p, lab, tas).0.None? {
      assert q.assignments == p.assignments;
      assert q.unassigned[..|q.unassigned| - 1] == p.unassigned;
    } else {
      assert q.unassigned == p.unassigned;
      assert q.assignments[..|q.assignments| - 1] == p.assignments;
    }
  }

  /** The lab loop accounts for each of its labs exactly once: the ids it
      adds as assignments and as unassigned labs are, together, the ids of
      the labs it was given, each as often as it was given. */
  lemma {:induction false} PlaceAllAccounts(p: Progress, labs: seq<Lab>, tas: seq<TA>)
    ensures var q := PlaceAll(p, labs, tas);
      multiset(AssignedIds(q.assignments)) + multiset(UnassignedIds(q.unassigned))
        == multiset(AssignedIds(p.assignments)) + multiset(UnassignedIds(p.unassigned)) + multiset(LabIds(labs))
    decreases |labs|
  {
    if labs != [] {
      var front := labs[..|labs| - 1];
      PlaceAllAccounts(p, front, tas);
      PlaceAccounts(PlaceAll(p, front, tas), labs[|labs| - 1], tas);
    }
  }

  /** Every lab still to place appears exactly once after the locked
      assignments, as a new assignment or as an unassigned lab: the lab
      ids of the two together are the ids of the labs to place, with the
      same multiplicities. */
  lemma ScheduleAccountsEachLab(labs: seq<Lab>, tas: seq<TA>, globalSeed: int, existing: seq<Assignment>)
    ensures var r := Schedule(labs, tas, globalSeed, existing);
      var locked := LockedOf(existing);
      && |locked| <= |r.assignments|
      && multiset(AssignedIds(r.assignments[|locked|..])) + multiset(UnassignedIds(r.unassignedLabs))
           == multiset(LabIds(ToPlace(labs, existing)))
  {
    StartFacts(tas, globalSeed, existing);
    var toPlace := ToPlace(labs, existing);
    var ordered := Ordered(labs, globalSeed, existing);
    assert multiset(ordered) == multiset(toPlace) by {
      ByDifficultyCorrect(SeedState(globalSeed), toPlace);
    }
    var p := Start(tas, globalSeed, existing).(rng := Advance(SeedState(globalSeed), |toPlace|));
    RunIs(labs, tas, globalSeed, existing);
    PlacedAccounts(p, ordered, toPlace, tas);
  }

  /** The lab loop run from `p` over a reordering of `toPlace` adds, after
      the assignments of `p`, exactly the ids of `toPlace`. */
  lemma PlacedAccounts(p: Progress, ordered: seq<Lab>, toPlace: seq<Lab>, tas: seq<TA>)
    requires multiset(ordered) == multiset(toPlace)
    ensures var q := PlaceAll(p, ordered, tas);
      && |p.assignments| <= |q.assignments|
      && multiset(AssignedIds(q.assignments[|p.assignments|..])) + multiset(UnassignedIds(q.unassigned))
           == multiset(UnassignedIds(p.unassigned)) + multiset(LabIds(toPlace))
  {
    var q := PlaceAll(p, ordered, tas);
    var before := p.assignments;
    assert |before| <= |q.assignments| && q.assignments[..|before|] == before by {
      PlaceAllGrows(p, ordered, tas);
    }
    var added := q.assignments[|before|..];
    assert q.assignments == before + added;
    var a0, a1, u0, u1 := multiset(AssignedIds(before)), multiset(AssignedIds(added)),
                          multiset(UnassignedIds(p.unassigned)), multiset(UnassignedIds(q.unassigned));
    assert a0 + a1 + u1 == a0 + u0 + multiset(LabIds(ordered)) by {
      PlaceAllAccounts(p, ordered, tas);
      AssignedIdsAppend(before, added);
    }
    assert multiset(LabIds(ordered)) == multiset(LabIds(toPlace)) by {
      LabIdsPermutation(ordered, toPlace);
    }
    forall y
      ensures (a1 + u1)[y] == (u0 + multiset(LabIds(toPlace)))[y]
    {
      assert (a0 + a1 + u1)[y] == (a0 + u0 + multiset(LabIds(ordered)))[y];
    }
  }

  /** A lab still to place is one from the input that no locked assignment covers. */
  lemma ToPlaceHas(labs: seq<Lab>, existing: seq<Assignment>, lab: Lab)
    ensures lab in ToPlace(labs, existing) <==> lab in labs && forall a :: a in LockedOf(existing) ==> a.labId != lab.id
  {
    UnlockedFacts(labs, LabIdsOf(LockedOf(existing)));
  }

  /** With unique TA ids, and locked assignments that neither double-book nor
      overload a listed TA, the schedule passes `validateSchedule`. */
  lemma ScheduleValidates(labs: seq<Lab>, tas: seq<TA>, globalSeed: int, existing: seq<Assignment>)
    requires UniqueIds(tas)
    requires DistinctKeys(LockedOf(existing))
    requires WithinCapacity(LockedOf(existing), tas)
    ensures Validate(Schedule(labs, tas, globalSeed, existing).assignments, labs, tas) == []
  {
    StartFacts(tas, globalSeed, existing);
    var p := Start(tas, globalSeed, existing).(rng := Advance(SeedState(globalSeed), |ToPlace(labs, existing)|));
    RunIs(labs, tas, globalSeed, existing);
    PlaceAllKeeps(p, Ordered(labs, globalSeed, existing), tas);
    var r := Schedule(labs, tas, globalSeed, existing).assignments;
    forall a | a in r
      ensures !OverCapacity(r, tas, a.taId)
    {
      TaMapHas(tas, a.taId);
    }
    ValidateEmptyIff(r, labs, tas);
  }

  /** `scheduleAssignments`. */
  method ScheduleAssignments(labs: seq<Lab>, tas: seq<TA>, globalSeed: int, existingAssignments: seq<Assignment>)
    returns (result: ScheduleResult)
    ensures result == Schedule(labs, tas, globalSeed, existingAssignments)
  {
    var rng := new SeededRandom(globalSeed);
    var assignments: seq<Assignment> := [];
    var unassignedLabs: seq<UnassignedLab> := [];

    var taAssignments: map<string, seq<Assignment>> := map[];
    for i := 0 to |tas|
      modifies {}
      invariant taAssignments == InitialLoads(tas[..i])
    {
      InitialLoadsStep(tas, i);
      taAssignments := taAssignments[tas[i].id := []];
    }
    assert tas[..|tas|] == tas;
    var slotOccupancy: map<SlotKey, string> := map[];

    ghost var p0 := Progress([], [], taAssignments, slotOccupancy, rng.state);
    var lockedAssignments := LockedOf(existingAssignments);
    for k := 0 to |lockedAssignments|
      modifies {}
      invariant Progress(assignments, unassignedLabs, taAssignments, slotOccupancy, rng.state)
        == LockAll(p0, lockedAssignments[..k])
    {
      LockAllStep(p0, lockedAssignments, k);
      var assignment := lockedAssignments[k];
      assignments := assignments + [assignment];
      var taAssigns := LoadsOf(taAssignments, assignment.taId);
      taAssigns := taAssigns + [assignment];
      taAssignments := taAssignments[assignment.taId := taAssigns];
      slotOccupancy := slotOccupancy[KeyOf(assignment) := assignment.labId];
    }
    assert lockedAssignments[..|lockedAssignments|] == lockedAssignments;

    LockAllKeepsRng(p0, lockedAssignments);
    ghost var start := Start(tas, globalSeed, existingAssignments);
    assert Progress(assignments, unassignedLabs, taAssignments, slotOccupancy, rng.state) == start;

    var lockedLabIds := LabIdsOf(lockedAssignments);
    var unassignedLabsList := Unlocked(labs, lockedLabIds);
    var sortedLabs := SortLabsByDifficulty(unassignedLabsList, rng);

    ghost var p1 := Progress(assignments, unassignedLabs, taAssignments, slotOccupancy, rng.state);
    assert p1 == start.(rng := Advance(SeedState(globalSeed), |ToPlace(labs, existingAssignments)|));
    assert sortedLabs == Ordered(labs, globalSeed, existingAssignments);
    RunIs(labs, tas, globalSeed, existingAssignments);
    for k := 0 to |sortedLabs|
      invariant rng.Valid()
      invariant Progress(assignments, unassignedLabs, taAssignments, slotOccupancy, rng.state)
        == PlaceAll(p1, sortedLabs[..k], tas)
    {
      PlaceAllStep(p1, sortedLabs, tas, k);
      var lab := sortedLabs[k];
      var feasibleSlots := GetFeasibleSlots(lab);
      if |feasibleSlots| == 0 {
        unassignedLabs := unassignedLabs + [UnassignedLab(lab, NoSlotsReason)];
        continue;
      }
      var bestMatch := FindBestTA(lab, feasibleSlots, tas, taAssignments, slotOccupancy, rng);
      if bestMatch.None? {
        unassignedLabs := unassignedLabs + [UnassignedLab(lab, NoTAReason)];
        continue;
      }
      var m := bestMatch.value;
      var assignment := NewAssignment(lab, m);
      assignments := assignments + [assignment];
      var taAssigns := LoadsOf(taAssignments, m.ta.id);
      taAssigns := taAssigns + [assignment];
      taAssignments := taAssignments[m.ta.id := taAssigns];
      slotOccupancy := slotOccupancy[SlotKeyOf(m.slot, m.ta.id) := lab.id];
    }
    assert sortedLabs[..|sortedLabs|] == sortedLabs;
    result := ScheduleResult(assignments, unassignedLabs);
  }
}
