/** The application store: the TA, lab and assignment lists with the
    actions that edit them, and the action that reruns the scheduler. Each
    edit replaces a list by a copy in which only the targeted records change. */
module Store {
  import opened Types
  import opened Scheduler

  /** `xs.map(x => hit(x) ? f(x) : x)`. */
  function MapWhere<T>(xs: seq<T>, hit: T -> bool, f: T -> T): (r: seq<T>)
    ensures |r| == |xs|
  {
    if xs == [] then []
    else
      var last := xs[|xs| - 1];
      MapWhere(xs[..|xs| - 1], hit, f) + [if hit(last) then f(last) else last]
  }

  /** The targeted records are rewritten, every other one is kept, in place. */
  lemma {:induction false} MapWhereAt<T>(xs: seq<T>, hit: T -> bool, f: T -> T, i: nat)
    requires i < |xs|
    ensures MapWhere(xs, hit, f)[i] == if hit(xs[i]) then f(xs[i]) else xs[i]
    decreases |xs|
  {
    if i < |xs| - 1 {
      MapWhereAt(xs[..|xs| - 1], hit, f, i);
    }
  }

  lemma MapWhereAll<T>(xs: seq<T>, hit: T -> bool, f: T -> T)
    ensures forall i :: 0 <= i < |xs| ==> MapWhere(xs, hit, f)[i] == if hit(xs[i]) then f(xs[i]) else xs[i]
  {
    forall i | 0 <= i < |xs|
      ensures MapWhere(xs, hit, f)[i] == if hit(xs[i]) then f(xs[i]) else xs[i]
    {
      MapWhereAt(xs, hit, f, i);
    }
  }

  /** Rewriting twice is rewriting once when a rewritten record that is
      still targeted is left as it is by a second rewrite. */
  lemma MapWhereIdempotent<T>(xs: seq<T>, hit: T -> bool, f: T -> T)
    requires forall x :: hit(x) && hit(f(x)) ==> f(f(x)) == f(x)
    ensures MapWhere(MapWhere(xs, hit, f), hit, f) == MapWhere(xs, hit, f)
  {
    var once := MapWhere(xs, hit, f);
    MapWhereAll(xs, hit, f);
    MapWhereAll(once, hit, f);
  }

  /** `xs.filter(keep)`. */
  function Filter<T>(xs: seq<T>, keep: T -> bool): seq<T>
  {
    if xs == [] then []
    else
      var rest := Filter(xs[..|xs| - 1], keep);
      if keep(xs[|xs| - 1]) then rest + [xs[|xs| - 1]] else rest
  }

  /** A filter keeps exactly the records it is asked to keep and changes
      nothing when it keeps them all. */
  lemma {:induction false} FilterFacts<T>(xs: seq<T>, keep: T -> bool)
    ensures forall x :: x in Filter(xs, keep) <==> x in xs && keep(x)
    ensures (forall x :: x in xs ==> keep(x)) ==> Filter(xs, keep) == xs
    ensures |Filter(xs, keep)| <= |xs|
    decreases |xs|
  {
    if xs != [] {
      var front := xs[..|xs| - 1];
      FilterFacts(front, keep);
      assert xs == front + [xs[|xs| - 1]];
    }
  }

  /** A kept record occurs in the result as often as in the input; any other not at all. */
  lemma {:induction false} FilterCount<T>(xs: seq<T>, keep: T -> bool, x: T)
    ensures multiset(Filter(xs, keep))[x] == if keep(x) then multiset(xs)[x] else 0
    decreases |xs|
  {
    if xs != [] {
      var front := xs[..|xs| - 1];
      var last := xs[|xs| - 1];
      FilterCount(front, keep, x);
      assert xs == front + [last];
      assert multiset(xs)[x] == multiset(front)[x] + multiset{last}[x];
    }
  }

  lemma FilterCounts<T>(xs: seq<T>, keep: T -> bool)
    ensures forall x :: multiset(Filter(xs, keep))[x] == if keep(x) then multiset(xs)[x] else 0
  {
    forall x
      ensures multiset(Filter(xs, keep))[x] == if keep(x) then multiset(xs)[x] else 0
    {
      FilterCount(xs, keep, x);
    }
  }

  /** Filtering a concatenation filters each part and keeps them in order. */
  lemma {:induction false} FilterAppend<T>(xs: seq<T>, ys: seq<T>, keep: T -> bool)
    ensures Filter(xs + ys, keep) == Filter(xs, keep) + Filter(ys, keep)
    decreases |ys|
  {
    if ys == [] {
      assert xs + ys == xs;
    } else {
      var front := ys[..|ys| - 1];
      FilterAppend(xs, front, keep);
      assert (xs + ys)[..|xs + ys| - 1] == xs + front;
      assert (xs + ys)[|xs + ys| - 1] == ys[|ys| - 1];
    }
  }

  /** `idx` lists, in increasing order, exactly the positions of `xs` whose
      records are kept, and `r` holds those records in that order. */
  ghost predicate KeptAt<T>(xs: seq<T>, keep: T -> bool, r: seq<T>, idx: seq<nat>)
  {
    && |idx| == |r|
    && (forall k :: 0 <= k < |idx| ==> idx[k] < |xs| && r[k] == xs[idx[k]])
    && (forall k, l :: 0 <= k < l < |idx| ==> idx[k] < idx[l])
    && (forall i :: 0 <= i < |xs| ==> (keep(xs[i]) <==> i in idx))
  }

  /** The filter's result is the subsequence of the kept records, in their
      original order. */
  lemma {:induction false} FilterIndices<T>(xs: seq<T>, keep: T -> bool) returns (idx: seq<nat>)
    ensures KeptAt(xs, keep, Filter(xs, keep), idx)
    decreases |xs|
  {
    if xs == [] {
      idx := [];
    } else {
      var front := xs[..|xs| - 1];
      var last := xs[|xs| - 1];
      var before := FilterIndices(front, keep);
      assert xs == front + [last];
      idx := KeptAtSnoc(front, last, keep, Filter(front, keep), before);
    }
  }

  /** Appending a record extends the kept positions by its own when it is kept. */
  lemma KeptAtSnoc<T>(front: seq<T>, x: T, keep: T -> bool, rest: seq<T>, before: seq<nat>) returns (idx: seq<nat>)
    requires KeptAt(front, keep, rest, before)
    ensures KeptAt(front + [x], keep, if keep(x) then rest + [x] else rest, idx)
  {
    var xs := front + [x];
    var n := |front|;
    var r := if keep(x) then rest + [x] else rest;
    idx := if keep(x) then before + [n] else before;
    forall k | 0 <= k < |idx|
      ensures idx[k] < |xs| && r[k] == xs[idx[k]]
    {
      if k < |before| {
        assert idx[k] == before[k] && r[k] == rest[k] && xs[before[k]] == front[before[k]];
      }
    }
    forall i | 0 <= i < |xs|
      ensures keep(xs[i]) <==> i in idx
    {
      if i < n {
        assert xs[i] == front[i];
      } else {
        assert forall k :: 0 <= k < |before| ==> before[k] < n;
      }
    }
  }

  /** The fields of a new TA, before it gets an id. */
  datatype TADraft = TADraft(name: string, preferredDays: seq<Day>, preferredTimes: seq<SlotTime>, maxLabs: int, seed: Option<int>)

  /** `{ ...ta, id }`. */
  function WithId(draft: TADraft, id: string): TA
  {
    TA(id, draft.name, draft.preferredDays, draft.preferredTimes, draft.maxLabs, draft.seed)
  }

  /** `Partial<TA>`: each field present or absent; the optional seed may be
      present as `undefined`, written `Some(None)`. */
  datatype TAPatch = TAPatch(
    id: Option<string>,
    name: Option<string>,
    preferredDays: Option<seq<Day>>,
    preferredTimes: Option<seq<SlotTime>>,
    maxLabs: Option<int>,
    seed: Option<Option<int>>)

  /** `Partial<Lab>`, with the same convention for the optional fields. */
  datatype LabPatch = LabPatch(
    id: Option<string>,
    code: Option<string>,
    title: Option<string>,
    section: Option<string>,
    instructorName: Option<Option<string>>,
    feasibleDays: Option<seq<Day>>,
    feasibleTimes: Option<seq<SlotTime>>,
    lockedDay: Option<Option<Day>>,
    lockedTime: Option<Option<SlotTime>>)

  function Pick<T>(patch: Option<T>, current: T): T
  {
    if patch.Some? then patch.value else current
  }

  /** `{ ...ta, ...updates }`: every field the patch carries wins. */
  function PatchTA(ta: TA, u: TAPatch): TA
  {
    TA(Pick(u.id, ta.id), Pick(u.name, ta.name), Pick(u.preferredDays, ta.preferredDays),
       Pick(u.preferredTimes, ta.preferredTimes), Pick(u.maxLabs, ta.maxLabs), Pick(u.seed, ta.seed))
  }

  /** `{ ...lab, ...updates }`. */
  function PatchLab(lab: Lab, u: LabPatch): Lab
  {
    Lab(Pick(u.id, lab.id), Pick(u.code, lab.code), Pick(u.title, lab.title), Pick(u.section, lab.section),
        Pick(u.instructorName, lab.instructorName), Pick(u.feasibleDays, lab.feasibleDays),
        Pick(u.feasibleTimes, lab.feasibleTimes), Pick(u.lockedDay, lab.lockedDay), Pick(u.lockedTime, lab.lockedTime))
  }

  /** `updateTA`: every TA with the id is patched, every other TA kept. */
  function UpdateTAs(tas: seq<TA>, id: string, updates: TAPatch): (r: seq<TA>)
    ensures |r| == |tas|
    ensures forall i :: 0 <= i < |tas| ==> r[i] == if tas[i].id == id then PatchTA(tas[i], updates) else tas[i]
  {
    MapWhereAll(tas, (ta: TA) => ta.id == id, (ta: TA) => PatchTA(ta, updates));
    MapWhere(tas, (ta: TA) => ta.id == id, (ta: TA) => PatchTA(ta, updates))
  }

  /** The records `removeTA` keeps: TAs with another id, and assignments of another TA. */
  function OtherTA(id: string): TA -> bool
  {
    (ta: TA) => ta.id != id
  }

  function NotAssignedTo(id: string): Assignment -> bool
  {
    (a: Assignment) => a.taId != id
  }

  /** `removeTA` on the TA list. */
  function WithoutTA(tas: seq<TA>, id: string): (r: seq<TA>)
    ensures forall ta :: multiset(r)[ta] == if ta.id != id then multiset(tas)[ta] else 0
    ensures forall ta :: ta in r <==> ta in tas && ta.id != id
    ensures (forall ta :: ta in tas ==> ta.id != id) ==> r == tas
  {
    FilterFacts(tas, OtherTA(id));
    FilterCounts(tas, OtherTA(id));
    Filter(tas, OtherTA(id))
  }

  /** `removeTA` on the assignment list. */
  function WithoutTAAssignments(assignments: seq<Assignment>, id: string): (r: seq<Assignment>)
    ensures forall a :: multiset(r)[a] == if a.taId != id then multiset(assignments)[a] else 0
    ensures forall a :: a in r <==> a in assignments && a.taId != id
    ensures (forall a :: a in assignments ==> a.taId != id) ==> r == assignments
  {
    FilterFacts(assignments, NotAssignedTo(id));
    FilterCounts(assignments, NotAssignedTo(id));
    Filter(assignments, NotAssignedTo(id))
  }

  /** `removeTA` keeps the remaining TAs and assignments in their original
      order: each result is the subsequence of the kept positions. */
  lemma RemoveTAKeepsOrder(tas: seq<TA>, assignments: seq<Assignment>, id: string)
    returns (taIdx: seq<nat>, assignmentIdx: seq<nat>)
    ensures KeptAt(tas, OtherTA(id), WithoutTA(tas, id), taIdx)
    ensures KeptAt(assignments, NotAssignedTo(id), WithoutTAAssignments(assignments, id), assignmentIdx)
  {
    taIdx := FilterIndices(tas, OtherTA(id));
    assignmentIdx := FilterIndices(assignments, NotAssignedTo(id));
  }

  /** `updateLab`. */
  function UpdateLabs(labs: seq<Lab>, id: string, updates: LabPatch): (r: seq<Lab>)
    ensures |r| == |labs|
    ensures forall i :: 0 <= i < |labs| ==> r[i] == if labs[i].id == id then PatchLab(labs[i], updates) else labs[i]
  {
    MapWhereAll(labs, (lab: Lab) => lab.id == id, (lab: Lab) => PatchLab(lab, updates));
    MapWhere(labs, (lab: Lab) => lab.id == id, (lab: Lab) => PatchLab(lab, updates))
  }

  /** `lockLabSlot`: sets exactly the locked day and time of the labs with the id. */
  function LockLabSlots(labs: seq<Lab>, id: string, day: Option<Day>, time: Option<SlotTime>): (r: seq<Lab>)
    ensures |r| == |labs|
    ensures forall i :: 0 <= i < |labs| ==> r[i] == if labs[i].id == id then labs[i].(lockedDay := day, lockedTime := time) else labs[i]
  {
    MapWhereAll(labs, (lab: Lab) => lab.id == id, (lab: Lab) => lab.(lockedDay := day, lockedTime := time));
    MapWhere(labs, (lab: Lab) => lab.id == id, (lab: Lab) => lab.(lockedDay := day, lockedTime := time))
  }

  /** `lockAssignment`. */
  function LockAssignments(assignments: seq<Assignment>, labId: string, lock: bool): (r: seq<Assignment>)
    ensures |r| == |assignments|
    ensures forall i :: 0 <= i < |assignments| ==>
      r[i] == if assignments[i].labId == labId then assignments[i].(locked := Some(lock)) else assignments[i]
  {
    MapWhereAll(assignments, (a: Assignment) => a.labId == labId, (a: Assignment) => a.(locked := Some(lock)));
    MapWhere(assignments, (a: Assignment) => a.labId == labId, (a: Assignment) => a.(locked := Some(lock)))
  }

  /** `moveAssignment`: the lab's assignments take the new TA, day and time
      and become locked; their scores stay. */
  function MoveAssignments(assignments: seq<Assignment>, labId: string, taId: string, day: Day, time: SlotTime): (r: seq<Assignment>)
    ensures |r| == |assignments|
    ensures forall i :: 0 <= i < |assignments| ==>
      r[i] == if assignments[i].labId == labId then assignments[i].(taId := taId, day := day, time := time, locked := Some(true))
              else assignments[i]
  {
    MapWhereAll(assignments, (a: Assignment) => a.labId == labId, (a: Assignment) => a.(taId := taId, day := day, time := time, locked := Some(true)));
    MapWhere(assignments, (a: Assignment) => a.labId == labId, (a: Assignment) => a.(taId := taId, day := day, time := time, locked := Some(true)))
  }

  /** Repeating an edit with the same arguments changes nothing more. */
  lemma EditsIdempotent(tas: seq<TA>, labs: seq<Lab>, assignments: seq<Assignment>, id: string,
                        tu: TAPatch, lu: LabPatch, day: Day, time: SlotTime, lockDay: Option<Day>, lockTime: Option<SlotTime>,
                        lock: bool, taId: string)
    ensures UpdateTAs(UpdateTAs(tas, id, tu), id, tu) == UpdateTAs(tas, id, tu)
    ensures UpdateLabs(UpdateLabs(labs, id, lu), id, lu) == UpdateLabs(labs, id, lu)
    ensures LockLabSlots(LockLabSlots(labs, id, lockDay, lockTime), id, lockDay, lockTime) == LockLabSlots(labs, id, lockDay, lockTime)
    ensures LockAssignments(LockAssignments(assignments, id, lock), id, lock) == LockAssignments(assignments, id, lock)
    ensures MoveAssignments(MoveAssignments(assignments, id, taId, day, time), id, taId, day, time)
      == MoveAssignments(assignments, id, taId, day, time)
  {
    MapWhereIdempotent(tas, (ta: TA) => ta.id == id, (ta: TA) => PatchTA(ta, tu));
    MapWhereIdempotent(labs, (lab: Lab) => lab.id == id, (lab: Lab) => PatchLab(lab, lu));
    MapWhereIdempotent(labs, (lab: Lab) => lab.id == id, (lab: Lab) => lab.(lockedDay := lockDay, lockedTime := lockTime));
    MapWhereIdempotent(assignments, (a: Assignment) => a.labId == id, (a: Assignment) => a.(locked := Some(lock)));
    MapWhereIdempotent(assignments, (a: Assignment) => a.labId == id, (a: Assignment) => a.(taId := taId, day := day, time := time, locked := Some(true)));
  }

  lemma {:induction false} LockedOfHas(assignments: seq<Assignment>, a: Assignment)
    ensures a in LockedOf(assignments) <==> a in assignments && IsLocked(a)
    decreases |assignments|
  {
    if assignments != [] {
      var front := assignments[..|assignments| - 1];
      LockedOfHas(front, a);
      assert assignments == front + [assignments[|assignments| - 1]];
    }
  }

  /** Filtering the locked assignments a second time, as the scheduler does
      after the store, keeps them all. */
  lemma {:induction false} LockedOfIdempotent(assignments: seq<Assignment>)
    ensures LockedOf(LockedOf(assignments)) == LockedOf(assignments)
    decreases |assignments|
  {
    if assignments != [] {
      var front := assignments[..|assignments| - 1];
      LockedOfIdempotent(front);
      var rest := LockedOf(front);
      if IsLocked(assignments[|assignments| - 1]) {
        assert (rest + [assignments[|assignments| - 1]])[..|rest|] == rest;
      }
    }
  }

  /** A rerun starts its result with the locked assignments the store held, in order. */
  lemma RunKeepsLocked(labs: seq<Lab>, tas: seq<TA>, globalSeed: int, assignments: seq<Assignment>)
    ensures var r := Schedule(labs, tas, globalSeed, LockedOf(assignments));
      |LockedOf(assignments)| <= |r.assignments| && r.assignments[..|LockedOf(assignments)|] == LockedOf(assignments)
  {
    ScheduleKeepsLockedAndAccounts(labs, tas, globalSeed, LockedOf(assignments));
    LockedOfIdempotent(assignments);
  }

  /** A moved assignment is locked, so the next run keeps it as moved. */
  lemma MovedSurvivesRun(labs: seq<Lab>, tas: seq<TA>, globalSeed: int, assignments: seq<Assignment>,
                         labId: string, taId: string, day: Day, time: SlotTime)
    ensures var moved := MoveAssignments(assignments, labId, taId, day, time);
      forall a :: a in moved && a.labId == labId ==> a in Schedule(labs, tas, globalSeed, LockedOf(moved)).assignments
  {
    var moved := MoveAssignments(assignments, labId, taId, day, time);
    RunKeepsLocked(labs, tas, globalSeed, moved);
    var r := Schedule(labs, tas, globalSeed, LockedOf(moved)).assignments;
    forall a | a in moved && a.labId == labId
      ensures a in r
    {
      LockedOfHas(moved, a);
      assert a in r[..|LockedOf(moved)|];
    }
  }

  /** The store's lists and seed; loading, saving and the busy and error
      flags are not part of this model. */
  class AppStore {
    var labs: seq<Lab>
    var tas: seq<TA>
    var globalSeed: int
    var assignments: seq<Assignment>
    var unassignedLabs: seq<UnassignedLab>

    constructor (labs: seq<Lab>, tas: seq<TA>, globalSeed: int, assignments: seq<Assignment>, unassignedLabs: seq<UnassignedLab>)
      ensures this.labs == labs && this.tas == tas && this.globalSeed == globalSeed
      ensures this.assignments == assignments && this.unassignedLabs == unassignedLabs
    {
      this.labs := labs;
      this.tas := tas;
      this.globalSeed := globalSeed;
      this.assignments := assignments;
      this.unassignedLabs := unassignedLabs;
    }

    /** `addTA`, with the freshly minted id given. */
    method AddTA(ta: TADraft, newId: string)
      modifies this
      ensures tas == old(tas) + [WithId(ta, newId)]
      ensures labs == old(labs) && assignments == old(assignments) && unassignedLabs == old(unassignedLabs)
      ensures globalSeed == old(globalSeed)
    {
      tas := tas + [WithId(ta, newId)];
    }

    method UpdateTA(id: string, updates: TAPatch)
      modifies this
      ensures tas == UpdateTAs(old(tas), id, updates)
      ensures labs == old(labs) && assignments == old(assignments) && unassignedLabs == old(unassignedLabs)
      ensures globalSeed == old(globalSeed)
    {
      tas := UpdateTAs(tas, id, updates);
    }

    method RemoveTA(id: string)
      modifies this
      ensures tas == WithoutTA(old(tas), id) && assignments == WithoutTAAssignments(old(assignments), id)
      ensures labs == old(labs) && unassignedLabs == old(unassignedLabs) && globalSeed == old(globalSeed)
    {
      tas, assignments := WithoutTA(tas, id), WithoutTAAssignments(assignments, id);
    }

    method UpdateLab(id: string, updates: LabPatch)
      modifies this
      ensures labs == UpdateLabs(old(labs), id, updates)
      ensures tas == old(tas) && assignments == old(assignments) && unassignedLabs == old(unassignedLabs)
      ensures globalSeed == old(globalSeed)
    {
      labs := UpdateLabs(labs, id, updates);
    }

    method LockLabSlot(id: string, day: Option<Day>, time: Option<SlotTime>)
      modifies this
      ensures labs == LockLabSlots(old(labs), id, day, time)
      ensures tas == old(tas) && assignments == old(assignments) && unassignedLabs == old(unassignedLabs)
      ensures globalSeed == old(globalSeed)
    {
      labs := LockLabSlots(labs, id, day, time);
    }

    /** `runScheduler`: only the locked assignments go in; the result
      replaces the assignments and the unassigned labs. */
    method RunScheduler()
      modifies this
      ensures var r := Schedule(old(labs), old(tas), old(globalSeed), LockedOf(old(assignments)));
        assignments == r.assignments && unassignedLabs == r.unassignedLabs
      ensures |LockedOf(old(assignments))| <= |assignments|
      ensures assignments[..|LockedOf(old(assignments))|] == LockedOf(old(assignments))
      ensures labs == old(labs) && tas == old(tas) && globalSeed == old(globalSeed)
    {
      RunKeepsLocked(labs, tas, globalSeed, assignments);
      var result := ScheduleAssignments(labs, tas, globalSeed, LockedOf(assignments));
      assignments := result.assignments;
      unassignedLabs := result.unassignedLabs;
    }

    method SetGlobalSeed(seed: int)
      modifies this
      ensures globalSeed == seed
      ensures labs == old(labs) && tas == old(tas) && assignments == old(assignments) && unassignedLabs == old(unassignedLabs)
    {
      globalSeed := seed;
    }

    method LockAssignment(labId: string, lock: bool)
      modifies this
      ensures assignments == LockAssignments(old(assignments), labId, lock)
      ensures labs == old(labs) && tas == old(tas) && unassignedLabs == old(unassignedLabs) && globalSeed == old(globalSeed)
    {
      assignments := LockAssignments(assignments, labId, lock);
    }

    method MoveAssignment(labId: string, taId: string, day: Day, time: SlotTime)
      modifies this
      ensures assignments == MoveAssignments(old(assignments), labId, taId, day, time)
      ensures labs == old(labs) && tas == old(tas) && unassignedLabs == old(unassignedLabs) && globalSeed == old(globalSeed)
    {
      assignments := MoveAssignments(assignments, labId, taId, day, time);
    }
  }
}
