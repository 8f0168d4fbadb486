/** Checking a schedule: one message for every assignment that lands on a
    `(day, time, TA)` already taken, then one for every TA holding more labs
    than their maximum, TAs in order of first appearance. */
module Validation {
  import opened Types
  import opened Numerals

  /** How many assignments go to the TA `id`. */
  function Count(assignments: seq<Assignment>, id: string): nat
  {
    if assignments == [] then 0
    else
      var last := assignments[|assignments| - 1];
      Count(assignments[..|assignments| - 1], id) + (if last.taId == id then 1 else 0)
  }

  /** No two assignments share a day, time and TA. */
  predicate DistinctKeys(assignments: seq<Assignment>)
  {
    forall i, j :: 0 <= i < j < |assignments| ==> KeyOf(assignments[i]) != KeyOf(assignments[j])
  }

  function KeySet(assignments: seq<Assignment>): set<SlotKey>
  {
    set a | a in assignments :: KeyOf(a)
  }

  /** `new Map(tas.map(ta => [ta.id, ta]))`: a later TA with the same id
      replaces an earlier one. */
  function TaMap(tas: seq<TA>): map<string, TA>
  {
    if tas == [] then map[] else TaMap(tas[..|tas| - 1])[tas[|tas| - 1].id := tas[|tas| - 1]]
  }

  /** `ta?.name || assignment.taId`. */
  function DisplayName(tas: seq<TA>, taId: string): string
  {
    if taId in TaMap(tas) && TaMap(tas)[taId].name != "" then TaMap(tas)[taId].name else taId
  }

  function DoubleBookingMessage(a: Assignment, tas: seq<TA>): string
  {
    "TA " + DisplayName(tas, a.taId) + " has multiple labs at " + DayName(a.day) + " " + NatToDecimal(a.time)
  }

  /** The first loop: an assignment whose key was seen before adds a message. */
  function DoubleBookings(assignments: seq<Assignment>, tas: seq<TA>): seq<string>
  {
    if assignments == [] then []
    else
      var front := assignments[..|assignments| - 1];
      var last := assignments[|assignments| - 1];
      DoubleBookings(front, tas) + (if KeyOf(last) in KeySet(front) then [DoubleBookingMessage(last, tas)] else [])
  }

  /** The TA ids in the order the counting map first meets them. */
  function TaOrder(assignments: seq<Assignment>): seq<string>
  {
    if assignments == [] then []
    else
      var order := TaOrder(assignments[..|assignments| - 1]);
      var id := assignments[|assignments| - 1].taId;
      if id in order then order else order + [id]
  }

  function CapacityMessage(ta: TA, count: nat): string
  {
    "TA " + ta.name + " is assigned " + NatToDecimal(count) + " labs but max is " + IntToDecimal(ta.maxLabs)
  }

  /** Over capacity: the TA is known and holds more labs than their maximum. */
  predicate OverCapacity(assignments: seq<Assignment>, tas: seq<TA>, id: string)
  {
    id in TaMap(tas) && Count(assignments, id) > TaMap(tas)[id].maxLabs
  }

  /** The last loop, over the ids in `order`. */
  function CapacityErrors(order: seq<string>, assignments: seq<Assignment>, tas: seq<TA>): seq<string>
  {
    if order == [] then []
    else
      var id := order[|order| - 1];
      CapacityErrors(order[..|order| - 1], assignments, tas)
        + (if OverCapacity(assignments, tas, id) then [CapacityMessage(TaMap(tas)[id], Count(assignments, id))] else [])
  }

  /** What `validateSchedule` returns; the labs play no part. */
  function Validate(assignments: seq<Assignment>, labs: seq<Lab>, tas: seq<TA>): seq<string>
  {
    DoubleBookings(assignments, tas) + CapacityErrors(TaOrder(assignments), assignments, tas)
  }

  /** `slotMap`: the assignments seen at each key. */
  function SlotMap(assignments: seq<Assignment>): map<SlotKey, seq<Assignment>>
  {
    if assignments == [] then map[]
    else
      var m := SlotMap(assignments[..|assignments| - 1]);
      var a := assignments[|assignments| - 1];
      m[KeyOf(a) := (if KeyOf(a) in m then m[KeyOf(a)] else []) + [a]]
  }

  /** `taAssignmentCounts`. */
  function CountMap(assignments: seq<Assignment>): map<string, nat>
  {
    if assignments == [] then map[]
    else
      var m := CountMap(assignments[..|assignments| - 1]);
      var id := assignments[|assignments| - 1].taId;
      m[id := (if id in m then m[id] else 0) + 1]
  }

  lemma {:induction false} SlotMapKeys(assignments: seq<Assignment>, k: SlotKey)
    ensures k in SlotMap(assignments) <==> k in KeySet(assignments)
    decreases |assignments|
  {
    if assignments != [] {
      var front := assignments[..|assignments| - 1];
      SlotMapKeys(front, k);
      assert assignments == front + [assignments[|assignments| - 1]];
      assert KeySet(assignments) == KeySet(front) + {KeyOf(assignments[|assignments| - 1])};
    }
  }

  lemma {:induction false} SlotMapNonEmpty(assignments: seq<Assignment>, k: SlotKey)
    ensures k in SlotMap(assignments) ==> |SlotMap(assignments)[k]| > 0
    decreases |assignments|
  {
    if assignments != [] {
      SlotMapNonEmpty(assignments[..|assignments| - 1], k);
    }
  }

  /** The counting map holds exactly the ids met so far, in `order`, each with its count. */
  lemma {:induction false} CountMapCounts(assignments: seq<Assignment>, id: string)
    ensures id in CountMap(assignments) <==> id in TaOrder(assignments)
    ensures id in CountMap(assignments) ==> CountMap(assignments)[id] == Count(assignments, id)
    ensures id !in CountMap(assignments) ==> Count(assignments, id) == 0
    decreases |assignments|
  {
    if assignments != [] {
      CountMapCounts(assignments[..|assignments| - 1], id);
    }
  }

  lemma {:induction false} CountPositive(assignments: seq<Assignment>, id: string)
    ensures Count(assignments, id) > 0 <==> exists a :: a in assignments && a.taId == id
    decreases |assignments|
  {
    if assignments != [] {
      var front := assignments[..|assignments| - 1];
      CountPositive(front, id);
      assert assignments == front + [assignments[|assignments| - 1]];
    }
  }

  /** The order lists every TA with an assignment, once. */
  lemma {:induction false} TaOrderFacts(assignments: seq<Assignment>)
    ensures forall id :: id in TaOrder(assignments) <==> exists a :: a in assignments && a.taId == id
    ensures forall i, j :: 0 <= i < j < |TaOrder(assignments)| ==> TaOrder(assignments)[i] != TaOrder(assignments)[j]
    decreases |assignments|
  {
    if assignments != [] {
      var front := assignments[..|assignments| - 1];
      TaOrderFacts(front);
      assert assignments == front + [assignments[|assignments| - 1]];
    }
  }

  /** Each assignment past the first at its key adds one message. */
  lemma {:induction false} DoubleBookingsCount(assignments: seq<Assignment>, tas: seq<TA>)
    ensures |DoubleBookings(assignments, tas)| == |assignments| - |KeySet(assignments)|
    decreases |assignments|
  {
    if assignments != [] {
      var front := assignments[..|assignments| - 1];
      var last := assignments[|assignments| - 1];
      DoubleBookingsCount(front, tas);
      assert assignments == front + [last];
      assert KeySet(assignments) == KeySet(front) + {KeyOf(last)};
      if KeyOf(last) !in KeySet(front) {
        assert |KeySet(assignments)| == |KeySet(front)| + 1;
      }
      KeySetBound(front);
    }
  }

  lemma {:induction false} KeySetBound(assignments: seq<Assignment>)
    ensures |KeySet(assignments)| <= |assignments|
    decreases |assignments|
  {
    if assignments != [] {
      var front := assignments[..|assignments| - 1];
      KeySetBound(front);
      assert assignments == front + [assignments[|assignments| - 1]];
      assert KeySet(assignments) == KeySet(front) + {KeyOf(assignments[|assignments| - 1])};
    }
  }

  /** Keys stay distinct when a record is appended exactly when its key is new. */
  lemma DistinctKeysStep(front: seq<Assignment>, last: Assignment)
    ensures DistinctKeys(front + [last]) <==> DistinctKeys(front) && KeyOf(last) !in KeySet(front)
  {
    var all := front + [last];
    var n := |all|;
    if DistinctKeys(all) {
      forall i, j | 0 <= i < j < n - 1
        ensures KeyOf(front[i]) != KeyOf(front[j])
      {
        assert front[i] == all[i] && front[j] == all[j];
      }
      forall a | a in front
        ensures KeyOf(a) != KeyOf(last)
      {
        var i :| 0 <= i < n - 1 && front[i] == a;
        assert all[i] == a && all[n - 1] == last;
      }
    } else {
      var i, j :| 0 <= i < j < n && KeyOf(all[i]) == KeyOf(all[j]);
      assert all[i] == front[i];
      if j < n - 1 {
        assert all[j] == front[j];
      } else {
        assert KeyOf(front[i]) in KeySet(front);
      }
    }
  }

  /** No double-booking message exactly when every key is used once. */
  lemma {:induction false} DoubleBookingsEmptyIff(assignments: seq<Assignment>, tas: seq<TA>)
    ensures DoubleBookings(assignments, tas) == [] <==> DistinctKeys(assignments)
    decreases |assignments|
  {
    if assignments != [] {
      var front := assignments[..|assignments| - 1];
      var last := assignments[|assignments| - 1];
      DoubleBookingsEmptyIff(front, tas);
      DistinctKeysStep(front, last);
      assert assignments == front + [last];
    }
  }

  /** No capacity message exactly when no TA listed in `order` is over capacity. */
  lemma {:induction false} CapacityErrorsEmptyIff(order: seq<string>, assignments: seq<Assignment>, tas: seq<TA>)
    ensures CapacityErrors(order, assignments, tas) == [] <==>
      forall id :: id in order ==> !OverCapacity(assignments, tas, id)
    decreases |order|
  {
    if order != [] {
      var front := order[..|order| - 1];
      CapacityErrorsEmptyIff(front, assignments, tas);
      assert order == front + [order[|order| - 1]];
    }
  }

  /** The ids in `order` whose TA is over capacity. */
  function OverIds(order: seq<string>, assignments: seq<Assignment>, tas: seq<TA>): set<string>
  {
    set id | id in order && OverCapacity(assignments, tas, id)
  }

  /** The over-capacity ids after one more id of the order. */
  lemma OverIdsStep(front: seq<string>, id: string, assignments: seq<Assignment>, tas: seq<TA>)
    ensures OverIds(front + [id], assignments, tas) ==
      OverIds(front, assignments, tas) + (if OverCapacity(assignments, tas, id) then {id} else {})
  {
  }

  /** Over an order without repeats, the capacity loop emits one message
      per over-capacity id. */
  lemma {:induction false} CapacityErrorsCount(order: seq<string>, assignments: seq<Assignment>, tas: seq<TA>)
    requires forall i, j :: 0 <= i < j < |order| ==> order[i] != order[j]
    ensures |CapacityErrors(order, assignments, tas)| == |OverIds(order, assignments, tas)|
    decreases |order|
  {
    if order != [] {
      var front := order[..|order| - 1];
      var id := order[|order| - 1];
      CapacityErrorsCount(front, assignments, tas);
      assert order == front + [id];
      OverIdsStep(front, id, assignments, tas);
      assert id !in OverIds(front, assignments, tas) by {
        forall i | 0 <= i < |front|
          ensures front[i] != id
        {
          assert front[i] == order[i];
        }
      }
    }
  }

  /** Every over-capacity id in the order gets its message. */
  lemma {:induction false} CapacityErrorsHasEach(order: seq<string>, assignments: seq<Assignment>, tas: seq<TA>)
    ensures forall id :: id in OverIds(order, assignments, tas) ==>
      CapacityMessage(TaMap(tas)[id], Count(assignments, id)) in CapacityErrors(order, assignments, tas)
    decreases |order|
  {
    if order != [] {
      var front := order[..|order| - 1];
      CapacityErrorsHasEach(front, assignments, tas);
      assert order == front + [order[|order| - 1]];
      OverIdsStep(front, order[|order| - 1], assignments, tas);
    }
  }

  /** Every capacity message belongs to an over-capacity id in the order. */
  lemma {:induction false} CapacityErrorsOnlyOver(order: seq<string>, assignments: seq<Assignment>, tas: seq<TA>)
    ensures forall m :: m in CapacityErrors(order, assignments, tas) ==>
      exists id :: id in OverIds(order, assignments, tas) && m == CapacityMessage(TaMap(tas)[id], Count(assignments, id))
    decreases |order|
  {
    if order != [] {
      var front := order[..|order| - 1];
      CapacityErrorsOnlyOver(front, assignments, tas);
      assert order == front + [order[|order| - 1]];
      OverIdsStep(front, order[|order| - 1], assignments, tas);
    }
  }

  /** `validateSchedule` gives every known TA with assignments over their
      maximum exactly one capacity message, in first-appearance order, and
      gives no other capacity message. */
  lemma CapacityMessages(assignments: seq<Assignment>, tas: seq<TA>)
    ensures forall id :: id in OverIds(TaOrder(assignments), assignments, tas) <==>
      (exists a :: a in assignments && a.taId == id) && OverCapacity(assignments, tas, id)
    ensures |CapacityErrors(TaOrder(assignments), assignments, tas)| == |OverIds(TaOrder(assignments), assignments, tas)|
    ensures forall id :: id in OverIds(TaOrder(assignments), assignments, tas) ==>
      CapacityMessage(TaMap(tas)[id], Count(assignments, id)) in CapacityErrors(TaOrder(assignments), assignments, tas)
    ensures forall m :: m in CapacityErrors(TaOrder(assignments), assignments, tas) ==>
      exists id :: id in OverIds(TaOrder(assignments), assignments, tas) && m == CapacityMessage(TaMap(tas)[id], Count(assignments, id))
  {
    TaOrderFacts(assignments);
    CapacityErrorsCount(TaOrder(assignments), assignments, tas);
    CapacityErrorsHasEach(TaOrder(assignments), assignments, tas);
    CapacityErrorsOnlyOver(TaOrder(assignments), assignments, tas);
  }

  /** `validateSchedule` reports nothing exactly when no two assignments
      share a day, time and TA, and every known TA with assignments is
      within their maximum. */
  lemma ValidateEmptyIff(assignments: seq<Assignment>, labs: seq<Lab>, tas: seq<TA>)
    ensures Validate(assignments, labs, tas) == [] <==>
      DistinctKeys(assignments) && forall a :: a in assignments ==> !OverCapacity(assignments, tas, a.taId)
  {
    DoubleBookingsEmptyIff(assignments, tas);
    CapacityErrorsEmptyIff(TaOrder(assignments), assignments, tas);
    TaOrderFacts(assignments);
  }

  lemma {:induction false} TaMapHas(tas: seq<TA>, id: string)
    ensures id in TaMap(tas) <==> exists ta :: ta in tas && ta.id == id
    ensures id in TaMap(tas) ==> TaMap(tas)[id] in tas && TaMap(tas)[id].id == id
    decreases |tas|
  {
    if tas != [] {
      var front := tas[..|tas| - 1];
      TaMapHas(front, id);
      assert tas == front + [tas[|tas| - 1]];
    }
  }

  /** With unique ids the map finds each TA itself. */
  lemma {:induction false} TaMapUnique(tas: seq<TA>, ta: TA)
    requires forall i, j :: 0 <= i < j < |tas| ==> tas[i].id != tas[j].id
    requires ta in tas
    ensures ta.id in TaMap(tas) && TaMap(tas)[ta.id] == ta
    decreases |tas|
  {
    var front := tas[..|tas| - 1];
    if ta != tas[|tas| - 1] {
      assert ta in front;
      TaMapUnique(front, ta);
      var i :| 0 <= i < |front| && front[i] == ta;
      assert tas[i] == ta;
    }
  }

  lemma TaMapStep(tas: seq<TA>, i: nat)
    requires i < |tas|
    ensures TaMap(tas[..i + 1]) == TaMap(tas[..i])[tas[i].id := tas[i]]
  {
    assert tas[..i + 1][..i] == tas[..i];
  }

  lemma DoubleBookingsStep(assignments: seq<Assignment>, tas: seq<TA>, k: nat)
    requires k < |assignments|
    ensures var front := assignments[..k]; var a := assignments[k];
      DoubleBookings(assignments[..k + 1], tas) ==
        DoubleBookings(front, tas) + (if KeyOf(a) in KeySet(front) then [DoubleBookingMessage(a, tas)] else [])
  {
    assert assignments[..k + 1][..k] == assignments[..k];
  }

  lemma SlotMapStep(assignments: seq<Assignment>, k: nat)
    requires k < |assignments|
    ensures var front := assignments[..k]; var a := assignments[k];
      SlotMap(assignments[..k + 1]) ==
        SlotMap(front)[KeyOf(a) := (if KeyOf(a) in SlotMap(front) then SlotMap(front)[KeyOf(a)] else []) + [a]]
  {
    assert assignments[..k + 1][..k] == assignments[..k];
  }

  lemma CountStep(assignments: seq<Assignment>, k: nat)
    requires k < |assignments|
    ensures var front := assignments[..k]; var id := assignments[k].taId;
      && CountMap(assignments[..k + 1]) == CountMap(front)[id := (if id in CountMap(front) then CountMap(front)[id] else 0) + 1]
      && TaOrder(assignments[..k + 1]) == if id in TaOrder(front) then TaOrder(front) else TaOrder(front) + [id]
  {
    assert assignments[..k + 1][..k] == assignments[..k];
  }

  lemma CapacityStep(order: seq<string>, assignments: seq<Assignment>, tas: seq<TA>, k: nat)
    requires k < |order|
    ensures CapacityErrors(order[..k + 1], assignments, tas) == CapacityErrors(order[..k], assignments, tas)
      + (if OverCapacity(assignments, tas, order[k]) then [CapacityMessage(TaMap(tas)[order[k]], Count(assignments, order[k]))] else [])
  {
    assert order[..k + 1][..k] == order[..k];
  }

  /** The double-booking loop of `validateSchedule`, given its TA map. */
  method DoubleBookingErrors(assignments: seq<Assignment>, taMap: map<string, TA>, ghost tas: seq<TA>)
    returns (errors: seq<string>)
    requires taMap == TaMap(tas)
    ensures errors == DoubleBookings(assignments, tas)
  {
    errors := [];
    var slotMap: map<SlotKey, seq<Assignment>> := map[];
    for k := 0 to |assignments|
      invariant slotMap == SlotMap(assignments[..k])
      invariant errors == DoubleBookings(assignments[..k], tas)
    {
      DoubleBookingsStep(assignments, tas, k);
      SlotMapStep(assignments, k);
      var assignment := assignments[k];
      var slotKey := KeyOf(assignment);
      SlotMapKeys(assignments[..k], slotKey);
      SlotMapNonEmpty(assignments[..k], slotKey);
      var existing := if slotKey in slotMap then slotMap[slotKey] else [];
      existing := existing + [assignment];
      slotMap := slotMap[slotKey := existing];
      if |existing| > 1 {
        var name := if assignment.taId in taMap && taMap[assignment.taId].name != "" then taMap[assignment.taId].name
                    else assignment.taId;
        errors := errors + ["TA " + name + " has multiple labs at " + DayName(assignment.day) + " " + NatToDecimal(assignment.time)];
      }
    }
    assert assignments[..|assignments|] == assignments;
  }

  /** The counting loop of `validateSchedule`: the counts, and the order in
      which the map yields its keys. */
  method CountPerTa(assignments: seq<Assignment>) returns (taAssignmentCounts: map<string, nat>, order: seq<string>)
    ensures taAssignmentCounts == CountMap(assignments) && order == TaOrder(assignments)
  {
    taAssignmentCounts := map[];
    order := [];
    for k := 0 to |assignments|
      invariant taAssignmentCounts == CountMap(assignments[..k])
      invariant order == TaOrder(assignments[..k])
    {
      CountStep(assignments, k);
      var id := assignments[k].taId;
      CountMapCounts(assignments[..k], id);
      var count: nat := if id in taAssignmentCounts then taAssignmentCounts[id] else 0;
      if id !in taAssignmentCounts {
        order := order + [id];
      }
      taAssignmentCounts := taAssignmentCounts[id := count + 1];
    }
    assert assignments[..|assignments|] == assignments;
  }

  /** `validateSchedule`. */
  method ValidateSchedule(assignments: seq<Assignment>, labs: seq<Lab>, tas: seq<TA>) returns (errors: seq<string>)
    ensures errors == Validate(assignments, labs, tas)
  {
    var taMap: map<string, TA> := map[];
    for i := 0 to |tas|
      invariant taMap == TaMap(tas[..i])
    {
      TaMapStep(tas, i);
      taMap := taMap[tas[i].id := tas[i]];
    }
    assert tas[..|tas|] == tas;

    errors := DoubleBookingErrors(assignments, taMap, tas);
    var taAssignmentCounts, order := CountPerTa(assignments);

    ghost var doubles := errors;
    for k := 0 to |order|
      invariant errors == doubles + CapacityErrors(order[..k], assignments, tas)
    {
      CapacityStep(order, assignments, tas, k);
      var taId := order[k];
      CountMapCounts(assignments, taId);
      var count := taAssignmentCounts[taId];
      if taId in taMap && count > taMap[taId].maxLabs {
        var ta := taMap[taId];
        errors := errors + ["TA " + ta.name + " is assigned " + NatToDecimal(count) + " labs but max is " + IntToDecimal(ta.maxLabs)];
      }
    }
    assert order[..|order|] == order;
  }
}
