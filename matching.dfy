/** Choosing a TA and slot for one lab: every TA under capacity is tried on
    every free feasible slot, each candidate is scored, and the first one with
    the highest total wins. */
module Matching {
  import opened Types
  import opened Prng
  import opened Feasibility

  /** `calculateBaseScore`: two points for a preferred day, two for a preferred time. */
  function BaseScore(ta: TA, slot: Slot): (r: int)
    ensures r == 0 || r == 2 || r == 4
    ensures r == 4 <==> slot.day in ta.preferredDays && slot.time in ta.preferredTimes
    ensures r == 0 <==> slot.day !in ta.preferredDays && slot.time !in ta.preferredTimes
  {
    var dayPoints := if slot.day in ta.preferredDays then 2 else 0;
    dayPoints + (if slot.time in ta.preferredTimes then 2 else 0)
  }

  /** `calculateLoadPenalty`: 999 for a TA who takes no labs, otherwise half
      the fraction of the capacity already used. */
  function LoadPenalty(assignedCount: int, maxLabs: int): real
  {
    if maxLabs == 0 then 999.0 else 0.5 * (assignedCount as real / maxLabs as real)
  }

  /** A TA with room left pays less than half a point; one who takes no labs
      pays 999. */
  lemma LoadPenaltyRange(assignedCount: int, maxLabs: int)
    ensures maxLabs == 0 ==> LoadPenalty(assignedCount, maxLabs) == 999.0
    ensures 0 <= assignedCount < maxLabs ==> 0.0 <= LoadPenalty(assignedCount, maxLabs) < 0.5
  {
    if 0 <= assignedCount < maxLabs {
      var q := assignedCount as real / maxLabs as real;
      assert q * maxLabs as real == assignedCount as real;
      assert 0.0 <= q < 1.0;
    }
  }

  /** A scored candidate; `findBestTA` returns it without the total. */
  datatype Match = Match(ta: TA, slot: Slot, baseScore: int, loadPenalty: real, tieBreak: real, totalScore: real)

  /** `(taAssignments.get(id) || []).length`. */
  function LoadOf(loads: map<string, seq<Assignment>>, id: string): nat
  {
    if id in loads then |loads[id]| else 0
  }

  function SlotKeyOf(slot: Slot, taId: string): SlotKey
  {
    (slot.day, slot.time, taId)
  }

  /** A TA may take a slot: the TA has room and is free at that slot. */
  predicate Eligible(ta: TA, slot: Slot, loads: map<string, seq<Assignment>>, occupancy: map<SlotKey, string>)
  {
    LoadOf(loads, ta.id) < ta.maxLabs && SlotKeyOf(slot, ta.id) !in occupancy
  }

  /** `ta.seed || rng.nextInt(1, 1000000)`: a missing or zero seed is replaced
      by a draw from the shared generator. Returns the seed and the shared
      state afterwards. */
  function TaSeed(ta: TA, st: bv32): (int, bv32)
  {
    if ta.seed.Some? && ta.seed.value != 0 then (ta.seed.value, st)
    else (ScaleDraw(XorShift(st), 1, 1000000), XorShift(st))
  }

  lemma TaSeedDraws(ta: TA, st: bv32)
    ensures ta.seed.Some? && ta.seed.value != 0 ==> TaSeed(ta, st).1 == st
    ensures !(ta.seed.Some? && ta.seed.value != 0) ==>
      TaSeed(ta, st).1 == XorShift(st) && 1 <= TaSeed(ta, st).0 < 1000000
  {
    ScaleDrawInRange(XorShift(st), 1, 1000000);
  }

  /** The candidate for `ta` at `slot` when the TA already has `count` labs
      and its generator just returned `draw`. */
  function Score(ta: TA, slot: Slot, count: nat, draw: real): Match
  {
    var baseScore := BaseScore(ta, slot);
    var loadPenalty := LoadPenalty(count, ta.maxLabs);
    var tieBreak := draw * 0.01;
    Match(ta, slot, baseScore, loadPenalty, tieBreak, baseScore as real - loadPenalty + tieBreak)
  }

  /** The inner loop over the slots for one TA, from TA generator state `ts`:
      the candidates in slot order and the TA generator state afterwards. */
  function ScanSlots(ta: TA, count: nat, ts: bv32, slots: seq<Slot>, occupancy: map<SlotKey, string>): (seq<Match>, bv32)
  {
    if slots == [] then ([], ts)
    else
      var (cands, t1) := ScanSlots(ta, count, ts, slots[..|slots| - 1], occupancy);
      var slot := slots[|slots| - 1];
      if SlotKeyOf(slot, ta.id) in occupancy then (cands, t1)
      else (cands + [Score(ta, slot, count, Fraction(XorShift(t1)))], XorShift(t1))
  }

  /** One turn of the outer loop: the TA's candidates and the shared state afterwards. */
  function TaCandidates(st: bv32, ta: TA, slots: seq<Slot>, loads: map<string, seq<Assignment>>,
                        occupancy: map<SlotKey, string>): (seq<Match>, bv32)
  {
    var (seed, st1) := TaSeed(ta, st);
    var count := LoadOf(loads, ta.id);
    if count >= ta.maxLabs then ([], st1)
    else (ScanSlots(ta, count, SeedState(seed), slots, occupancy).0, st1)
  }

  /** All candidates in TA order, then slot order, and the shared state afterwards. */
  function Candidates(st: bv32, tas: seq<TA>, slots: seq<Slot>, loads: map<string, seq<Assignment>>,
                      occupancy: map<SlotKey, string>): (seq<Match>, bv32)
  {
    if tas == [] then ([], st)
    else
      var (cands, st1) := Candidates(st, tas[..|tas| - 1], slots, loads, occupancy);
      var (more, st2) := TaCandidates(st1, tas[|tas| - 1], slots, loads, occupancy);
      (cands + more, st2)
  }

  /** `!bestMatch || totalScore > bestMatch.totalScore` applied in order. */
  function Best(cands: seq<Match>): Option<Match>
  {
    if cands == [] then None
    else
      var best := Best(cands[..|cands| - 1]);
      var last := cands[|cands| - 1];
      if best.None? || last.totalScore > best.value.totalScore then Some(last) else best
  }

  /** No candidate, no match; otherwise the match is the first candidate with
      the highest total. */
  lemma {:induction false} BestIsFirstMaximum(cands: seq<Match>)
    ensures Best(cands).None? <==> cands == []
    ensures cands != [] ==> exists i :: (0 <= i < |cands| && Best(cands) == Some(cands[i])
      && (forall j :: 0 <= j < |cands| ==> cands[j].totalScore <= cands[i].totalScore)
      && (forall j :: 0 <= j < i ==> cands[j].totalScore < cands[i].totalScore))
    decreases |cands|
  {
    if cands != [] {
      var n := |cands|;
      var front := cands[..n - 1];
      BestIsFirstMaximum(front);
      if front == [] {
        assert Best(cands) == Some(cands[0]);
      } else {
        var i :| 0 <= i < |front| && Best(front) == Some(front[i])
          && (forall j :: 0 <= j < |front| ==> front[j].totalScore <= front[i].totalScore)
          && (forall j :: 0 <= j < i ==> front[j].totalScore < front[i].totalScore);
        if cands[n - 1].totalScore > front[i].totalScore {
          assert Best(cands) == Some(cands[n - 1]);
          assert forall j :: 0 <= j < n - 1 ==> cands[j].totalScore < cands[n - 1].totalScore by {
            forall j | 0 <= j < n - 1
              ensures cands[j].totalScore < cands[n - 1].totalScore
            {
              assert cands[j] == front[j];
            }
          }
        } else {
          assert Best(cands) == Some(cands[i]);
          assert forall j :: 0 <= j < n ==> cands[j].totalScore <= cands[i].totalScore by {
            forall j | 0 <= j < n
              ensures cands[j].totalScore <= cands[i].totalScore
            {
              if j < n - 1 {
                assert cands[j] == front[j];
              }
            }
          }
          assert forall j :: 0 <= j < i ==> cands[j].totalScore < cands[i].totalScore by {
            forall j | 0 <= j < i
              ensures cands[j].totalScore < cands[i].totalScore
            {
              assert cands[j] == front[j];
            }
          }
        }
      }
    }
  }

  /** Every candidate is an eligible pair of the TA and one of the slots,
      scored from its parts. */
  predicate Sound(c: Match, tas: seq<TA>, slots: seq<Slot>, loads: map<string, seq<Assignment>>,
                  occupancy: map<SlotKey, string>)
  {
    && c.ta in tas && c.slot in slots
    && Eligible(c.ta, c.slot, loads, occupancy)
    && c.baseScore == BaseScore(c.ta, c.slot)
    && c.loadPenalty == LoadPenalty(LoadOf(loads, c.ta.id), c.ta.maxLabs)
    && 0.0 <= c.tieBreak < 0.01
    && c.totalScore == c.baseScore as real - c.loadPenalty + c.tieBreak
  }

  lemma {:induction false} ScanSlotsSound(ta: TA, ts: bv32, slots: seq<Slot>, loads: map<string, seq<Assignment>>,
                                          occupancy: map<SlotKey, string>)
    requires LoadOf(loads, ta.id) < ta.maxLabs
    ensures forall c :: c in ScanSlots(ta, LoadOf(loads, ta.id), ts, slots, occupancy).0 ==>
      Sound(c, [ta], slots, loads, occupancy)
    decreases |slots|
  {
    if slots != [] {
      var front := slots[..|slots| - 1];
      ScanSlotsSound(ta, ts, front, loads, occupancy);
      forall c | c in ScanSlots(ta, LoadOf(loads, ta.id), ts, front, occupancy).0
        ensures Sound(c, [ta], slots, loads, occupancy)
      {
        assert c.slot in front;
      }
    }
  }

  lemma {:induction false} ScanSlotsComplete(ta: TA, ts: bv32, slots: seq<Slot>, loads: map<string, seq<Assignment>>,
                                             occupancy: map<SlotKey, string>, slot: Slot)
    requires slot in slots && SlotKeyOf(slot, ta.id) !in occupancy
    ensures exists c :: c in ScanSlots(ta, LoadOf(loads, ta.id), ts, slots, occupancy).0 && c.ta == ta && c.slot == slot
    decreases |slots|
  {
    var front := slots[..|slots| - 1];
    var r := ScanSlots(ta, LoadOf(loads, ta.id), ts, slots, occupancy).0;
    var rf := ScanSlots(ta, LoadOf(loads, ta.id), ts, front, occupancy).0;
    if slot == slots[|slots| - 1] {
      assert r[|r| - 1].slot == slot;
    } else {
      assert slots == front + [slots[|slots| - 1]];
      ScanSlotsComplete(ta, ts, front, loads, occupancy, slot);
      var c :| c in rf && c.ta == ta && c.slot == slot;
      assert c in r;
    }
  }

  lemma TaCandidatesSound(st: bv32, ta: TA, slots: seq<Slot>, loads: map<string, seq<Assignment>>,
                          occupancy: map<SlotKey, string>)
    ensures forall c :: c in TaCandidates(st, ta, slots, loads, occupancy).0 ==> Sound(c, [ta], slots, loads, occupancy)
  {
    var (seed, st1) := TaSeed(ta, st);
    if LoadOf(loads, ta.id) < ta.maxLabs {
      ScanSlotsSound(ta, SeedState(seed), slots, loads, occupancy);
    }
  }

  /** Every candidate names a TA from the list under capacity and a feasible
      slot that TA has free, and its score is made of its parts. */
  lemma {:induction false} CandidatesSound(st: bv32, tas: seq<TA>, slots: seq<Slot>, loads: map<string, seq<Assignment>>,
                                           occupancy: map<SlotKey, string>)
    ensures forall c :: c in Candidates(st, tas, slots, loads, occupancy).0 ==> Sound(c, tas, slots, loads, occupancy)
    decreases |tas|
  {
    if tas != [] {
      var front := tas[..|tas| - 1];
      var (cands, st1) := Candidates(st, front, slots, loads, occupancy);
      CandidatesSound(st, front, slots, loads, occupancy);
      TaCandidatesSound(st1, tas[|tas| - 1], slots, loads, occupancy);
      forall c | c in Candidates(st, tas, slots, loads, occupancy).0
        ensures Sound(c, tas, slots, loads, occupancy)
      {
        if c in cands {
          assert c.ta in front;
        } else {
          assert c in TaCandidates(st1, tas[|tas| - 1], slots, loads, occupancy).0;
          assert c.ta == tas[|tas| - 1];
        }
      }
    }
  }

  /** Every eligible pair of a listed TA and a feasible slot is scored. */
  lemma {:induction false} CandidatesComplete(st: bv32, tas: seq<TA>, slots: seq<Slot>, loads: map<string, seq<Assignment>>,
                                              occupancy: map<SlotKey, string>, ta: TA, slot: Slot)
    requires ta in tas && slot in slots && Eligible(ta, slot, loads, occupancy)
    ensures exists c :: c in Candidates(st, tas, slots, loads, occupancy).0 && c.ta == ta && c.slot == slot
    decreases |tas|
  {
    var front := tas[..|tas| - 1];
    var (cands, st1) := Candidates(st, front, slots, loads, occupancy);
    var all := Candidates(st, tas, slots, loads, occupancy).0;
    if ta == tas[|tas| - 1] {
      var (seed, _) := TaSeed(ta, st1);
      ScanSlotsComplete(ta, SeedState(seed), slots, loads, occupancy, slot);
      var c :| c in ScanSlots(ta, LoadOf(loads, ta.id), SeedState(seed), slots, occupancy).0 && c.ta == ta && c.slot == slot;
      assert c in all;
    } else {
      assert tas == front + [tas[|tas| - 1]];
      CandidatesComplete(st, front, slots, loads, occupancy, ta, slot);
      var c :| c in cands && c.ta == ta && c.slot == slot;
      assert c in all;
    }
  }

  /** What `findBestTA` returns: None exactly when no listed TA under capacity
      has any feasible slot free; otherwise an eligible pair whose total no
      candidate beats, and which beats every candidate before it. */
  lemma FindBestCorrect(st: bv32, tas: seq<TA>, slots: seq<Slot>, loads: map<string, seq<Assignment>>,
                        occupancy: map<SlotKey, string>)
    ensures var best := Best(Candidates(st, tas, slots, loads, occupancy).0);
      && (best.None? <==> forall ta, slot :: ta in tas && slot in slots ==> !Eligible(ta, slot, loads, occupancy))
      && (best.Some? ==> Sound(best.value, tas, slots, loads, occupancy))
      && (best.Some? ==> forall c :: c in Candidates(st, tas, slots, loads, occupancy).0 ==>
            c.totalScore <= best.value.totalScore)
  {
    var cands := Candidates(st, tas, slots, loads, occupancy).0;
    BestIsFirstMaximum(cands);
    CandidatesSound(st, tas, slots, loads, occupancy);
    if cands != [] {
      assert Sound(cands[0], tas, slots, loads, occupancy);
    }
    if exists ta, slot :: ta in tas && slot in slots && Eligible(ta, slot, loads, occupancy) {
      var ta, slot :| ta in tas && slot in slots && Eligible(ta, slot, loads, occupancy);
      CandidatesComplete(st, tas, slots, loads, occupancy, ta, slot);
    }
  }

  /** A TA whose capacity is 0 is never chosen. */
  lemma NoLabsForZeroCapacity(st: bv32, tas: seq<TA>, slots: seq<Slot>, loads: map<string, seq<Assignment>>,
                              occupancy: map<SlotKey, string>)
    ensures var best := Best(Candidates(st, tas, slots, loads, occupancy).0);
      best.Some? ==> best.value.ta.maxLabs > 0
  {
    FindBestCorrect(st, tas, slots, loads, occupancy);
  }

  /** One more slot in the inner loop: a taken slot adds nothing, a free one
      draws once and adds its candidate. */
  lemma ScanSlotsStep(ta: TA, count: nat, ts: bv32, slots: seq<Slot>, occupancy: map<SlotKey, string>, k: nat)
    requires k < |slots|
    ensures var prev := ScanSlots(ta, count, ts, slots[..k], occupancy);
      var next := ScanSlots(ta, count, ts, slots[..k + 1], occupancy);
      && (SlotKeyOf(slots[k], ta.id) in occupancy ==> next == prev)
      && (SlotKeyOf(slots[k], ta.id) !in occupancy ==>
            next.0 == prev.0 + [Score(ta, slots[k], count, Fraction(XorShift(prev.1)))] && next.1 == XorShift(prev.1))
  {
    assert slots[..k + 1][..k] == slots[..k];
  }

  /** One more TA in the outer loop appends that TA's candidates. */
  lemma CandidatesStep(st: bv32, tas: seq<TA>, slots: seq<Slot>, loads: map<string, seq<Assignment>>,
                       occupancy: map<SlotKey, string>, i: nat)
    requires i < |tas|
    ensures var prev := Candidates(st, tas[..i], slots, loads, occupancy);
      var more := TaCandidates(prev.1, tas[i], slots, loads, occupancy);
      Candidates(st, tas[..i + 1], slots, loads, occupancy) == (prev.0 + more.0, more.1)
  {
    assert tas[..i + 1][..i] == tas[..i];
  }

  /** Appending one candidate compares it with the best so far. */
  lemma BestStep(cands: seq<Match>, m: Match)
    ensures Best(cands + [m]) ==
      if Best(cands).None? || m.totalScore > Best(cands).value.totalScore then Some(m) else Best(cands)
  {
    assert (cands + [m])[..|cands|] == cands;
  }

  /** The inner loop of `findBestTA` for one TA with room left: each free
      slot draws from the TA's own generator and competes with the best so far. */
  method ScoreSlots(ta: TA, count: nat, taRng: SeededRandom, feasibleSlots: seq<Slot>,
                    slotOccupancy: map<SlotKey, string>, ghost before: seq<Match>, bestIn: Option<Match>)
    returns (bestMatch: Option<Match>)
    requires taRng.Valid() && bestIn == Best(before)
    modifies taRng
    ensures taRng.Valid()
    ensures taRng.state == ScanSlots(ta, count, old(taRng.state), feasibleSlots, slotOccupancy).1
    ensures bestMatch == Best(before + ScanSlots(ta, count, old(taRng.state), feasibleSlots, slotOccupancy).0)
  {
    bestMatch := bestIn;
    ghost var taCands: seq<Match> := [];
    assert before + taCands == before;
    for k := 0 to |feasibleSlots|
      invariant taRng.Valid()
      invariant taCands == ScanSlots(ta, count, old(taRng.state), feasibleSlots[..k], slotOccupancy).0
      invariant taRng.state == ScanSlots(ta, count, old(taRng.state), feasibleSlots[..k], slotOccupancy).1
      invariant bestMatch == Best(before + taCands)
    {
      var slot := feasibleSlots[k];
      ScanSlotsStep(ta, count, old(taRng.state), feasibleSlots, slotOccupancy, k);
      if SlotKeyOf(slot, ta.id) !in slotOccupancy {
        var draw := taRng.Next();
        var m := Score(ta, slot, count, draw);
        BestStep(before + taCands, m);
        assert before + (taCands + [m]) == (before + taCands) + [m];
        if bestMatch.None? || m.totalScore > bestMatch.value.totalScore {
          bestMatch := Some(m);
        }
        taCands := taCands + [m];
      }
    }
    assert feasibleSlots[..|feasibleSlots|] == feasibleSlots;
  }

  /** `ta.seed || rng.nextInt(1, 1000000)`. */
  method SeedFor(ta: TA, rng: SeededRandom) returns (seed: int)
    requires rng.Valid()
    modifies rng
    ensures rng.Valid()
    ensures seed == TaSeed(ta, old(rng.state)).0 && rng.state == TaSeed(ta, old(rng.state)).1
  {
    if ta.seed.Some? && ta.seed.value != 0 {
      seed := ta.seed.value;
    } else {
      seed := rng.NextInt(1, 1000000);
    }
  }

  /** `findBestTA`. The lab itself takes no part in the choice. */
  method FindBestTA(lab: Lab, feasibleSlots: seq<Slot>, tas: seq<TA>, taAssignments: map<string, seq<Assignment>>,
                    slotOccupancy: map<SlotKey, string>, rng: SeededRandom) returns (bestMatch: Option<Match>)
    requires rng.Valid()
    modifies rng
    ensures rng.Valid()
    ensures bestMatch == Best(Candidates(old(rng.state), tas, feasibleSlots, taAssignments, slotOccupancy).0)
    ensures rng.state == Candidates(old(rng.state), tas, feasibleSlots, taAssignments, slotOccupancy).1
  {
    bestMatch := None;
    ghost var cands: seq<Match> := [];
    for i := 0 to |tas|
      invariant rng.Valid()
      invariant cands == Candidates(old(rng.state), tas[..i], feasibleSlots, taAssignments, slotOccupancy).0
      invariant rng.state == Candidates(old(rng.state), tas[..i], feasibleSlots, taAssignments, slotOccupancy).1
      invariant bestMatch == Best(cands)
    {
      var ta := tas[i];
      var seed := SeedFor(ta, rng);
      var taRng := new SeededRandom(seed);
      var count := LoadOf(taAssignments, ta.id);
      ghost var taCands: seq<Match> := [];
      if count < ta.maxLabs {
        taCands := ScanSlots(ta, count, taRng.state, feasibleSlots, slotOccupancy).0;
        bestMatch := ScoreSlots(ta, count, taRng, feasibleSlots, slotOccupancy, cands, bestMatch);
      } else {
        assert cands + taCands == cands;
      }
      CandidatesStep(old(rng.state), tas, feasibleSlots, taAssignments, slotOccupancy, i);
      cands := cands + taCands;
    }
    assert tas[..|tas|] == tas;
  }
}
