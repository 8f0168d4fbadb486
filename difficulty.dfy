/** Ordering labs hardest first: fewer feasible slots first, ties broken by a
    value drawn from the shared generator for each lab in input order. */
module Difficulty {
  import opened Types
  import opened Prng
  import opened Feasibility

  /** A lab with its sort key. */
  datatype Keyed = Keyed(lab: Lab, slotCount: nat, tieBreak: real)

  /** The comparator is negative: `a` sorts strictly before `b`. */
  predicate Before(a: Keyed, b: Keyed)
  {
    a.slotCount < b.slotCount || (a.slotCount == b.slotCount && a.tieBreak < b.tieBreak)
  }

  /** `a`'s key is at most `b`'s. */
  predicate KeyLe(a: Keyed, b: Keyed)
  {
    !Before(b, a)
  }

  predicate Sorted(t: seq<Keyed>)
  {
    forall i, j :: 0 <= i < j < |t| ==> KeyLe(t[i], t[j])
  }

  /** Every key holds the lab's own number of feasible slots. */
  predicate WellKeyed(t: seq<Keyed>)
  {
    forall k :: 0 <= k < |t| ==> t[k].slotCount == |FeasibleSlots(t[k].lab)|
  }

  /** The keys `labs.map(...)` builds from state `st`: lab k gets the
      (k + 1)-th draw. */
  function Keys(st: bv32, labs: seq<Lab>): (ks: seq<Keyed>)
    ensures |ks| == |labs|
  {
    if labs == [] then []
    else
      var n := |labs|;
      Keys(st, labs[..n - 1]) + [Keyed(labs[n - 1], |FeasibleSlots(labs[n - 1])|, Fraction(Advance(st, n)))]
  }

  function LabsOf(ks: seq<Keyed>): (labs: seq<Lab>)
    ensures |labs| == |ks|
  {
    if ks == [] then [] else LabsOf(ks[..|ks| - 1]) + [ks[|ks| - 1].lab]
  }

  lemma {:induction false} LabsOfAt(ks: seq<Keyed>, k: nat)
    requires k < |ks|
    ensures LabsOf(ks)[k] == ks[k].lab
    decreases |ks|
  {
    if k < |ks| - 1 {
      LabsOfAt(ks[..|ks| - 1], k);
    }
  }

  /** The keys carry the labs in input order. */
  lemma {:induction false} KeysKeepLabs(st: bv32, labs: seq<Lab>)
    ensures LabsOf(Keys(st, labs)) == labs
    decreases |labs|
  {
    if labs != [] {
      var n := |labs|;
      var ks := Keys(st, labs);
      KeysKeepLabs(st, labs[..n - 1]);
      assert ks[..n - 1] == Keys(st, labs[..n - 1]);
      assert LabsOf(ks) == LabsOf(ks[..n - 1]) + [labs[n - 1]];
      assert labs == labs[..n - 1] + [labs[n - 1]];
    }
  }

  /** Each key holds its lab's slot count. */
  lemma {:induction false} KeysWellKeyed(st: bv32, labs: seq<Lab>)
    ensures WellKeyed(Keys(st, labs))
    decreases |labs|
  {
    if labs != [] {
      var n := |labs|;
      var ks := Keys(st, labs);
      KeysWellKeyed(st, labs[..n - 1]);
      assert ks[..n - 1] == Keys(st, labs[..n - 1]);
      assert forall k :: 0 <= k < n - 1 ==> ks[k] == ks[..n - 1][k];
    }
  }

  /** Stable insertion of `x` into the sorted `t`: it goes after every element
      whose key is not greater than its own. */
  function Insert(x: Keyed, t: seq<Keyed>): (r: seq<Keyed>)
    ensures |r| == |t| + 1
  {
    if t == [] then [x]
    else if Before(x, t[|t| - 1]) then Insert(x, t[..|t| - 1]) + [t[|t| - 1]]
    else t + [x]
  }

  /** The stable sort `Array.prototype.sort` performs with this comparator,
      as insertion of each element in input order. */
  function StableSort(s: seq<Keyed>): (r: seq<Keyed>)
    ensures |r| == |s|
  {
    if s == [] then [] else Insert(s[|s| - 1], StableSort(s[..|s| - 1]))
  }

  lemma {:induction false} InsertSorted(x: Keyed, t: seq<Keyed>)
    requires Sorted(t)
    ensures Sorted(Insert(x, t))
    decreases |t|
  {
    if t != [] {
      var last := t[|t| - 1];
      var front := t[..|t| - 1];
      if Before(x, last) {
        InsertSorted(x, front);
        InsertPermutes(x, front);
        var r := Insert(x, front);
        forall i | 0 <= i < |r|
          ensures KeyLe(r[i], last)
        {
          assert r[i] in multiset(front) + multiset{x};
          if r[i] != x {
            assert r[i] in front;
          }
        }
      }
    }
  }

  lemma {:induction false} InsertPermutes(x: Keyed, t: seq<Keyed>)
    ensures multiset(Insert(x, t)) == multiset(t) + multiset{x}
    decreases |t|
  {
    if t != [] && Before(x, t[|t| - 1]) {
      var front := t[..|t| - 1];
      InsertPermutes(x, front);
      assert t == front + [t[|t| - 1]];
    }
  }

  lemma {:induction false} InsertKeepsLabs(x: Keyed, t: seq<Keyed>)
    ensures multiset(LabsOf(Insert(x, t))) == multiset(LabsOf(t)) + multiset{x.lab}
    decreases |t|
  {
    if t != [] {
      var front := t[..|t| - 1];
      if Before(x, t[|t| - 1]) {
        InsertKeepsLabs(x, front);
        assert LabsOf(Insert(x, t)) == LabsOf(Insert(x, front)) + [t[|t| - 1].lab];
      } else {
        assert LabsOf(Insert(x, t)) == LabsOf(t) + [x.lab];
      }
      assert LabsOf(t) == LabsOf(front) + [t[|t| - 1].lab];
    }
  }

  /** The sort orders by key. */
  lemma {:induction false} StableSortSorted(s: seq<Keyed>)
    ensures Sorted(StableSort(s))
    decreases |s|
  {
    if s != [] {
      var front := s[..|s| - 1];
      StableSortSorted(front);
      InsertSorted(s[|s| - 1], StableSort(front));
    }
  }

  /** The sort only permutes. */
  lemma {:induction false} StableSortPermutes(s: seq<Keyed>)
    ensures multiset(StableSort(s)) == multiset(s)
    decreases |s|
  {
    if s != [] {
      var front := s[..|s| - 1];
      StableSortPermutes(front);
      InsertPermutes(s[|s| - 1], StableSort(front));
      assert s == front + [s[|s| - 1]];
    }
  }

  /** The sort moves labs around and loses none. */
  lemma {:induction false} StableSortKeepsLabs(s: seq<Keyed>)
    ensures multiset(LabsOf(StableSort(s))) == multiset(LabsOf(s))
    decreases |s|
  {
    if s != [] {
      var front := s[..|s| - 1];
      StableSortKeepsLabs(front);
      InsertKeepsLabs(s[|s| - 1], StableSort(front));
      assert s[..|s| - 1] == front;
      assert LabsOf(s) == LabsOf(front) + [s[|s| - 1].lab];
    }
  }

  /** Elements taken from a well-keyed sequence keep their keys. */
  lemma WellKeyedPermutation(s: seq<Keyed>, t: seq<Keyed>)
    requires WellKeyed(s) && multiset(t) == multiset(s)
    ensures WellKeyed(t)
  {
    forall k | 0 <= k < |t|
      ensures t[k].slotCount == |FeasibleSlots(t[k].lab)|
    {
      assert t[k] in multiset(s);
      var i :| 0 <= i < |s| && s[i] == t[k];
    }
  }

  /** What `sortLabsByDifficulty` returns from generator state `st`; the
      state afterwards is `Advance(st, |labs|)`. */
  function ByDifficulty(st: bv32, labs: seq<Lab>): seq<Lab>
  {
    LabsOf(StableSort(Keys(st, labs)))
  }

  /** The result is a permutation of the input with slot counts ascending. */
  lemma ByDifficultyCorrect(st: bv32, labs: seq<Lab>)
    ensures multiset(ByDifficulty(st, labs)) == multiset(labs)
    ensures forall i, j :: 0 <= i < j < |labs| ==>
      |FeasibleSlots(ByDifficulty(st, labs)[i])| <= |FeasibleSlots(ByDifficulty(st, labs)[j])|
  {
    var ks := Keys(st, labs);
    KeysKeepLabs(st, labs);
    KeysWellKeyed(st, labs);
    StableSortSorted(ks);
    StableSortPermutes(ks);
    StableSortKeepsLabs(ks);
    var r := StableSort(ks);
    WellKeyedPermutation(ks, r);
    forall i, j | 0 <= i < j < |labs|
      ensures |FeasibleSlots(ByDifficulty(st, labs)[i])| <= |FeasibleSlots(ByDifficulty(st, labs)[j])|
    {
      assert KeyLe(r[i], r[j]);
      LabsOfAt(r, i);
      LabsOfAt(r, j);
    }
  }

  /** Of two labs with the same number of slots, the one with the smaller
      draw comes first. */
  lemma SortedByTieBreak(s: seq<Keyed>, i: nat, j: nat)
    requires i < j < |StableSort(s)|
    requires StableSort(s)[i].slotCount == StableSort(s)[j].slotCount
    ensures StableSort(s)[i].tieBreak <= StableSort(s)[j].tieBreak
  {
    StableSortSorted(s);
  }

  /** `sortLabsByDifficulty`: one draw per lab in input order, then the sort. */
  method SortLabsByDifficulty(labs: seq<Lab>, rng: SeededRandom) returns (sorted: seq<Lab>)
    requires rng.Valid()
    modifies rng
    ensures rng.Valid() && rng.state == Advance(old(rng.state), |labs|)
    ensures sorted == ByDifficulty(old(rng.state), labs)
  {
    var keyed: seq<Keyed> := [];
    for k := 0 to |labs|
      invariant rng.Valid() && rng.state == Advance(old(rng.state), k)
      invariant keyed == Keys(old(rng.state), labs[..k])
    {
      var slots := GetFeasibleSlots(labs[k]);
      var tieBreak := rng.Next();
      keyed := keyed + [Keyed(labs[k], |slots|, tieBreak)];
      assert labs[..k + 1][..k] == labs[..k];
    }
    assert labs[..|labs|] == labs;
    sorted := LabsOf(StableSort(keyed));
  }
}
