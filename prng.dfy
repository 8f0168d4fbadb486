/** The seeded xorshift32 generator, its Fisher–Yates shuffle and the
    31-multiplier string hash. */
module Prng {

  const TwoTo32: int := 0x1_0000_0000
  const TwoTo31: int := 0x8000_0000

  /** JavaScript's `n >>> 0`: the integer reduced modulo 2^32. */
  function ToUint32(n: int): bv32
  {
    (n % TwoTo32) as bv32
  }

  /** The state a generator starts from: `seed >>> 0 || 1`. */
  function SeedState(seed: int): (s: bv32)
    ensures s != 0
    ensures ToUint32(seed) != 0 ==> s == ToUint32(seed)
    ensures ToUint32(seed) == 0 ==> s == 1
  {
    var u := ToUint32(seed);
    if u == 0 then 1 else u
  }

  /** One xorshift32 step with the triple (13, 17, 5). */
  function XorShift(x: bv32): bv32
  {
    var a := x ^ (x << 13);
    var b := a ^ (a >> 17);
    b ^ (b << 5)
  }

  /** The state after `k` steps. */
  function Advance(s: bv32, k: nat): bv32
    decreases k
  {
    if k == 0 then s else XorShift(Advance(s, k - 1))
  }

  /** `state >>> 0`: the state read as an unsigned 32-bit number. */
  function Unsigned(s: bv32): (n: nat)
    ensures n < TwoTo32
  {
    s as int
  }

  /** What `next()` returns for the new state: state / 2^32. */
  function Fraction(s: bv32): (r: real)
    ensures 0.0 <= r < 1.0
  {
    Unsigned(s) as real / 4294967296.0
  }

  /** `Math.floor(next() * (max - min)) + min` for the new state `s`. */
  function ScaleDraw(s: bv32, min: int, max: int): int
  {
    (Unsigned(s) * (max - min)) / TwoTo32 + min
  }

  lemma ScaleDrawInRange(s: bv32, min: int, max: int)
    requires min < max
    ensures min <= ScaleDraw(s, min, max) < max
  {
    ScaledBelow(Unsigned(s), max - min);
  }

  /** 0 <= n < 2^32 and w > 0 give 0 <= floor(n·w / 2^32) < w. */
  lemma ScaledBelow(n: int, w: int)
    requires 0 <= n < TwoTo32 && w > 0
    ensures 0 <= (n * w) / TwoTo32 < w
  {
    var p := n * w;
    assert 0 <= p;
    assert p < TwoTo32 * w by {
      assert TwoTo32 * w - p == (TwoTo32 - n) * w;
      assert (TwoTo32 - n) * w > 0;
    }
  }

  lemma XorShiftKeepsNonZero(x: bv32)
    requires x != 0
    ensures XorShift(x) != 0
  {
    var a := x ^ (x << 13);
    var b := a ^ (a >> 17);
    assert a != 0;
    assert b != 0;
  }

  /** The swap `[arr[i], arr[j]] = [arr[j], arr[i]]`. */
  function Swap<T>(a: seq<T>, i: nat, j: nat): (r: seq<T>)
    requires i < |a| && j < |a|
    ensures |r| == |a|
  {
    a[i := a[j]][j := a[i]]
  }

  lemma SwapPermutes<T>(a: seq<T>, i: nat, j: nat)
    requires i < |a| && j < |a|
    ensures multiset(Swap(a, i, j)) == multiset(a)
  {
  }

  /** Every index k > 0 is paired with a draw in [0, k]. */
  predicate DrawsInRange(js: seq<int>)
  {
    forall k :: 0 < k < |js| ==> 0 <= js[k] <= k
  }

  /** The Fisher–Yates loop from index `i` down to 1, swapping index k with
      the draw `js[k]`. */
  function FisherYates<T>(a: seq<T>, js: seq<int>, i: nat): (r: seq<T>)
    requires |js| == |a| && DrawsInRange(js)
    requires i == 0 || i < |a|
    ensures |r| == |a|
    decreases i
  {
    if i == 0 then a else FisherYates(Swap(a, i, js[i]), js, i - 1)
  }

  /** Whatever the draws, the loop only permutes. */
  lemma {:induction false} FisherYatesPermutes<T>(a: seq<T>, js: seq<int>, i: nat)
    requires |js| == |a| && DrawsInRange(js)
    requires i == 0 || i < |a|
    ensures multiset(FisherYates(a, js, i)) == multiset(a)
    decreases i
  {
    if i > 0 {
      SwapPermutes(a, i, js[i]);
      FisherYatesPermutes(Swap(a, i, js[i]), js, i - 1);
    }
  }

  /** Number of draws `shuffle` makes on a sequence of length n. */
  function ShuffleDraws(n: nat): nat
  {
    if n == 0 then 0 else n - 1
  }

  /** The draw `nextInt(0, i + 1)` a shuffle of n elements from state `st`
      makes for index i: it is the (n - i)-th step. */
  function DrawFor(st: bv32, n: nat, i: nat): (j: int)
    requires 0 < i < n
    ensures 0 <= j <= i
  {
    ScaleDrawInRange(Advance(st, n - i), 0, i + 1);
    ScaleDraw(Advance(st, n - i), 0, i + 1)
  }

  lemma DrawMatches(st: bv32, n: nat, i: nat, s: bv32)
    requires 0 < i < n && s == Advance(st, n - i)
    ensures Draws(st, n)[i] == ScaleDraw(s, 0, i + 1)
  {
    DrawsBelowAt(st, n, n, i);
  }

  /** The draws of a shuffle of n elements for indices below m (index 0
      draws nothing). */
  function DrawsBelow(st: bv32, n: nat, m: nat): (js: seq<int>)
    requires m <= n
    ensures |js| == m && DrawsInRange(js)
    decreases m
  {
    if m == 0 then []
    else DrawsBelow(st, n, m - 1) + [if m == 1 then 0 else DrawFor(st, n, m - 1)]
  }

  function Draws(st: bv32, n: nat): (js: seq<int>)
    ensures |js| == n && DrawsInRange(js)
  {
    DrawsBelow(st, n, n)
  }

  /** Index i of the draws is the draw made for index i. */
  lemma {:induction false} DrawsBelowAt(st: bv32, n: nat, m: nat, i: nat)
    requires 0 < i < m <= n
    ensures DrawsBelow(st, n, m)[i] == DrawFor(st, n, i)
    decreases m
  {
    if i < m - 1 {
      DrawsBelowAt(st, n, m - 1, i);
    }
  }

  /** What `shuffle(a)` returns from state `st`; the state afterwards is
      `Advance(st, ShuffleDraws(|a|))`. */
  function Shuffled<T>(st: bv32, a: seq<T>): seq<T>
  {
    FisherYates(a, Draws(st, |a|), ShuffleDraws(|a|))
  }

  /** A shuffle returns a permutation of its input. */
  lemma ShuffledPermutes<T>(st: bv32, a: seq<T>)
    ensures |Shuffled(st, a)| == |a|
    ensures multiset(Shuffled(st, a)) == multiset(a)
  {
    FisherYatesPermutes(a, Draws(st, |a|), ShuffleDraws(|a|));
  }

  lemma {:induction false} AdvanceKeepsNonZero(s: bv32, k: nat)
    requires s != 0
    ensures Advance(s, k) != 0
    decreases k
  {
    if k > 0 {
      AdvanceKeepsNonZero(s, k - 1);
      XorShiftKeepsNonZero(Advance(s, k - 1));
    }
  }

  /** A 32-bit generator whose state `next()` overwrites on every call. */
  class SeededRandom {
    var state: bv32

    /** The state is never 0, the one fixed point of xorshift. */
    ghost predicate Valid()
      reads this
    {
      state != 0
    }

    constructor (seed: int)
      ensures Valid() && state == SeedState(seed)
    {
      state := SeedState(seed);
    }

    method Next() returns (r: real)
      requires Valid()
      modifies this
      ensures Valid() && state == XorShift(old(state))
      ensures r == Fraction(state) && 0.0 <= r < 1.0
    {
      XorShiftKeepsNonZero(state);
      state := XorShift(state);
      r := Fraction(state);
    }

    method NextInt(min: int, max: int) returns (r: int)
      requires Valid()
      modifies this
      ensures Valid() && state == XorShift(old(state))
      ensures r == ScaleDraw(state, min, max)
      ensures min < max ==> min <= r < max
    {
      var _ := Next();
      r := ScaleDraw(state, min, max);
      if min < max {
        ScaleDrawInRange(state, min, max);
      }
    }

    /** Fisher–Yates on a copy of `a`; `a` itself is a value and stays as it was. */
    method Shuffle<T>(a: seq<T>) returns (r: seq<T>)
      requires Valid()
      modifies this
      ensures Valid()
      ensures r == Shuffled(old(state), a)
      ensures state == Advance(old(state), ShuffleDraws(|a|))
    {
      var arr := new T[|a|](k requires 0 <= k < |a| => a[k]);
      assert arr[..] == a;
      ghost var js := Draws(state, |a|);
      ghost var top := ShuffleDraws(|a|);
      ghost var steps: nat := 0;
      var i := |a| - 1;
      while i > 0
        invariant -1 <= i < |a| && (|a| > 0 ==> i >= 0)
        invariant steps + (if i < 0 then 0 else i) == top
        invariant Valid() && state == Advance(old(state), steps)
        invariant FisherYates(arr[..], js, if i < 0 then 0 else i) == FisherYates(a, js, top)
        decreases i
      {
        ghost var before := arr[..];
        var j := NextInt(0, i + 1);
        steps := steps + 1;
        DrawMatches(old(state), |a|, i, state);
        arr[i], arr[j] := arr[j], arr[i];
        assert arr[..] == Swap(before, i, j);
        i := i - 1;
      }
      r := arr[..];
    }
  }

  /** Two generators built from one seed give the same `k` values of `next`.
      The same holds for `nextInt` and `shuffle`, whose results are functions
      of the state before the call (their ensures) and which advance it by a
      fixed number of steps; `SameSeedSameShuffle` states the shuffle case. */
  method SameSeedSameDraws(seed: int, k: nat) returns (xs: seq<real>, ys: seq<real>)
    ensures |xs| == k && xs == ys
  {
    var g1 := new SeededRandom(seed);
    var g2 := new SeededRandom(seed);
    xs, ys := [], [];
    for n := 0 to k
      invariant g1.Valid() && g2.Valid() && g1.state == g2.state
      invariant |xs| == n && xs == ys
    {
      var x := g1.Next();
      var y := g2.Next();
      xs, ys := xs + [x], ys + [y];
    }
  }

  /** Two generators built from one seed shuffle a sequence the same way. */
  method SameSeedSameShuffle<T>(seed: int, a: seq<T>) returns (r1: seq<T>, r2: seq<T>)
    ensures r1 == r2
    ensures multiset(r1) == multiset(a)
  {
    var g1 := new SeededRandom(seed);
    var g2 := new SeededRandom(seed);
    r1 := g1.Shuffle(a);
    r2 := g2.Shuffle(a);
    ShuffledPermutes(SeedState(seed), a);
  }

  /** JavaScript's ToInt32: the integer congruent to x modulo 2^32 in
      [-2^31, 2^31). */
  function Wrap32(x: int): (r: int)
    ensures -TwoTo31 <= r < TwoTo31
    ensures (x - r) % TwoTo32 == 0
  {
    var m := x % TwoTo32;
    if m >= TwoTo31 then m - TwoTo32 else m
  }

  lemma WrapPeriodic(x: int, k: int)
    ensures Wrap32(x + k * TwoTo32) == Wrap32(x)
  {
    assert (x + k * TwoTo32) % TwoTo32 == x % TwoTo32;
  }

  lemma WrapOfCongruent(x: int, y: int)
    requires (x - y) % TwoTo32 == 0
    ensures Wrap32(x) == Wrap32(y)
  {
    var k := (x - y) / TwoTo32;
    assert x == y + k * TwoTo32;
    WrapPeriodic(y, k);
  }

  /** The code unit the hash reads for a character. */
  function CodeUnit(c: char): nat
  {
    c as int
  }

  /** The hash before the absolute value: hash := int32(31·hash + code unit), from 0. */
  function HashFold(s: string): (h: int)
    ensures -TwoTo31 <= h < TwoTo31
  {
    if s == [] then 0 else Wrap32(31 * HashFold(s[..|s| - 1]) + CodeUnit(s[|s| - 1]))
  }

  /** `hashString`: the absolute value of the folded hash. */
  function StringHash(s: string): (h: nat)
    ensures h <= TwoTo31
  {
    var f := HashFold(s);
    if f < 0 then -f else f
  }

  /** `((hash << 5) - hash) + char` followed by `hash & hash` is the 32-bit
      wrap of 31·hash + char. */
  lemma ShiftSubtractIsTimes31(h: int, c: int)
    requires -TwoTo31 <= h < TwoTo31
    ensures Wrap32(Wrap32(h * 32) - h + c) == Wrap32(31 * h + c)
  {
    WrapOfCongruent(Wrap32(h * 32) - h + c, 31 * h + c);
  }

  method HashString(s: string) returns (h: int)
    ensures h == StringHash(s)
    ensures 0 <= h <= TwoTo31
  {
    var hash := 0;
    for i := 0 to |s|
      invariant hash == HashFold(s[..i])
    {
      var ch := CodeUnit(s[i]);
      ShiftSubtractIsTimes31(hash, ch);
      hash := Wrap32(hash * 32) - hash + ch;
      hash := Wrap32(hash);
      assert s[..i + 1][..i] == s[..i];
    }
    assert s[..|s|] == s;
    h := if hash < 0 then -hash else hash;
  }
}
