/** The fragment of JavaScript regular expressions that the course-text
    parser tests with: word boundaries `\b`, literal text, an optional
    literal group `(?:w)?` and a whitespace run `\s*`, all under the `i`
    flag without `u`. `test` asks whether some alternative matches at some
    position, which is what `MatchFrom` and `Search` decide. */
module Regex {

  datatype Piece =
    | Boundary            // `\b`
    | Word(w: string)     // literal text
    | Optional(w: string) // `(?:w)?`
    | Blanks              // `\s*`

  /** One alternative of a regular expression, read left to right. */
  type Pattern = seq<Piece>

  /** `\w` and therefore `\b`: ASCII letters, digits and underscore. */
  predicate IsWordChar(c: char)
  {
    'a' <= c <= 'z' || 'A' <= c <= 'Z' || '0' <= c <= '9' || c == '_'
  }

  /** `\s`: the ECMAScript white space and line terminator characters. */
  predicate IsSpace(c: char)
  {
    c == '\t' || c == '\n' || c == '\U{B}' || c == '\U{C}' || c == '\r' || c == ' '
    || c == '\U{A0}' || c == '\U{1680}' || ('\U{2000}' <= c <= '\U{200A}')
    || c == '\U{2028}' || c == '\U{2029}' || c == '\U{202F}' || c == '\U{205F}'
    || c == '\U{3000}' || c == '\U{FEFF}'
  }

  /** Case folding of the `i` flag without `u`: only ASCII letters have a
      partner, since a non-ASCII character never folds onto an ASCII one. */
  function Fold(c: char): (f: char)
    ensures f == c || ('a' <= c <= 'z' && 'A' <= f <= 'Z')
  {
    if 'a' <= c <= 'z' then (c as int - 32) as char else c
  }

  predicate WordCharAt(s: string, k: int)
  {
    0 <= k < |s| && IsWordChar(s[k])
  }

  /** `\b` at position `i`: a word character on exactly one side. */
  predicate IsBoundary(s: string, i: nat)
  {
    WordCharAt(s, i - 1) != WordCharAt(s, i)
  }

  /** The text at `i` spells `w`, up to case. */
  predicate WordAt(s: string, i: nat, w: string)
  {
    i + |w| <= |s| && forall k :: 0 <= k < |w| ==> Fold(s[i + k]) == Fold(w[k])
  }

  /** The pieces match the text starting at position `i`, for some choice at
      each optional group and whitespace run. */
  predicate MatchFrom(s: string, i: nat, ps: Pattern)
    requires i <= |s|
    decreases |ps|, |s| - i
  {
    if ps == [] then true
    else
      match ps[0]
      case Boundary => IsBoundary(s, i) && MatchFrom(s, i, ps[1..])
      case Word(w) => WordAt(s, i, w) && MatchFrom(s, i + |w|, ps[1..])
      case Optional(w) => (WordAt(s, i, w) && MatchFrom(s, i + |w|, ps[1..])) || MatchFrom(s, i, ps[1..])
      case Blanks => MatchFrom(s, i, ps[1..]) || (i < |s| && IsSpace(s[i]) && MatchFrom(s, i + 1, ps))
  }

  /** The scan of `test`: try each start position from `i` on. */
  predicate Search(s: string, ps: Pattern, i: nat)
    requires i <= |s|
    decreases |s| - i
  {
    MatchFrom(s, i, ps) || (i < |s| && Search(s, ps, i + 1))
  }

  /** `regex.test(s)` for the alternatives `alts` of a regular expression. */
  predicate Test(alts: seq<Pattern>, s: string)
  {
    alts != [] && (Search(s, alts[0], 0) || Test(alts[1..], s))
  }

  /** A match starting at or after `i` makes the scan from `i` succeed. */
  lemma {:induction false} SearchFound(s: string, ps: Pattern, i: nat, j: nat)
    requires i <= j <= |s| && MatchFrom(s, j, ps)
    ensures Search(s, ps, i)
    decreases j - i
  {
    if i < j {
      SearchFound(s, ps, i + 1, j);
    }
  }

  /** A successful scan from `i` has found a match at some `j >= i`. */
  lemma {:induction false} SearchWitness(s: string, ps: Pattern, i: nat) returns (j: nat)
    requires i <= |s| && Search(s, ps, i)
    ensures i <= j <= |s| && MatchFrom(s, j, ps)
    decreases |s| - i
  {
    if MatchFrom(s, i, ps) {
      j := i;
    } else {
      j := SearchWitness(s, ps, i + 1);
    }
  }

  /** A regular expression holds when one of its alternatives matches somewhere. */
  lemma {:induction false} TestFound(alts: seq<Pattern>, s: string, k: nat, j: nat)
    requires k < |alts| && j <= |s| && MatchFrom(s, j, alts[k])
    ensures Test(alts, s)
    decreases k
  {
    if k == 0 {
      SearchFound(s, alts[0], 0, j);
    } else {
      TestFound(alts[1..], s, k - 1, j);
    }
  }

  /** A regular expression that holds has an alternative matching at some position. */
  lemma {:induction false} TestWitness(alts: seq<Pattern>, s: string) returns (k: nat, j: nat)
    requires Test(alts, s)
    ensures k < |alts| && j <= |s| && MatchFrom(s, j, alts[k])
    decreases |alts|
  {
    if Search(s, alts[0], 0) {
      k := 0;
      j := SearchWitness(s, alts[0], 0);
    } else {
      var k';
      k', j := TestWitness(alts[1..], s);
      k := k' + 1;
    }
  }

  /** Text spelling `u + v` spells `u` and then `v`. */
  lemma WordAtSplit(s: string, i: nat, u: string, v: string)
    requires WordAt(s, i, u + v)
    ensures WordAt(s, i, u) && WordAt(s, i + |u|, v)
  {
    forall k | 0 <= k < |u|
      ensures Fold(s[i + k]) == Fold(u[k])
    {
      assert (u + v)[k] == u[k];
    }
    forall k | 0 <= k < |v|
      ensures Fold(s[i + |u| + k]) == Fold(v[k])
    {
      assert (u + v)[|u| + k] == v[k];
    }
  }
}
