/**
 * The state model of the water-sort puzzle: colours, bottles, puzzles and
 * moves, and the facts about them that the move engine, the generator and
 * the solver share.
 *
 * A bottle is a sequence of colours whose LAST element is the top; its
 * length, not placeholder values, says how full it is.
 */
module Puzzles {

  /** A liquid unit's colour tag (1..n in generated puzzles). */
  type Color = int

  /** A bottle: an ordered stack of colours, top at the end. */
  type Bottle = seq<Color>

  /** A puzzle: the ordered collection of bottles. */
  type Puzzle = seq<Bottle>

  /** A pour request: `amount` units from bottle `from` onto bottle `to`. */
  datatype Move = Move(from: int, to: int, amount: int)

  function Min(a: int, b: int): int { if a <= b then a else b }

  function Max(a: int, b: int): int { if a >= b then a else b }

  predicate InRange(p: Puzzle, i: int) { 0 <= i < |p| }

  /** The colour on top of a non-empty bottle. */
  function Top(b: Bottle): Color
    requires |b| > 0
  {
    b[|b| - 1]
  }

  /**
   * The number of consecutive units at the top of `b` that share the top
   * colour: every one of the top `r` units is the top colour, and the unit
   * just below them (if any) is not.
   */
  function TopRun(b: Bottle): (r: nat)
    ensures r == 0 <==> |b| == 0
    ensures r <= |b|
    ensures forall i :: |b| - r <= i < |b| ==> b[i] == b[|b| - 1]
    ensures 0 < r < |b| ==> b[|b| - 1 - r] != b[|b| - 1]
    decreases |b|
  {
    if |b| == 0 then 0
    else if |b| >= 2 && b[|b| - 2] == b[|b| - 1] then TopRun(b[..|b| - 1]) + 1
    else 1
  }

  /** The two properties in TopRun's contract determine the run length. */
  lemma TopRunUnique(b: Bottle, n: nat)
    requires 0 < n <= |b|
    requires forall i :: |b| - n <= i < |b| ==> b[i] == b[|b| - 1]
    requires n < |b| ==> b[|b| - 1 - n] != b[|b| - 1]
    ensures n == TopRun(b)
  {
  }

  /** Every unit of the bottle has the bottom unit's colour (vacuous when empty). */
  predicate Monochrome(b: Bottle) {
    forall i :: 0 <= i < |b| ==> b[i] == b[0]
  }

  /** A complete bottle: full height and a single colour. */
  predicate Complete(b: Bottle, h: int) {
    |b| == h && Monochrome(b)
  }

  /** Every bottle is empty or complete. */
  predicate Solved(p: Puzzle, h: int) {
    forall i :: 0 <= i < |p| ==> |p[i]| == 0 || Complete(p[i], h)
  }

  /** Every bottle holds a single colour (no height requirement). */
  predicate AllMonochrome(p: Puzzle) {
    forall i :: 0 <= i < |p| ==> Monochrome(p[i])
  }

  /** No bottle is taller than `h`. */
  predicate WithinHeight(p: Puzzle, h: int) {
    forall i :: 0 <= i < |p| ==> |p[i]| <= h
  }

  lemma SolvedIsAllMonochrome(p: Puzzle, h: int)
    requires Solved(p, h)
    ensures AllMonochrome(p)
  {
  }

  /** `n` units of colour `c`. */
  function Repeat(c: Color, n: nat): (r: seq<Color>)
    ensures |r| == n
    ensures forall i :: 0 <= i < n ==> r[i] == c
    ensures forall x :: multiset(r)[x] == if x == c then n else 0
  {
    if n == 0 then [] else Repeat(c, n - 1) + [c]
  }

  /**
   * The distinct elements of `s` in order of first occurrence (the order in
   * which a JavaScript Map meets its keys).
   */
  function Dedup(s: seq<Color>): (d: seq<Color>)
    ensures forall x :: x in d <==> x in s
    ensures forall i, j :: 0 <= i < j < |d| ==> d[i] != d[j]
    ensures |s| > 0 ==> |d| > 0 && d[0] == s[0]
    decreases |s|
  {
    if |s| == 0 then []
    else
      var d := Dedup(s[..|s| - 1]);
      assert s == s[..|s| - 1] + [s[|s| - 1]];
      if s[|s| - 1] in d then d else d + [s[|s| - 1]]
  }

  lemma DedupSnoc(s: seq<Color>, x: Color)
    ensures Dedup(s + [x]) == if x in Dedup(s) then Dedup(s) else Dedup(s) + [x]
  {
    assert (s + [x])[..|s + [x]| - 1] == s;
  }

  /** All units of the puzzle, bottle after bottle. */
  function Flat(p: Puzzle): seq<Color>
    decreases |p|
  {
    if |p| == 0 then [] else Flat(p[..|p| - 1]) + p[|p| - 1]
  }

  /** The multiset of colours held by the puzzle. */
  function ColorBag(p: Puzzle): multiset<Color> {
    multiset(Flat(p))
  }

  lemma {:induction false} FlatConcat(a: Puzzle, b: Puzzle)
    ensures Flat(a + b) == Flat(a) + Flat(b)
    decreases |b|
  {
    if |b| == 0 {
      assert a + b == a;
    } else {
      assert (a + b)[..|a + b| - 1] == a + b[..|b| - 1];
      FlatConcat(a, b[..|b| - 1]);
    }
  }

  /** Empty bottles add no units. */
  lemma FlatAppendEmpties(a: Puzzle, empties: Puzzle)
    requires empties == [[], []]
    ensures Flat(a + empties) == Flat(a)
  {
    var one: Puzzle := empties[..1];
    assert one[..0] == [];
    assert Flat(one) == [];
    FlatConcat(a, empties);
  }

  /** A non-empty sequence is its prefix and its last element. */
  lemma SplitLast<T>(s: seq<T>)
    requires |s| > 0
    ensures s == s[..|s| - 1] + [s[|s| - 1]]
  {
  }

  /** Adjacent slices join. */
  lemma SliceJoin<T>(s: seq<T>, lo: int, hi: int)
    requires 0 <= lo <= hi <= |s|
    ensures s[..lo] + s[lo..hi] == s[..hi]
  {
  }

  /** Appending a bottle appends its units. */
  lemma FlatSnoc(p: Puzzle, b: Bottle)
    ensures Flat(p + [b]) == Flat(p) + b
  {
    assert (p + [b])[..|p|] == p;
  }

  /** Flat grows bottle by bottle along a prefix of the puzzle. */
  lemma FlatPrefix(p: Puzzle, i: int)
    requires 0 <= i < |p|
    ensures Flat(p[..i + 1]) == Flat(p[..i]) + p[i]
  {
    assert p[..i + 1][..i] == p[..i];
  }

  /** A colour occurs in the puzzle exactly when some bottle holds it. */
  lemma {:induction false} FlatContains(p: Puzzle, c: Color)
    ensures c in Flat(p) <==> exists i :: 0 <= i < |p| && c in p[i]
    decreases |p|
  {
    if |p| > 0 {
      var q := p[..|p| - 1];
      FlatContains(q, c);
      assert forall i :: 0 <= i < |q| ==> q[i] == p[i];
      if c in p[|p| - 1] {
        assert c in Flat(p);
      }
    }
  }

  /** Replacing one bottle exchanges its colours for the new bottle's. */
  lemma ColorBagUpdate(p: Puzzle, i: int, b: Bottle)
    requires 0 <= i < |p|
    ensures ColorBag(p[i := b]) + multiset(p[i]) == ColorBag(p) + multiset(b)
  {
    var pre, post := p[..i], p[i + 1..];
    assert p == pre + [p[i]] + post;
    assert p[i := b] == pre + [b] + post;
    FlatConcat(pre + [p[i]], post);
    FlatConcat(pre, [p[i]]);
    FlatConcat(pre + [b], post);
    FlatConcat(pre, [b]);
    assert Flat([p[i]]) == p[i] by { assert [p[i]][..0] == []; }
    assert Flat([b]) == b by { assert [b][..0] == []; }
  }

  lemma MultisetCancel(a: multiset<Color>, b: multiset<Color>, x: multiset<Color>)
    requires a + x == b + x
    ensures a == b
  {
    forall e ensures a[e] == b[e] {
      assert (a + x)[e] == (b + x)[e];
    }
  }

  /**
   * The state after pouring the top `k` units of bottle `from` onto bottle
   * `to`: those units leave `from` and are appended, in the same order, on
   * top of `to`; every other bottle is unchanged, and no colour is created
   * or lost.
   */
  function Pour(p: Puzzle, from: int, to: int, k: int): (r: Puzzle)
    requires InRange(p, from) && InRange(p, to) && from != to
    requires 0 <= k <= |p[from]|
    ensures |r| == |p|
    ensures r[from] == p[from][..|p[from]| - k]
    ensures r[to] == p[to] + p[from][|p[from]| - k..]
    ensures forall i :: 0 <= i < |p| && i != from && i != to ==> r[i] == p[i]
    ensures ColorBag(r) == ColorBag(p)
  {
    var src := p[from];
    var kept, moving := src[..|src| - k], src[|src| - k..];
    var q := p[from := kept];
    ColorBagUpdate(p, from, kept);
    ColorBagUpdate(q, to, p[to] + moving);
    assert src == kept + moving;
    assert q[to] == p[to];
    var r := q[to := p[to] + moving];
    assert multiset(src) == multiset(kept) + multiset(moving);
    assert multiset(p[to] + moving) == multiset(p[to]) + multiset(moving);
    MultisetCancel(ColorBag(r), ColorBag(q) + multiset(moving), multiset(p[to]));
    MultisetCancel(ColorBag(q) + multiset(moving), ColorBag(p), multiset(kept));
    r
  }

  /** A pour that fits in the destination keeps every bottle within height. */
  lemma PourWithinHeight(p: Puzzle, from: int, to: int, k: int, h: int)
    requires InRange(p, from) && InRange(p, to) && from != to
    requires 0 <= k <= |p[from]|
    requires WithinHeight(p, h) && |p[to]| + k <= h
    ensures WithinHeight(Pour(p, from, to, k), h)
  {
  }
}
