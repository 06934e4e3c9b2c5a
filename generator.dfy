/**
 * The puzzle generator (class WaterSortPuzzleGenerator) and the colour-count
 * check of PuzzleUtils.
 *
 * A generator is made from a configuration that it validates once; its
 * settings never change afterwards, so they are a value passed to every
 * operation. Math.random is replaced by an oracle: the shuffle of attempt
 * `k` exchanges position `i` with position `rand(k)(i) % (i + 1)`, which
 * can be any index in [0, i].
 */
module Generator {
  import opened Wrappers
  import opened Puzzles

  const MinColors := 2
  const MinBottleHeight := 4
  const DefaultMixingSteps := 200
  const MaxGenerationAttempts := 10
  const MinEmptyBottles := 2

  /** GeneratorConfig; an absent optional field is `None`. */
  datatype Config = Config(numColors: int, bottleHeight: int, numBottles: Option<int>, mixingSteps: Option<int>)

  /** The generator's completed configuration. */
  datatype Settings = Settings(numColors: int, bottleHeight: int, numBottles: int, mixingSteps: int)

  /** Why a configuration was rejected (the two errors validateConfig throws). */
  datatype ConfigError = TooFewColors | BottleTooLow

  /** Why generation produced no puzzle. */
  datatype GenError = InvalidConfig(problem: ConfigError) | AttemptsExhausted

  /** The shuffle oracle of one attempt: the random draw used at position `i`. */
  type Picks = int -> nat

  predicate ValidSettings(s: Settings) {
    s.numColors >= MinColors && s.bottleHeight >= MinBottleHeight
  }

  /** JavaScript's `x || d` on an optional number: a missing value or 0 falls back to `d`. */
  function OrDefault(x: Option<int>, d: int): int {
    if x.Some? && x.value != 0 then x.value else d
  }

  // ---------------------------------------------------------------------
  // constructor, validateConfig
  // ---------------------------------------------------------------------

  /**
   * The constructor: too few colours are reported first, then a bottle
   * that is too low; a configuration passing both is completed with the
   * defaults numColors + 2 bottles and DefaultMixingSteps.
   */
  function NewGenerator(config: Config): (r: Result<Settings, ConfigError>)
    ensures r == Failure(TooFewColors) <==> config.numColors < MinColors
    ensures r == Failure(BottleTooLow) <==>
      config.numColors >= MinColors && config.bottleHeight < MinBottleHeight
    ensures r.Success? ==>
      ValidSettings(r.value) &&
      r.value.numColors == config.numColors && r.value.bottleHeight == config.bottleHeight
    ensures r.Success? && (config.numBottles == None || config.numBottles == Some(0)) ==>
      r.value.numBottles == config.numColors + 2
    ensures r.Success? && config.numBottles.Some? && config.numBottles.value != 0 ==>
      r.value.numBottles == config.numBottles.value
    ensures r.Success? && (config.mixingSteps == None || config.mixingSteps == Some(0)) ==>
      r.value.mixingSteps == DefaultMixingSteps
    ensures r.Success? && config.mixingSteps.Some? && config.mixingSteps.value != 0 ==>
      r.value.mixingSteps == config.mixingSteps.value
  {
    if config.numColors < MinColors then Failure(TooFewColors)
    else if config.bottleHeight < MinBottleHeight then Failure(BottleTooLow)
    else
      Success(Settings(config.numColors, config.bottleHeight,
                       OrDefault(config.numBottles, config.numColors + 2),
                       OrDefault(config.mixingSteps, DefaultMixingSteps)))
  }

  // ---------------------------------------------------------------------
  // createDirectlyMixedState, step 1: the flat colour sequence
  // ---------------------------------------------------------------------

  /** Colours 1..numColors, each repeated `h` times, in ascending order. */
  function Palette(numColors: int, h: nat): (r: seq<Color>)
    ensures numColors >= 0 ==> |r| == Units(numColors, h)
    ensures forall c :: multiset(r)[c] == if 1 <= c <= numColors then h else 0
    decreases numColors
  {
    if numColors <= 0 then [] else Palette(numColors - 1, h) + Repeat(numColors, h)
  }

  method BuildColorSequence(numColors: int, h: nat) returns (allColors: seq<Color>)
    ensures allColors == Palette(numColors, h)
  {
    allColors := [];
    var colorId := 1;
    while colorId <= numColors
      invariant 1 <= colorId && (colorId <= numColors + 1 || colorId == 1)
      invariant allColors == Palette(colorId - 1, h)
      decreases numColors - colorId
    {
      for i := 0 to h
        invariant allColors == Palette(colorId - 1, h) + Repeat(colorId, i)
      {
        allColors := allColors + [colorId];
      }
      colorId := colorId + 1;
    }
  }

  // ---------------------------------------------------------------------
  // shuffleArray
  // ---------------------------------------------------------------------

  /** The index drawn at position `i`: Math.floor(Math.random() * (i + 1)), some index in [0, i]. */
  function Drawn(pick: Picks, i: int): (j: int)
    requires i > 0
    ensures 0 <= j <= i
  {
    pick(i) % (i + 1)
  }

  /**
   * Fisher-Yates from position `i` down to 1: position `i` is exchanged
   * with the drawn index in [0, i] and is then final.
   */
  function Shuffled<T>(s: seq<T>, pick: Picks, i: int): (r: seq<T>)
    requires i < |s|
    ensures |r| == |s|
    decreases i
  {
    if i <= 0 then s
    else
      var j := Drawn(pick, i);
      Shuffled(s[i := s[j]][j := s[i]], pick, i - 1)
  }

  /** The positions above `i` are already final and are left untouched. */
  lemma {:induction false} ShuffledFixesAbove<T>(s: seq<T>, pick: Picks, i: int)
    requires i < |s|
    ensures forall k :: i < k < |s| && 0 <= k ==> Shuffled(s, pick, i)[k] == s[k]
    decreases i
  {
    if i > 0 {
      var j := Drawn(pick, i);
      ShuffledFixesAbove(s[i := s[j]][j := s[i]], pick, i - 1);
    }
  }

  /** Whatever the draws, the shuffle is a permutation. */
  lemma {:induction false} ShuffledPermutes<T>(s: seq<T>, pick: Picks, i: int)
    requires i < |s|
    ensures multiset(Shuffled(s, pick, i)) == multiset(s)
    decreases i
  {
    if i > 0 {
      var j := Drawn(pick, i);
      ShuffledPermutes(s[i := s[j]][j := s[i]], pick, i - 1);
    }
  }

  /** shuffleArray's result: the whole array shuffled, from the last position down. */
  function FisherYates<T>(s: seq<T>, pick: Picks): (r: seq<T>)
    ensures |r| == |s|
    ensures multiset(r) == multiset(s)
  {
    ShuffledPermutes(s, pick, |s| - 1);
    Shuffled(s, pick, |s| - 1)
  }

  method ShuffleArray<T>(a: array<T>, pick: Picks)
    modifies a
    ensures a[..] == FisherYates(old(a[..]), pick)
  {
    ghost var original := a[..];
    var i := a.Length - 1;
    assert Shuffled(original, pick, i) == FisherYates(original, pick);
    while i > 0
      invariant -1 <= i < a.Length
      invariant Shuffled(a[..], pick, i) == FisherYates(original, pick)
    {
      var j := Drawn(pick, i);
      ghost var before := a[..];
      a[i], a[j] := a[j], a[i];
      assert a[..] == before[i := before[j]][j := before[i]];
      i := i - 1;
    }
  }

  // ---------------------------------------------------------------------
  // createDirectlyMixedState, steps 3-4: dealing into bottles
  // ---------------------------------------------------------------------

  /** n * h, written as repeated addition so that proofs about it stay linear. */
  function Units(n: nat, h: nat): nat
    decreases n
  {
    if n == 0 then 0 else Units(n - 1, h) + h
  }

  lemma {:induction false} UnitsMono(a: nat, b: nat, h: nat)
    requires a <= b
    ensures Units(a, h) <= Units(b, h)
    decreases b
  {
    if a < b {
      UnitsMono(a, b - 1, h);
    }
  }

  lemma {:induction false} UnitsIsProduct(n: nat, h: nat)
    ensures Units(n, h) == n * h
    decreases n
  {
    if n > 0 {
      UnitsIsProduct(n - 1, h);
      assert n * h == (n - 1) * h + h;
    }
  }

  /** The first `n` bottles dealt from `colors`, each taking the next up to `h` units. */
  function Chunks(colors: seq<Color>, h: nat, n: nat): (r: Puzzle)
    ensures |r| == n
    decreases n
  {
    if n == 0 then []
    else Chunks(colors, h, n - 1) + [colors[Min(|colors|, Units(n - 1, h))..Min(|colors|, Units(n, h))]]
  }

  /** Bottle `b` of the deal holds units b*h up to (b+1)*h of `colors`, cut at its end. */
  lemma {:induction false} ChunkAt(colors: seq<Color>, h: nat, n: nat, b: nat)
    requires b < n
    ensures Chunks(colors, h, n)[b] == colors[Min(|colors|, Units(b, h))..Min(|colors|, Units(b, h) + h)]
    decreases n
  {
    var p := Chunks(colors, h, n - 1);
    var c := |colors|;
    assert Chunks(colors, h, n) == p + [colors[Min(c, Units(n - 1, h))..Min(c, Units(n, h))]];
    if b < n - 1 {
      ChunkAt(colors, h, n - 1, b);
      assert Chunks(colors, h, n)[b] == p[b];
    }
  }

  /** Bottle `b` holds units b*h up to (b+1)*h of `colors` (cut at its end), so at most `h`. */
  lemma ChunksContents(colors: seq<Color>, h: nat, n: nat)
    ensures forall b :: 0 <= b < n ==>
      Chunks(colors, h, n)[b] == colors[Min(|colors|, Units(b, h))..Min(|colors|, Units(b, h) + h)]
    ensures forall b :: 0 <= b < n ==> |Chunks(colors, h, n)[b]| <= h
  {
    forall b | 0 <= b < n
      ensures Chunks(colors, h, n)[b] == colors[Min(|colors|, Units(b, h))..Min(|colors|, Units(b, h) + h)]
      ensures |Chunks(colors, h, n)[b]| <= h
    {
      ChunkAt(colors, h, n, b);
      var lo, hi := Min(|colors|, Units(b, h)), Min(|colors|, Units(b, h) + h);
      assert lo <= hi <= lo + h;
      assert |colors[lo..hi]| == hi - lo;
    }
  }

  /** The dealt bottles concatenated are the first min(|colors|, n*h) units. */
  lemma {:induction false} ChunksFlat(colors: seq<Color>, h: nat, n: nat)
    ensures Flat(Chunks(colors, h, n)) == colors[..Min(|colors|, Units(n, h))]
    decreases n
  {
    if n > 0 {
      ChunksFlat(colors, h, n - 1);
      var p := Chunks(colors, h, n - 1);
      var lo, hi := Min(|colors|, Units(n - 1, h)), Min(|colors|, Units(n, h));
      assert Chunks(colors, h, n) == p + [colors[lo..hi]];
      FlatSnoc(p, colors[lo..hi]);
      SliceJoin(colors, lo, hi);
    }
  }

  /**
   * The state createDirectlyMixedState deals from a colour sequence:
   * numBottles - 2 bottles filled in turn (none when that is not positive),
   * then two empty bottles.
   */
  function Deal(s: Settings, colors: seq<Color>): (r: Puzzle)
    requires s.bottleHeight >= 0
    ensures |r| == Max(s.numBottles - MinEmptyBottles, 0) + MinEmptyBottles
    ensures r[|r| - 1] == [] && r[|r| - 2] == []
    ensures WithinHeight(r, s.bottleHeight)
    ensures Flat(r) == colors[..Min(|colors|, Units(Max(s.numBottles - MinEmptyBottles, 0), s.bottleHeight))]
  {
    var n := Max(s.numBottles - MinEmptyBottles, 0);
    var filled := Chunks(colors, s.bottleHeight, n);
    var empties: Puzzle := [[], []];
    DealWithinHeight(colors, s.bottleHeight, n, filled, empties);
    DealFlat(colors, s.bottleHeight, n, filled, empties);
    filled + empties
  }

  lemma DealWithinHeight(colors: seq<Color>, h: nat, n: nat, filled: Puzzle, empties: Puzzle)
    requires filled == Chunks(colors, h, n) && empties == [[], []]
    ensures WithinHeight(filled + empties, h)
  {
    ChunksContents(colors, h, n);
    var r := filled + empties;
    forall i | 0 <= i < |r|
      ensures |r[i]| <= h
    {
      if i < n {
        assert r[i] == filled[i];
      }
    }
  }

  lemma DealFlat(colors: seq<Color>, h: nat, n: nat, filled: Puzzle, empties: Puzzle)
    requires filled == Chunks(colors, h, n) && empties == [[], []]
    ensures Flat(filled + empties) == colors[..Min(|colors|, Units(n, h))]
  {
    ChunksFlat(colors, h, n);
    FlatAppendEmpties(filled, empties);
  }

  /** The colour sequence of one attempt after its shuffle. */
  function ShuffledColors(s: Settings, pick: Picks): (r: seq<Color>)
    requires ValidSettings(s)
    ensures multiset(r) == multiset(Palette(s.numColors, s.bottleHeight))
    ensures |r| == Units(s.numColors, s.bottleHeight)
  {
    FisherYates(Palette(s.numColors, s.bottleHeight), pick)
  }

  /** The state one attempt of generate produces. */
  function Attempt(s: Settings, pick: Picks): Puzzle
    requires ValidSettings(s)
  {
    Deal(s, ShuffledColors(s, pick))
  }

  /** The dealing loop: `filledBottles` bottles, each taking up to `h` units in turn. */
  method DealBottles(shuffled: seq<Color>, h: nat, filledBottles: int) returns (state: Puzzle)
    ensures state == Chunks(shuffled, h, Max(filledBottles, 0))
  {
    state := [];
    var colorIndex := 0;
    var bottleIdx := 0;
    while bottleIdx < filledBottles
      invariant 0 <= bottleIdx <= Max(filledBottles, 0)
      invariant colorIndex == Min(|shuffled|, Units(bottleIdx, h))
      invariant state == Chunks(shuffled, h, bottleIdx)
    {
      var bottle: Bottle := [];
      var start := colorIndex;
      var i := 0;
      while i < h && colorIndex < |shuffled|
        invariant 0 <= i <= h
        invariant colorIndex == Min(|shuffled|, Units(bottleIdx, h) + i)
        invariant start <= colorIndex && bottle == shuffled[start..colorIndex]
      {
        bottle := bottle + [shuffled[colorIndex]];
        colorIndex := colorIndex + 1;
        i := i + 1;
      }
      state := state + [bottle];
      bottleIdx := bottleIdx + 1;
    }
  }

  /**
   * createDirectlyMixedState: build the colour sequence, shuffle it in an
   * array, deal it, add the empty bottles.
   */
  method CreateDirectlyMixedState(s: Settings, pick: Picks) returns (state: Puzzle)
    requires ValidSettings(s)
    ensures state == Attempt(s, pick)
  {
    var shuffled := MixColors(s, pick);
    var filled := DealBottles(shuffled, s.bottleHeight, s.numBottles - MinEmptyBottles);
    state := AddEmptyBottles(filled);
    AttemptFromParts(s, pick, shuffled, filled, state);
  }

  /** Steps 1-2 of createDirectlyMixedState: the colour sequence, shuffled in an array. */
  method MixColors(s: Settings, pick: Picks) returns (shuffled: seq<Color>)
    requires ValidSettings(s)
    ensures shuffled == ShuffledColors(s, pick)
  {
    var allColors := BuildColorSequence(s.numColors, s.bottleHeight);
    var buffer := new Color[|allColors|](i requires 0 <= i < |allColors| => allColors[i]);
    assert buffer[..] == allColors;
    ShuffleArray(buffer, pick);
    shuffled := buffer[..];
  }

  /** Step 5 of createDirectlyMixedState: MinEmptyBottles empty bottles appended. */
  method AddEmptyBottles(filled: Puzzle) returns (state: Puzzle)
    ensures state == filled + [[], []]
  {
    state := filled;
    for i := 0 to MinEmptyBottles
      invariant |state| == |filled| + i && state[..|filled|] == filled
      invariant forall k :: |filled| <= k < |state| ==> state[k] == []
    {
      state := state + [[]];
    }
  }

  lemma AttemptFromParts(s: Settings, pick: Picks, shuffled: seq<Color>, filled: Puzzle, state: Puzzle)
    requires ValidSettings(s) && shuffled == ShuffledColors(s, pick)
    requires filled == Chunks(shuffled, s.bottleHeight, Max(s.numBottles - MinEmptyBottles, 0))
    requires state == filled + [[], []]
    ensures state == Attempt(s, pick)
  {
  }

  // ---------------------------------------------------------------------
  // isCompletelyMixed
  // ---------------------------------------------------------------------

  /**
   * The bottle check of isCompletelyMixed: no two neighbouring units share
   * a colour, and, since the scan starts from the colour 0, the bottom unit
   * of a non-empty bottle is not 0.
   */
  predicate NoAdjacentRepeats(b: Bottle) {
    |b| == 0 || (b[0] != 0 && forall k :: 0 < k < |b| ==> b[k - 1] != b[k])
  }

  predicate CompletelyMixed(p: Puzzle) {
    forall i :: 0 <= i < |p| ==> NoAdjacentRepeats(p[i])
  }

  method IsCompletelyMixed(state: Puzzle) returns (mixed: bool)
    ensures mixed <==> CompletelyMixed(state)
  {
    for i := 0 to |state|
      invariant forall m :: 0 <= m < i ==> NoAdjacentRepeats(state[m])
    {
      var bottle := state[i];
      if |bottle| == 0 {
        continue;
      }
      var prevColor := 0;
      for j := 0 to |bottle|
        invariant prevColor == if j == 0 then 0 else bottle[j - 1]
        invariant bottle[0] != 0 || j == 0
        invariant forall k :: 0 < k < j ==> bottle[k - 1] != bottle[k]
      {
        if prevColor == bottle[j] {
          mixed := false;
          return;
        }
        prevColor := bottle[j];
      }
    }
    mixed := true;
  }

  // ---------------------------------------------------------------------
  // The colour-count Map of hasValidStructure and validatePuzzleConstraints
  // ---------------------------------------------------------------------

  /** The distinct colours of a puzzle. */
  function Colors(p: Puzzle): set<Color> {
    set c | c in Flat(p)
  }

  /** The colour-count Map of the units in `seen`, and the order of its keys. */
  ghost predicate CountsOf(counts: map<Color, nat>, order: seq<Color>, seen: seq<Color>) {
    (forall c :: c in counts <==> c in seen) &&
    (forall c :: c in counts ==> counts[c] == multiset(seen)[c]) &&
    order == Dedup(seen)
  }

  /** The inner loop: the Map takes in the units of one bottle, bottom first. */
  method CountBottle(counts0: map<Color, nat>, order0: seq<Color>, ghost seen: seq<Color>, bottle: Bottle)
    returns (counts: map<Color, nat>, order: seq<Color>)
    requires CountsOf(counts0, order0, seen)
    ensures CountsOf(counts, order, seen + bottle)
  {
    counts, order := counts0, order0;
    ghost var now := seen;
    for j := 0 to |bottle|
      invariant now == seen + bottle[..j]
      invariant CountsOf(counts, order, now)
    {
      var color := bottle[j];
      DedupSnoc(now, color);
      if color in counts {
        counts := counts[color := counts[color] + 1];
      } else {
        counts := counts[color := 1];
        order := order + [color];
      }
      assert bottle[..j + 1] == bottle[..j] + [color];
      now := now + [color];
    }
    assert bottle[..|bottle|] == bottle;
  }

  /**
   * The colour-count Map: a colour is a key exactly when the puzzle holds
   * it, and its value is the number of its units. `order` is the order in
   * which the Map meets its keys, which is also the order it lists them in.
   */
  method CountColors(state: Puzzle) returns (counts: map<Color, nat>, order: seq<Color>)
    ensures counts.Keys == Colors(state)
    ensures forall c :: c in counts ==> counts[c] == ColorBag(state)[c]
    ensures order == Dedup(Flat(state))
  {
    counts, order := map[], [];
    for i := 0 to |state|
      invariant CountsOf(counts, order, Flat(state[..i]))
    {
      counts, order := CountBottle(counts, order, Flat(state[..i]), state[i]);
      FlatPrefix(state, i);
    }
    assert state[..|state|] == state;
  }

  // ---------------------------------------------------------------------
  // countEmptyBottles, hasValidStructure
  // ---------------------------------------------------------------------

  /** The number of empty bottles (a filter on the length). */
  function CountEmptyBottles(p: Puzzle): (n: nat)
    ensures n <= |p|
    ensures n == 0 <==> forall i :: 0 <= i < |p| ==> |p[i]| > 0
    ensures n == |p| <==> forall i :: 0 <= i < |p| ==> |p[i]| == 0
    decreases |p|
  {
    if |p| == 0 then 0
    else CountEmptyBottles(p[..|p| - 1]) + (if |p[|p| - 1]| == 0 then 1 else 0)
  }

  /** Counting empty bottles distributes over putting puzzles side by side. */
  lemma {:induction false} CountEmptyBottlesConcat(a: Puzzle, b: Puzzle)
    ensures CountEmptyBottles(a + b) == CountEmptyBottles(a) + CountEmptyBottles(b)
    decreases |b|
  {
    if |b| == 0 {
      assert a + b == a;
    } else {
      assert (a + b)[..|a + b| - 1] == a + b[..|b| - 1];
      CountEmptyBottlesConcat(a, b[..|b| - 1]);
    }
  }

  /**
   * hasValidStructure: exactly numColors distinct colours, each with
   * exactly bottleHeight units, and at least two empty bottles.
   */
  predicate ValidStructure(p: Puzzle, s: Settings) {
    |Colors(p)| == s.numColors &&
    (forall c :: c in Colors(p) ==> ColorBag(p)[c] == s.bottleHeight) &&
    CountEmptyBottles(p) >= MinEmptyBottles
  }

  method HasValidStructure(state: Puzzle, s: Settings) returns (valid: bool)
    ensures valid <==> ValidStructure(state, s)
  {
    var counts, order := CountColors(state);
    if |counts| != s.numColors {
      return false;
    }
    for k := 0 to |order|
      invariant forall m :: 0 <= m < k ==> counts[order[m]] == s.bottleHeight
    {
      if counts[order[k]] != s.bottleHeight {
        return false;
      }
    }
    forall c | c in Colors(state)
      ensures ColorBag(state)[c] == s.bottleHeight
    {
      var w :| 0 <= w < |order| && order[w] == c;
    }
    var emptyBottles := CountEmptyBottles(state);
    if emptyBottles < MinEmptyBottles {
      return false;
    }
    return true;
  }

  // ---------------------------------------------------------------------
  // PuzzleUtils.validatePuzzleConstraints
  // ---------------------------------------------------------------------

  /** Every colour of the puzzle has as many units as every other, and there is one. */
  predicate EqualCounts(p: Puzzle) {
    |Flat(p)| > 0 &&
    forall c, d :: c in Colors(p) && d in Colors(p) ==> ColorBag(p)[c] == ColorBag(p)[d]
  }

  /** The counts are compared with the count of the colour the Map met first. */
  method ValidatePuzzleConstraints(state: Puzzle) returns (valid: bool)
    ensures valid <==> EqualCounts(state)
  {
    var counts, order := CountColors(state);
    if |order| == 0 {
      return false;
    }
    var expectedCount := counts[order[0]];
    for k := 0 to |order|
      invariant forall m :: 0 <= m < k ==> counts[order[m]] == expectedCount
    {
      if counts[order[k]] != expectedCount {
        return false;
      }
    }
    forall c | c in Colors(state)
      ensures ColorBag(state)[c] == expectedCount
    {
      var w :| 0 <= w < |order| && order[w] == c;
    }
    return true;
  }

  // ---------------------------------------------------------------------
  // generate, and the preset configurations of PuzzleGeneratorAPI
  // ---------------------------------------------------------------------

  /** A state generate accepts: completely mixed and of valid structure. */
  predicate Acceptable(p: Puzzle, s: Settings) {
    CompletelyMixed(p) && ValidStructure(p, s)
  }

  /** Attempt `k` of generate, which shuffles with `rand(k)`, is accepted. */
  ghost predicate AttemptAccepted(s: Settings, rand: nat -> Picks, k: nat)
    requires ValidSettings(s)
  {
    Acceptable(Attempt(s, rand(k)), s)
  }

  /** The least index below `n` at which `ok` holds, if any. */
  ghost function FirstWhere(ok: nat -> bool, n: nat): (r: Option<nat>)
    ensures r.Some? ==> r.value < n
    decreases n
  {
    if n == 0 then None
    else
      var earlier := FirstWhere(ok, n - 1);
      if earlier.Some? then earlier
      else if ok(n - 1) then Some(n - 1)
      else None
  }

  /** FirstWhere finds the least index, and finds none only when there is none. */
  lemma {:induction false} FirstWhereIsFirst(ok: nat -> bool, n: nat)
    ensures FirstWhere(ok, n).Some? ==>
      ok(FirstWhere(ok, n).value) && forall m :: 0 <= m < FirstWhere(ok, n).value ==> !ok(m)
    ensures FirstWhere(ok, n).None? <==> forall m :: 0 <= m < n ==> !ok(m)
    decreases n
  {
    if n > 0 {
      FirstWhereIsFirst(ok, n - 1);
    }
  }

  /** With nothing found below `n`, index `n` decides the search below `n + 1`. */
  lemma FirstWhereNext(ok: nat -> bool, n: nat)
    requires FirstWhere(ok, n) == None
    ensures FirstWhere(ok, n + 1) == if ok(n) then Some(n) else None
  {
  }

  /** Once an index is found, looking further does not change the answer. */
  lemma {:induction false} FirstWhereStable(ok: nat -> bool, n: nat, m: nat)
    requires n <= m && FirstWhere(ok, n).Some?
    ensures FirstWhere(ok, m) == FirstWhere(ok, n)
    decreases m - n
  {
    if n < m {
      FirstWhereStable(ok, n, m - 1);
    }
  }

  /** Which attempts pass both checks. */
  ghost function Accepts(s: Settings, rand: nat -> Picks): nat -> bool
    requires ValidSettings(s)
  {
    (k: nat) => AttemptAccepted(s, rand, k)
  }

  /** The index of the first accepted attempt among attempts 0..n-1, if any. */
  ghost function FirstAcceptable(s: Settings, rand: nat -> Picks, n: nat): (r: Option<nat>)
    requires ValidSettings(s)
    ensures r.Some? ==> r.value < n
  {
    FirstWhere(Accepts(s, rand), n)
  }

  /**
   * What generate returns: the state of the first accepted attempt, or
   * AttemptsExhausted when none of the MaxGenerationAttempts attempts is.
   */
  ghost function GenerateOutcome(s: Settings, rand: nat -> Picks): Result<Puzzle, GenError>
    requires ValidSettings(s)
  {
    FirstOutcome(Accepts(s, rand), Attempts(s, rand), MaxGenerationAttempts)
  }

  /** The state of each attempt. */
  ghost function Attempts(s: Settings, rand: nat -> Picks): nat -> Puzzle
    requires ValidSettings(s)
  {
    (k: nat) => Attempt(s, rand(k))
  }

  /** The state of the first index below `n` that `ok` accepts, or AttemptsExhausted. */
  ghost function FirstOutcome(ok: nat -> bool, state: nat -> Puzzle, n: nat): Result<Puzzle, GenError> {
    match FirstWhere(ok, n)
    case Some(k) => Success(state(k))
    case None => Failure(AttemptsExhausted)
  }

  /** The first accepted index determines the outcome. */
  lemma FirstOutcomeAt(ok: nat -> bool, state: nat -> Puzzle, k: nat, n: nat)
    requires k < n && FirstWhere(ok, k) == None && ok(k)
    ensures FirstOutcome(ok, state, n) == Success(state(k))
  {
    FirstWhereNext(ok, k);
    FirstWhereStable(ok, k + 1, n);
  }

  /** FirstOutcome succeeds with an accepted index's state, and fails only when no index is accepted. */
  lemma FirstOutcomeCases(ok: nat -> bool, state: nat -> Puzzle, n: nat)
    ensures FirstOutcome(ok, state, n).Success? ==>
      FirstWhere(ok, n).Some? && ok(FirstWhere(ok, n).value) &&
      FirstOutcome(ok, state, n).value == state(FirstWhere(ok, n).value)
    ensures FirstOutcome(ok, state, n).Failure? <==> forall m :: 0 <= m < n ==> !ok(m)
  {
    FirstWhereIsFirst(ok, n);
  }

  /**
   * A generated state passes both checks and has the configured bottle
   * count; generation fails only when every attempt was rejected.
   */
  lemma GenerateOutcomeAccepted(s: Settings, rand: nat -> Picks)
    requires ValidSettings(s)
    ensures GenerateOutcome(s, rand).Success? ==>
      Acceptable(GenerateOutcome(s, rand).value, s) &&
      |GenerateOutcome(s, rand).value| == Max(s.numBottles - MinEmptyBottles, 0) + MinEmptyBottles
    ensures GenerateOutcome(s, rand).Failure? <==>
      forall k :: 0 <= k < MaxGenerationAttempts ==> !AttemptAccepted(s, rand, k)
  {
    var ok, state := Accepts(s, rand), Attempts(s, rand);
    FirstOutcomeCases(ok, state, MaxGenerationAttempts);
    var r := GenerateOutcome(s, rand);
    if r.Success? {
      var k := FirstWhere(ok, MaxGenerationAttempts).value;
      assert AttemptAccepted(s, rand, k);
      assert r.value == Attempt(s, rand(k));
    }
    assert forall m :: 0 <= m < MaxGenerationAttempts ==> (ok(m) <==> AttemptAccepted(s, rand, m));
  }

  /**
   * generate, with its retry loop bounded by MaxGenerationAttempts: the
   * first accepted attempt, or AttemptsExhausted once every attempt failed.
   */
  method Generate(s: Settings, rand: nat -> Picks) returns (r: Result<Puzzle, GenError>)
    requires ValidSettings(s)
    ensures r == GenerateOutcome(s, rand)
  {
    var attempts := 0;
    while attempts < MaxGenerationAttempts
      invariant 0 <= attempts <= MaxGenerationAttempts
      invariant FirstAcceptable(s, rand, attempts) == None
    {
      var accepted, mixedState := TryAttempt(s, rand, attempts);
      if accepted {
        AcceptedAt(s, rand, attempts, mixedState);
        return Success(mixedState);
      }
      RejectedAt(s, rand, attempts);
      attempts := attempts + 1;
    }
    ExhaustedAt(s, rand);
    return Failure(AttemptsExhausted);
  }

  /** An accepted attempt after rejected ones is what generate returns. */
  lemma AcceptedAt(s: Settings, rand: nat -> Picks, k: nat, p: Puzzle)
    requires ValidSettings(s) && k < MaxGenerationAttempts
    requires FirstAcceptable(s, rand, k) == None && Accepts(s, rand)(k)
    requires p == Attempt(s, rand(k))
    ensures GenerateOutcome(s, rand) == Success(p)
  {
    FirstOutcomeAt(Accepts(s, rand), Attempts(s, rand), k, MaxGenerationAttempts);
  }

  /** A rejected attempt after rejected ones leaves no accepted attempt so far. */
  lemma RejectedAt(s: Settings, rand: nat -> Picks, k: nat)
    requires ValidSettings(s)
    requires FirstAcceptable(s, rand, k) == None && !Accepts(s, rand)(k)
    ensures FirstAcceptable(s, rand, k + 1) == None
  {
    FirstWhereNext(Accepts(s, rand), k);
  }

  /** With every attempt rejected, generate fails. */
  lemma ExhaustedAt(s: Settings, rand: nat -> Picks)
    requires ValidSettings(s)
    requires FirstAcceptable(s, rand, MaxGenerationAttempts) == None
    ensures GenerateOutcome(s, rand) == Failure(AttemptsExhausted)
  {
  }

  /** One pass of generate's loop: deal a mixed state and run both checks on it. */
  method TryAttempt(s: Settings, rand: nat -> Picks, k: nat) returns (accepted: bool, state: Puzzle)
    requires ValidSettings(s)
    ensures state == Attempt(s, rand(k))
    ensures accepted == Accepts(s, rand)(k)
    ensures accepted <==> Acceptable(state, s)
    ensures |state| == Max(s.numBottles - MinEmptyBottles, 0) + MinEmptyBottles
  {
    state := CreateDirectlyMixedState(s, rand(k));
    accepted := IsCompletelyMixed(state);
    if accepted {
      accepted := HasValidStructure(state, s);
    }
  }

  /** generateCustomPuzzle: the configuration's errors, else generate. */
  method GenerateCustomPuzzle(config: Config, rand: nat -> Picks) returns (r: Result<Puzzle, GenError>)
    ensures NewGenerator(config).Failure? ==> r == Failure(InvalidConfig(NewGenerator(config).error))
    ensures r.Success? ==>
      NewGenerator(config).Success? && Acceptable(r.value, NewGenerator(config).value) &&
      |r.value| == Max(NewGenerator(config).value.numBottles - MinEmptyBottles, 0) + MinEmptyBottles
    ensures NewGenerator(config).Success? ==> r == GenerateOutcome(NewGenerator(config).value, rand)
  {
    var gen := NewGenerator(config);
    if gen.Failure? {
      return Failure(InvalidConfig(gen.error));
    }
    r := Generate(gen.value, rand);
    GenerateOutcomeAccepted(gen.value, rand);
  }

  /** generateEasyPuzzle: 3 colours, height 4, 5 bottles. */
  method GenerateEasyPuzzle(rand: nat -> Picks) returns (r: Result<Puzzle, GenError>)
    ensures r.Success? ==> |r.value| == 5 && Acceptable(r.value, Settings(3, 4, 5, DefaultMixingSteps))
  {
    r := GenerateCustomPuzzle(Config(3, 4, Some(5), None), rand);
  }

  /** generateMediumPuzzle: 5 colours, height 4, 7 bottles. */
  method GenerateMediumPuzzle(rand: nat -> Picks) returns (r: Result<Puzzle, GenError>)
    ensures r.Success? ==> |r.value| == 7 && Acceptable(r.value, Settings(5, 4, 7, DefaultMixingSteps))
  {
    r := GenerateCustomPuzzle(Config(5, 4, Some(7), None), rand);
  }

  /** generateHardPuzzle: 8 colours, height 4, 10 bottles. */
  method GenerateHardPuzzle(rand: nat -> Picks) returns (r: Result<Puzzle, GenError>)
    ensures r.Success? ==> |r.value| == 10 && Acceptable(r.value, Settings(8, 4, 10, DefaultMixingSteps))
  {
    r := GenerateCustomPuzzle(Config(8, 4, Some(10), None), rand);
  }

  // ---------------------------------------------------------------------
  // What the checks guarantee about the states generate produces
  // ---------------------------------------------------------------------

  /** An accepted state is never already solved: it holds a bottle that is not one run of one colour. */
  lemma AcceptedIsUnsolved(p: Puzzle, s: Settings)
    requires ValidSettings(s) && Acceptable(p, s)
    ensures !Solved(p, s.bottleHeight)
  {
    assert |Flat(p)| == 0 ==> Colors(p) == {};
    var c := Flat(p)[0];
    FlatContains(p, c);
    var i :| 0 <= i < |p| && c in p[i];
    assert NoAdjacentRepeats(p[i]);
    if |p[i]| == s.bottleHeight {
      assert p[i][1] != p[i][0];
    }
    assert !Complete(p[i], s.bottleHeight);
  }

  /** The colour ids 1..n. */
  function ColorIds(n: int): (r: set<Color>)
    ensures forall c :: c in r <==> 1 <= c <= n
    ensures |r| == Max(n, 0)
    decreases n
  {
    if n <= 0 then {} else ColorIds(n - 1) + {n}
  }

  /** With at least numColors + 2 bottles, the deal places every shuffled unit. */
  lemma RoomyDealPlacesAll(s: Settings, pick: Picks)
    requires ValidSettings(s) && s.numBottles >= s.numColors + MinEmptyBottles
    ensures Flat(Attempt(s, pick)) == ShuffledColors(s, pick)
  {
    var colors := ShuffledColors(s, pick);
    UnitsMono(s.numColors, s.numBottles - MinEmptyBottles, s.bottleHeight);
    assert colors[..|colors|] == colors;
  }

  /**
   * With at least numColors + 2 bottles (the default count), every attempt
   * passes hasValidStructure, so only the mixing check can reject it.
   */
  lemma RoomyAttemptHasValidStructure(s: Settings, pick: Picks)
    requires ValidSettings(s) && s.numBottles >= s.numColors + MinEmptyBottles
    ensures ValidStructure(Attempt(s, pick), s)
  {
    var colors := ShuffledColors(s, pick);
    RoomyDealPlacesAll(s, pick);
    AttemptShape(s, pick);
    StructureOf(Attempt(s, pick), s, Chunks(colors, s.bottleHeight, Max(s.numBottles - MinEmptyBottles, 0)));
  }

  /** An attempt is its dealt bottles followed by the two empty ones. */
  lemma AttemptShape(s: Settings, pick: Picks)
    requires ValidSettings(s)
    ensures Attempt(s, pick) ==
      Chunks(ShuffledColors(s, pick), s.bottleHeight, Max(s.numBottles - MinEmptyBottles, 0)) + [[], []]
  {
  }

  /** A state of the palette's units ending in two empty bottles passes hasValidStructure. */
  lemma StructureOf(p: Puzzle, s: Settings, filled: Puzzle)
    requires ValidSettings(s) && ColorBag(p) == multiset(Palette(s.numColors, s.bottleHeight))
    requires p == filled + [[], []]
    ensures ValidStructure(p, s)
  {
    PaletteColors(p, s);
    TwoEmptiesCounted(filled);
  }

  /** A puzzle holding exactly the palette's units has its colours and counts. */
  lemma PaletteColors(p: Puzzle, s: Settings)
    requires ValidSettings(s) && ColorBag(p) == multiset(Palette(s.numColors, s.bottleHeight))
    ensures |Colors(p)| == s.numColors
    ensures forall c :: c in Colors(p) ==> ColorBag(p)[c] == s.bottleHeight
  {
    var bag := ColorBag(p);
    forall c ensures c in Colors(p) <==> c in ColorIds(s.numColors) {
      assert c in Colors(p) <==> bag[c] > 0;
    }
    assert Colors(p) == ColorIds(s.numColors);
  }

  /** Two empty bottles on top count as two. */
  lemma TwoEmptiesCounted(filled: Puzzle)
    ensures CountEmptyBottles(filled + [[], []]) >= MinEmptyBottles
  {
    var empties: Puzzle := [[], []];
    CountEmptyBottlesConcat(filled, empties);
  }

  /**
   * With exactly numColors + 2 bottles, each of the first numColors bottles
   * is filled to bottleHeight.
   */
  lemma DefaultDealFillsBottles(s: Settings, pick: Picks)
    requires ValidSettings(s) && s.numBottles == s.numColors + MinEmptyBottles
    ensures forall b :: 0 <= b < s.numColors ==> |Attempt(s, pick)[b]| == s.bottleHeight
  {
    var colors := ShuffledColors(s, pick);
    var h := s.bottleHeight;
    var filled := Chunks(colors, h, s.numColors);
    AttemptShape(s, pick);
    ChunksFull(colors, h, s.numColors);
    forall b | 0 <= b < s.numColors
      ensures |Attempt(s, pick)[b]| == h
    {
      assert Attempt(s, pick)[b] == filled[b];
    }
  }

  /** Dealing exactly n * h units into n bottles fills each of them. */
  lemma ChunksFull(colors: seq<Color>, h: nat, n: nat)
    requires |colors| == Units(n, h)
    ensures forall b :: 0 <= b < n ==> |Chunks(colors, h, n)[b]| == h
  {
    forall b | 0 <= b < n
      ensures |Chunks(colors, h, n)[b]| == h
    {
      ChunkAt(colors, h, n, b);
      UnitsMono(b + 1, n, h);
    }
  }
}
