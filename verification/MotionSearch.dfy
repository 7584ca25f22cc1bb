/** The search for a motion vector: it stays in its range, terminates, and only ever reads inside the margin
    (src/encoder/encode_inter.cc). */
module MotionSearch {
  import opened Wrappers
  import opened BoolCoding
  import opened MotionVectors
  import opened MotionCensus
  import opened Modes
  import opened InterModes
  import opened CodingTrees
  import opened InterPrediction
  import opened SafeRasters

  predicate OutOfBounds(mv: MotionVector) {
    mv.x > 1023 || mv.x < -1023 || mv.y > 1023 || mv.y < -1023
  }

  /** What a candidate costs: distortion and rate, whatever they are. */
  type Cost = MotionVector -> nat

  const MAXIMUM_COST: nat := 0xffff_ffff

  const CHECK_SITES: seq<(int, int)> := [(-1, 0), (0, -1), (0, 0), (0, 1), (1, 0)]

  /** The candidate at a site; the arithmetic is that of 16-bit components. */
  function Candidate(origin: MotionVector, step: nat, site: nat): MotionVector
    requires site < 5
  {
    origin.Plus(MotionVector(Wrap16(step * CHECK_SITES[site].0), Wrap16(step * CHECK_SITES[site].1)))
  }

  /** The candidates are the origin and the four vectors one step away from it along an axis. */
  lemma CandidatesAreCross(origin: MotionVector, step: nat, mv: MotionVector)
    requires !OutOfBounds(origin) && step <= 512
    ensures (exists site: nat :: site < 5 && Candidate(origin, step, site) == mv) <==>
            (mv.y == origin.y && Distance(mv.x, origin.x) in {0, step}) || (mv.x == origin.x && Distance(mv.y, origin.y) == step)
  {
    hide OutOfBounds, Candidate, Distance;
    if exists site: nat :: site < 5 && Candidate(origin, step, site) == mv {
      var site: nat :| site < 5 && Candidate(origin, step, site) == mv;
      CandidateOnCross(origin, step, site);
    }
    if (mv.y == origin.y && Distance(mv.x, origin.x) in {0, step}) || (mv.x == origin.x && Distance(mv.y, origin.y) == step) {
      var site := CrossIsCandidate(origin, step, mv);
    }
  }

  lemma CandidateOnCross(origin: MotionVector, step: nat, site: nat)
    requires !OutOfBounds(origin) && step <= 512 && site < 5
    ensures var mv := Candidate(origin, step, site);
            (mv.y == origin.y && Distance(mv.x, origin.x) in {0, step}) || (mv.x == origin.x && Distance(mv.y, origin.y) == step)
  {
    hide Candidate;
    CandidateAt(origin, step, site);
    SiteCases(step, site);
  }

  /** The steps of a site: one along one axis at most. */
  lemma SiteCases(step: nat, site: nat)
    requires site < 5
    ensures var dx, dy := step * CHECK_SITES[site].0, step * CHECK_SITES[site].1;
            (dy == 0 && dx in {-(step as int), 0, step as int}) || (dx == 0 && dy in {-(step as int), step as int})
  {
    assert step * -1 == -(step as int) && step * 0 == 0 && step * 1 == step;
  }

  lemma CrossIsCandidate(origin: MotionVector, step: nat, mv: MotionVector) returns (site: nat)
    requires !OutOfBounds(origin) && step <= 512
    requires (mv.y == origin.y && Distance(mv.x, origin.x) in {0, step}) || (mv.x == origin.x && Distance(mv.y, origin.y) == step)
    ensures site < 5 && Candidate(origin, step, site) == mv
  {
    hide Candidate;
    site := if mv == origin then 2 else if mv.y == origin.y then (if mv.x < origin.x then 0 else 4)
            else if mv.y < origin.y then 1 else 3;
    CandidateAt(origin, step, site);
    assert step * -1 == -(step as int) && step * 0 == 0 && step * 1 == step;
  }

  lemma CandidateAt(origin: MotionVector, step: nat, site: nat)
    requires !OutOfBounds(origin) && step <= 512 && site < 5
    ensures var c := Candidate(origin, step, site);
            c.x == origin.x + step * CHECK_SITES[site].0 && c.y == origin.y + step * CHECK_SITES[site].1
  {
    SiteCases(step, site);
    var dx, dy := step * CHECK_SITES[site].0, step * CHECK_SITES[site].1;
    assert -512 <= dx <= 512 && -512 <= dy <= 512;
    SmallSumStays(0, dx);
    SmallSumStays(0, dy);
    SmallSumStays(origin.x, dx);
    SmallSumStays(origin.y, dy);
    hide Wrap16;
  }

  lemma SmallSumStays(a: int, b: int)
    requires -1023 <= a <= 1023 && -512 <= b <= 512
    ensures Wrap16(a + b) == a + b
  {}

  /** They are tried from left to right, and from top to bottom. */
  lemma SitesInOrder(i: nat, j: nat)
    requires i < j < 5
    ensures CHECK_SITES[i].0 < CHECK_SITES[j].0
            || (CHECK_SITES[i].0 == CHECK_SITES[j].0 && CHECK_SITES[i].1 < CHECK_SITES[j].1)
  {}

  datatype Best = Best(mv: MotionVector, cost: nat)

  /** The cheapest candidate among the first n sites, the earlier one in case of a tie. */
  function BestOf(cost: Cost, origin: MotionVector, step: nat, n: nat): Best
    requires n <= 5
  {
    if n == 0 then Best(ZERO_MV, MAXIMUM_COST)
    else
      var best, mv := BestOf(cost, origin, step, n - 1), Candidate(origin, step, n - 1);
      if !OutOfBounds(mv) && cost(mv) < best.cost then Best(mv, cost(mv)) else best
  }

  /** What is found is in range, and none of the candidates in range is cheaper. */
  lemma {:induction false} BestIsCheapest(cost: Cost, origin: MotionVector, step: nat, n: nat)
    requires n <= 5
    ensures var best := BestOf(cost, origin, step, n);
            && !OutOfBounds(best.mv) && best.cost <= MAXIMUM_COST
            && (forall k :: 0 <= k < n && !OutOfBounds(Candidate(origin, step, k)) ==>
                  best.cost <= cost(Candidate(origin, step, k)))
            && (best.cost < MAXIMUM_COST ==> best.cost == cost(best.mv))
  {
    hide Candidate;
    if n > 0 { BestIsCheapest(cost, origin, step, n - 1); }
  }

  /** Among the cheapest candidates, it is the first. */
  lemma {:induction false} BestIsFirst(cost: Cost, origin: MotionVector, step: nat, n: nat, k: nat)
    requires k < n <= 5 && !OutOfBounds(Candidate(origin, step, k))
    requires cost(Candidate(origin, step, k)) == BestOf(cost, origin, step, n).cost < MAXIMUM_COST
    ensures BestOf(cost, origin, step, n) == BestOf(cost, origin, step, k + 1)
  {
    hide Candidate, OutOfBounds;
    if k < n - 1 {
      BestIsCheapest(cost, origin, step, n - 1);
      BestIsFirst(cost, origin, step, n - 1, k);
    }
  }

  lemma OriginIsCandidate(origin: MotionVector, step: nat)
    ensures Candidate(origin, step, 2) == origin
  {
    assert step * CHECK_SITES[2].0 == 0;
  }

  /** One round never leaves a cheaper origin for a dearer one. */
  lemma RoundImproves(cost: Cost, origin: MotionVector, step: nat)
    requires !OutOfBounds(origin) && cost(origin) < MAXIMUM_COST
    ensures cost(BestOf(cost, origin, step, 5).mv) <= cost(origin)
  {
    hide Candidate, BestOf;
    BestIsCheapest(cost, origin, step, 5);
    OriginIsCandidate(origin, step);
  }

  datatype SearchResult = SearchResult(mv: MotionVector, firstStep: nat)

  /** Rounds of halving steps. */
  function Searched(cost: Cost, origin: MotionVector, step: nat, firstStep: nat): SearchResult
    decreases step
  {
    if step <= 1 then SearchResult(origin, firstStep)
    else
      var best := BestOf(cost, origin, step, 5).mv;
      Searched(cost, best, step / 2, if best == origin then step / 2 else firstStep)
  }

  lemma {:induction false} SearchStaysInRange(cost: Cost, origin: MotionVector, step: nat, firstStep: nat)
    requires !OutOfBounds(origin)
    ensures var r := Searched(cost, origin, step, firstStep);
            && !OutOfBounds(r.mv)
            && r.firstStep <= (if firstStep > step / 2 then firstStep else step / 2)
            && (cost(origin) < MAXIMUM_COST ==> cost(r.mv) <= cost(origin))
    decreases step
  {
    hide BestOf;
    if step > 1 {
      var best := BestOf(cost, origin, step, 5).mv;
      BestIsCheapest(cost, origin, step, 5);
      if cost(origin) < MAXIMUM_COST { RoundImproves(cost, origin, step); }
      SearchStaysInRange(cost, best, step / 2, if best == origin then step / 2 else firstStep);
    }
  }

  lemma {:induction false} FirstStepShrinks(cost: Cost, origin: MotionVector, step: nat, firstStep: nat)
    requires step > 0
    ensures Searched(cost, origin, step, firstStep).firstStep <= (if firstStep > step / 2 then firstStep else step / 2)
    decreases step
  {
    hide BestOf;
    if step > 1 {
      var best := BestOf(cost, origin, step, 5).mv;
      FirstStepShrinks(cost, best, step / 2, if best == origin then step / 2 else firstStep);
    }
  }

  /** Searching again from the best vector, with ever smaller steps, until nothing changes. */
  function Refined(cost: Cost, mv: MotionVector, step: nat): MotionVector
    decreases step
  {
    if step <= 1 then mv
    else
      FirstStepShrinks(cost, mv, step, step / 2);
      var r := Searched(cost, mv, step, step / 2);
      if r.mv == mv then mv else Refined(cost, r.mv, r.firstStep)
  }

  predicate EvenVector(mv: MotionVector) {
    mv.x % 2 == 0 && mv.y % 2 == 0
  }

  /** One or a step that halves to one. */
  predicate PowerOfTwo(n: nat) {
    n == 1 || (n > 0 && n % 2 == 0 && PowerOfTwo(n / 2))
  }

  lemma PlusIsEven(a: MotionVector, b: MotionVector)
    requires EvenVector(a) && EvenVector(b)
    ensures EvenVector(a.Plus(b))
  {
    hide Wrap16;
    WrapKeepsParity(a.x + b.x);
    WrapKeepsParity(a.y + b.y);
  }

  lemma DirectionIsEven(x: int, y: int)
    requires x % 2 == 0 && y % 2 == 0
    ensures EvenVector(MotionVector(Wrap16(x), Wrap16(y)))
  {
    hide Wrap16;
    WrapKeepsParity(x);
    WrapKeepsParity(y);
  }

  lemma StepTimes(step: nat, s: int)
    requires step % 2 == 0 && -1 <= s <= 1
    ensures step * s % 2 == 0
  {
    if s == 0 { assert step * s == 0; } else if s == 1 { assert step * s == step; } else { assert step * s == -(step as int); }
  }

  lemma CandidateIsEven(origin: MotionVector, step: nat, site: nat)
    requires EvenVector(origin) && step % 2 == 0 && site < 5
    ensures EvenVector(Candidate(origin, step, site))
  {
    assert -1 <= CHECK_SITES[site].0 <= 1 && -1 <= CHECK_SITES[site].1 <= 1;
    hide Wrap16, EvenVector;
    var x, y := step * CHECK_SITES[site].0, step * CHECK_SITES[site].1;
    StepTimes(step, CHECK_SITES[site].0);
    StepTimes(step, CHECK_SITES[site].1);
    DirectionIsEven(x, y);
    PlusIsEven(origin, MotionVector(Wrap16(x), Wrap16(y)));
  }

  lemma WrapKeepsParity(x: int)
    ensures Wrap16(x) % 2 == x % 2
  {}

  lemma {:induction false} BestIsEven(cost: Cost, origin: MotionVector, step: nat, n: nat)
    requires EvenVector(origin) && step % 2 == 0 && n <= 5
    ensures EvenVector(BestOf(cost, origin, step, n).mv)
  {
    hide Candidate;
    if n > 0 {
      BestIsEven(cost, origin, step, n - 1);
      CandidateIsEven(origin, step, n - 1);
    }
  }

  lemma {:induction false} SearchStaysEven(cost: Cost, origin: MotionVector, step: nat, firstStep: nat)
    requires EvenVector(origin) && PowerOfTwo(step) && PowerOfTwo(firstStep)
    ensures var r := Searched(cost, origin, step, firstStep); EvenVector(r.mv) && PowerOfTwo(r.firstStep)
    decreases step
  {
    hide BestOf, EvenVector;
    if step > 1 {
      var best := BestOf(cost, origin, step, 5).mv;
      BestIsEven(cost, origin, step, 5);
      SearchStaysEven(cost, best, step / 2, if best == origin then step / 2 else firstStep);
    }
  }

  /** What the repeated search finds is in range, even in both components, and no dearer than its start. */
  lemma {:induction false} RefinedIsSearchable(cost: Cost, mv: MotionVector, step: nat)
    requires !OutOfBounds(mv) && EvenVector(mv) && PowerOfTwo(step)
    ensures var r := Refined(cost, mv, step);
            !OutOfBounds(r) && EvenVector(r) && (cost(mv) < MAXIMUM_COST ==> cost(r) <= cost(mv))
    decreases step
  {
    hide Searched, OutOfBounds, EvenVector;
    if step > 1 {
      FirstStepShrinks(cost, mv, step, step / 2);
      SearchStaysInRange(cost, mv, step, step / 2);
      SearchStaysEven(cost, mv, step, step / 2);
      var r := Searched(cost, mv, step, step / 2);
      if r.mv != mv { RefinedIsSearchable(cost, r.mv, r.firstStep); }
    }
  }

  // ----- What is read -----

  /** Every tap of the macroblock predicted from a vector is inside the margin, in one dimension; n is the
      number of macroblocks and k the place of this one. */
  predicate ReadsInMargin(k: nat, n: nat, x: Int16) {
    InMargin(16 * k + Whole(x) - 2, 16 * n) && InMargin(16 * k + Whole(x) + 16 + 2, 16 * n)
  }

  /** Clamping in one dimension. */
  function Clamp1(x: Int16, k: nat, n: nat): (y: int)
    requires k < n
  {
    Min(Max(x, Max(-(k * 128) - 128, -0x8000)), Min((n - 1 - k) * 128 + 128, 0x7fff))
  }

  lemma ClampedIs(mv: MotionVector, column: nat, row: nat, width: nat, height: nat)
    requires column < width && row < height
    ensures Clamped(mv, column, row, width, height).x == Clamp1(mv.x, column, width)
    ensures Clamped(mv, column, row, width, height).y == Clamp1(mv.y, row, height)
  {}

  /** A clamped vector reaches at most one macroblock beyond the frame. */
  lemma ClampedReach(x: Int16, k: nat, n: nat)
    requires k < n
    ensures -128 <= 128 * k + Clamp1(x, k, n) <= 128 * n
    ensures Fits16(Clamp1(x, k, n))
  {}

  predicate Fits16(x: int) {
    -0x8000 <= x < 0x8000
  }

  lemma ReachIsInMargin(k: nat, n: nat, x: Int16)
    requires -128 - 1023 <= 128 * k + x <= 128 * n + 1023
    ensures ReadsInMargin(k, n, x)
  {
    assert Whole(x) == x / 8;
  }

  /** Candidates of the search are clamped: whatever the vector, even one that has wrapped around, all reads
      are inside the margin. */
  lemma ClampedReadsInMargin(mv: MotionVector, column: nat, row: nat, width: nat, height: nat)
    requires column < width && row < height
    ensures var v := Clamped(mv, column, row, width, height);
            ReadsInMargin(column, width, v.x) && ReadsInMargin(row, height, v.y)
  {
    hide Clamped, Clamp1, ReadsInMargin;
    ClampedIs(mv, column, row, width, height);
    ClampedReach(mv.x, column, width);
    ClampedReach(mv.y, row, height);
    ReachIsInMargin(column, width, Clamped(mv, column, row, width, height).x);
    ReachIsInMargin(row, height, Clamped(mv, column, row, width, height).y);
  }

  const SIDE_LIMIT: nat := 248

  lemma NewMvReach(x: Int16, best: Int16, k: nat, n: nat)
    requires k < n <= SIDE_LIMIT && -1023 <= x <= 1023
    requires -128 <= 128 * k + best <= 128 * n
    ensures ReadsInMargin(k, n, Wrap16(x + best))
  {
    assert Wrap16(x + best) == x + best;
    ReachIsInMargin(k, n, x + best);
  }

  /** The vector that is found is added to the clamped prediction without being clamped itself: in frames of
      at most 248 macroblocks per side, its reads are inside the margin too. */
  lemma NewMvReadsInMargin(mv: MotionVector, census: MotionVector, column: nat, row: nat, width: nat, height: nat)
    requires column < width <= SIDE_LIMIT && row < height <= SIDE_LIMIT && !OutOfBounds(mv)
    ensures var v := mv.Plus(Clamped(census, column, row, width, height));
            ReadsInMargin(column, width, v.x) && ReadsInMargin(row, height, v.y)
  {
    hide Clamped, Clamp1, ReadsInMargin;
    var best := Clamped(census, column, row, width, height);
    ClampedIs(census, column, row, width, height);
    ClampedReach(census.x, column, width);
    ClampedReach(census.y, row, height);
    NewMvReach(mv.x, best.x, column, width);
    NewMvReach(mv.y, best.y, row, height);
  }

  // ----- The limit is exact -----

  /** Searches along the first row or the first column, where the census only sees the macroblock before. */
  function Along(down: bool, k: nat, width: nat, height: nat): Place
    requires width > 0 && height > 0 && k < if down then height else width
  {
    if down then Place(0, k, width, height) else Place(k, 0, width, height)
  }

  function Before(down: bool, mv: MotionVector): Neighbours {
    var p := Some(InterWhole(LAST_FRAME, NEWMV, mv));
    if down then Neighbours(p, None, None) else Neighbours(None, p, None)
  }

  /** The vector of macroblock k of a run in which every macroblock takes the vector its search has found. */
  function RunVector(h: InterParams, down: bool, width: nat, height: nat, found: seq<MotionVector>, k: nat): MotionVector
    requires width > 0 && height > 0 && k < |found| <= if down then height else width
  {
    var n := if k == 0 then Neighbours(None, None, None)
             else Before(down, RunVector(h, down, width, height, found, k - 1));
    found[k].Plus(PriorOf(h, LAST_FRAME, n, Along(down, k, width, height)).best)
  }

  /** Every tap of macroblock k of the run is inside the margin. */
  predicate MacroblockInMargin(h: InterParams, down: bool, width: nat, height: nat, found: seq<MotionVector>, k: nat)
    requires width > 0 && height > 0 && k < |found| <= if down then height else width
  {
    var v, at := RunVector(h, down, width, height, found, k), Along(down, k, width, height);
    ReadsInMargin(at.column, width, v.x) && ReadsInMargin(at.row, height, v.y)
  }

  predicate RunInMargin(h: InterParams, down: bool, width: nat, height: nat, found: seq<MotionVector>)
    requires width > 0 && height > 0 && |found| <= if down then height else width
  {
    forall k :: 0 <= k < |found| ==> MacroblockInMargin(h, down, width, height, found, k)
  }

  /** Vectors that a search can find. */
  predicate Findable(found: seq<MotionVector>) {
    forall k :: 0 <= k < |found| ==> !OutOfBounds(found[k]) && EvenVector(found[k])
  }

  lemma OnlyNeighbour(h: InterParams, down: bool, mv: MotionVector, at: Place)
    ensures PriorOf(h, LAST_FRAME, Before(down, mv), at).best == ClampedAt(mv, at)
  {
    hide Clamped, ModeProbs;
  }

  lemma NoNeighbour(h: InterParams, at: Place)
    ensures PriorOf(h, LAST_FRAME, Neighbours(None, None, None), at).best == ClampedAt(ZERO_MV, at)
  {
    hide Clamped, ModeProbs;
  }

  /** A vector in the direction of the run. */
  function Toward(down: bool, x: Int16): MotionVector {
    if down then MotionVector(0, x) else MotionVector(x, 0)
  }

  /** A run that goes back as far as the clamping lets it, stays there, and goes back once more at the end. */
  function Push(n: nat, k: nat): Int16 {
    if k < SIDE_LIMIT || k + 1 == n then -1022 else 0
  }

  function Pushes(down: bool, n: nat): (found: seq<MotionVector>)
    ensures |found| == n
  {
    seq(n, k requires 0 <= k < n => Toward(down, Push(n, k)))
  }

  /** How far back it has gone. */
  function Drift(n: nat, k: nat): int
    requires k < n
  {
    if k == 0 then -1022
    else if k < SIDE_LIMIT then -(k as int + 1) * 128 - 1022
    else if k + 1 < n then -31872
    else 32642
  }

  lemma DriftStep(n: nat, k: nat)
    requires SIDE_LIMIT < n && k < n
    ensures Fits16(Drift(n, k))
    ensures k == 0 ==> Drift(n, k) == Wrap16(Push(n, k) + Clamp1(0, 0, n))
    ensures k > 0 ==> Drift(n, k) == Wrap16(Push(n, k) + Clamp1(Drift(n, k - 1), k, n))
  {}

  lemma WrapZero()
    ensures Wrap16(0) == 0
  {}

  lemma ZeroStays(m: nat)
    requires m > 0
    ensures Clamp1(0, 0, m) == 0
  {}

  lemma {:induction false} RunDrifts(h: InterParams, down: bool, width: nat, height: nat, k: nat)
    requires width > 0 && height > 0
    requires var n := if down then height else width; SIDE_LIMIT < n && k < n
    ensures var n := if down then height else width;
            Fits16(Drift(n, k)) && RunVector(h, down, width, height, Pushes(down, n), k) == Toward(down, Drift(n, k))
  {
    hide PriorOf, Clamped, Drift, Push, Clamp1, Wrap16;
    var n, at := if down then height else width, Along(down, k, width, height);
    DriftStep(n, k);
    ZeroStays(if down then width else height);
    WrapZero();
    if k == 0 {
      NoNeighbour(h, at);
      ClampedIs(ZERO_MV, at.column, at.row, width, height);
    } else {
      RunDrifts(h, down, width, height, k - 1);
      var before := Toward(down, Drift(n, k - 1));
      OnlyNeighbour(h, down, before, at);
      ClampedIs(before, at.column, at.row, width, height);
    }
  }

  lemma DriftLeaves(n: nat)
    requires SIDE_LIMIT < n
    ensures Fits16(Drift(n, n - 1)) && !ReadsInMargin(n - 1, n, Drift(n, n - 1))
  {}

  /** The limit, exactly: in every run of macroblocks along the first row or column that take the vectors their
      searches find, all reads stay inside the margin, if and only if neither side of the frame has more than 248
      macroblocks. Up to that limit this holds everywhere in the frame, whatever the census
      (NewMvReadsInMargin); beyond it, a run reaches a place where the sum wraps around. */
  lemma MarginIffSides(h: InterParams, width: nat, height: nat)
    requires width > 0 && height > 0
    ensures (forall down: bool, found: seq<MotionVector> ::
               |found| <= (if down then height else width) && Findable(found) ==> RunInMargin(h, down, width, height, found))
            <==> width <= SIDE_LIMIT && height <= SIDE_LIMIT
  {
    hide RunVector, ReadsInMargin, Pushes;
    if width <= SIDE_LIMIT && height <= SIDE_LIMIT {
      forall down: bool, found: seq<MotionVector> | |found| <= (if down then height else width) && Findable(found)
        ensures RunInMargin(h, down, width, height, found)
      {
        RunStaysInMargin(h, down, width, height, found);
      }
    } else {
      var down := height > SIDE_LIMIT;
      var n := if down then height else width;
      PushesFindable(down, n);
      LastOut(h, down, width, height);
    }
  }

  lemma LastOut(h: InterParams, down: bool, width: nat, height: nat)
    requires width > 0 && height > 0
    requires SIDE_LIMIT < if down then height else width
    ensures var n := if down then height else width;
            !RunInMargin(h, down, width, height, Pushes(down, n))
  {
    hide ReadsInMargin, RunVector, Drift, Pushes;
    var n := if down then height else width;
    RunDrifts(h, down, width, height, n - 1);
    DriftLeaves(n);
    assert !MacroblockInMargin(h, down, width, height, Pushes(down, n), n - 1);
  }

  lemma PushesFindable(down: bool, n: nat)
    ensures Findable(Pushes(down, n))
  {}

  lemma RunStaysInMargin(h: InterParams, down: bool, width: nat, height: nat, found: seq<MotionVector>)
    requires 0 < width <= SIDE_LIMIT && 0 < height <= SIDE_LIMIT
    requires |found| <= (if down then height else width) && Findable(found)
    ensures RunInMargin(h, down, width, height, found)
  {
    hide MacroblockInMargin;
    forall k | 0 <= k < |found| ensures MacroblockInMargin(h, down, width, height, found, k) {
      RunVectorInMargin(h, down, width, height, found, k);
    }
  }

  lemma RunVectorInMargin(h: InterParams, down: bool, width: nat, height: nat, found: seq<MotionVector>, k: nat)
    requires 0 < width <= SIDE_LIMIT && 0 < height <= SIDE_LIMIT
    requires k < |found| <= (if down then height else width) && Findable(found)
    ensures MacroblockInMargin(h, down, width, height, found, k)
  {
    assert !OutOfBounds(found[k]);
    hide PriorOf, ReadsInMargin, OutOfBounds, Wrap16, Findable, EvenVector, Before;
    var n := if k == 0 then Neighbours(None, None, None)
             else Before(down, RunVector(h, down, width, height, found, k - 1));
    var at := Along(down, k, width, height);
    assert RunVector(h, down, width, height, found, k) == found[k].Plus(PriorOf(h, LAST_FRAME, n, at).best);
    hide RunVector;
    BestReadsInMargin(h, n, at, found[k]);
  }

  /** The same, in terms of what the census finds best. */
  lemma BestReadsInMargin(h: InterParams, n: Neighbours, at: Place, mv: MotionVector)
    requires at.width <= SIDE_LIMIT && at.height <= SIDE_LIMIT && !OutOfBounds(mv)
    ensures var v := mv.Plus(PriorOf(h, LAST_FRAME, n, at).best);
            ReadsInMargin(at.column, at.width, v.x) && ReadsInMargin(at.row, at.height, v.y)
  {
    hide Taken, Clamped, ReadsInMargin, OutOfBounds, ModeProbs;
    var census := Taken(Flipped(h, LAST_FRAME), VoterOf(h, n.above), VoterOf(h, n.left), VoterOf(h, n.aboveLeft));
    NewMvReadsInMargin(mv, census.vectors[0], at.column, at.row, at.width, at.height);
  }

  // ----- The search reads what the decoder will predict -----

  type Block16 = seq<seq<Octet>>

  /** The block that the decoder predicts for the macroblock at a place. */
  function PredictedBlock(p: Plane, mv: MotionVector, at: Place): Block16 {
    seq(16, r requires 0 <= r < 16 => seq<Octet>(16, c requires 0 <= c < 16 =>
      Predicted(p, 16 * at.column + Whole(mv.x), 16 * at.row + Whole(mv.y), mv, c, r)))
  }

  /** How a candidate is judged, by its vector and the block predicted from it: distortion and rate. */
  type Judge = (MotionVector, Block16) -> nat

  /** A candidate is added to the base vector, and the sum is clamped. */
  function CostAt(judge: Judge, p: Plane, base: MotionVector, at: Place): Cost {
    (mv: MotionVector) => judge(mv, PredictedBlock(p, ClampedAt(mv.Plus(ClampedAt(base, at)), at), at))
  }

  ghost predicate Reads(raster: SafeRaster, p: Plane, at: Place)
    reads raster
  {
    raster.Holds(p) && p.width == 16 * at.width && p.height == 16 * at.height
  }

  method PredictFromMargin(raster: SafeRaster, ghost p: Plane, mv: MotionVector, at: Place) returns (block: Block16)
    requires Reads(raster, p, at)
    requires ReadsInMargin(at.column, at.width, mv.x) && ReadsInMargin(at.row, at.height, mv.y)
    ensures block == PredictedBlock(p, mv, at)
  {
    hide Predicted;
    block := raster.InterPredict(p, mv, 16 * at.column + Whole(mv.x), 16 * at.row + Whole(mv.y), 16);
    ghost var wanted := PredictedBlock(p, mv, at);
    forall r | 0 <= r < 16 ensures block[r] == wanted[r] {}
  }

  /** Every prediction of the search is made from a clamped vector, and so from inside the margin. */
  method DiamondSearch(
      raster: SafeRaster, ghost p: Plane, judge: Judge, base: MotionVector, at: Place, start: MotionVector, startStep: nat)
    returns (result: SearchResult)
    requires Reads(raster, p, at)
    ensures result == Searched(CostAt(judge, p, base, at), start, startStep, startStep / 2)
  {
    hide Candidate, PredictedBlock, Reads, ReadsInMargin, Clamped;
    ghost var cost := CostAt(judge, p, base, at);
    var clamped := ClampedAt(base, at);
    var origin, stepSize := start, startStep;
    var firstStep: nat := startStep / 2;
    while stepSize > 1
      invariant Searched(cost, origin, stepSize, firstStep) == Searched(cost, start, startStep, startStep / 2)
      decreases stepSize
    {
      var bestPred := Best(ZERO_MV, MAXIMUM_COST);
      for site := 0 to 5
        invariant bestPred == BestOf(cost, origin, stepSize, site)
      {
        var mv := Candidate(origin, stepSize, site);
        if !OutOfBounds(mv) {
          var thisMv := ClampedAt(mv.Plus(clamped), at);
          ClampedReadsInMargin(mv.Plus(clamped), at.column, at.row, at.width, at.height);
          var prediction := PredictFromMargin(raster, p, thisMv, at);
          var c := judge(mv, prediction);
          if c < bestPred.cost {
            bestPred := Best(mv, c);
          }
        }
      }
      if bestPred.mv == origin {
        firstStep := stepSize / 2;
      }
      origin := bestPred.mv;
      stepSize := stepSize / 2;
    }
    result := SearchResult(origin, firstStep);
  }

  /** Searches again and again; the step decreases. */
  method SearchNewMv(raster: SafeRaster, ghost p: Plane, judge: Judge, base: MotionVector, at: Place)
    returns (mv: MotionVector)
    requires Reads(raster, p, at)
    ensures mv == Refined(CostAt(judge, p, base, at), ZERO_MV, 512)
  {
    hide Searched, CostAt, Reads;
    ghost var cost := CostAt(judge, p, base, at);
    mv := ZERO_MV;
    var step := 512;
    while step > 1
      invariant Refined(cost, mv, step) == Refined(cost, ZERO_MV, 512)
      decreases step
    {
      FirstStepShrinks(cost, mv, step, step / 2);
      var result := DiamondSearch(raster, p, judge, base, at, mv, step);
      if result.mv == mv {
        break;
      }
      mv := result.mv;
      step := result.firstStep;
    }
  }

  /** The vector of a NEWMV macroblock and its prediction: what the search has found is added to the clamped best
      vector of the census, unclamped. In frames within the limit the prediction is the decoder's, and the
      difference that is written can be coded. */
  method PredictNewMv(raster: SafeRaster, ghost p: Plane, judge: Judge, h: InterParams, n: Neighbours, at: Place)
    returns (mv: MotionVector, block: Block16)
    requires Reads(raster, p, at) && at.width <= SIDE_LIMIT && at.height <= SIDE_LIMIT
    ensures var best := PriorOf(h, LAST_FRAME, n, at).best;
            mv == Refined(CostAt(judge, p, best, at), ZERO_MV, 512).Plus(best)
            && RepresentableVector(mv.Minus(best))
    ensures block == PredictedBlock(p, mv, at)
  {
    hide Refined, CostAt, Reads, ReadsInMargin, Taken, Clamped, PredictedBlock, ModeProbs;
    var census := TakeCensus(Flipped(h, LAST_FRAME), VoterOf(h, n.above), VoterOf(h, n.left), VoterOf(h, n.aboveLeft));
    var best := ClampedAt(census.vectors[0], at);
    var found := SearchNewMv(raster, p, judge, best, at);
    StartIsSearchable();
    RefinedIsSearchable(CostAt(judge, p, best, at), ZERO_MV, 512);
    NewMvReadsInMargin(found, census.vectors[0], at.column, at.row, at.width, at.height);
    mv := found.Plus(best);
    DifferenceDecides(found, mv, best);
    block := PredictFromMargin(raster, p, mv, at);
  }

  lemma StartIsSearchable()
    ensures !OutOfBounds(ZERO_MV) && EvenVector(ZERO_MV) && PowerOfTwo(512)
  {
    assert PowerOfTwo(2) && PowerOfTwo(8) && PowerOfTwo(32) && PowerOfTwo(128);
  }
}
