/** The census of neighbouring motion vectors (section 16.3 of RFC 6386; src/decoder/scorer.hh and
    src/decoder/macroblock.cc) that both the printer and the parser consult. */
module MotionCensus {
  import opened Wrappers
  import opened MotionVectors

  /** What a neighbouring macroblock contributes: nothing unless it is inter coded. */
  datatype Voter = Voter(mv: MotionVector, flipped: bool, split: bool)

  datatype Census = Census(flipped: bool, scores: seq<nat>, vectors: seq<MotionVector>, splitScore: nat, index: nat)

  /** No score outgrows the votes cast, and only the first index + 1 entries have been touched. */
  predicate InBounds(c: Census, votes: nat) {
    && |c.scores| == 4 && |c.vectors| == 4 && c.index <= 3
    && c.scores[0] + c.scores[1] + c.scores[2] + c.scores[3] <= votes
    && c.splitScore <= votes
    && (forall i :: c.index < i < 4 ==> c.scores[i] == 0)
  }

  function Empty(flipped: bool): Census {
    Census(flipped, [0, 0, 0, 0], [ZERO_MV, ZERO_MV, ZERO_MV, ZERO_MV], 0, 0)
  }

  /** A vote for a vector: for "zero", for the vector last voted for, or for the next entry. */
  function AddVector(c: Census, score: nat, mv: MotionVector): Census
    requires |c.scores| == 4 && |c.vectors| == 4 && c.index <= 2
  {
    if mv.Empty() then c.(scores := c.scores[0 := c.scores[0] + score])
    else if mv == c.vectors[c.index] then c.(scores := c.scores[c.index := c.scores[c.index] + score])
    else
      var i := c.index + 1;
      c.(index := i, vectors := c.vectors[i := mv], scores := c.scores[i := c.scores[i] + score])
  }

  function Add(c: Census, score: nat, voter: Option<Voter>): Census
    requires |c.scores| == 4 && |c.vectors| == 4 && c.index <= 2
  {
    match voter
    case None => c
    case Some(v) =>
      var mv := if v.flipped != c.flipped then v.mv.Negated() else v.mv;
      var d := AddVector(c, score, mv);
      if v.split then d.(splitScore := d.splitScore + score) else d
  }

  lemma AddInBounds(c: Census, score: nat, voter: Option<Voter>, votes: nat)
    requires InBounds(c, votes) && c.index <= 2
    ensures InBounds(Add(c, score, voter), votes + score)
    ensures c.index <= Add(c, score, voter).index <= c.index + 1
  {}

  /** Merge the third vector into the first if they agree, order the first two, and pick the best. */
  function Calculated(c: Census): Census
    requires |c.scores| == 4 && |c.vectors| == 4 && c.index <= 3
  {
    var s1 := if c.scores[3] > 0 && c.vectors[c.index] == c.vectors[1]
              then c.scores[1 := c.scores[1] + c.scores[3]] else c.scores;
    var swap := s1[2] > s1[1];
    var s2 := if swap then s1[1 := s1[2]][2 := s1[1]] else s1;
    var v2 := if swap then c.vectors[1 := c.vectors[2]][2 := c.vectors[1]] else c.vectors;
    var v3 := if s2[1] >= s2[0] then v2[0 := v2[1]] else v2;
    c.(scores := s2, vectors := v3)
  }

  const CONTEXTS: nat := 6

  /** The whole census: above and left weigh two votes each, above-left one. */
  function Taken(flipped: bool, above: Option<Voter>, left: Option<Voter>, aboveLeft: Option<Voter>): (c: Census)
    ensures |c.scores| == 4 && |c.vectors| == 4
    ensures forall i :: 0 <= i < 3 ==> c.scores[i] < CONTEXTS
    ensures c.splitScore < CONTEXTS
  {
    var c0 := Empty(flipped);
    AddInBounds(c0, 2, above, 0);
    var c1 := Add(c0, 2, above);
    AddInBounds(c1, 2, left, 2);
    var c2 := Add(c1, 2, left);
    AddInBounds(c2, 1, aboveLeft, 4);
    var c3 := Add(c2, 1, aboveLeft);
    Calculated(c3)
  }

  /** The mode contexts: indices into the table of inter mode probabilities. */
  function Contexts(c: Census): seq<nat>
    requires |c.scores| == 4
  {
    [c.scores[0], c.scores[1], c.scores[2], c.splitScore]
  }

  function Min(a: int, b: int): int {
    if a < b then a else b
  }

  function Max(a: int, b: int): int {
    if a > b then a else b
  }

  /** Clamping a vector so that the predicted macroblock stays within reach of the frame. */
  function Clamped(mv: MotionVector, column: nat, row: nat, width: nat, height: nat): MotionVector
    requires column < width && row < height
  {
    var toLeft := Max(-(column * 128) - 128, -0x8000);
    var toRight := Min((width - 1 - column) * 128 + 128, 0x7fff);
    var toTop := Max(-(row * 128) - 128, -0x8000);
    var toBottom := Min((height - 1 - row) * 128 + 128, 0x7fff);
    MotionVector(Min(Max(mv.x, toLeft), toRight), Min(Max(mv.y, toTop), toBottom))
  }

  /** A vector that can be reached from a macroblock: the macroblock it points to touches the frame, or misses it by
      no more than its own width, and 16 bits hold it. */
  predicate Reachable(mv: MotionVector, column: nat, row: nat, width: nat, height: nat) {
    && -128 <= column * 128 + mv.x <= width * 128
    && -128 <= row * 128 + mv.y <= height * 128
  }

  function Distance(a: int, b: int): nat {
    if a < b then b - a else a - b
  }

  lemma NearestInRange(x: int, low: int, high: int, y: int)
    requires low <= y <= high
    ensures low <= Min(Max(x, low), high) <= high && Distance(x, Min(Max(x, low), high)) <= Distance(x, y)
  {}

  /** The clamped vector is the nearest one that can be reached, in either component. */
  lemma ClampedIsNearest(mv: MotionVector, column: nat, row: nat, width: nat, height: nat, other: MotionVector)
    requires column < width && row < height && Reachable(other, column, row, width, height)
    ensures var v := Clamped(mv, column, row, width, height);
            && Reachable(v, column, row, width, height)
            && Distance(mv.x, v.x) <= Distance(mv.x, other.x) && Distance(mv.y, v.y) <= Distance(mv.y, other.y)
  {
    hide Min, Max, Distance;
    var v := Clamped(mv, column, row, width, height);
    Limits(column, width, other.x);
    Limits(row, height, other.y);
    NearestInRange(mv.x, Max(-(column * 128) - 128, -0x8000), Min((width - 1 - column) * 128 + 128, 0x7fff), other.x);
    NearestInRange(mv.y, Max(-(row * 128) - 128, -0x8000), Min((height - 1 - row) * 128 + 128, 0x7fff), other.y);
    Limits(column, width, v.x);
    Limits(row, height, v.y);
  }

  /** What limits a vector: the reach, and 16 bits. */
  lemma Limits(k: nat, n: nat, x: Int16)
    requires k < n
    ensures var low, high := Max(-(k * 128) - 128, -0x8000), Min((n - 1 - k) * 128 + 128, 0x7fff);
            low <= x <= high <==> -128 <= k * 128 + x <= n * 128
  {}

  // ----- What the census counts -----

  /** The vector a neighbour votes for: none unless it is inter coded, negated where the sign biases differ. */
  function Vote(flipped: bool, voter: Option<Voter>): Option<MotionVector> {
    match voter
    case None => None
    case Some(v) => Some(if v.flipped != flipped then v.mv.Negated() else v.mv)
  }

  /** The weight of the votes for a vector: two for above and left, one for above left. */
  function Votes(a: Option<MotionVector>, l: Option<MotionVector>, al: Option<MotionVector>, mv: MotionVector): nat {
    (if a == Some(mv) then 2 else 0) + (if l == Some(mv) then 2 else 0) + (if al == Some(mv) then 1 else 0)
  }

  /** The entries up to the index list different successive vectors, none of them zero. */
  predicate Listed(c: Census) {
    && |c.scores| == 4 && |c.vectors| == 4 && c.index <= 3
    && (forall i :: 0 < i <= c.index ==> !c.vectors[i].Empty() && c.scores[i] > 0)
    && (forall i :: c.index < i < 4 ==> c.scores[i] == 0)
    && (c.index >= 2 ==> c.vectors[1] != c.vectors[2])
    && (c.index == 3 ==> c.vectors[2] != c.vectors[3])
  }

  /** The score of a vector: what its entries add up to. */
  function ScoreOf(c: Census, mv: MotionVector): nat
    requires |c.scores| == 4 && |c.vectors| == 4
  {
    if mv.Empty() then c.scores[0]
    else
      (if c.index >= 1 && c.vectors[1] == mv then c.scores[1] else 0)
      + (if c.index >= 2 && c.vectors[2] == mv then c.scores[2] else 0)
      + (if c.index >= 3 && c.vectors[3] == mv then c.scores[3] else 0)
  }

  /** A vote adds its weight to the score of its vector and to no other. */
  lemma AddCounts(c: Census, score: nat, voter: Option<Voter>, mv: MotionVector)
    requires Listed(c) && c.index <= 2 && c.vectors[0] == ZERO_MV && score > 0
    ensures var d := Add(c, score, voter);
            && Listed(d) && d.vectors[0] == ZERO_MV && d.flipped == c.flipped && d.index <= c.index + 1
            && ScoreOf(d, mv) == ScoreOf(c, mv) + if Vote(c.flipped, voter) == Some(mv) then score else 0
  {
    assert |c.scores| == 4 && |c.vectors| == 4;
    hide AddVector, ScoreOf, Wrap16;
    if voter.Some? {
      var v := Vote(c.flipped, voter).value;
      AddVectorCounts(c, score, v, mv);
      SplitScoreAside(AddVector(c, score, v), score, mv);
    }
  }

  /** The split score plays no part in the entries. */
  lemma SplitScoreAside(d: Census, score: nat, mv: MotionVector)
    requires Listed(d)
    ensures var e := d.(splitScore := d.splitScore + score);
            Listed(e) && ScoreOf(e, mv) == ScoreOf(d, mv) && e.vectors == d.vectors && e.index == d.index
  {}

  lemma AddVectorCounts(c: Census, score: nat, v: MotionVector, mv: MotionVector)
    requires Listed(c) && c.index <= 2 && c.vectors[0] == ZERO_MV && score > 0
    ensures var d := AddVector(c, score, v);
            && Listed(d) && d.vectors[0] == ZERO_MV && d.index <= c.index + 1 && d.flipped == c.flipped
            && ScoreOf(d, mv) == ScoreOf(c, mv) + if v == mv then score else 0
  {
    EmptyIsZero(v);
    EmptyIsZero(mv);
  }

  lemma EmptyIsZero(mv: MotionVector)
    ensures mv.Empty() <==> mv == ZERO_MV
  {}

  /** Before ranking, the entries hold the weights of all votes. */
  function Polled(flipped: bool, above: Option<Voter>, left: Option<Voter>, aboveLeft: Option<Voter>): (c: Census)
    ensures Listed(c) && c.vectors[0] == ZERO_MV
  {
    var c0 := Empty(flipped);
    AddCounts(c0, 2, above, ZERO_MV);
    var c1 := Add(c0, 2, above);
    AddCounts(c1, 2, left, ZERO_MV);
    var c2 := Add(c1, 2, left);
    AddCounts(c2, 1, aboveLeft, ZERO_MV);
    Add(c2, 1, aboveLeft)
  }

  lemma PolledCounts(flipped: bool, above: Option<Voter>, left: Option<Voter>, aboveLeft: Option<Voter>, mv: MotionVector)
    ensures ScoreOf(Polled(flipped, above, left, aboveLeft), mv)
            == Votes(Vote(flipped, above), Vote(flipped, left), Vote(flipped, aboveLeft), mv)
  {
    hide Add, Vote, ScoreOf;
    var c0 := Empty(flipped);
    NothingCast(flipped, mv);
    AddCounts(c0, 2, above, mv);
    AddCounts(Add(c0, 2, above), 2, left, mv);
    AddCounts(Add(Add(c0, 2, above), 2, left), 1, aboveLeft, mv);
  }

  lemma NothingCast(flipped: bool, mv: MotionVector)
    ensures Listed(Empty(flipped)) && ScoreOf(Empty(flipped), mv) == 0 && Empty(flipped).vectors[0] == ZERO_MV
  {}

  /** What ranking makes of the entries: the first two scores are the whole scores of their vectors, in
      descending order, and the best vector is the nearest one unless zero outweighs it. */
  lemma RankedIsRight(c: Census)
    requires Listed(c) && c.vectors[0] == ZERO_MV
    requires c.index == 3 ==> c.scores[3] <= c.scores[1] && c.scores[3] <= c.scores[2]
    ensures var r := Calculated(c);
            && r.scores[0] == ScoreOf(c, ZERO_MV)
            && r.scores[1] >= r.scores[2]
            && (r.scores[1] > 0 ==> r.scores[1] == ScoreOf(c, r.vectors[1]) && !r.vectors[1].Empty())
            && (r.scores[2] > 0 ==> r.scores[2] == ScoreOf(c, r.vectors[2]) && !r.vectors[2].Empty())
            && r.vectors[0] == if r.scores[1] >= r.scores[0] then r.vectors[1] else ZERO_MV
  {}

  /** The census is a poll: zero, nearest and near have the weights of the neighbours that vote for them,
      nearest at least as much as near, and best is nearest unless zero outweighs it. */
  lemma CensusIsPoll(flipped: bool, above: Option<Voter>, left: Option<Voter>, aboveLeft: Option<Voter>)
    ensures var c := Taken(flipped, above, left, aboveLeft);
            var a, l, al := Vote(flipped, above), Vote(flipped, left), Vote(flipped, aboveLeft);
            && c.scores[0] == Votes(a, l, al, ZERO_MV)
            && c.scores[1] >= c.scores[2]
            && (c.scores[1] > 0 ==> c.scores[1] == Votes(a, l, al, c.vectors[1]) && !c.vectors[1].Empty())
            && (c.scores[2] > 0 ==> c.scores[2] == Votes(a, l, al, c.vectors[2]) && !c.vectors[2].Empty())
            && c.vectors[0] == if c.scores[1] >= c.scores[0] then c.vectors[1] else ZERO_MV
  {
    hide Calculated, Add, Vote, Votes, ScoreOf;
    var p := Polled(flipped, above, left, aboveLeft);
    LastWeighsLeast(flipped, above, left, aboveLeft);
    RankedIsRight(p);
    var c := Calculated(p);
    assert c == Taken(flipped, above, left, aboveLeft);
    PolledCounts(flipped, above, left, aboveLeft, ZERO_MV);
    PolledCounts(flipped, above, left, aboveLeft, c.vectors[1]);
    PolledCounts(flipped, above, left, aboveLeft, c.vectors[2]);
  }

  /** Every entry has at least the weight of one full vote. */
  predicate Heavy(c: Census) {
    |c.scores| == 4 && forall i :: 0 < i <= c.index && i < 4 ==> c.scores[i] >= 2
  }

  lemma StaysHeavy(c: Census, voter: Option<Voter>)
    requires Listed(c) && c.index <= 2 && Heavy(c)
    ensures Heavy(Add(c, 2, voter))
  {
    hide Wrap16;
  }

  lemma LastEntry(c: Census, voter: Option<Voter>)
    requires Listed(c) && c.index <= 2 && Heavy(c)
    ensures var d := Add(c, 1, voter);
            d.index == 3 ==> d.scores[3] == 1 && d.scores[1] == c.scores[1] && d.scores[2] == c.scores[2]
  {
    hide Wrap16;
  }

  /** A third entry can only come from above left, which weighs least. */
  lemma LastWeighsLeast(flipped: bool, above: Option<Voter>, left: Option<Voter>, aboveLeft: Option<Voter>)
    ensures var p := Polled(flipped, above, left, aboveLeft);
            p.index == 3 ==> p.scores[3] <= p.scores[1] && p.scores[3] <= p.scores[2]
  {
    hide Add, ScoreOf;
    var c0 := Empty(flipped);
    AddCounts(c0, 2, above, ZERO_MV);
    StaysHeavy(c0, above);
    var c1 := Add(c0, 2, above);
    AddCounts(c1, 2, left, ZERO_MV);
    StaysHeavy(c1, left);
    var c2 := Add(c1, 2, left);
    AddCounts(c2, 1, aboveLeft, ZERO_MV);
    LastEntry(c2, aboveLeft);
  }

  predicate SplitVoter(v: Option<Voter>) {
    v.Some? && v.value.split
  }

  /** The last context is the weight of the neighbours that are split. */
  lemma SplitWeight(flipped: bool, above: Option<Voter>, left: Option<Voter>, aboveLeft: Option<Voter>)
    ensures Contexts(Taken(flipped, above, left, aboveLeft))[3]
            == (if SplitVoter(above) then 2 else 0) + (if SplitVoter(left) then 2 else 0) + (if SplitVoter(aboveLeft) then 1 else 0)
  {
    hide AddVector;
    var c0 := Empty(flipped);
    AddSplit(c0, 2, above);
    AddInBounds(c0, 2, above, 0);
    var c1 := Add(c0, 2, above);
    AddSplit(c1, 2, left);
    AddInBounds(c1, 2, left, 2);
    var c2 := Add(c1, 2, left);
    AddSplit(c2, 1, aboveLeft);
  }

  lemma AddSplit(c: Census, score: nat, voter: Option<Voter>)
    requires |c.scores| == 4 && |c.vectors| == 4 && c.index <= 2
    ensures Add(c, score, voter).splitScore == c.splitScore + if SplitVoter(voter) then score else 0
  {}

  // ----- The scorer object -----

  class Scorer {
    const motionVectorsFlipped: bool
    var scores: seq<nat>
    var motionVectors: seq<MotionVector>
    var splitmvScore: nat
    var index: nat

    function Contents(): Census
      reads this
    {
      Census(motionVectorsFlipped, scores, motionVectors, splitmvScore, index)
    }

    constructor (flipped: bool)
      ensures Contents() == Empty(flipped)
    {
      motionVectorsFlipped := flipped;
      scores := [0, 0, 0, 0];
      motionVectors := [ZERO_MV, ZERO_MV, ZERO_MV, ZERO_MV];
      splitmvScore, index := 0, 0;
    }

    method AddVote(score: nat, mv: MotionVector)
      requires |scores| == 4 && |motionVectors| == 4 && index <= 2
      modifies this
      ensures Contents() == AddVector(old(Contents()), score, mv)
    {
      if mv.Empty() {
        scores := scores[0 := scores[0] + score];
      } else {
        if mv != motionVectors[index] {
          index := index + 1;
          motionVectors := motionVectors[index := mv];
        }
        scores := scores[index := scores[index] + score];
      }
    }

    method AddMacroblock(score: nat, mb: Option<Voter>)
      requires |scores| == 4 && |motionVectors| == 4 && index <= 2
      modifies this
      ensures Contents() == Add(old(Contents()), score, mb)
    {
      if mb.Some? {
        var mv := mb.value.mv;
        if mb.value.flipped != motionVectorsFlipped {
          mv := mv.Negated();
        }
        AddVote(score, mv);
        if mb.value.split {
          splitmvScore := splitmvScore + score;
        }
      }
    }

    method Calculate()
      requires |scores| == 4 && |motionVectors| == 4 && index <= 3
      modifies this
      ensures Contents() == Calculated(old(Contents()))
    {
      if scores[3] > 0 {
        if motionVectors[index] == motionVectors[1] {
          scores := scores[1 := scores[1] + scores[3]];
        }
      }
      if scores[2] > scores[1] {
        scores := scores[1 := scores[2]][2 := scores[1]];
        motionVectors := motionVectors[1 := motionVectors[2]][2 := motionVectors[1]];
      }
      if scores[1] >= scores[0] {
        motionVectors := motionVectors[0 := motionVectors[1]];
      }
    }
  }

  method TakeCensus(flipped: bool, above: Option<Voter>, left: Option<Voter>, aboveLeft: Option<Voter>)
    returns (census: Census)
    ensures census == Taken(flipped, above, left, aboveLeft)
  {
    var scorer := new Scorer(flipped);
    AddInBounds(scorer.Contents(), 2, above, 0);
    scorer.AddMacroblock(2, above);
    AddInBounds(scorer.Contents(), 2, left, 2);
    scorer.AddMacroblock(2, left);
    AddInBounds(scorer.Contents(), 1, aboveLeft, 4);
    scorer.AddMacroblock(1, aboveLeft);
    scorer.Calculate();
    census := scorer.Contents();
  }
}
