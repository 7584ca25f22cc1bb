/** Coding the inter prediction of a macroblock: reference, mode, split partitions and motion vectors
    (sections 16.3 and 16.4 of RFC 6386; src/encoder/serializer.cc, src/decoder/macroblock.cc). */
module InterModes {
  import opened Wrappers
  import opened BoolCoding
  import opened BoolEncoding
  import opened BoolDecoding
  import opened TreeCoder
  import opened CodingTrees
  import opened MotionVectors
  import opened MotionCensus
  import opened Modes

  const MV_COUNTS_TO_PROBS: seq<seq<Prob>> := [
    [7, 1, 1, 143],
    [14, 18, 14, 107],
    [135, 64, 57, 68],
    [60, 56, 128, 65],
    [159, 134, 128, 34],
    [234, 188, 128, 28]
  ]

  const SUBMV_REF_PROBS2: seq<seq<Prob>> := [[147, 136, 18], [106, 145, 1], [179, 121, 1], [223, 1, 34], [208, 1, 1]]

  const SPLIT_MV_PROBS: seq<Prob> := [110, 111, 150]

  /** What the frame header says about inter macroblocks. */
  datatype InterParams = InterParams(
    probInter: Prob, probReferencesLast: Prob, probReferencesGolden: Prob,
    signBiasGolden: bool, signBiasAlternate: bool, mvProbs: MvProbs)

  // ----- The reference frame -----

  function ReferenceSymbols(h: InterParams, r: Reference): seq<Symbol> {
    [Symbol(r != LAST_FRAME, h.probReferencesLast)]
    + if r == LAST_FRAME then [] else [Symbol(r == ALTREF_FRAME, h.probReferencesGolden)]
  }

  function ReadReference(c: Core, h: InterParams): (Reference, Core) {
    var (sel1, c1) := Next(c, h.probReferencesLast);
    if sel1 then
      var (sel2, c2) := Next(c1, h.probReferencesGolden);
      (if sel2 then ALTREF_FRAME else GOLDEN_FRAME, c2)
    else (LAST_FRAME, c1)
  }

  lemma ReferenceRoundTrip(c: Core, h: InterParams, r: Reference)
    requires Serves(c, ReferenceSymbols(h, r))
    ensures ReadReference(c, h) == (r, After(c, ReferenceSymbols(h, r)))
  {
    hide Next, Serves, After;
    var first := Symbol(r != LAST_FRAME, h.probReferencesLast);
    var second := Symbol(r == ALTREF_FRAME, h.probReferencesGolden);
    ServesOne(c, first);
    if r == LAST_FRAME {
      assert ReferenceSymbols(h, r) == [first];
    } else {
      ServesSnoc(c, [first], second);
    }
  }

  function Flipped(h: InterParams, r: Reference): bool {
    (r == GOLDEN_FRAME && h.signBiasGolden) || (r == ALTREF_FRAME && h.signBiasAlternate)
  }

  // ----- The census of the neighbours -----

  function VoterOf(h: InterParams, p: Option<Prediction>): Option<Voter> {
    if p.Some? && p.value.InterCoded()
    then Some(Voter(p.value.BaseVector(), Flipped(h, p.value.reference), p.value.InterSplit?))
    else None
  }

  /** What the neighbours contribute to the coding of an inter macroblock. */
  datatype Prior = Prior(modeProbs: seq<Prob>, best: MotionVector, nearest: MotionVector, near: MotionVector)

  function ModeProbs(counts: seq<nat>): (p: seq<Prob>)
    requires |counts| == 4 && forall i :: 0 <= i < 4 ==> counts[i] < CONTEXTS
    ensures |p| == 4
  {
    [MV_COUNTS_TO_PROBS[counts[0]][0], MV_COUNTS_TO_PROBS[counts[1]][1],
     MV_COUNTS_TO_PROBS[counts[2]][2], MV_COUNTS_TO_PROBS[counts[3]][3]]
  }

  /** Each probability comes from its own column, in the row that its own context selects. */
  lemma ModeProbAt(counts: seq<nat>, i: nat)
    requires |counts| == 4 && (forall k :: 0 <= k < 4 ==> counts[k] < CONTEXTS) && i < 4
    ensures |MV_COUNTS_TO_PROBS| == CONTEXTS && |MV_COUNTS_TO_PROBS[counts[i]]| == 4
    ensures ModeProbs(counts)[i] == MV_COUNTS_TO_PROBS[counts[i]][i]
  {}

  function PriorOf(h: InterParams, r: Reference, n: Neighbours, at: Place): (p: Prior)
    ensures |p.modeProbs| == 4
  {
    var census := Taken(Flipped(h, r), VoterOf(h, n.above), VoterOf(h, n.left), VoterOf(h, n.aboveLeft));
    Prior(
      ModeProbs(Contexts(census)),
      ClampedAt(census.vectors[0], at), ClampedAt(census.vectors[1], at), ClampedAt(census.vectors[2], at))
  }

  function ClampedAt(mv: MotionVector, at: Place): MotionVector {
    Clamped(mv, at.column, at.row, at.width, at.height)
  }

  // ----- One subblock of a split macroblock -----

  function SubMvRefIndex(left: MotionVector, above: MotionVector): (i: nat)
    ensures i < 5
  {
    if left == above && left.Empty() then 4
    else if left == above then 3
    else if above.Empty() then 2
    else if left.Empty() then 1
    else 0
  }

  /** The context, case by case: 4 if both vectors are zero, 3 if they are equal but not zero, 2 or 1 if only the one
      above or the one to the left is zero, 0 if they are different and neither is zero. */
  lemma SubMvContext(left: MotionVector, above: MotionVector)
    ensures var i := SubMvRefIndex(left, above);
            && (i == 4 <==> left == ZERO_MV && above == ZERO_MV)
            && (i == 3 <==> left == above && left != ZERO_MV)
            && (i == 2 <==> above == ZERO_MV && left != ZERO_MV)
            && (i == 1 <==> left == ZERO_MV && above != ZERO_MV)
  {}

  function SubMvRefProbs(left: MotionVector, above: MotionVector): (p: seq<Prob>)
    ensures |p| == 3
  {
    SUBMV_REF_PROBS2[SubMvRefIndex(left, above)]
  }

  function SubMvModePath(probs: seq<Prob>, mode: nat): seq<Symbol>
    requires |probs| == 3 && LEFT4X4 <= mode <= NEW4X4
  {
    SubMvRefTree();
    LeafPath(SUBMV_REF_TREE, probs, mode)
  }

  function ReadSubMvMode(c: Core, probs: seq<Prob>): (r: (nat, Core))
    requires |probs| == 3
    ensures LEFT4X4 <= r.0 <= NEW4X4
  {
    SubMvRefTree();
    WalkInvertsPath(c, SUBMV_REF_TREE, probs, LEFT4X4);
    Walk(c, SUBMV_REF_TREE, probs)
  }

  lemma SubMvModeRoundTrip(c: Core, probs: seq<Prob>, mode: nat)
    requires |probs| == 3 && LEFT4X4 <= mode <= NEW4X4 && Serves(c, SubMvModePath(probs, mode))
    ensures ReadSubMvMode(c, probs) == (mode, After(c, SubMvModePath(probs, mode)))
  {
    hide Next, Serves, After, LeafPath, Walk, HasLeaf, IsTree;
    SubMvRefTree();
    WalkInvertsPath(c, SUBMV_REF_TREE, probs, mode);
  }

  /** The vector agrees with the mode. */
  predicate SubblockAgrees(mode: nat, mv: MotionVector, left: MotionVector, above: MotionVector, best: MotionVector) {
    && (mode == LEFT4X4 ==> mv == left)
    && (mode == ABOVE4X4 ==> mv == above)
    && (mode == ZERO4X4 ==> mv == ZERO_MV)
    && (mode == NEW4X4 ==> RepresentableVector(mv.Minus(best)))
  }

  function SubblockSymbols(
      mode: nat, mv: MotionVector, left: MotionVector, above: MotionVector, best: MotionVector, p: MvProbs): seq<Symbol>
    requires LEFT4X4 <= mode <= NEW4X4
  {
    SubMvModePath(SubMvRefProbs(left, above), mode)
    + if mode == NEW4X4 then VectorSymbols(mv.Minus(best), p) else []
  }

  function ReadSubblock(c: Core, left: MotionVector, above: MotionVector, best: MotionVector, p: MvProbs)
    : (r: (nat, MotionVector, Core))
    ensures LEFT4X4 <= r.0 <= NEW4X4
  {
    var (mode, c1) := ReadSubMvMode(c, SubMvRefProbs(left, above));
    if mode == LEFT4X4 then (mode, left, c1)
    else if mode == ABOVE4X4 then (mode, above, c1)
    else if mode == ZERO4X4 then (mode, ZERO_MV, c1)
    else
      var (mv, c2) := ReadVector(c1, p);
      (mode, mv.Plus(best), c2)
  }

  /** Given what the printer emits for a subblock, the parser returns the same mode and vector exactly
      if the two agree. */
  lemma SubblockRoundTrip(
      c: Core, mode: nat, mv: MotionVector, left: MotionVector, above: MotionVector, best: MotionVector, p: MvProbs)
    requires LEFT4X4 <= mode <= NEW4X4
    requires Serves(c, SubblockSymbols(mode, mv, left, above, best, p))
    ensures ReadSubblock(c, left, above, best, p).0 == mode
    ensures ReadSubblock(c, left, above, best, p).1 == mv <==> SubblockAgrees(mode, mv, left, above, best)
    ensures SubblockAgrees(mode, mv, left, above, best)
            ==> ReadSubblock(c, left, above, best, p).2 == After(c, SubblockSymbols(mode, mv, left, above, best, p))
  {
    hide Next, Serves, After, SubMvModePath, ReadSubMvMode, VectorSymbols, ReadVector, SubMvRefProbs, RepresentableVector;
    var head := SubMvModePath(SubMvRefProbs(left, above), mode);
    var tail := if mode == NEW4X4 then VectorSymbols(mv.Minus(best), p) else [];
    ServesAppend(c, head, tail);
    SubMvModeRoundTrip(c, SubMvRefProbs(left, above), mode);
    if mode == NEW4X4 {
      VectorRoundTrip(After(c, head), mv.Minus(best), p);
      DifferenceDecides(ReadVector(After(c, head), p).0, mv, best);
    } else {
      ServesNone(After(c, head));
    }
  }

  /** Adding the prediction back gives the vector exactly for the right difference. */
  lemma DifferenceDecides(d: MotionVector, mv: MotionVector, best: MotionVector)
    ensures d.Plus(best) == mv <==> d == mv.Minus(best)
  {
    MinusPlus(mv, best);
    WrapInjective(d.x, mv.Minus(best).x, best.x);
    WrapInjective(d.y, mv.Minus(best).y, best.y);
  }

  lemma WrapInjective(a: Int16, b: Int16, c: Int16)
    ensures Wrap16(a + c) == Wrap16(b + c) <==> a == b
  {
    if Wrap16(a + c) == Wrap16(b + c) { SameResidue(a + c + 0x8000, b + c + 0x8000); }
  }

  lemma SameResidue(a: int, b: int)
    requires -0x1_0000 < a - b < 0x1_0000 && a % 0x1_0000 == b % 0x1_0000
    ensures a == b
  {}

  // ----- Split macroblocks -----

  /** Partition k set to x. */
  function Filled<T>(s: seq<T>, scheme: Scheme, k: nat, x: T): (r: seq<T>)
    requires |s| == 16
    ensures |r| == 16
  {
    seq(16, i requires 0 <= i < 16 => if PartitionOf(scheme, i) == k then x else s[i])
  }

  /** The partitions below k, the rest still as initialised. */
  function Final<T>(s: seq<T>, scheme: Scheme, k: nat, initial: T): (r: seq<T>)
    requires |s| == 16
    ensures |r| == 16
  {
    seq(16, i requires 0 <= i < 16 => if PartitionOf(scheme, i) < k then s[i] else initial)
  }

  predicate Uniform<T(==)>(s: seq<T>, scheme: Scheme, k: nat)
    requires |s| == 16 && k < PartitionCount(scheme)
  {
    forall i :: 0 <= i < 16 && PartitionOf(scheme, i) == k ==> s[i] == s[FirstOf(scheme, k)]
  }

  /** What a split macroblock is coded with. */
  datatype RawSplit = Split(scheme: Scheme, neighbours: Neighbours, best: MotionVector, mvProbs: MvProbs)

  function LeftOf(s: RawSplit, vectors: SubVectors, k: nat): MotionVector
    requires k < PartitionCount(s.scheme)
  {
    LeftVector(vectors, s.neighbours.left, FirstOf(s.scheme, k))
  }

  function AboveOf(s: RawSplit, vectors: SubVectors, k: nat): MotionVector
    requires k < PartitionCount(s.scheme)
  {
    AboveVector(vectors, s.neighbours.above, FirstOf(s.scheme, k))
  }

  function PartitionSymbols(s: RawSplit, modes: InterSubModes, vectors: SubVectors, k: nat): seq<Symbol>
    requires k < PartitionCount(s.scheme)
  {
    var i := FirstOf(s.scheme, k);
    SubblockSymbols(modes[i], vectors[i], LeftOf(s, vectors, k), AboveOf(s, vectors, k), s.best, s.mvProbs)
  }

  /** Partitions 0 .. k. */
  function SplitSymbols(s: RawSplit, modes: InterSubModes, vectors: SubVectors, k: nat): seq<Symbol>
    requires k <= PartitionCount(s.scheme)
  {
    if k == 0 then [] else SplitSymbols(s, modes, vectors, k - 1) + PartitionSymbols(s, modes, vectors, k - 1)
  }

  predicate PartitionAgrees(s: RawSplit, modes: InterSubModes, vectors: SubVectors, k: nat)
    requires k < PartitionCount(s.scheme)
  {
    var i := FirstOf(s.scheme, k);
    && SubblockAgrees(modes[i], vectors[i], LeftOf(s, vectors, k), AboveOf(s, vectors, k), s.best)
    && Uniform(modes, s.scheme, k) && Uniform(vectors, s.scheme, k)
  }

  predicate SplitAgrees(s: RawSplit, modes: InterSubModes, vectors: SubVectors, k: nat)
    requires k <= PartitionCount(s.scheme)
  {
    k == 0 || (SplitAgrees(s, modes, vectors, k - 1) && PartitionAgrees(s, modes, vectors, k - 1))
  }

  function ReadPartition(c: Core, s: RawSplit, vectors: SubVectors, k: nat): (nat, MotionVector, Core)
    requires k < PartitionCount(s.scheme)
  {
    ReadSubblock(c, LeftOf(s, vectors, k), AboveOf(s, vectors, k), s.best, s.mvProbs)
  }

  function ReadSplit(c: Core, s: RawSplit, k: nat): (r: (seq<nat>, SubVectors, Core))
    requires k <= PartitionCount(s.scheme)
    ensures |r.0| == 16
  {
    if k == 0 then (NO_MODES, NO_VECTORS, c)
    else
      var (modes, vectors, c1) := ReadSplit(c, s, k - 1);
      var (mode, mv, c2) := ReadPartition(c1, s, vectors, k - 1);
      (Filled(modes, s.scheme, k - 1, mode), Filled(vectors, s.scheme, k - 1, mv), c2)
  }

  lemma FinalNone<T>(s: seq<T>, scheme: Scheme, initial: T, none: seq<T>)
    requires |s| == |none| == 16 && forall i :: 0 <= i < 16 ==> none[i] == initial
    ensures Final(s, scheme, 0, initial) == none
  {}

  /** The contexts of a partition are final when it is read. */
  lemma FinalContexts(s: RawSplit, vectors: SubVectors, k: nat)
    requires k < PartitionCount(s.scheme)
    ensures LeftOf(s, Final(vectors, s.scheme, k, ZERO_MV), k) == LeftOf(s, vectors, k)
    ensures AboveOf(s, Final(vectors, s.scheme, k, ZERO_MV), k) == AboveOf(s, vectors, k)
  {
    hide PartitionOf, FirstOf;
    ContextsAreFinal(s.scheme, k);
  }

  /** One more partition filled in: it must have had one value throughout. */
  lemma FinalStep<T>(s: seq<T>, scheme: Scheme, k: nat, initial: T, x: T)
    requires |s| == 16 && k < PartitionCount(scheme)
    ensures Filled(Final(s, scheme, k, initial), scheme, k, x) == Final(s, scheme, k + 1, initial)
            <==> x == s[FirstOf(scheme, k)] && Uniform(s, scheme, k)
  {
    var a, b := Filled(Final(s, scheme, k, initial), scheme, k, x), Final(s, scheme, k + 1, initial);
    ContextsAreFinal(scheme, k);
    hide PartitionOf, FirstOf;
    if a == b {
      assert a[FirstOf(scheme, k)] == b[FirstOf(scheme, k)];
      forall i | 0 <= i < 16 && PartitionOf(scheme, i) == k ensures s[i] == s[FirstOf(scheme, k)] {
        assert a[i] == b[i];
      }
    }
  }

  /** A later partition does not touch earlier ones. */
  lemma FinalBefore<T>(s: seq<T>, was: seq<T>, scheme: Scheme, k: nat, initial: T, x: T)
    requires |s| == |was| == 16 && Untouched(was, scheme, k, initial)
    requires Filled(was, scheme, k, x) == Final(s, scheme, k + 1, initial)
    ensures was == Final(s, scheme, k, initial)
  {
    hide PartitionOf;
    forall i | 0 <= i < 16 ensures was[i] == Final(s, scheme, k, initial)[i] {
      assert Filled(was, scheme, k, x)[i] == Final(s, scheme, k + 1, initial)[i];
    }
  }

  predicate Untouched<T(==)>(s: seq<T>, scheme: Scheme, k: nat, initial: T)
    requires |s| == 16
  {
    forall i :: 0 <= i < 16 && PartitionOf(scheme, i) >= k ==> s[i] == initial
  }

  lemma {:induction false} SplitUntouched(c: Core, s: RawSplit, k: nat)
    requires k <= PartitionCount(s.scheme)
    ensures Untouched(ReadSplit(c, s, k).0, s.scheme, k, B_DC_PRED)
    ensures Untouched(ReadSplit(c, s, k).1, s.scheme, k, ZERO_MV)
  {
    hide PartitionOf, FirstOf, ReadPartition;
    if k > 0 { SplitUntouched(c, s, k - 1); }
  }

  /** Given what the printer emits for the first k partitions, the parser has their modes and vectors
      right exactly if in each of them modes and vectors agree and are the same throughout. */
  lemma {:induction false} SplitRoundTrip(c: Core, s: RawSplit, modes: InterSubModes, vectors: SubVectors, k: nat)
    requires k <= PartitionCount(s.scheme) && Serves(c, SplitSymbols(s, modes, vectors, k))
    ensures var (m, v, _) := ReadSplit(c, s, k);
            m == Final(modes, s.scheme, k, B_DC_PRED) && v == Final(vectors, s.scheme, k, ZERO_MV)
            <==> SplitAgrees(s, modes, vectors, k)
    ensures SplitAgrees(s, modes, vectors, k) ==> ReadSplit(c, s, k).2 == After(c, SplitSymbols(s, modes, vectors, k))
  {
    hide Next, Serves, After, Uniform, PartitionOf, FirstOf, SubblockSymbols, ReadSubblock, SubblockAgrees, LeftOf, AboveOf,
      Final, Filled;
    if k == 0 {
      ServesNone(c);
      FinalNone(modes, s.scheme, B_DC_PRED, NO_MODES);
      FinalNone(vectors, s.scheme, ZERO_MV, NO_VECTORS);
    } else {
      var (m, v, c1) := ReadSplit(c, s, k - 1);
      var f := FirstOf(s.scheme, k - 1);
      var head := SplitSymbols(s, modes, vectors, k - 1);
      ServesAppend(c, head, PartitionSymbols(s, modes, vectors, k - 1));
      SplitRoundTrip(c, s, modes, vectors, k - 1);
      if SplitAgrees(s, modes, vectors, k - 1) {
        var left, above := LeftOf(s, vectors, k - 1), AboveOf(s, vectors, k - 1);
        FinalContexts(s, vectors, k - 1);
        SubblockRoundTrip(c1, modes[f], vectors[f], left, above, s.best, s.mvProbs);
        var (mode, mv, _) := ReadPartition(c1, s, v, k - 1);
        FinalStep(modes, s.scheme, k - 1, B_DC_PRED, mode);
        FinalStep(vectors, s.scheme, k - 1, ZERO_MV, mv);
      } else {
        var (mode, mv, _) := ReadPartition(c1, s, v, k - 1);
        SplitUntouched(c, s, k - 1);
        if ReadSplit(c, s, k).0 == Final(modes, s.scheme, k, B_DC_PRED) {
          FinalBefore(modes, m, s.scheme, k - 1, B_DC_PRED, mode);
        }
        if ReadSplit(c, s, k).1 == Final(vectors, s.scheme, k, ZERO_MV) {
          FinalBefore(vectors, v, s.scheme, k - 1, ZERO_MV, mv);
        }
      }
    }
  }

  lemma FinalAll<T>(s: seq<T>, scheme: Scheme, initial: T)
    requires |s| == 16
    ensures Final(s, scheme, PartitionCount(scheme), initial) == s
  {
    forall i | 0 <= i < 16 ensures Final(s, scheme, PartitionCount(scheme), initial)[i] == s[i] {
      PartitionBelowCount(scheme, i);
    }
  }

  lemma PartitionBelowCount(scheme: Scheme, i: nat)
    requires i < 16
    ensures PartitionOf(scheme, i) < PartitionCount(scheme)
  {}

  /** Every mode that is read is one of the four. */
  lemma {:induction false} ReadModes(c: Core, s: RawSplit, k: nat)
    requires k <= PartitionCount(s.scheme)
    ensures forall i :: 0 <= i < 16 && PartitionOf(s.scheme, i) < k ==> LEFT4X4 <= ReadSplit(c, s, k).0[i] <= NEW4X4
  {
    hide PartitionOf, FirstOf, ReadSubblock;
    if k > 0 {
      ReadModes(c, s, k - 1);
    }
  }

  // ----- What a macroblock votes for in its neighbours' census -----

  /** The last subblock of a macroblock belongs to its last partition. */
  lemma LastSubblock(scheme: Scheme)
    ensures PartitionOf(scheme, 15) == PartitionCount(scheme) - 1
  {}

  /** A macroblock votes with its vector, if it is not split, and with the vector of its last partition, if it is;
      intra macroblocks do not vote. The sign bias is that of its reference, which the last frame never has. */
  lemma VoteOf(h: InterParams, p: Prediction)
    ensures !p.InterCoded() ==> VoterOf(h, Some(p)) == None
    ensures p.InterCoded() ==> VoterOf(h, Some(p)).Some?
    ensures p.InterWhole? ==> VoterOf(h, Some(p)).value.mv == p.mv && !VoterOf(h, Some(p)).value.split
    ensures p.InterSplit? && Uniform(p.vectors, p.partitionId, PartitionCount(p.partitionId) - 1) ==>
              VoterOf(h, Some(p)).value.mv == p.vectors[FirstOf(p.partitionId, PartitionCount(p.partitionId) - 1)]
              && VoterOf(h, Some(p)).value.split
    ensures p.InterCoded() && p.reference == LAST_FRAME ==> !VoterOf(h, Some(p)).value.flipped
    ensures p.InterCoded() && p.reference == GOLDEN_FRAME ==> VoterOf(h, Some(p)).value.flipped == h.signBiasGolden
    ensures p.InterCoded() && p.reference == ALTREF_FRAME ==> VoterOf(h, Some(p)).value.flipped == h.signBiasAlternate
  {
    if p.InterSplit? { LastSubblock(p.partitionId); }
  }

  /** What is read for a split macroblock is uniform on its last partition, and the vector it will vote with is the
      one that was read last. */
  lemma VotesWithLastRead(c: Core, s: RawSplit)
    ensures var k := PartitionCount(s.scheme);
            var (modes, vectors, c1) := ReadSplit(c, s, k - 1);
            var last := ReadPartition(c1, s, vectors, k - 1).1;
            ReadSplit(c, s, k).1[15] == last && Uniform(ReadSplit(c, s, k).1, s.scheme, k - 1)
  {
    hide PartitionOf, ReadPartition, FirstOf;
    LastSubblock(s.scheme);
    FirstInPartition(s.scheme, PartitionCount(s.scheme) - 1);
  }

  // ----- Inter macroblocks -----

  function ModePath(prior: Prior, mode: nat): seq<Symbol>
    requires |prior.modeProbs| == 4 && NEARESTMV <= mode <= SPLITMV
  {
    MvRefTree();
    LeafPath(MV_REF_TREE, prior.modeProbs, mode)
  }

  function ReadMode(c: Core, prior: Prior): (r: (nat, Core))
    requires |prior.modeProbs| == 4
    ensures NEARESTMV <= r.0 <= SPLITMV
  {
    MvRefTree();
    WalkInvertsPath(c, MV_REF_TREE, prior.modeProbs, SPLITMV);
    Walk(c, MV_REF_TREE, prior.modeProbs)
  }

  lemma ModeRoundTrip(c: Core, prior: Prior, mode: nat)
    requires |prior.modeProbs| == 4 && NEARESTMV <= mode <= SPLITMV && Serves(c, ModePath(prior, mode))
    ensures ReadMode(c, prior) == (mode, After(c, ModePath(prior, mode)))
  {
    hide Next, Serves, After, LeafPath, Walk, HasLeaf, IsTree;
    MvRefTree();
    WalkInvertsPath(c, MV_REF_TREE, prior.modeProbs, mode);
  }

  function SchemePath(scheme: Scheme): seq<Symbol> {
    SplitMvTree();
    LeafPath(SPLIT_MV_TREE, SPLIT_MV_PROBS, scheme)
  }

  function ReadScheme(c: Core): (Scheme, Core) {
    SplitMvTree();
    WalkInvertsPath(c, SPLIT_MV_TREE, SPLIT_MV_PROBS, 0);
    Walk(c, SPLIT_MV_TREE, SPLIT_MV_PROBS)
  }

  lemma SchemeRoundTrip(c: Core, scheme: Scheme)
    requires Serves(c, SchemePath(scheme))
    ensures ReadScheme(c) == (scheme, After(c, SchemePath(scheme)))
  {
    hide Next, Serves, After, LeafPath, Walk, HasLeaf, IsTree;
    SplitMvTree();
    WalkInvertsPath(c, SPLIT_MV_TREE, SPLIT_MV_PROBS, scheme);
  }

  /** The vector of a macroblock that is not split agrees with its mode. */
  predicate WholeAgrees(mode: InterMode, mv: MotionVector, prior: Prior) {
    && (mode == NEARESTMV ==> mv == prior.nearest)
    && (mode == NEARMV ==> mv == prior.near)
    && (mode == ZEROMV ==> mv == ZERO_MV)
    && (mode == NEWMV ==> RepresentableVector(mv.Minus(prior.best)))
  }

  function SplitOf(scheme: Scheme, n: Neighbours, prior: Prior, h: InterParams): RawSplit {
    Split(scheme, n, prior.best, h.mvProbs)
  }

  predicate Agrees(h: InterParams, p: Prediction, n: Neighbours, at: Place)
    requires p.InterCoded()
  {
    var prior := PriorOf(h, p.reference, n, at);
    match p
    case InterWhole(_, mode, mv) => WholeAgrees(mode, mv, prior)
    case InterSplit(_, scheme, modes, vectors) =>
      SplitAgrees(SplitOf(scheme, n, prior, h), modes, vectors, PartitionCount(scheme))
  }

  function MotionSymbols(h: InterParams, p: Prediction, n: Neighbours, prior: Prior): seq<Symbol>
    requires p.InterCoded() && |prior.modeProbs| == 4
  {
    match p
    case InterWhole(_, mode, mv) =>
      ModePath(prior, mode) + if mode == NEWMV then VectorSymbols(mv.Minus(prior.best), h.mvProbs) else []
    case InterSplit(_, scheme, modes, vectors) =>
      ModePath(prior, SPLITMV) + SchemePath(scheme)
      + SplitSymbols(SplitOf(scheme, n, prior, h), modes, vectors, PartitionCount(scheme))
  }

  function InterSymbols(h: InterParams, p: Prediction, n: Neighbours, at: Place): seq<Symbol>
    requires p.InterCoded()
  {
    ReferenceSymbols(h, p.reference) + MotionSymbols(h, p, n, PriorOf(h, p.reference, n, at))
  }

  function ReadWhole(c: Core, h: InterParams, mode: InterMode, prior: Prior): (MotionVector, Core) {
    if mode == NEARESTMV then (prior.nearest, c)
    else if mode == NEARMV then (prior.near, c)
    else if mode == ZEROMV then (ZERO_MV, c)
    else
      var (d, c1) := ReadVector(c, h.mvProbs);
      (d.Plus(prior.best), c1)
  }

  function ReadMotion(c: Core, h: InterParams, r: Reference, n: Neighbours, prior: Prior): (p: (Prediction, Core))
    requires |prior.modeProbs| == 4
    ensures p.0.InterCoded()
  {
    var (mode, c1) := ReadMode(c, prior);
    if mode == SPLITMV then
      var (scheme, c2) := ReadScheme(c1);
      var s := SplitOf(scheme, n, prior, h);
      ReadModes(c2, s, PartitionCount(scheme));
      AllBelowCount(scheme);
      var (modes, vectors, c3) := ReadSplit(c2, s, PartitionCount(scheme));
      (InterSplit(r, scheme, modes, vectors), c3)
    else
      var (mv, c2) := ReadWhole(c1, h, mode, prior);
      (InterWhole(r, mode, mv), c2)
  }

  lemma AllBelowCount(scheme: Scheme)
    ensures forall i: nat :: i < 16 ==> PartitionOf(scheme, i) < PartitionCount(scheme)
  {}

  function ReadInter(c: Core, h: InterParams, n: Neighbours, at: Place): (p: (Prediction, Core))
    ensures p.0.InterCoded()
  {
    var (r, c1) := ReadReference(c, h);
    ReadMotion(c1, h, r, n, PriorOf(h, r, n, at))
  }

  lemma WholeRoundTrip(c: Core, h: InterParams, mode: InterMode, mv: MotionVector, prior: Prior)
    requires mode == NEWMV ==> Serves(c, VectorSymbols(mv.Minus(prior.best), h.mvProbs))
    ensures ReadWhole(c, h, mode, prior).0 == mv <==> WholeAgrees(mode, mv, prior)
    ensures WholeAgrees(mode, mv, prior) ==>
              ReadWhole(c, h, mode, prior).1
              == if mode == NEWMV then After(c, VectorSymbols(mv.Minus(prior.best), h.mvProbs)) else c
  {
    hide Next, Serves, After, VectorSymbols, ReadVector, RepresentableVector;
    if mode == NEWMV {
      VectorRoundTrip(c, mv.Minus(prior.best), h.mvProbs);
      DifferenceDecides(ReadVector(c, h.mvProbs).0, mv, prior.best);
    }
  }

  lemma MotionRoundTrip(c: Core, h: InterParams, p: Prediction, n: Neighbours, at: Place, prior: Prior)
    requires p.InterCoded() && prior == PriorOf(h, p.reference, n, at)
    requires Serves(c, MotionSymbols(h, p, n, prior))
    ensures ReadMotion(c, h, p.reference, n, prior).0 == p <==> Agrees(h, p, n, at)
    ensures Agrees(h, p, n, at) ==>
              ReadMotion(c, h, p.reference, n, prior).1 == After(c, MotionSymbols(h, p, n, prior))
  {
    hide Next, Serves, After, VectorSymbols, ModePath, ReadMode, SchemePath, ReadScheme, SplitSymbols, ReadSplit,
      SplitAgrees, WholeAgrees, ReadWhole, PriorOf, PartitionOf, PartitionCount, Final;
    match p
    case InterWhole(_, mode, mv) =>
      var head := ModePath(prior, mode);
      var tail := if mode == NEWMV then VectorSymbols(mv.Minus(prior.best), h.mvProbs) else [];
      ServesAppend(c, head, tail);
      ServesNone(After(c, head));
      ModeRoundTrip(c, prior, mode);
      WholeRoundTrip(After(c, head), h, mode, mv, prior);
    case InterSplit(_, scheme, modes, vectors) =>
      var s := SplitOf(scheme, n, prior, h);
      var a, b, d := ModePath(prior, SPLITMV), SchemePath(scheme), SplitSymbols(s, modes, vectors, PartitionCount(scheme));
      ServesAppend(c, a + b, d);
      ServesAppend(c, a, b);
      ModeRoundTrip(c, prior, SPLITMV);
      SchemeRoundTrip(After(c, a), scheme);
      SplitRoundTrip(After(c, a + b), s, modes, vectors, PartitionCount(scheme));
      FinalAll(modes, scheme, B_DC_PRED);
      FinalAll(vectors, scheme, ZERO_MV);
  }

  /** Inter macroblock round trip, exactly: given what the printer emits, the parser returns the same
      reference, mode, partition and vectors if and only if the vectors agree with the modes. */
  lemma InterRoundTrip(c: Core, h: InterParams, p: Prediction, n: Neighbours, at: Place)
    requires p.InterCoded() && Serves(c, InterSymbols(h, p, n, at))
    ensures ReadInter(c, h, n, at).0 == p <==> Agrees(h, p, n, at)
    ensures Agrees(h, p, n, at) ==> ReadInter(c, h, n, at).1 == After(c, InterSymbols(h, p, n, at))
  {
    hide Next, Serves, After, ReferenceSymbols, ReadReference, MotionSymbols, ReadMotion, Agrees, PriorOf;
    var head := ReferenceSymbols(h, p.reference);
    ServesAppend(c, head, MotionSymbols(h, p, n, PriorOf(h, p.reference, n, at)));
    ReferenceRoundTrip(c, h, p.reference);
    MotionRoundTrip(After(c, head), h, p, n, at, PriorOf(h, p.reference, n, at));
  }
}
