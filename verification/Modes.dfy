/** Prediction modes of macroblocks and subblocks, and what a macroblock shows to its neighbours
    (src/decoder/macroblock.hh, src/decoder/block.hh, src/decoder/modemv_data.cc). */
module Modes {
  import opened Wrappers
  import opened BoolCoding
  import opened CodingTrees
  import opened MotionVectors

  datatype Reference = LAST_FRAME | GOLDEN_FRAME | ALTREF_FRAME

  type Scheme = s: nat | s < 4
  type SegmentId = s: nat | s < 4
  type IntraMode = m: nat | m <= TM_PRED
  type InterMode = m: nat | NEARESTMV <= m <= NEWMV witness ZEROMV
  type IntraSubModes = s: seq<nat> | |s| == 16 && forall i :: 0 <= i < 16 ==> s[i] <= B_HU_PRED witness NO_MODES
  type InterSubModes = s: seq<nat> | |s| == 16 && forall i :: 0 <= i < 16 ==> LEFT4X4 <= s[i] <= NEW4X4
    witness ALL_LEFT
  type SubVectors = s: seq<MotionVector> | |s| == 16 witness NO_VECTORS

  const NO_MODES: seq<nat> := [0, 0, 0, 0, 0, 0, 0, 0, 0, 0, 0, 0, 0, 0, 0, 0]
  const ALL_LEFT: seq<nat> := [10, 10, 10, 10, 10, 10, 10, 10, 10, 10, 10, 10, 10, 10, 10, 10]
  const NO_VECTORS: seq<MotionVector> :=
    [ZERO_MV, ZERO_MV, ZERO_MV, ZERO_MV, ZERO_MV, ZERO_MV, ZERO_MV, ZERO_MV,
     ZERO_MV, ZERO_MV, ZERO_MV, ZERO_MV, ZERO_MV, ZERO_MV, ZERO_MV, ZERO_MV]

  /** The modes and vectors of a macroblock that the bitstream determines. Intra macroblocks have no
      vectors; macroblocks that are not split have one. Subblocks are in raster order. */
  datatype Prediction =
    | IntraWhole(yMode: IntraMode, uvMode: IntraMode)
    | IntraSub(intraModes: IntraSubModes, uvMode: IntraMode)
    | InterWhole(reference: Reference, mvMode: InterMode, mv: MotionVector)
    | InterSplit(reference: Reference, partitionId: Scheme, interModes: InterSubModes, vectors: SubVectors)
  {
    predicate InterCoded() {
      InterWhole? || InterSplit?
    }

    /** Does the macroblock have a Y2 block? */
    predicate Y2Coded() {
      IntraWhole? || InterWhole?
    }

    /** The mode of subblock i as its neighbours see it. */
    function SubMode(i: nat): nat
      requires i < 16
    {
      match this
      case IntraWhole(yMode, _) => ImpliedSubblockMode(yMode)
      case IntraSub(modes, _) => modes[i]
      case InterWhole(_, _, _) => B_DC_PRED
      case InterSplit(_, _, modes, _) => modes[i]
    }

    /** The motion vector of subblock i as its neighbours see it. */
    function SubVector(i: nat): MotionVector
      requires i < 16
    {
      match this
      case IntraWhole(_, _) => ZERO_MV
      case IntraSub(_, _) => ZERO_MV
      case InterWhole(_, _, mv) => mv
      case InterSplit(_, _, _, vectors) => vectors[i]
    }

    function BaseVector(): MotionVector {
      SubVector(15)
    }
  }

  function ImpliedSubblockMode(yMode: nat): nat {
    if yMode == V_PRED then B_VE_PRED
    else if yMode == H_PRED then B_HE_PRED
    else if yMode == TM_PRED then B_TM_PRED
    else B_DC_PRED
  }

  /** A macroblock predicted as a whole looks like sixteen subblocks predicted in the same way: from the row above,
      from the column to the left, from both by true motion, or flat. */
  lemma ImpliedModes(p: Prediction, i: nat)
    requires p.IntraWhole? && i < 16
    ensures p.yMode == V_PRED <==> p.SubMode(i) == B_VE_PRED
    ensures p.yMode == H_PRED <==> p.SubMode(i) == B_HE_PRED
    ensures p.yMode == TM_PRED <==> p.SubMode(i) == B_TM_PRED
    ensures p.yMode == DC_PRED <==> p.SubMode(i) == B_DC_PRED
  {}

  datatype Macroblock = Macroblock(segmentIdUpdate: Option<SegmentId>, skipCoeff: Option<bool>, prediction: Prediction)

  /** The macroblocks around one that is being coded, where they exist. */
  datatype Neighbours = Neighbours(above: Option<Prediction>, left: Option<Prediction>, aboveLeft: Option<Prediction>)

  /** Where a macroblock stands in the frame. */
  datatype RawPlace = Place(column: nat, row: nat, width: nat, height: nat)
  type Place = p: RawPlace | p.column < p.width && p.row < p.height witness Place(0, 0, 1, 1)

  // ----- Subblock contexts -----

  /** The mode above subblock i, the earlier ones being given in `modes`. */
  function AboveMode(modes: seq<nat>, above: Option<Prediction>, i: nat): nat
    requires i < 16 && i <= |modes|
  {
    if i >= 4 then modes[i - 4] else if above.Some? then above.value.SubMode(i + 12) else B_DC_PRED
  }

  function LeftMode(modes: seq<nat>, left: Option<Prediction>, i: nat): nat
    requires i < 16 && i <= |modes|
  {
    if i % 4 > 0 then modes[i - 1] else if left.Some? then left.value.SubMode(i + 3) else B_DC_PRED
  }

  function AboveVector(vectors: SubVectors, above: Option<Prediction>, i: nat): MotionVector
    requires i < 16
  {
    if i >= 4 then vectors[i - 4] else if above.Some? then above.value.SubVector(i + 12) else ZERO_MV
  }

  function LeftVector(vectors: SubVectors, left: Option<Prediction>, i: nat): MotionVector
    requires i < 16
  {
    if i % 4 > 0 then vectors[i - 1] else if left.Some? then left.value.SubVector(i + 3) else ZERO_MV
  }

  // ----- Partitions of a split macroblock -----

  /** For each scheme, the subblocks of each partition. */
  const MV_PARTITIONS: seq<seq<seq<nat>>> := [
    [[0, 1, 2, 3, 4, 5, 6, 7], [8, 9, 10, 11, 12, 13, 14, 15]],  // top, bottom
    [[0, 1, 4, 5, 8, 9, 12, 13], [2, 3, 6, 7, 10, 11, 14, 15]],  // left, right
    [[0, 1, 4, 5], [2, 3, 6, 7], [8, 9, 12, 13], [10, 11, 14, 15]],  // four quarters
    [[0], [1], [2], [3], [4], [5], [6], [7], [8], [9], [10], [11], [12], [13], [14], [15]]  // each its own
  ]

  /** The partition that subblock i belongs to. */
  function PartitionOf(scheme: Scheme, i: nat): (k: nat) {
    if scheme == 0 then i / 8
    else if scheme == 1 then i % 4 / 2
    else if scheme == 2 then i / 8 * 2 + i % 4 / 2
    else i
  }

  function PartitionCount(scheme: Scheme): nat {
    if scheme == 3 then 16 else if scheme == 2 then 4 else 2
  }

  function FirstOf(scheme: Scheme, k: nat): (i: nat)
    requires k < PartitionCount(scheme)
    ensures i < 16
  {
    if scheme == 0 then 8 * k
    else if scheme == 1 then 2 * k
    else if scheme == 2 then k / 2 * 8 + k % 2 * 2
    else k
  }

  /** Every subblock is in exactly the partition that PartitionOf names, once. */
  lemma PartitionsCover(scheme: Scheme, i: nat)
    requires i < 16
    ensures |MV_PARTITIONS[scheme]| == PartitionCount(scheme) > PartitionOf(scheme, i)
    ensures forall k :: 0 <= k < PartitionCount(scheme) ==> (i in MV_PARTITIONS[scheme][k] <==> PartitionOf(scheme, i) == k)
  {
    match scheme
    case 0 => CoverHalves(i);
    case 1 => CoverSides(i);
    case 2 => CoverQuarters(i);
    case 3 => CoverSingles(i);
  }

  lemma CoverHalves(i: nat)
    requires i < 16
    ensures forall k :: 0 <= k < 2 ==> (i in MV_PARTITIONS[0][k] <==> i / 8 == k)
  {}

  lemma CoverSides(i: nat)
    requires i < 16
    ensures forall k :: 0 <= k < 2 ==> (i in MV_PARTITIONS[1][k] <==> i % 4 / 2 == k)
  {}

  lemma CoverQuarters(i: nat)
    requires i < 16
    ensures forall k :: 0 <= k < 4 ==> (i in MV_PARTITIONS[2][k] <==> i / 8 * 2 + i % 4 / 2 == k)
  {}

  lemma CoverSingles(i: nat)
    requires i < 16
    ensures forall k :: 0 <= k < 16 ==> (i in MV_PARTITIONS[3][k] <==> i == k)
  {}

  /** A partition's list is not empty, and starts with its first subblock. */
  lemma PartitionFront(scheme: Scheme, k: nat)
    requires k < PartitionCount(scheme)
    ensures |MV_PARTITIONS[scheme]| == PartitionCount(scheme)
    ensures |MV_PARTITIONS[scheme][k]| > 0 && MV_PARTITIONS[scheme][k][0] == FirstOf(scheme, k)
    ensures forall j :: 0 <= j < |MV_PARTITIONS[scheme][k]| ==> MV_PARTITIONS[scheme][k][j] < 16
  {}

  /** What the first subblock of a partition takes its contexts from belongs to an earlier partition, or
      to another macroblock: it is final when the partition is read. */
  lemma ContextsAreFinal(scheme: Scheme, k: nat)
    requires k < PartitionCount(scheme)
    ensures var i := FirstOf(scheme, k);
            && PartitionOf(scheme, i) == k
            && (i >= 4 ==> PartitionOf(scheme, i - 4) < k)
            && (i % 4 > 0 ==> PartitionOf(scheme, i - 1) < k)
  {
    hide PartitionOf, FirstOf;
    FirstInPartition(scheme, k);
    if FirstOf(scheme, k) >= 4 { AboveIsFinal(scheme, k); }
    if FirstOf(scheme, k) % 4 > 0 { LeftIsFinal(scheme, k); }
  }

  lemma FirstInPartition(scheme: Scheme, k: nat)
    requires k < PartitionCount(scheme)
    ensures PartitionOf(scheme, FirstOf(scheme, k)) == k
  {}

  lemma AboveIsFinal(scheme: Scheme, k: nat)
    requires k < PartitionCount(scheme) && FirstOf(scheme, k) >= 4
    ensures PartitionOf(scheme, FirstOf(scheme, k) - 4) < k
  {}

  lemma LeftIsFinal(scheme: Scheme, k: nat)
    requires k < PartitionCount(scheme) && FirstOf(scheme, k) % 4 > 0
    ensures PartitionOf(scheme, FirstOf(scheme, k) - 1) < k
  {}
}
