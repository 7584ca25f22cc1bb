/** The printer and the parser of inter prediction, statement by statement
    (src/encoder/serializer.cc, src/decoder/macroblock.cc). */
module InterModeCoder {
  import opened Wrappers
  import opened BoolCoding
  import opened BoolEncoding
  import opened BoolDecoding
  import opened TreeCoder
  import opened CodingTrees
  import opened MotionVectors
  import opened MotionCensus
  import opened Modes
  import opened InterModes

  /** The census of the neighbours, and what is looked up with it. */
  method FindPrior(h: InterParams, r: Reference, n: Neighbours, at: Place) returns (prior: Prior)
    ensures prior == PriorOf(h, r, n, at)
  {
    hide Taken, Clamped;
    var census := TakeCensus(Flipped(h, r), VoterOf(h, n.above), VoterOf(h, n.left), VoterOf(h, n.aboveLeft));
    prior := Prior(
      ModeProbs(Contexts(census)),
      ClampedAt(census.vectors[0], at), ClampedAt(census.vectors[1], at), ClampedAt(census.vectors[2], at));
  }

  method EncodeReference(encoder: BoolEncoder, h: InterParams, r: Reference)
    requires encoder.Valid()
    modifies encoder
    ensures encoder.Valid() && encoder.log == old(encoder.log) + ReferenceSymbols(h, r)
  {
    hide Holds, Encoded;
    encoder.Put(r != LAST_FRAME, h.probReferencesLast);
    if r != LAST_FRAME {
      encoder.Put(r == ALTREF_FRAME, h.probReferencesGolden);
    }
  }

  method DecodeReference(decoder: BoolDecoder, h: InterParams) returns (r: Reference)
    requires decoder.Valid()
    modifies decoder
    ensures decoder.Valid() && (r, decoder.State()) == ReadReference(old(decoder.State()), h)
  {
    hide Next, WellFormed;
    r := LAST_FRAME;
    var sel1 := decoder.Get(h.probReferencesLast);
    if sel1 {
      var sel2 := decoder.Get(h.probReferencesGolden);
      r := if sel2 then ALTREF_FRAME else GOLDEN_FRAME;
    }
  }

  method WriteSubblockInterPrediction(
      encoder: BoolEncoder, mode: nat, mv: MotionVector, left: MotionVector, above: MotionVector,
      best: MotionVector, p: MvProbs)
    requires encoder.Valid() && LEFT4X4 <= mode <= NEW4X4
    modifies encoder
    ensures encoder.Valid()
    ensures encoder.log == old(encoder.log) + SubblockSymbols(mode, mv, left, above, best, p)
  {
    hide Holds, Encoded, LeafPath, HasLeaf, IsTree, SubMvRefProbs, VectorSymbols, Wrap16;
    SubMvRefTree();
    EncodeTree(encoder, SUBMV_REF_TREE, SubMvRefProbs(left, above), mode);
    if mode == NEW4X4 {
      EncodeVector(encoder, mv.Minus(best), p);
    }
  }

  method ReadSubblockInterPrediction(
      decoder: BoolDecoder, left: MotionVector, above: MotionVector, best: MotionVector, p: MvProbs)
    returns (mode: nat, mv: MotionVector)
    requires decoder.Valid()
    modifies decoder
    ensures decoder.Valid()
    ensures (mode, mv, decoder.State()) == ReadSubblock(old(decoder.State()), left, above, best, p)
  {
    hide Next, WellFormed, Walk, HasLeaf, IsTree, SubMvRefProbs, ReadVector;
    ghost var c := decoder.State();
    mode := DecodeTree(decoder, SUBMV_REF_TREE, SubMvRefProbs(left, above));
    assert (mode, decoder.State()) == ReadSubMvMode(c, SubMvRefProbs(left, above));
    if mode == LEFT4X4 {
      mv := left;
    } else if mode == ABOVE4X4 {
      mv := above;
    } else if mode == ZERO4X4 {
      mv := ZERO_MV;
    } else {
      mv := DecodeVector(decoder, p);
      mv := mv.Plus(best);
    }
  }

  /** Copies the first subblock of a partition to the others. */
  method FillPartition<T>(a: array<T>, scheme: Scheme, k: nat, x: T)
    requires a.Length == 16 && k < PartitionCount(scheme)
    modifies a
    ensures a[..] == Filled(old(a[..]), scheme, k, x)
  {
    PartitionFront(scheme, k);
    hide PartitionOf, FirstOf;
    ghost var was := a[..];
    var partition := MV_PARTITIONS[scheme][k];
    a[partition[0]] := x;
    for j := 1 to |partition|
      invariant a[partition[0]] == x
      invariant forall i :: 0 <= i < 16 ==> a[i] == if i in partition[..j] then x else was[i]
    {
      a[partition[j]] := a[partition[0]];
      assert partition[..j + 1] == partition[..j] + [partition[j]];
    }
    assert partition[..|partition|] == partition;
    forall i | 0 <= i < 16 ensures a[i] == Filled(was, scheme, k, x)[i] {
      PartitionsCover(scheme, i);
    }
  }

  method EncodeSplit(encoder: BoolEncoder, s: RawSplit, modes: InterSubModes, vectors: SubVectors)
    requires encoder.Valid()
    modifies encoder
    ensures encoder.Valid()
    ensures encoder.log == old(encoder.log) + SplitSymbols(s, modes, vectors, PartitionCount(s.scheme))
  {
    hide Holds, Encoded, SubblockSymbols, LeftOf, AboveOf;
    for k := 0 to PartitionCount(s.scheme)
      invariant encoder.Valid() && encoder.log == old(encoder.log) + SplitSymbols(s, modes, vectors, k)
    {
      PartitionFront(s.scheme, k);
      var first := MV_PARTITIONS[s.scheme][k][0];
      WriteSubblockInterPrediction(
        encoder, modes[first], vectors[first], LeftOf(s, vectors, k), AboveOf(s, vectors, k), s.best, s.mvProbs);
    }
  }

  method DecodeSplit(decoder: BoolDecoder, s: RawSplit) returns (modes: seq<nat>, vectors: seq<MotionVector>)
    requires decoder.Valid()
    modifies decoder
    ensures decoder.Valid()
    ensures |modes| == 16 && |vectors| == 16
    ensures (modes, vectors, decoder.State()) == ReadSplit(old(decoder.State()), s, PartitionCount(s.scheme))
  {
    hide Next, WellFormed, ReadSubblock, LeftOf, AboveOf, Filled, FirstOf, PartitionCount;
    var subModes := new nat[16](_ => B_DC_PRED);
    var motionVectors := new MotionVector[16](_ => ZERO_MV);
    assert subModes[..] == NO_MODES && motionVectors[..] == NO_VECTORS;
    for k := 0 to PartitionCount(s.scheme)
      invariant decoder.Valid()
      invariant (subModes[..], motionVectors[..], decoder.State()) == ReadSplit(old(decoder.State()), s, k)
    {
      var left, above := LeftOf(s, motionVectors[..], k), AboveOf(s, motionVectors[..], k);
      var mode, mv := ReadSubblockInterPrediction(decoder, left, above, s.best, s.mvProbs);
      FillPartition(subModes, s.scheme, k, mode);
      FillPartition(motionVectors, s.scheme, k, mv);
    }
    modes, vectors := subModes[..], motionVectors[..];
  }

  method EncodeInter(encoder: BoolEncoder, h: InterParams, p: Prediction, n: Neighbours, at: Place)
    requires encoder.Valid() && p.InterCoded()
    modifies encoder
    ensures encoder.Valid() && encoder.log == old(encoder.log) + InterSymbols(h, p, n, at)
  {
    hide Holds, Encoded, PriorOf, ReferenceSymbols, MotionSymbols;
    EncodeReference(encoder, h, p.reference);
    var prior := FindPrior(h, p.reference, n, at);
    EncodeMotion(encoder, h, p, n, prior);
  }

  method EncodeMotion(encoder: BoolEncoder, h: InterParams, p: Prediction, n: Neighbours, prior: Prior)
    requires encoder.Valid() && p.InterCoded() && |prior.modeProbs| == 4
    modifies encoder
    ensures encoder.Valid() && encoder.log == old(encoder.log) + MotionSymbols(h, p, n, prior)
  {
    hide Holds, Encoded, LeafPath, HasLeaf, IsTree, VectorSymbols, SplitSymbols, Wrap16, PartitionOf, PartitionCount;
    MvRefTree();
    SplitMvTree();
    EncodeTree(encoder, MV_REF_TREE, prior.modeProbs, if p.InterSplit? then SPLITMV else p.mvMode);
    if p.InterSplit? {
      EncodeTree(encoder, SPLIT_MV_TREE, SPLIT_MV_PROBS, p.partitionId);
      EncodeSplit(encoder, SplitOf(p.partitionId, n, prior, h), p.interModes, p.vectors);
    } else if p.mvMode == NEWMV {
      EncodeVector(encoder, p.mv.Minus(prior.best), h.mvProbs);
    }
  }

  method DecodeInter(decoder: BoolDecoder, h: InterParams, n: Neighbours, at: Place) returns (p: Prediction)
    requires decoder.Valid()
    modifies decoder
    ensures decoder.Valid() && (p, decoder.State()) == ReadInter(old(decoder.State()), h, n, at)
  {
    hide Next, WellFormed, Walk, HasLeaf, IsTree, PriorOf, ReadReference, ReadMotion;
    var r := DecodeReference(decoder, h);
    var prior := FindPrior(h, r, n, at);
    p := DecodeMotion(decoder, h, r, n, prior);
  }

  method DecodeMotion(decoder: BoolDecoder, h: InterParams, r: Reference, n: Neighbours, prior: Prior)
    returns (p: Prediction)
    requires decoder.Valid() && |prior.modeProbs| == 4
    modifies decoder
    ensures decoder.Valid() && (p, decoder.State()) == ReadMotion(old(decoder.State()), h, r, n, prior)
  {
    hide Next, WellFormed, Walk, HasLeaf, IsTree, ReadVector, ReadSplit, PartitionOf, PartitionCount;
    ghost var c := decoder.State();
    var mode := DecodeTree(decoder, MV_REF_TREE, prior.modeProbs);
    assert (mode, decoder.State()) == ReadMode(c, prior);
    if mode == SPLITMV {
      ghost var c1 := decoder.State();
      var scheme := DecodeTree(decoder, SPLIT_MV_TREE, SPLIT_MV_PROBS);
      assert (scheme, decoder.State()) == ReadScheme(c1);
      var s := SplitOf(scheme, n, prior, h);
      ReadModes(decoder.State(), s, PartitionCount(scheme));
      AllBelowCount(scheme);
      var modes, vectors := DecodeSplit(decoder, s);
      p := InterSplit(r, scheme, modes, vectors);
    } else {
      var mv := DecodeWhole(decoder, h, mode, prior);
      p := InterWhole(r, mode, mv);
    }
  }

  method DecodeWhole(decoder: BoolDecoder, h: InterParams, mode: InterMode, prior: Prior) returns (mv: MotionVector)
    requires decoder.Valid()
    modifies decoder
    ensures decoder.Valid() && (mv, decoder.State()) == ReadWhole(old(decoder.State()), h, mode, prior)
  {
    hide Next, WellFormed, ReadVector;
    if mode == NEARESTMV {
      mv := prior.nearest;
    } else if mode == NEARMV {
      mv := prior.near;
    } else if mode == ZEROMV {
      mv := ZERO_MV;
    } else {
      mv := DecodeVector(decoder, h.mvProbs);
      mv := mv.Plus(prior.best);
    }
  }
}
