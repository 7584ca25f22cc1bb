/** Coding the intra prediction modes of a macroblock, in key frames and in inter frames
    (src/encoder/serializer.cc, src/decoder/macroblock.cc). */
module IntraModes {
  import opened Wrappers
  import opened BoolCoding
  import opened BoolEncoding
  import opened BoolDecoding
  import opened TreeCoder
  import opened CodingTrees
  import opened Modes

  type YModeProbs = p: seq<Prob> | |p| == 4 witness KF_Y_MODE_PROBS
  type UvModeProbs = p: seq<Prob> | |p| == 3 witness KF_UV_MODE_PROBS
  type SubModeProbs = p: seq<Prob> | |p| == 9 witness INVARIANT_B_MODE_PROBS

  const KF_Y_MODE_PROBS: seq<Prob> := [145, 156, 163, 128]
  const KF_UV_MODE_PROBS: seq<Prob> := [142, 114, 183]
  const INVARIANT_B_MODE_PROBS: seq<Prob> := [120, 90, 79, 133, 87, 85, 80, 111, 151]

  /** How intra modes are coded: the tree of luma modes and the probabilities. Those of a subblock mode
      may depend on the modes above and to the left. */
  datatype Coding = Coding(key: bool, y: YModeProbs, uv: UvModeProbs, sub: (nat, nat) -> SubModeProbs)

  function KeyCoding(kfSubModeProbs: (nat, nat) -> SubModeProbs): Coding {
    Coding(true, KF_Y_MODE_PROBS, KF_UV_MODE_PROBS, kfSubModeProbs)
  }

  function InterFrameCoding(y: YModeProbs, uv: UvModeProbs): Coding {
    Coding(false, y, uv, (above, left) => INVARIANT_B_MODE_PROBS)
  }

  function YTree(coding: Coding): (t: Tree)
    ensures |t| == 8 && forall v: nat :: v <= B_PRED <==> HasLeaf(t, v)
  {
    KeyModeTree();
    ModeTree();
    if coding.key then KF_Y_MODE_TREE else Y_MODE_TREE
  }

  function SubProbsAt(coding: Coding, modes: seq<nat>, n: Neighbours, i: nat): SubModeProbs
    requires i < 16 && i <= |modes|
  {
    coding.sub(AboveMode(modes, n.above, i), LeftMode(modes, n.left, i))
  }

  // ----- Subblock modes -----

  function SubModePath(probs: SubModeProbs, mode: nat): seq<Symbol>
    requires mode <= B_HU_PRED
  {
    SubblockModeTree();
    LeafPath(B_MODE_TREE, probs, mode)
  }

  function ReadSubMode(c: Core, probs: SubModeProbs): (r: (nat, Core))
    ensures r.0 <= B_HU_PRED
  {
    SubblockModeTree();
    WalkInvertsPath(c, B_MODE_TREE, probs, 0);
    Walk(c, B_MODE_TREE, probs)
  }

  lemma SubModeRoundTrip(c: Core, probs: SubModeProbs, mode: nat)
    requires mode <= B_HU_PRED && Serves(c, SubModePath(probs, mode))
    ensures ReadSubMode(c, probs) == (mode, After(c, SubModePath(probs, mode)))
  {
    hide Next, Serves, After, LeafPath, Walk, HasLeaf, IsTree;
    SubblockModeTree();
    WalkInvertsPath(c, B_MODE_TREE, probs, mode);
  }

  /** The modes of subblocks 0 .. k. */
  function SubModesSymbols(coding: Coding, modes: IntraSubModes, n: Neighbours, k: nat): seq<Symbol>
    requires k <= 16
  {
    if k == 0 then []
    else SubModesSymbols(coding, modes, n, k - 1) + SubModePath(SubProbsAt(coding, modes, n, k - 1), modes[k - 1])
  }

  function ReadSubModes(c: Core, coding: Coding, n: Neighbours, k: nat): (r: (seq<nat>, Core))
    requires k <= 16
    ensures |r.0| == k && forall i :: 0 <= i < k ==> r.0[i] <= B_HU_PRED
  {
    if k == 0 then ([], c)
    else
      var (modes, c1) := ReadSubModes(c, coding, n, k - 1);
      var (mode, c2) := ReadSubMode(c1, SubProbsAt(coding, modes, n, k - 1));
      (modes + [mode], c2)
  }

  /** The contexts of a subblock only involve earlier ones. */
  lemma ContextsFromPrefix(coding: Coding, modes: seq<nat>, n: Neighbours, i: nat)
    requires i < 16 && i <= |modes|
    ensures SubProbsAt(coding, modes[..i], n, i) == SubProbsAt(coding, modes, n, i)
  {}

  lemma {:induction false} SubModesRoundTrip(c: Core, coding: Coding, modes: IntraSubModes, n: Neighbours, k: nat)
    requires k <= 16 && Serves(c, SubModesSymbols(coding, modes, n, k))
    ensures ReadSubModes(c, coding, n, k) == (modes[..k], After(c, SubModesSymbols(coding, modes, n, k)))
  {
    hide Next, Serves, After, SubModePath, ReadSubMode, SubProbsAt;
    if k == 0 {
      ServesNone(c);
    } else {
      var head := SubModesSymbols(coding, modes, n, k - 1);
      var last := SubModePath(SubProbsAt(coding, modes, n, k - 1), modes[k - 1]);
      ServesAppend(c, head, last);
      SubModesRoundTrip(c, coding, modes, n, k - 1);
      ContextsFromPrefix(coding, modes, n, k - 1);
      SubModeRoundTrip(After(c, head), SubProbsAt(coding, modes, n, k - 1), modes[k - 1]);
      assert modes[..k] == modes[..k - 1] + [modes[k - 1]];
    }
  }

  // ----- Whole macroblocks -----

  function YModePath(coding: Coding, mode: nat): seq<Symbol>
    requires mode <= B_PRED
  {
    LeafPath(YTree(coding), coding.y, mode)
  }

  function UvModePath(coding: Coding, mode: IntraMode): seq<Symbol> {
    ChromaModeTree();
    LeafPath(UV_MODE_TREE, coding.uv, mode)
  }

  function ReadYMode(c: Core, coding: Coding): (r: (nat, Core))
    ensures r.0 <= B_PRED
  {
    WalkInvertsPath(c, YTree(coding), coding.y, B_PRED);
    Walk(c, YTree(coding), coding.y)
  }

  function ReadUvMode(c: Core, coding: Coding): (r: (IntraMode, Core))
  {
    ChromaModeTree();
    WalkInvertsPath(c, UV_MODE_TREE, coding.uv, DC_PRED);
    Walk(c, UV_MODE_TREE, coding.uv)
  }

  lemma YModeRoundTrip(c: Core, coding: Coding, mode: nat)
    requires mode <= B_PRED && Serves(c, YModePath(coding, mode))
    ensures ReadYMode(c, coding) == (mode, After(c, YModePath(coding, mode)))
  {
    hide Next, Serves, After, LeafPath, Walk, HasLeaf, IsTree;
    WalkInvertsPath(c, YTree(coding), coding.y, mode);
  }

  lemma UvModeRoundTrip(c: Core, coding: Coding, mode: IntraMode)
    requires Serves(c, UvModePath(coding, mode))
    ensures ReadUvMode(c, coding) == (mode, After(c, UvModePath(coding, mode)))
  {
    hide Next, Serves, After, LeafPath, Walk, HasLeaf, IsTree;
    ChromaModeTree();
    WalkInvertsPath(c, UV_MODE_TREE, coding.uv, mode);
  }

  function LumaSymbols(coding: Coding, p: Prediction, n: Neighbours): seq<Symbol>
    requires !p.InterCoded()
  {
    match p
    case IntraWhole(yMode, _) => YModePath(coding, yMode)
    case IntraSub(modes, _) => YModePath(coding, B_PRED) + SubModesSymbols(coding, modes, n, 16)
  }

  function IntraSymbols(coding: Coding, p: Prediction, n: Neighbours): seq<Symbol>
    requires !p.InterCoded()
  {
    LumaSymbols(coding, p, n) + UvModePath(coding, p.uvMode)
  }

  function ReadIntra(c: Core, coding: Coding, n: Neighbours): (r: (Prediction, Core))
    ensures !r.0.InterCoded()
  {
    var (yMode, c1) := ReadYMode(c, coding);
    if yMode == B_PRED then
      var (modes, c2) := ReadSubModes(c1, coding, n, 16);
      var (uvMode, c3) := ReadUvMode(c2, coding);
      (IntraSub(modes, uvMode), c3)
    else
      var (uvMode, c2) := ReadUvMode(c1, coding);
      (IntraWhole(yMode, uvMode), c2)
  }

  lemma IntraRoundTrip(c: Core, coding: Coding, p: Prediction, n: Neighbours)
    requires !p.InterCoded() && Serves(c, IntraSymbols(coding, p, n))
    ensures ReadIntra(c, coding, n) == (p, After(c, IntraSymbols(coding, p, n)))
  {
    hide Next, Serves, After, YModePath, UvModePath, ReadYMode, ReadUvMode, ReadSubModes, SubModesSymbols;
    ServesAppend(c, LumaSymbols(coding, p, n), UvModePath(coding, p.uvMode));
    UvModeRoundTrip(After(c, LumaSymbols(coding, p, n)), coding, p.uvMode);
    match p
    case IntraWhole(yMode, _) => YModeRoundTrip(c, coding, yMode);
    case IntraSub(modes, _) =>
      var y := YModePath(coding, B_PRED);
      ServesAppend(c, y, SubModesSymbols(coding, modes, n, 16));
      YModeRoundTrip(c, coding, B_PRED);
      SubModesRoundTrip(After(c, y), coding, modes, n, 16);
      assert modes[..16] == modes;
  }

  // ----- The printer and the parser -----

  method EncodeIntra(encoder: BoolEncoder, coding: Coding, p: Prediction, n: Neighbours)
    requires encoder.Valid() && !p.InterCoded()
    modifies encoder
    ensures encoder.Valid() && encoder.log == old(encoder.log) + IntraSymbols(coding, p, n)
  {
    hide Holds, Encoded, LeafPath, HasLeaf, IsTree, SubProbsAt;
    SubblockModeTree();
    ChromaModeTree();
    EncodeTree(encoder, YTree(coding), coding.y, if p.IntraSub? then B_PRED else p.yMode);
    if p.IntraSub? {
      ghost var log := encoder.log;
      assert log + [] == log;
      for i := 0 to 16
        invariant encoder.Valid() && encoder.log == log + SubModesSymbols(coding, p.intraModes, n, i)
      {
        EncodeTree(encoder, B_MODE_TREE, SubProbsAt(coding, p.intraModes, n, i), p.intraModes[i]);
      }
    }
    EncodeTree(encoder, UV_MODE_TREE, coding.uv, p.uvMode);
  }

  method DecodeIntra(decoder: BoolDecoder, coding: Coding, n: Neighbours) returns (p: Prediction)
    requires decoder.Valid()
    modifies decoder
    ensures decoder.Valid() && (p, decoder.State()) == ReadIntra(old(decoder.State()), coding, n)
  {
    hide Next, Walk, HasLeaf, IsTree, SubProbsAt, WellFormed, YTree;
    ghost var c := decoder.State();
    var yMode := DecodeTree(decoder, YTree(coding), coding.y);
    assert (yMode, decoder.State()) == ReadYMode(c, coding);
    if yMode == B_PRED {
      var modes := DecodeSubModes(decoder, coding, n);
      ghost var c2 := decoder.State();
      var uvMode := DecodeTree(decoder, UV_MODE_TREE, coding.uv);
      assert (uvMode, decoder.State()) == ReadUvMode(c2, coding);
      p := IntraSub(modes, uvMode);
    } else {
      ghost var c1 := decoder.State();
      var uvMode := DecodeTree(decoder, UV_MODE_TREE, coding.uv);
      assert (uvMode, decoder.State()) == ReadUvMode(c1, coding);
      p := IntraWhole(yMode, uvMode);
    }
  }

  method DecodeSubModes(decoder: BoolDecoder, coding: Coding, n: Neighbours) returns (modes: seq<nat>)
    requires decoder.Valid()
    modifies decoder
    ensures decoder.Valid() && (modes, decoder.State()) == ReadSubModes(old(decoder.State()), coding, n, 16)
  {
    hide Next, Walk, HasLeaf, IsTree, SubProbsAt, WellFormed;
    modes := [];
    for i := 0 to 16
      invariant decoder.Valid() && |modes| == i
      invariant (modes, decoder.State()) == ReadSubModes(old(decoder.State()), coding, n, i)
    {
      ghost var c := decoder.State();
      var mode := DecodeTree(decoder, B_MODE_TREE, SubProbsAt(coding, modes, n, i));
      assert (mode, decoder.State()) == ReadSubMode(c, SubProbsAt(coding, modes, n, i));
      modes := modes + [mode];
    }
  }
}
