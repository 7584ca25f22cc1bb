/** Whole frames: header, macroblock headers and tokens, put into a container and parsed back
    (src/encoder/serializer.cc, src/decoder/decoder_state.hh, src/decoder/frame.cc). */
module FrameCodec {
  import opened Wrappers
  import opened Grids
  import opened BoolCoding
  import opened BoolEncoding
  import opened BoolDecoding
  import opened BoolRoundTrip
  import opened HeaderFields
  import opened FrameHeaders
  import opened HeaderCoder
  import opened ProbabilityTables
  import opened Container
  import opened TokenBlocks
  import opened MacroblockTokens
  import opened IntraModes
  import opened InterModes
  import Modes
  import MH = MacroblockHeaders
  import FT = FrameTokens
  import FrameTokenCoder

  /** Tables that never change: update probabilities, key frame subblock modes, initial probabilities. */
  datatype Fixed = Fixed(updates: UpdateTables, kfSubModeProbs: (nat, nat) -> SubModeProbs, initial: Tables)

  datatype RawDims = Dims(width: nat, height: nat)
  type Dims = d: RawDims | 0 < d.width < 0x1_0000 && 0 < d.height < 0x1_0000 witness Dims(1, 1)

  /** The number of macroblocks that cover a number of pixels. */
  function MacroblockDimension(n: nat): nat {
    (n + 15) / 16
  }

  datatype Header = Key(key: KeyFrameHeader) | Inter(inter: InterFrameHeader)

  datatype Frame = Frame(show: bool, header: Header, macroblocks: MH.Grid, residue: FT.ResidueGrid)

  // ----- What the header says -----

  function Common(h: Header): CommonHeader {
    if h.Key? then h.key.common else h.inter.common
  }

  function SkipProb(h: Header): Option<Prob> {
    var v := if h.Key? then h.key.probSkipFalse else h.inter.probSkipFalse;
    if v.Some? then Some(AsProb(v.value)) else None
  }

  function SegmentProb(v: Value): Prob {
    if v.Some? then AsProb(v.value) else 255
  }

  /** A probability that the map's header leaves out is 255. */
  lemma SegmentProbAt(h: UpdateSegmentation, i: nat)
    requires h.mbSegmentationMap.Some? && i < 3
    ensures var v := h.mbSegmentationMap.value[i];
            SegmentProbsOf(Some(h))[i] == if v.Some? then AsProb(v.value) else 255
  {}

  function SegmentProbsOf(h: Option<UpdateSegmentation>): MH.SegmentProbs {
    if h.Some? && h.value.mbSegmentationMap.Some? then
      var m := h.value.mbSegmentationMap.value;
      [SegmentProb(m[0]), SegmentProb(m[1]), SegmentProb(m[2])]
    else [0, 0, 0]
  }

  /** 1 << log2, for the four values that two bits hold. */
  function DctPartitionCount(h: Header): FT.PartitionCount {
    var log2 := Common(h).log2NumberOfDctPartitions;
    if log2 <= 0 then 1 else if log2 == 1 then 2 else if log2 == 2 then 4 else 8
  }

  /** Two to the power that the header holds. */
  lemma CountIsPower(h: Header)
    requires 0 <= Common(h).log2NumberOfDctPartitions <= 3
    ensures DctPartitionCount(h) == Shl(1, Common(h).log2NumberOfDctPartitions)
  {
    ShlTable(1);
    ShlZero(1);
  }

  /** As many macroblocks as are needed, and no more. */
  lemma MacroblocksCover(n: nat)
    ensures 16 * (MacroblockDimension(n) - 1) < n <= 16 * MacroblockDimension(n)
  {}

  function Kind(fixed: Fixed, h: Header, t: Tables): MH.FrameKind {
    match h
    case Key(_) => MH.KeyFrame(fixed.kfSubModeProbs)
    case Inter(i) =>
      var r, p := i.references, i.probs;
      MH.InterFrame(
        InterParams(AsProb(p.probInter), AsProb(p.probReferencesLast), AsProb(p.probReferencesGolden),
                    r.signBiasGolden, r.signBiasAlternate, MvProbsOf(t.mv)),
        t.yMode, t.uvMode)
  }

  function Params(fixed: Fixed, h: Header, t: Tables): MH.FrameParams {
    var s := Common(h).updateSegmentation;
    MH.FrameParams(s.Some? && s.value.updateMbSegmentationMap, SegmentProbsOf(s), SkipProb(h), Kind(fixed, h, t))
  }

  /** The decisions that select a reference, with the probabilities that the header gives them. */
  lemma ReferenceDecisions(fixed: Fixed, h: Header, t: Tables)
    requires h.Inter?
    ensures var f, p := Params(fixed, h, t).kind.inter, h.inter.probs;
            && ReferenceSymbols(f, Modes.LAST_FRAME) == [Symbol(false, AsProb(p.probReferencesLast))]
            && ReferenceSymbols(f, Modes.GOLDEN_FRAME)
               == [Symbol(true, AsProb(p.probReferencesLast)), Symbol(false, AsProb(p.probReferencesGolden))]
            && ReferenceSymbols(f, Modes.ALTREF_FRAME)
               == [Symbol(true, AsProb(p.probReferencesLast)), Symbol(true, AsProb(p.probReferencesGolden))]
            && f.probInter == AsProb(p.probInter)
            && (Flipped(f, Modes.GOLDEN_FRAME) <==> h.inter.references.signBiasGolden)
            && (Flipped(f, Modes.ALTREF_FRAME) <==> h.inter.references.signBiasAlternate)
  {}

  predicate HeaderTyped(h: Header) {
    h.Inter? ==> ProbsTyped(h.inter.probs)
  }

  /** The tables this frame is coded with. */
  function FrameTables(t: Tables, h: Header): Tables
    requires HeaderTyped(h)
  {
    match h
    case Key(k) => CoeffProbUpdate(t, k.tokenProbUpdate)
    case Inter(i) => Update(t, i)
  }

  function ShapeOf(mb: Modes.Macroblock): Shape {
    Shape(mb.prediction.Y2Coded(), mb.skipCoeff.GetOr(false))
  }

  function ShapeRowOf(row: MH.Row): (s: FT.ShapeRow)
    ensures |s| == |row|
  {
    seq(|row|, i requires 0 <= i < |row| => ShapeOf(row[i]))
  }

  function ShapesOf(grid: MH.Grid, width: nat): (s: FT.ShapeGrid)
    requires IsGrid(grid, width)
    ensures |s| == |grid| && IsGrid(s, width)
  {
    seq(|grid|, r requires 0 <= r < |grid| => ShapeRowOf(grid[r]))
  }

  /** What the types of a frame guarantee: grids of the right size, no inter macroblocks in key frames, and
      Y2 blocks where the prediction modes call for them. */
  predicate FrameTyped(frame: Frame, d: Dims) {
    && HeaderTyped(frame.header)
    && |frame.macroblocks| == |frame.residue| == MacroblockDimension(d.height)
    && IsGrid(frame.macroblocks, MacroblockDimension(d.width))
    && IsGrid(frame.residue, MacroblockDimension(d.width))
    && (frame.header.Key? ==> NoInter(frame.macroblocks))
    && FrameTokenCoder.GridMatches(ShapesOf(frame.macroblocks, MacroblockDimension(d.width)), frame.residue)
  }

  predicate NoInter(grid: MH.Grid) {
    forall r, i :: 0 <= r < |grid| && 0 <= i < |grid[r]| ==> !grid[r][i].prediction.InterCoded()
  }

  lemma NoInterBelongs(fixed: Fixed, h: Header, t: Tables, grid: MH.Grid)
    requires h.Key? ==> NoInter(grid)
    ensures MH.GridBelongs(Params(fixed, h, t), grid)
  {}

  // ----- Serialization -----

  function HeaderSymbols(fixed: Fixed, h: Header): seq<Symbol>
    requires HeaderTyped(h)
  {
    match h
    case Key(k) => KeyHeaderSymbols(fixed.updates, k)
    case Inter(i) => InterHeaderSymbols(fixed.updates, i)
  }

  /** What the first partition holds; t is the tables before this frame's updates. */
  function FirstSymbols(fixed: Fixed, d: Dims, t: Tables, frame: Frame): seq<Symbol>
    requires FrameTyped(frame, d)
  {
    var ft := FrameTables(t, frame.header);
    NoInterBelongs(fixed, frame.header, ft, frame.macroblocks);
    HeaderSymbols(fixed, frame.header)
    + MH.GridSymbols(Params(fixed, frame.header, ft), frame.macroblocks, MacroblockDimension(d.width), |frame.macroblocks|)
  }

  function FirstPartition(fixed: Fixed, d: Dims, t: Tables, frame: Frame): Data
    requires FrameTyped(frame, d)
  {
    Finished(FirstSymbols(fixed, d, t, frame))
  }

  /** What DCT partition p holds. */
  function TokenSymbolsOf(d: Dims, t: Tables, frame: Frame, p: nat): seq<Symbol>
    requires FrameTyped(frame, d)
  {
    var w := MacroblockDimension(d.width);
    FT.PartitionTokens(
      CoeffProbsOf(FrameTables(t, frame.header).coeff), ShapesOf(frame.macroblocks, w), frame.residue, w,
      DctPartitionCount(frame.header), p, |frame.residue|)
  }

  function TokenPartitions(d: Dims, t: Tables, frame: Frame): (parts: seq<Data>)
    requires FrameTyped(frame, d)
    ensures |parts| == DctPartitionCount(frame.header)
  {
    seq(DctPartitionCount(frame.header), p requires 0 <= p < DctPartitionCount(frame.header) =>
      Finished(TokenSymbolsOf(d, t, frame, p)))
  }

  function TagOf(frame: Frame): Tag {
    Tag(frame.header.Key?, frame.show, false, false)
  }

  function Serialized(fixed: Fixed, d: Dims, t: Tables, frame: Frame): Data
    requires FrameTyped(frame, d)
  {
    Framed(TagOf(frame), d.width, d.height, FirstPartition(fixed, d, t, frame), TokenPartitions(d, t, frame))
  }

  /** No skip flag without a probability for it. */
  predicate SkipsCoded(grid: MH.Grid, p: Option<Prob>) {
    forall r, i :: 0 <= r < |grid| && 0 <= i < |grid[r]| ==> (grid[r][i].skipCoeff.Some? ==> p.Some?)
  }

  predicate ResidueSerializable(d: Dims, t: Tables, frame: Frame)
    requires FrameTyped(frame, d)
  {
    var w := MacroblockDimension(d.width);
    FT.GridCodable(CoeffProbsOf(FrameTables(t, frame.header).coeff), ShapesOf(frame.macroblocks, w), frame.residue, w)
  }

  /** The frames that the printer does not refuse. */
  predicate Serializable(d: Dims, t: Tables, frame: Frame)
    requires FrameTyped(frame, d)
  {
    && d.width <= MAXIMUM_DIMENSION && d.height <= MAXIMUM_DIMENSION
    && SkipsCoded(frame.macroblocks, SkipProb(frame.header)) && ResidueSerializable(d, t, frame)
  }

  // ----- Parsing -----

  function ReadHeader(c: Core, fixed: Fixed, key: bool): (r: (Option<Header>, Core))
    ensures r.0.Some? ==> HeaderTyped(r.0.value) && r.0.value.Key? == key
  {
    if key then
      var (h, c1) := ReadKeyHeader(c, fixed.updates);
      (if h.Some? then Some(Key(h.value)) else None, c1)
    else
      var (h, c1) := ReadInterHeader(c, fixed.updates);
      (if h.Some? then Some(Inter(h.value)) else None, c1)
  }

  function Decoders(parts: seq<Data>): (cores: seq<Core>)
    ensures |cores| == |parts|
  {
    seq(|parts|, p requires 0 <= p < |parts| => Opened(parts[p]))
  }

  /** The rest of a frame, once its header is known; t is the tables before this frame's updates. */
  function ReadBody(c: Core, fixed: Fixed, d: Dims, t: Tables, show: bool, h: Header, rest: Data): Result<Frame>
    requires HeaderTyped(h)
  {
    var w, height, ft := MacroblockDimension(d.width), MacroblockDimension(d.height), FrameTables(t, h);
    var grid := MH.ReadGrid(c, Params(fixed, h, ft), w, height, height).0;
    var parts := DctPartitions(rest, DctPartitionCount(h));
    if parts.None? then Err(OutOfRange)
    else
      var residue := FT.ReadTokenGrid(Decoders(parts.value), CoeffProbsOf(ft.coeff), ShapesOf(grid, w), w, height).0;
      Ok(Frame(show, h, grid, residue))
  }

  /** The frame a decoder with tables t finds in the data. Key frames start from the initial tables. */
  function ReadFrame(data: Data, fixed: Fixed, d: Dims, t: Tables): Result<Frame> {
    var chunk := ParseFrame(data, d.width, d.height);
    if chunk.Err? then Err(chunk.failure)
    else if chunk.value.experimental then Err(if chunk.value.keyFrame then Invalid else Unsupported)
    else
      var (h, c) := ReadHeader(Opened(chunk.value.first), fixed, chunk.value.keyFrame);
      if h.None? then Err(Unsupported)
      else ReadBody(c, fixed, d, if h.value.Key? then fixed.initial else t, chunk.value.showFrame, h.value, chunk.value.rest)
  }

  // ----- Round trip -----

  predicate HeaderOk(fixed: Fixed, h: Header) {
    match h
    case Key(k) => KeySupported(k) && KeyOk(fixed.updates, k)
    case Inter(i) => !i.common.filterType && InterOk(fixed.updates, i)
  }

  lemma HeaderRoundTrip(c: Core, fixed: Fixed, h: Header)
    requires HeaderTyped(h) && Serves(c, HeaderSymbols(fixed, h))
    ensures ReadHeader(c, fixed, h.Key?).0 == Some(h) <==> HeaderOk(fixed, h)
    ensures HeaderOk(fixed, h) ==> ReadHeader(c, fixed, h.Key?).1 == After(c, HeaderSymbols(fixed, h))
  {
    hide Serves, After, KeyHeaderSymbols, InterHeaderSymbols, KeySupported, KeyOk, InterOk, ProbsTyped, ReadKeyHeader,
      ReadInterHeader;
    match h
    case Key(k) => KeyHeaderRoundTrip(c, fixed.updates, k);
    case Inter(i) => InterHeaderRoundTrip(c, fixed.updates, i);
  }

  predicate ModesOk(fixed: Fixed, d: Dims, t: Tables, frame: Frame)
    requires FrameTyped(frame, d)
  {
    var p := Params(fixed, frame.header, FrameTables(t, frame.header));
    NoInterBelongs(fixed, frame.header, FrameTables(t, frame.header), frame.macroblocks);
    MH.GridAgrees(p, frame.macroblocks, MacroblockDimension(d.width), |frame.macroblocks|)
  }

  predicate ResidueOk(d: Dims, t: Tables, frame: Frame)
    requires FrameTyped(frame, d)
  {
    var w := MacroblockDimension(d.width);
    FT.GridConsistent(
      CoeffProbsOf(FrameTables(t, frame.header).coeff), ShapesOf(frame.macroblocks, w), frame.residue, w)
  }

  /** The header is supported and well formed, vectors agree with modes, and coefficients with flags. */
  predicate FrameOk(fixed: Fixed, d: Dims, t: Tables, frame: Frame)
    requires FrameTyped(frame, d)
  {
    HeaderOk(fixed, frame.header) && ModesOk(fixed, d, t, frame) && ResidueOk(d, t, frame)
  }

  /** The partitions are short enough for their length fields. */
  predicate LengthsFit(fixed: Fixed, d: Dims, t: Tables, frame: Frame)
    requires FrameTyped(frame, d)
  {
    |FirstPartition(fixed, d, t, frame)| < FIRST_LIMIT && PartitionsFit(TokenPartitions(d, t, frame))
  }

  lemma ModesRoundTrip(fixed: Fixed, d: Dims, t: Tables, frame: Frame)
    requires FrameTyped(frame, d) && HeaderOk(fixed, frame.header)
    ensures var (h, c) := ReadHeader(Opened(FirstPartition(fixed, d, t, frame)), fixed, frame.header.Key?);
            && h == Some(frame.header)
            && (MH.ReadGrid(c, Params(fixed, frame.header, FrameTables(t, frame.header)), MacroblockDimension(d.width),
                            MacroblockDimension(d.height), MacroblockDimension(d.height)).0 == frame.macroblocks
                <==> ModesOk(fixed, d, t, frame))
  {
    hide Serves, After, HeaderSymbols, MH.GridSymbols, MH.ReadGrid, ReadHeader, HeaderOk, MH.GridAgrees, Params, FrameTables,
      Finished, MacroblockDimension, NoInter, ShapesOf, FrameTokenCoder.GridMatches, IsGrid, HeaderTyped;
    var ft := FrameTables(t, frame.header);
    var p := Params(fixed, frame.header, ft);
    NoInterBelongs(fixed, frame.header, ft, frame.macroblocks);
    var w, g := MacroblockDimension(d.width), frame.macroblocks;
    var c := Opened(FirstPartition(fixed, d, t, frame));
    EncodeThenDecode(FirstSymbols(fixed, d, t, frame));
    ServesAppend(c, HeaderSymbols(fixed, frame.header), MH.GridSymbols(p, g, w, |g|));
    HeaderRoundTrip(c, fixed, frame.header);
    MH.GridRoundTrip(After(c, HeaderSymbols(fixed, frame.header)), p, g, w, |g|);
    assert g[..|g|] == g;
  }

  lemma ResidueRoundTrip(d: Dims, t: Tables, frame: Frame)
    requires FrameTyped(frame, d) && ResidueSerializable(d, t, frame)
    ensures var w := MacroblockDimension(d.width);
            FT.ReadTokenGrid(Decoders(TokenPartitions(d, t, frame)), CoeffProbsOf(FrameTables(t, frame.header).coeff),
                             ShapesOf(frame.macroblocks, w), w, |frame.residue|).0 == frame.residue
            <==> ResidueOk(d, t, frame)
  {
    hide Serves, FT.PartitionTokens, FT.ReadTokenGrid, FT.GridCodable, FT.GridConsistent, FrameTables, Finished, CoeffProbsOf,
      ShapesOf, MacroblockDimension, IsGrid, NoInter, FrameTokenCoder.GridMatches, HeaderTyped, DctPartitionCount;
    var w, parts := MacroblockDimension(d.width), TokenPartitions(d, t, frame);
    var cores, probs, shapes := Decoders(parts), CoeffProbsOf(FrameTables(t, frame.header).coeff), ShapesOf(frame.macroblocks, w);
    forall p | 0 <= p < |cores|
      ensures Serves(cores[p], FT.PartitionTokens(probs, shapes, frame.residue, w, |cores|, p, |frame.residue|))
    {
      EncodeThenDecode(TokenSymbolsOf(d, t, frame, p));
    }
    FT.TokenGridRoundTrip(cores, probs, shapes, frame.residue, w);
  }

  /** The tables a frame's updates start from: key frames start over. */
  function BaseTables(fixed: Fixed, t: Tables, h: Header): Tables {
    if h.Key? then fixed.initial else t
  }

  lemma ContainerRoundTrip(fixed: Fixed, d: Dims, t: Tables, frame: Frame)
    requires FrameTyped(frame, d) && Serializable(d, t, frame) && LengthsFit(fixed, d, t, frame)
    ensures var first, parts := FirstPartition(fixed, d, t, frame), TokenPartitions(d, t, frame);
            && ParseFrame(Serialized(fixed, d, t, frame), d.width, d.height)
               == Ok(Chunk(frame.header.Key?, frame.show, false, true, first, Partitions(parts)))
            && DctPartitions(Partitions(parts), DctPartitionCount(frame.header)) == Some(parts)
  {
    hide FrameTyped, ResidueSerializable, Partitions, DctPartitions, ParseFrame, Framed, Finished, PartitionsFit, SkipsCoded,
      DctPartitionCount;
    var first, parts := FirstPartition(fixed, d, t, frame), TokenPartitions(d, t, frame);
    FlushIsExact(TokenSymbolsOf(d, t, frame, 0));
    FrameRoundTrip(TagOf(frame), d.width, d.height, first, parts, d.width, d.height);
    PartitionsRoundTrip(parts);
  }

  /** The main result about single frames, exactly: a decoder with the same tables finds the frame again
      in its serialization, whatever its contents, if and only if the header is supported and well formed,
      vectors agree with modes, and flags agree with coefficients. */
  lemma WholeFrameRoundTrip(fixed: Fixed, d: Dims, t: Tables, frame: Frame)
    requires FrameTyped(frame, d)
    requires var b := BaseTables(fixed, t, frame.header);
             Serializable(d, b, frame) && LengthsFit(fixed, d, b, frame)
    ensures var b := BaseTables(fixed, t, frame.header);
            ReadFrame(Serialized(fixed, d, b, frame), fixed, d, t) == Ok(frame) <==> FrameOk(fixed, d, b, frame)
  {
    hide FirstPartition, TokenPartitions, Serialized, LengthsFit, ParseFrame, Partitions, DctPartitions, HeaderOk, ModesOk,
      ResidueOk, Params, FrameTables, MH.ReadGrid, FT.ReadTokenGrid, Decoders, ReadHeader, CoeffProbsOf, ShapesOf,
      MacroblockDimension, IsGrid, NoInter, FrameTokenCoder.GridMatches, ResidueSerializable, SkipsCoded,
      DctPartitionCount;
    var b := BaseTables(fixed, t, frame.header);
    ContainerRoundTrip(fixed, d, b, frame);
    HeaderFromFirst(fixed, d, b, frame);
    if HeaderOk(fixed, frame.header) {
      ModesRoundTrip(fixed, d, b, frame);
      ResidueRoundTrip(d, b, frame);
    }
  }

  lemma HeaderFromFirst(fixed: Fixed, d: Dims, t: Tables, frame: Frame)
    requires FrameTyped(frame, d)
    ensures ReadHeader(Opened(FirstPartition(fixed, d, t, frame)), fixed, frame.header.Key?).0 == Some(frame.header)
            <==> HeaderOk(fixed, frame.header)
  {
    hide Serves, After, HeaderSymbols, MH.GridSymbols, ReadHeader, HeaderOk, Params, FrameTables, Finished, NoInter, ShapesOf,
      FrameTokenCoder.GridMatches, IsGrid, MacroblockDimension, HeaderTyped;
    var ft := FrameTables(t, frame.header);
    NoInterBelongs(fixed, frame.header, ft, frame.macroblocks);
    var w, g, p := MacroblockDimension(d.width), frame.macroblocks, Params(fixed, frame.header, ft);
    var c := Opened(FirstPartition(fixed, d, t, frame));
    EncodeThenDecode(FirstSymbols(fixed, d, t, frame));
    ServesAppend(c, HeaderSymbols(fixed, frame.header), MH.GridSymbols(p, g, w, |g|));
    HeaderRoundTrip(c, fixed, frame.header);
  }
}
