/** The macroblock headers that fill the rest of the first partition, in raster order
    (src/encoder/serializer.cc, src/decoder/macroblock.cc, src/util/2d.hh). */
module MacroblockHeaders {
  import opened Wrappers
  import opened Grids
  import opened BoolCoding
  import opened BoolEncoding
  import opened BoolDecoding
  import opened TreeCoder
  import opened CodingTrees
  import opened MotionVectors
  import opened Modes
  import opened IntraModes
  import opened InterModes
  import opened InterModeCoder

  type SegmentProbs = p: seq<Prob> | |p| == 3 witness [255, 255, 255]

  datatype FrameKind =
    | KeyFrame(subModeProbs: (nat, nat) -> SubModeProbs)
    | InterFrame(inter: InterParams, yModeProbs: YModeProbs, uvModeProbs: UvModeProbs)
  {
    function IntraCoding(): Coding {
      match this
      case KeyFrame(probs) => KeyCoding(probs)
      case InterFrame(_, y, uv) => InterFrameCoding(y, uv)
    }
  }

  /** What the frame header and the probability tables contribute to the macroblock headers. */
  datatype FrameParams = FrameParams(
    updateSegmentationMap: bool, segmentProbs: SegmentProbs, probSkipFalse: Option<Prob>, kind: FrameKind)

  /** Key frames have no inter macroblocks. */
  predicate Belongs(f: FrameParams, mb: Macroblock) {
    f.kind.KeyFrame? ==> !mb.prediction.InterCoded()
  }

  // ----- One macroblock -----

  function SegmentSymbols(f: FrameParams, id: Option<SegmentId>): seq<Symbol> {
    SegmentIdTree();
    if id.Some? then LeafPath(SEGMENT_ID_TREE, f.segmentProbs, id.value) else []
  }

  function SkipSymbols(f: FrameParams, skip: Option<bool>): seq<Symbol> {
    if skip.Some? then [Symbol(skip.value, f.probSkipFalse.GetOr(0))] else []
  }

  function PredictionSymbols(f: FrameParams, p: Prediction, n: Neighbours, at: Place): seq<Symbol>
    requires f.kind.KeyFrame? ==> !p.InterCoded()
  {
    match f.kind
    case KeyFrame(_) => IntraSymbols(f.kind.IntraCoding(), p, n)
    case InterFrame(h, _, _) =>
      [Symbol(p.InterCoded(), h.probInter)]
      + if p.InterCoded() then InterSymbols(h, p, n, at) else IntraSymbols(f.kind.IntraCoding(), p, n)
  }

  function MacroblockSymbols(f: FrameParams, mb: Macroblock, n: Neighbours, at: Place): seq<Symbol>
    requires Belongs(f, mb)
  {
    SegmentSymbols(f, mb.segmentIdUpdate) + SkipSymbols(f, mb.skipCoeff) + PredictionSymbols(f, mb.prediction, n, at)
  }

  /** The optional fields are there when the frame header says so, and vectors agree with modes. */
  predicate MacroblockAgrees(f: FrameParams, mb: Macroblock, n: Neighbours, at: Place)
    requires Belongs(f, mb)
  {
    && (mb.segmentIdUpdate.Some? <==> f.updateSegmentationMap)
    && (mb.skipCoeff.Some? <==> f.probSkipFalse.Some?)
    && (mb.prediction.InterCoded() ==> Agrees(f.kind.inter, mb.prediction, n, at))
  }

  function ReadSegment(c: Core, f: FrameParams): (Option<SegmentId>, Core) {
    SegmentIdTree();
    if f.updateSegmentationMap then
      WalkInvertsPath(c, SEGMENT_ID_TREE, f.segmentProbs, 0);
      var (id, c1) := Walk(c, SEGMENT_ID_TREE, f.segmentProbs);
      (Some(id), c1)
    else (None, c)
  }

  function ReadSkip(c: Core, f: FrameParams): (Option<bool>, Core) {
    if f.probSkipFalse.Some? then
      var (skip, c1) := Next(c, f.probSkipFalse.value);
      (Some(skip), c1)
    else (None, c)
  }

  function ReadPrediction(c: Core, f: FrameParams, n: Neighbours, at: Place): (r: (Prediction, Core))
    ensures f.kind.KeyFrame? ==> !r.0.InterCoded()
  {
    match f.kind
    case KeyFrame(_) => ReadIntra(c, f.kind.IntraCoding(), n)
    case InterFrame(h, _, _) =>
      var (inter, c1) := Next(c, h.probInter);
      if inter then ReadInter(c1, h, n, at) else ReadIntra(c1, f.kind.IntraCoding(), n)
  }

  function ReadMacroblock(c: Core, f: FrameParams, n: Neighbours, at: Place): (r: (Macroblock, Core))
    ensures Belongs(f, r.0)
  {
    var (segment, c1) := ReadSegment(c, f);
    var (skip, c2) := ReadSkip(c1, f);
    var (prediction, c3) := ReadPrediction(c2, f, n, at);
    (Macroblock(segment, skip, prediction), c3)
  }

  lemma SegmentRoundTrip(c: Core, f: FrameParams, id: Option<SegmentId>)
    requires Serves(c, SegmentSymbols(f, id))
    ensures ReadSegment(c, f).0 == id <==> (id.Some? <==> f.updateSegmentationMap)
    ensures ReadSegment(c, f).0 == id ==> ReadSegment(c, f).1 == After(c, SegmentSymbols(f, id))
  {
    hide Next, Serves, After, LeafPath, Walk, HasLeaf, IsTree;
    SegmentIdTree();
    ServesNone(c);
    if id.Some? { WalkInvertsPath(c, SEGMENT_ID_TREE, f.segmentProbs, id.value); }
  }

  lemma SkipRoundTrip(c: Core, f: FrameParams, skip: Option<bool>)
    requires Serves(c, SkipSymbols(f, skip))
    ensures ReadSkip(c, f).0 == skip <==> (skip.Some? <==> f.probSkipFalse.Some?)
    ensures ReadSkip(c, f).0 == skip ==> ReadSkip(c, f).1 == After(c, SkipSymbols(f, skip))
  {
    hide Next, Serves, After;
    ServesNone(c);
    if skip.Some? { ServesOne(c, Symbol(skip.value, f.probSkipFalse.GetOr(0))); }
  }

  lemma PredictionRoundTrip(c: Core, f: FrameParams, p: Prediction, n: Neighbours, at: Place)
    requires (f.kind.KeyFrame? ==> !p.InterCoded()) && Serves(c, PredictionSymbols(f, p, n, at))
    ensures ReadPrediction(c, f, n, at).0 == p <==> (p.InterCoded() ==> Agrees(f.kind.inter, p, n, at))
    ensures ReadPrediction(c, f, n, at).0 == p ==>
              ReadPrediction(c, f, n, at).1 == After(c, PredictionSymbols(f, p, n, at))
  {
    hide Next, Serves, After, IntraSymbols, ReadIntra, InterSymbols, ReadInter, Agrees;
    match f.kind
    case KeyFrame(_) => IntraRoundTrip(c, f.kind.IntraCoding(), p, n);
    case InterFrame(h, _, _) =>
      var flag := Symbol(p.InterCoded(), h.probInter);
      ServesOne(c, flag);
      if p.InterCoded() {
        ServesAppend(c, [flag], InterSymbols(h, p, n, at));
        InterRoundTrip(After(c, [flag]), h, p, n, at);
      } else {
        ServesAppend(c, [flag], IntraSymbols(f.kind.IntraCoding(), p, n));
        IntraRoundTrip(After(c, [flag]), f.kind.IntraCoding(), p, n);
      }
  }

  lemma MacroblockRoundTrip(c: Core, f: FrameParams, mb: Macroblock, n: Neighbours, at: Place)
    requires Belongs(f, mb) && Serves(c, MacroblockSymbols(f, mb, n, at))
    ensures ReadMacroblock(c, f, n, at).0 == mb <==> MacroblockAgrees(f, mb, n, at)
    ensures MacroblockAgrees(f, mb, n, at) ==>
              ReadMacroblock(c, f, n, at).1 == After(c, MacroblockSymbols(f, mb, n, at))
  {
    hide Next, Serves, After, SegmentSymbols, SkipSymbols, PredictionSymbols, ReadSegment, ReadSkip, ReadPrediction, Agrees;
    var a, b, d := SegmentSymbols(f, mb.segmentIdUpdate), SkipSymbols(f, mb.skipCoeff), PredictionSymbols(f, mb.prediction, n, at);
    ServesAppend(c, a + b, d);
    ServesAppend(c, a, b);
    SegmentRoundTrip(c, f, mb.segmentIdUpdate);
    SkipRoundTrip(After(c, a), f, mb.skipCoeff);
    PredictionRoundTrip(After(c, a + b), f, mb.prediction, n, at);
  }

  // ----- Rows -----

  /** The row above (empty for the first row) and the place of a row in the frame. */
  datatype RawRowContext = RowContext(above: seq<Macroblock>, row: nat, width: nat, height: nat) {
    function PlaceAt(column: nat): Place
      requires column < width && row < height
    {
      Place(column, row, width, height)
    }
  }

  type RowContext = x: RawRowContext | x.row < x.height && (x.above == [] || |x.above| == x.width)
    witness RowContext([], 0, 0, 1)

  function NeighboursAt(x: RowContext, row: seq<Macroblock>, column: nat): Neighbours
    requires column < x.width && column <= |row|
  {
    Neighbours(
      if x.above == [] then None else Some(x.above[column].prediction),
      if column == 0 then None else Some(row[column - 1].prediction),
      if x.above == [] || column == 0 then None else Some(x.above[column - 1].prediction))
  }

  type Row = seq<Macroblock>

  predicate RowBelongs(f: FrameParams, row: Row) {
    forall i :: 0 <= i < |row| ==> Belongs(f, row[i])
  }

  /** The first n macroblocks of a row. */
  function RowSymbols(f: FrameParams, x: RowContext, row: Row, n: nat): seq<Symbol>
    requires n <= |row| <= x.width && RowBelongs(f, row)
  {
    if n == 0 then []
    else
      RowSymbols(f, x, row, n - 1) + MacroblockSymbols(f, row[n - 1], NeighboursAt(x, row, n - 1), x.PlaceAt(n - 1))
  }

  predicate RowAgrees(f: FrameParams, x: RowContext, row: Row, n: nat)
    requires n <= |row| <= x.width && RowBelongs(f, row)
  {
    forall i :: 0 <= i < n ==> MacroblockAgrees(f, row[i], NeighboursAt(x, row, i), x.PlaceAt(i))
  }

  function ReadRow(c: Core, f: FrameParams, x: RowContext, n: nat): (r: (Row, Core))
    requires n <= x.width
    ensures |r.0| == n && RowBelongs(f, r.0)
  {
    if n == 0 then ([], c)
    else
      var (row, c1) := ReadRow(c, f, x, n - 1);
      var (mb, c2) := ReadMacroblock(c1, f, NeighboursAt(x, row, n - 1), x.PlaceAt(n - 1));
      (row + [mb], c2)
  }

  lemma NeighboursFromPrefix(x: RowContext, row: Row, column: nat)
    requires column < x.width && column <= |row|
    ensures NeighboursAt(x, row[..column], column) == NeighboursAt(x, row, column)
  {}

  lemma {:induction false} RowRoundTrip(c: Core, f: FrameParams, x: RowContext, row: Row, n: nat)
    requires n <= |row| <= x.width && RowBelongs(f, row)
    requires Serves(c, RowSymbols(f, x, row, n))
    ensures ReadRow(c, f, x, n).0 == row[..n] <==> RowAgrees(f, x, row, n)
    ensures RowAgrees(f, x, row, n) ==> ReadRow(c, f, x, n).1 == After(c, RowSymbols(f, x, row, n))
  {
    hide Next, Serves, After, MacroblockSymbols, ReadMacroblock, MacroblockAgrees, NeighboursAt;
    if n == 0 {
      ServesNone(c);
    } else {
      var n0, at := NeighboursAt(x, row, n - 1), x.PlaceAt(n - 1);
      var head := RowSymbols(f, x, row, n - 1);
      ServesAppend(c, head, MacroblockSymbols(f, row[n - 1], n0, at));
      RowRoundTrip(c, f, x, row, n - 1);
      var (init, c1) := ReadRow(c, f, x, n - 1);
      SplitLast(row, init, ReadMacroblock(c1, f, NeighboursAt(x, init, n - 1), at).0, n);
      if RowAgrees(f, x, row, n - 1) {
        NeighboursFromPrefix(x, row, n - 1);
        MacroblockRoundTrip(c1, f, row[n - 1], n0, at);
      }
    }
  }

  // ----- The grid -----

  type Grid = seq<Row>

  function AboveRow(grid: Grid, row: nat): Row
    requires row <= |grid|
  {
    if row == 0 then [] else grid[row - 1]
  }

  predicate GridBelongs(f: FrameParams, grid: Grid) {
    forall r :: 0 <= r < |grid| ==> RowBelongs(f, grid[r])
  }

  function ContextOf(grid: Grid, row: nat, width: nat, height: nat): (x: RowContext)
    requires row <= |grid| && row < height && IsGrid(grid, width)
    ensures x.width == width && x.row == row && x.height == height
  {
    RowContext(AboveRow(grid, row), row, width, height)
  }

  function GridSymbols(f: FrameParams, grid: Grid, width: nat, n: nat): seq<Symbol>
    requires n <= |grid| && IsGrid(grid, width) && GridBelongs(f, grid)
  {
    if n == 0 then []
    else
      GridSymbols(f, grid, width, n - 1)
      + RowSymbols(f, ContextOf(grid, n - 1, width, |grid|), grid[n - 1], width)
  }

  predicate GridAgrees(f: FrameParams, grid: Grid, width: nat, n: nat)
    requires n <= |grid| && IsGrid(grid, width) && GridBelongs(f, grid)
  {
    forall r :: 0 <= r < n ==> RowAgrees(f, ContextOf(grid, r, width, |grid|), grid[r], width)
  }

  function ReadGrid(c: Core, f: FrameParams, width: nat, height: nat, n: nat): (r: (Grid, Core))
    requires n <= height
    ensures |r.0| == n && IsGrid(r.0, width) && GridBelongs(f, r.0)
  {
    if n == 0 then ([], c)
    else
      var (grid, c1) := ReadGrid(c, f, width, height, n - 1);
      var (row, c2) := ReadRow(c1, f, ContextOf(grid, n - 1, width, height), width);
      (grid + [row], c2)
  }

  lemma ContextFromPrefix(grid: Grid, row: nat, width: nat, height: nat)
    requires row <= |grid| && row < height && IsGrid(grid, width)
    ensures ContextOf(grid[..row], row, width, height) == ContextOf(grid, row, width, height)
  {}

  /** Round trip of the macroblock headers of a whole frame, exactly: given what the printer emits, the
      parser returns the same modes, references, partitions and vectors everywhere if and only if the
      vectors agree with the modes and the optional fields are there when the frame header says so. */
  lemma {:induction false} GridRoundTrip(c: Core, f: FrameParams, grid: Grid, width: nat, n: nat)
    requires n <= |grid| && IsGrid(grid, width) && GridBelongs(f, grid)
    requires Serves(c, GridSymbols(f, grid, width, n))
    ensures ReadGrid(c, f, width, |grid|, n).0 == grid[..n] <==> GridAgrees(f, grid, width, n)
    ensures GridAgrees(f, grid, width, n) ==>
              ReadGrid(c, f, width, |grid|, n).1 == After(c, GridSymbols(f, grid, width, n))
  {
    hide Next, Serves, After, RowSymbols, ReadRow, RowAgrees, ContextOf, RowBelongs;
    if n == 0 {
      ServesNone(c);
    } else {
      var x := ContextOf(grid, n - 1, width, |grid|);
      var head := GridSymbols(f, grid, width, n - 1);
      ServesAppend(c, head, RowSymbols(f, x, grid[n - 1], width));
      GridRoundTrip(c, f, grid, width, n - 1);
      var (init, c1) := ReadGrid(c, f, width, |grid|, n - 1);
      var last := ReadRow(c1, f, ContextOf(init, n - 1, width, |grid|), width).0;
      SplitLast(grid, init, last, n);
      if GridAgrees(f, grid, width, n - 1) {
        ContextFromPrefix(grid, n - 1, width, |grid|);
        RowRoundTrip(c1, f, x, grid[n - 1], width);
        assert grid[n - 1][..width] == grid[n - 1];
      }
    }
  }

  // ----- Contexts, seen in the grid of subblocks that spans the frame -----

  /** Subblock (x, y) of the grid of luma subblocks; outside the frame, modes count as flat and vectors as zero. */
  function SubModeAt(grid: Grid, width: nat, x: int, y: int): nat
    requires IsGrid(grid, width) && x < 4 * width && y < 4 * |grid|
  {
    if x < 0 || y < 0 then B_DC_PRED else grid[y / 4][x / 4].prediction.SubMode(y % 4 * 4 + x % 4)
  }

  function SubVectorAt(grid: Grid, width: nat, x: int, y: int): MotionVector
    requires IsGrid(grid, width) && x < 4 * width && y < 4 * |grid|
  {
    if x < 0 || y < 0 then ZERO_MV else grid[y / 4][x / 4].prediction.SubVector(y % 4 * 4 + x % 4)
  }

  function NeighboursIn(grid: Grid, width: nat, row: nat, column: nat): Neighbours
    requires IsGrid(grid, width) && row < |grid| && column < width
  {
    NeighboursAt(ContextOf(grid, row, width, |grid|), grid[row], column)
  }

  /** The macroblocks that are consulted are the ones above, to the left, and above to the left, where they exist. */
  lemma NeighboursAround(grid: Grid, width: nat, row: nat, column: nat)
    requires IsGrid(grid, width) && row < |grid| && column < width
    ensures var n := NeighboursIn(grid, width, row, column);
            && n.above == (if row > 0 then Some(grid[row - 1][column].prediction) else None)
            && n.left == (if column > 0 then Some(grid[row][column - 1].prediction) else None)
            && n.aboveLeft == (if row > 0 && column > 0 then Some(grid[row - 1][column - 1].prediction) else None)
  {}

  lemma InSubblockGrid(k: nat, j: nat)
    requires j < 4
    ensures (4 * k + j) / 4 == k && (4 * k + j) % 4 == j
    ensures j > 0 ==> (4 * k + j - 1) / 4 == k && (4 * k + j - 1) % 4 == j - 1
    ensures j == 0 && k > 0 ==> (4 * k + j - 1) / 4 == k - 1 && (4 * k + j - 1) % 4 == 3
  {}

  /** The mode of a subblock is coded in the context of the modes above it and to its left in that grid. */
  lemma SubModeNeighbours(grid: Grid, width: nat, row: nat, column: nat, i: nat)
    requires IsGrid(grid, width) && row < |grid| && column < width && i < 16
    requires grid[row][column].prediction.IntraSub?
    ensures var x, y := 4 * column + i % 4, 4 * row + i / 4;
            var n, modes := NeighboursIn(grid, width, row, column), grid[row][column].prediction.intraModes;
            && AboveMode(modes, n.above, i) == SubModeAt(grid, width, x, y - 1)
            && LeftMode(modes, n.left, i) == SubModeAt(grid, width, x - 1, y)
  {
    hide ContextOf, NeighboursAt;
    NeighboursAround(grid, width, row, column);
    InSubblockGrid(column, i % 4);
    InSubblockGrid(row, i / 4);
  }

  /** The same for the vectors of a split macroblock. */
  lemma SubVectorNeighbours(grid: Grid, width: nat, row: nat, column: nat, i: nat)
    requires IsGrid(grid, width) && row < |grid| && column < width && i < 16
    requires grid[row][column].prediction.InterSplit?
    ensures var x, y := 4 * column + i % 4, 4 * row + i / 4;
            var n, vectors := NeighboursIn(grid, width, row, column), grid[row][column].prediction.vectors;
            && AboveVector(vectors, n.above, i) == SubVectorAt(grid, width, x, y - 1)
            && LeftVector(vectors, n.left, i) == SubVectorAt(grid, width, x - 1, y)
  {
    hide ContextOf, NeighboursAt;
    NeighboursAround(grid, width, row, column);
    InSubblockGrid(column, i % 4);
    InSubblockGrid(row, i / 4);
  }

  // ----- The printer and the parser -----

  /** Fails if a skip flag is set although the frame header has no probability for it. */
  method SerializeMacroblock(encoder: BoolEncoder, f: FrameParams, mb: Macroblock, n: Neighbours, at: Place)
    returns (ok: bool)
    requires encoder.Valid() && Belongs(f, mb)
    modifies encoder
    ensures encoder.Valid() && ok == (mb.skipCoeff.Some? ==> f.probSkipFalse.Some?)
    ensures ok ==> encoder.log == old(encoder.log) + MacroblockSymbols(f, mb, n, at)
  {
    hide Holds, Encoded, LeafPath, HasLeaf, IsTree, IntraSymbols, InterSymbols;
    SegmentIdTree();
    if mb.segmentIdUpdate.Some? {
      EncodeTree(encoder, SEGMENT_ID_TREE, f.segmentProbs, mb.segmentIdUpdate.value);
    }
    if mb.skipCoeff.Some? && f.probSkipFalse.None? {
      return false;
    }
    if mb.skipCoeff.Some? {
      encoder.Put(mb.skipCoeff.value, f.probSkipFalse.GetOr(0));
    }
    EncodePrediction(encoder, f, mb.prediction, n, at);
    ok := true;
  }

  method EncodePrediction(encoder: BoolEncoder, f: FrameParams, p: Prediction, n: Neighbours, at: Place)
    requires encoder.Valid() && (f.kind.KeyFrame? ==> !p.InterCoded())
    modifies encoder
    ensures encoder.Valid() && encoder.log == old(encoder.log) + PredictionSymbols(f, p, n, at)
  {
    hide Holds, Encoded, IntraSymbols, InterSymbols;
    if f.kind.InterFrame? {
      encoder.Put(p.InterCoded(), f.kind.inter.probInter);
    }
    if p.InterCoded() {
      EncodeInter(encoder, f.kind.inter, p, n, at);
    } else {
      EncodeIntra(encoder, f.kind.IntraCoding(), p, n);
    }
  }

  method ParseMacroblock(decoder: BoolDecoder, f: FrameParams, n: Neighbours, at: Place) returns (mb: Macroblock)
    requires decoder.Valid()
    modifies decoder
    ensures decoder.Valid() && (mb, decoder.State()) == ReadMacroblock(old(decoder.State()), f, n, at)
  {
    hide Next, WellFormed, Walk, HasLeaf, IsTree, ReadIntra, ReadInter, InterFrameCoding, KeyCoding;
    ghost var c := decoder.State();
    var segment: Option<SegmentId> := None;
    if f.updateSegmentationMap {
      var id := DecodeTree(decoder, SEGMENT_ID_TREE, f.segmentProbs);
      WalkInvertsPathToSegment(c, f);
      segment := Some(id);
    }
    assert (segment, decoder.State()) == ReadSegment(c, f);
    var skip: Option<bool> := None;
    if f.probSkipFalse.Some? {
      var b := decoder.Get(f.probSkipFalse.value);
      skip := Some(b);
    }
    var inter := false;
    if f.kind.InterFrame? {
      inter := decoder.Get(f.kind.inter.probInter);
    }
    var p: Prediction;
    if inter {
      p := DecodeInter(decoder, f.kind.inter, n, at);
    } else {
      p := DecodeIntra(decoder, f.kind.IntraCoding(), n);
    }
    mb := Macroblock(segment, skip, p);
  }

  lemma WalkInvertsPathToSegment(c: Core, f: FrameParams)
    requires f.updateSegmentationMap
    ensures Walk(c, SEGMENT_ID_TREE, f.segmentProbs).0 < 4
  {
    hide Walk;
    SegmentIdTree();
    WalkInvertsPath(c, SEGMENT_ID_TREE, f.segmentProbs, 0);
  }

  /** Serializes the macroblocks one by one, or fails at the first that cannot be. */
  method SerializeGrid(encoder: BoolEncoder, f: FrameParams, grid: Grid, width: nat) returns (ok: bool)
    requires encoder.Valid() && IsGrid(grid, width) && GridBelongs(f, grid)
    modifies encoder
    ensures encoder.Valid()
    ensures ok == forall r, i :: 0 <= r < |grid| && 0 <= i < width ==> (grid[r][i].skipCoeff.Some? ==> f.probSkipFalse.Some?)
    ensures ok ==> encoder.log == old(encoder.log) + GridSymbols(f, grid, width, |grid|)
  {
    hide Holds, Encoded, RowSymbols, MacroblockSymbols, NeighboursAt;
    for row := 0 to |grid|
      invariant encoder.Valid() && encoder.log == old(encoder.log) + GridSymbols(f, grid, width, row)
      invariant forall r, i :: 0 <= r < row && 0 <= i < width ==> (grid[r][i].skipCoeff.Some? ==> f.probSkipFalse.Some?)
    {
      ok := SerializeRow(encoder, f, ContextOf(grid, row, width, |grid|), grid[row]);
      if !ok { return; }
    }
    ok := true;
  }

  method SerializeRow(encoder: BoolEncoder, f: FrameParams, x: RowContext, row: Row) returns (ok: bool)
    requires encoder.Valid() && |row| == x.width && RowBelongs(f, row)
    modifies encoder
    ensures encoder.Valid()
    ensures ok == forall i :: 0 <= i < |row| ==> (row[i].skipCoeff.Some? ==> f.probSkipFalse.Some?)
    ensures ok ==> encoder.log == old(encoder.log) + RowSymbols(f, x, row, |row|)
  {
    hide Holds, Encoded, MacroblockSymbols, NeighboursAt;
    for column := 0 to |row|
      invariant encoder.Valid() && encoder.log == old(encoder.log) + RowSymbols(f, x, row, column)
      invariant forall i :: 0 <= i < column ==> (row[i].skipCoeff.Some? ==> f.probSkipFalse.Some?)
    {
      ok := SerializeMacroblock(encoder, f, row[column], NeighboursAt(x, row, column), x.PlaceAt(column));
      if !ok { return; }
    }
    ok := true;
  }

  method ParseGrid(decoder: BoolDecoder, f: FrameParams, width: nat, height: nat) returns (grid: Grid)
    requires decoder.Valid()
    modifies decoder
    ensures decoder.Valid() && (grid, decoder.State()) == ReadGrid(old(decoder.State()), f, width, height, height)
  {
    hide Next, WellFormed, ReadRow, ContextOf;
    grid := [];
    for row := 0 to height
      invariant decoder.Valid() && |grid| == row && IsGrid(grid, width)
      invariant (grid, decoder.State()) == ReadGrid(old(decoder.State()), f, width, height, row)
    {
      var line := ParseRow(decoder, f, ContextOf(grid, row, width, height));
      grid := grid + [line];
    }
  }

  method ParseRow(decoder: BoolDecoder, f: FrameParams, x: RowContext) returns (row: Row)
    requires decoder.Valid()
    modifies decoder
    ensures decoder.Valid() && (row, decoder.State()) == ReadRow(old(decoder.State()), f, x, x.width)
  {
    hide Next, WellFormed, ReadMacroblock, NeighboursAt;
    row := [];
    for column := 0 to x.width
      invariant decoder.Valid() && |row| == column
      invariant (row, decoder.State()) == ReadRow(old(decoder.State()), f, x, column)
    {
      var mb := ParseMacroblock(decoder, f, NeighboursAt(x, row, column), x.PlaceAt(column));
      row := row + [mb];
    }
  }
}
