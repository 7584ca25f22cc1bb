/** The loops over all macroblocks of a frame that print and parse the tokens, and the pass that relinks
    the Y2 blocks beforehand (src/encoder/serializer.cc, src/decoder/frame.cc). */
module FrameTokenCoder {
  import opened Wrappers
  import opened Grids
  import opened BoolCoding
  import opened BoolEncoding
  import opened BoolDecoding
  import opened TokenBlocks
  import opened MacroblockTokens
  import opened TokenWriter
  import opened FrameTokens

  // ----- Relinking -----

  /** The row of the nearest macroblock above with a coded Y2 block. */
  function LinkAbove(shapes: ShapeGrid, width: nat, row: nat, column: nat): (link: Option<nat>)
    requires row <= |shapes| && IsGrid(shapes, width) && column < width
    ensures link.Some? ==> link.value < row
  {
    if row == 0 then None
    else if shapes[row - 1][column].y2Coded then Some(row - 1)
    else LinkAbove(shapes, width, row - 1, column)
  }

  /** The column of the nearest macroblock to the left with a coded Y2 block. */
  function LinkLeft(shapes: ShapeRow, column: nat): (link: Option<nat>)
    requires column <= |shapes|
    ensures link.Some? ==> link.value < column
  {
    if column == 0 then None
    else if shapes[column - 1].y2Coded then Some(column - 1)
    else LinkLeft(shapes, column - 1)
  }

  /** A link leads to a coded block, with none in between; no link means none at all. */
  lemma {:induction false} LinkIsNearest(shapes: ShapeGrid, width: nat, row: nat, column: nat)
    requires row <= |shapes| && IsGrid(shapes, width) && column < width
    ensures var link := LinkAbove(shapes, width, row, column);
            && (link.Some? ==> shapes[link.value][column].y2Coded)
            && (forall r :: (if link.Some? then link.value + 1 else 0) <= r < row ==> !shapes[r][column].y2Coded)
  {
    if row > 0 && !shapes[row - 1][column].y2Coded {
      LinkIsNearest(shapes, width, row - 1, column);
    }
  }

  type LinkRow = seq<Option<nat>>

  ghost predicate LinksOfRow(shapes: ShapeGrid, width: nat, row: nat, above: LinkRow, left: LinkRow)
    requires row < |shapes| && IsGrid(shapes, width)
  {
    |above| == |left| == width
    && forall column :: 0 <= column < width ==>
         above[column] == LinkAbove(shapes, width, row, column) && left[column] == LinkLeft(shapes[row], column)
  }

  /** What the coders of a row's Y2 blocks have been told so far. */
  ghost predicate LinkedSoFar(shapes: ShapeGrid, width: nat, row: nat, column: nat, aboveCoded: seq<Option<nat>>)
    requires row < |shapes| && IsGrid(shapes, width) && column <= width
  {
    |aboveCoded| == width
    && (forall i :: 0 <= i < column ==> aboveCoded[i] == LinkAbove(shapes, width, row + 1, i))
    && (forall i :: column <= i < width ==> aboveCoded[i] == LinkAbove(shapes, width, row, i))
  }

  lemma LinkAboveStep(shapes: ShapeGrid, width: nat, row: nat, column: nat)
    requires row < |shapes| && IsGrid(shapes, width) && column < width
    ensures LinkAbove(shapes, width, row + 1, column)
            == if shapes[row][column].y2Coded then Some(row) else LinkAbove(shapes, width, row, column)
  {}

  method RelinkRow(shapes: ShapeGrid, width: nat, row: nat, aboveCoded: array<Option<nat>>, leftCoded: array<Option<nat>>)
    returns (above: LinkRow, left: LinkRow)
    requires row < |shapes| && IsGrid(shapes, width) && leftCoded.Length == |shapes| && aboveCoded != leftCoded
    requires LinkedSoFar(shapes, width, row, 0, aboveCoded[..]) && leftCoded[row] == None
    modifies aboveCoded, leftCoded
    ensures LinkedSoFar(shapes, width, row, width, aboveCoded[..])
    ensures forall r :: 0 <= r < |shapes| && r != row ==> leftCoded[r] == old(leftCoded[r])
    ensures LinksOfRow(shapes, width, row, above, left)
  {
    hide LinkAbove;
    above, left := [], [];
    for column := 0 to width
      invariant |above| == |left| == column
      invariant forall i :: 0 <= i < column ==> above[i] == LinkAbove(shapes, width, row, i)
      invariant forall i :: 0 <= i < column ==> left[i] == LinkLeft(shapes[row], i)
      invariant LinkedSoFar(shapes, width, row, column, aboveCoded[..])
      invariant leftCoded[row] == LinkLeft(shapes[row], column)
      invariant forall r :: 0 <= r < |shapes| && r != row ==> leftCoded[r] == old(leftCoded[r])
    {
      above, left := above + [aboveCoded[column]], left + [leftCoded[row]];
      LinkAboveStep(shapes, width, row, column);
      if shapes[row][column].y2Coded {
        aboveCoded[column] := Some(row);
        leftCoded[row] := Some(column);
      }
    }
  }

  lemma LinkedRowDone(shapes: ShapeGrid, width: nat, row: nat, aboveCoded: seq<Option<nat>>)
    requires row + 1 < |shapes| && IsGrid(shapes, width) && LinkedSoFar(shapes, width, row, width, aboveCoded)
    ensures LinkedSoFar(shapes, width, row + 1, 0, aboveCoded)
  {
    hide LinkAbove;
  }

  lemma NothingLinked(shapes: ShapeGrid, width: nat, aboveCoded: seq<Option<nat>>)
    requires |aboveCoded| == width && (forall i :: 0 <= i < width ==> aboveCoded[i] == None) && IsGrid(shapes, width)
    ensures |shapes| > 0 ==> LinkedSoFar(shapes, width, 0, 0, aboveCoded)
  {}

  /** Repoints the Y2 contexts so that they skip macroblocks without a Y2 block. */
  method RelinkY2Blocks(shapes: ShapeGrid, width: nat) returns (above: seq<LinkRow>, left: seq<LinkRow>)
    requires IsGrid(shapes, width)
    ensures |above| == |left| == |shapes|
    ensures forall row :: 0 <= row < |shapes| ==> LinksOfRow(shapes, width, row, above[row], left[row])
  {
    hide LinksOfRow, LinkedSoFar;
    above, left := [], [];
    var aboveCoded := new Option<nat>[width](_ => None);
    var leftCoded := new Option<nat>[|shapes|](_ => None);
    NothingLinked(shapes, width, aboveCoded[..]);
    for row := 0 to |shapes|
      invariant |above| == |left| == row
      invariant forall r :: 0 <= r < row ==> LinksOfRow(shapes, width, r, above[r], left[r])
      invariant row < |shapes| ==> LinkedSoFar(shapes, width, row, 0, aboveCoded[..])
      invariant forall r :: row <= r < |shapes| ==> leftCoded[r] == None
    {
      var a, l := RelinkRow(shapes, width, row, aboveCoded, leftCoded);
      if row + 1 < |shapes| { LinkedRowDone(shapes, width, row, aboveCoded[..]); }
      above, left := above + [a], left + [l];
    }
  }

  // ----- Following the links -----

  /** The rows have a Y2 block where their shapes say so. */
  predicate RowMatches(shapes: ShapeRow, row: ResidueRow) {
    |row| <= |shapes| && forall i :: 0 <= i < |row| ==> row[i].y2.Some? == shapes[i].y2Coded
  }

  predicate GridMatches(shapes: ShapeGrid, grid: ResidueGrid) {
    |grid| <= |shapes| && forall r :: 0 <= r < |grid| ==> RowMatches(shapes[r], grid[r])
  }

  /** The context of a macroblock, its Y2 neighbours found through the links. */
  function LinkedContext(
      probs: CoeffProbs, grid: ResidueGrid, width: nat, line: ResidueRow, row: nat, column: nat,
      above: Option<nat>, left: Option<nat>): TokenContext
    requires row <= |grid| && IsGrid(grid, width) && column < width && column <= |line|
    requires (above.Some? ==> above.value < row) && (left.Some? ==> left.value < column)
  {
    TokenContext(
      probs,
      if above.Some? then grid[above.value][column].y2 else None,
      if left.Some? then line[left.value].y2 else None,
      if row == 0 then None else Some(grid[row - 1][column]),
      if column == 0 then None else Some(line[column - 1]))
  }

  lemma {:induction false} AboveIsLinked(shapes: ShapeGrid, grid: ResidueGrid, width: nat, row: nat, column: nat)
    requires row <= |grid| && IsGrid(shapes, width) && IsGrid(grid, width) && column < width && GridMatches(shapes, grid)
    ensures var link := LinkAbove(shapes, width, row, column);
            AboveY2(grid, width, row, column) == if link.Some? then grid[link.value][column].y2 else None
  {
    if row > 0 {
      assert RowMatches(shapes[row - 1], grid[row - 1]);
      AboveIsLinked(shapes, grid, width, row - 1, column);
    }
  }

  lemma {:induction false} LeftIsLinked(shapes: ShapeRow, line: ResidueRow, column: nat)
    requires column <= |line| && RowMatches(shapes, line)
    ensures var link := LinkLeft(shapes, column);
            LeftY2(line, column) == if link.Some? then line[link.value].y2 else None
  {
    if column > 0 {
      LeftIsLinked(shapes, line, column - 1);
    }
  }

  lemma LinkedIsContext(
      probs: CoeffProbs, shapes: ShapeGrid, grid: ResidueGrid, width: nat, line: ResidueRow, row: nat, column: nat)
    requires row <= |grid| && row < |shapes| && IsGrid(shapes, width) && IsGrid(grid, width)
    requires column < width && column <= |line| && GridMatches(shapes, grid) && RowMatches(shapes[row], line)
    ensures LinkedContext(probs, grid, width, line, row, column,
                          LinkAbove(shapes, width, row, column), LinkLeft(shapes[row], column))
            == ContextAt(ViewOf(probs, grid, width, row), line, column)
  {
    hide AboveY2, LeftY2, LinkAbove, LinkLeft, RowMatches, GridMatches;
    AboveIsLinked(shapes, grid, width, row, column);
    LeftIsLinked(shapes[row], line, column);
    if row > 0 && |grid[row - 1]| == width { assert grid[row - 1] != []; }
  }

  // ----- Rows -----

  method SerializeRow(
      encoder: BoolEncoder, probs: CoeffProbs, shapes: ShapeGrid, grid: ResidueGrid, width: nat, row: nat,
      above: LinkRow, left: LinkRow)
    returns (ok: bool)
    requires encoder.Valid() && row < |grid| == |shapes| && IsGrid(shapes, width) && IsGrid(grid, width)
    requires GridMatches(shapes, grid) && LinksOfRow(shapes, width, row, above, left)
    modifies encoder
    ensures encoder.Valid() && ok == RowCodable(ViewOf(probs, grid, width, row), shapes[row], grid[row])
    ensures ok ==> encoder.log == old(encoder.log)
                                  + RowTokens(ViewOf(probs, grid, width, row), shapes[row], grid[row], width)
  {
    hide Holds, Encoded, TokenSymbols, TokensCodable, ContextAt, LinkedContext, ViewOf;
    ghost var x := ViewOf(probs, grid, width, row);
    for column := 0 to width
      invariant encoder.Valid() && encoder.log == old(encoder.log) + RowTokens(x, shapes[row], grid[row], column)
      invariant forall i :: 0 <= i < column ==> TokensCodable(ContextAt(x, grid[row], i), shapes[row][i], grid[row][i])
    {
      LinkedIsContext(probs, shapes, grid, width, grid[row], row, column);
      var at := LinkedContext(probs, grid, width, grid[row], row, column, above[column], left[column]);
      ok := SerializeMacroblockTokens(encoder, at, shapes[row][column], grid[row][column]);
      if !ok { return; }
    }
    ok := true;
  }

  method ParseRow(
      decoder: BoolDecoder, probs: CoeffProbs, shapes: ShapeGrid, grid: ResidueGrid, width: nat, above: LinkRow, left: LinkRow)
    returns (line: ResidueRow)
    requires decoder.Valid() && |grid| < |shapes| && IsGrid(shapes, width) && IsGrid(grid, width)
    requires GridMatches(shapes, grid) && LinksOfRow(shapes, width, |grid|, above, left)
    modifies decoder
    ensures decoder.Valid() && |line| == width && RowMatches(shapes[|grid|], line)
    ensures (line, decoder.State())
            == ReadRowTokens(old(decoder.State()), ViewOf(probs, grid, width, |grid|), shapes[|grid|], width)
  {
    hide Next, WellFormed, ReadTokens, ContextAt, LinkedContext, ViewOf, ResidueConsistent;
    var row := |grid|;
    ghost var x := ViewOf(probs, grid, width, row);
    line := [];
    for column := 0 to width
      invariant decoder.Valid() && |line| == column && RowMatches(shapes[row], line)
      invariant (line, decoder.State()) == ReadRowTokens(old(decoder.State()), x, shapes[row], column)
    {
      LinkedIsContext(probs, shapes, grid, width, line, row, column);
      var at := LinkedContext(probs, grid, width, line, row, column, above[column], left[column]);
      ReadHasShape(decoder.State(), at, shapes[row][column]);
      var r := ParseMacroblockTokens(decoder, at, shapes[row][column]);
      line := line + [r];
    }
  }

  lemma ReadHasShape(c: Core, x: TokenContext, shape: Shape)
    ensures ReadTokens(c, x, shape).0.y2.Some? == shape.y2Coded
  {
    hide ReadTokens;
    ReadTokensConsistent(c, x, shape);
  }

  // ----- Frames -----

  /** The encoders, or decoders, of the partitions are different objects. */
  ghost predicate Separate<T>(coders: seq<T>) {
    forall i, j :: 0 <= i < j < |coders| ==> coders[i] != coders[j]
  }

  /** Each encoder has been put the tokens of its rows among the first n. */
  ghost predicate Written(
      encoders: seq<BoolEncoder>, probs: CoeffProbs, shapes: ShapeGrid, grid: ResidueGrid, width: nat, n: nat)
    requires |encoders| > 0 && n <= |grid| == |shapes| && IsGrid(grid, width) && IsGrid(shapes, width)
    reads set e | e in encoders
  {
    forall p :: 0 <= p < |encoders| ==>
      encoders[p].Valid() && encoders[p].log == PartitionTokens(probs, shapes, grid, width, |encoders|, p, n)
  }

  lemma NothingWritten(encoders: seq<BoolEncoder>, probs: CoeffProbs, shapes: ShapeGrid, grid: ResidueGrid, width: nat)
    requires |encoders| > 0 && |grid| == |shapes| && IsGrid(grid, width) && IsGrid(shapes, width)
    requires forall p :: 0 <= p < |encoders| ==> encoders[p].Valid() && encoders[p].log == []
    ensures Written(encoders, probs, shapes, grid, width, 0)
  {
    hide Holds, Encoded;
  }

  lemma PartitionStep(
      probs: CoeffProbs, shapes: ShapeGrid, grid: ResidueGrid, width: nat, count: PartitionCount, p: nat, n: nat)
    requires n < |grid| == |shapes| && IsGrid(grid, width) && IsGrid(shapes, width)
    ensures PartitionTokens(probs, shapes, grid, width, count, p, n + 1)
            == PartitionTokens(probs, shapes, grid, width, count, p, n)
               + if PartitionOf(n, count) == p
                 then RowTokens(ViewOf(probs, grid, width, n), shapes[n], grid[n], width) else []
  {}

  /** Serializes every macroblock's tokens into the partition of its row. */
  method SerializeTokens(encoders: seq<BoolEncoder>, probs: CoeffProbs, shapes: ShapeGrid, grid: ResidueGrid, width: nat)
    returns (ok: bool)
    requires |encoders| > 0 && Separate(encoders)
    requires forall p :: 0 <= p < |encoders| ==> encoders[p].Valid() && encoders[p].log == []
    requires |grid| == |shapes| && IsGrid(shapes, width) && IsGrid(grid, width) && GridMatches(shapes, grid)
    modifies set e | e in encoders
    ensures ok == GridCodable(probs, shapes, grid, width)
    ensures ok ==> Written(encoders, probs, shapes, grid, width, |grid|)
  {
    hide Holds, Encoded, RowTokens, RowCodable, ViewOf, LinksOfRow, GridMatches, PartitionOf, PartitionTokens;
    var above, left := RelinkY2Blocks(shapes, width);
    NothingWritten(encoders, probs, shapes, grid, width);
    for row := 0 to |grid|
      invariant Written(encoders, probs, shapes, grid, width, row)
      invariant forall r :: 0 <= r < row ==> RowCodable(ViewOf(probs, grid, width, r), shapes[r], grid[r])
    {
      ghost var logs := seq(|encoders|, p requires 0 <= p < |encoders| reads set e | e in encoders => encoders[p].log);
      var p := PartitionOf(row, |encoders|);
      ok := SerializeRow(encoders[p], probs, shapes, grid, width, row, above[row], left[row]);
      if !ok { return; }
      forall q | 0 <= q < |encoders|
        ensures encoders[q].Valid() && encoders[q].log == PartitionTokens(probs, shapes, grid, width, |encoders|, q, row + 1)
      {
        PartitionStep(probs, shapes, grid, width, |encoders|, q, row);
        if q != p { assert encoders[q] != encoders[p] && encoders[q].log == logs[q]; }
      }
    }
    ok := true;
  }

  /** The decoders' states, and nothing about how they came about. */
  ghost predicate InStates(decoders: seq<BoolDecoder>, cores: seq<Core>)
    reads set d | d in decoders
  {
    |decoders| == |cores| && forall p :: 0 <= p < |decoders| ==> decoders[p].Valid() && decoders[p].State() == cores[p]
  }

  lemma ReadGridStep(cores: seq<Core>, probs: CoeffProbs, shapes: ShapeGrid, width: nat, n: nat)
    requires |cores| > 0 && n < |shapes| && IsGrid(shapes, width)
    ensures var (grid, cs) := ReadTokenGrid(cores, probs, shapes, width, n);
            var p := PartitionOf(n, |cores|);
            var (row, c) := ReadRowTokens(cs[p], ViewOf(probs, grid, width, n), shapes[n], width);
            ReadTokenGrid(cores, probs, shapes, width, n + 1) == (grid + [row], cs[p := c])
  {
    hide ReadRowTokens, ViewOf, PartitionOf;
  }

  /** Parses every macroblock's tokens from the partition of its row. */
  method ParseTokens(decoders: seq<BoolDecoder>, ghost cores: seq<Core>, probs: CoeffProbs, shapes: ShapeGrid, width: nat)
    returns (grid: ResidueGrid)
    requires |decoders| > 0 && Separate(decoders) && InStates(decoders, cores) && IsGrid(shapes, width)
    modifies set d | d in decoders
    ensures grid == ReadTokenGrid(cores, probs, shapes, width, |shapes|).0
    ensures InStates(decoders, ReadTokenGrid(cores, probs, shapes, width, |shapes|).1)
  {
    hide Next, WellFormed, ReadRowTokens, ViewOf, LinksOfRow, GridMatches, PartitionOf, ReadTokenGrid, RowMatches;
    var above, left := RelinkY2Blocks(shapes, width);
    grid := [];
    ghost var now: seq<Core> := cores;
    NothingRead(cores, probs, shapes, width);
    for row := 0 to |shapes|
      invariant InStates(decoders, now) && |grid| == row && IsGrid(grid, width) && GridMatches(shapes, grid)
      invariant (grid, now) == ReadTokenGrid(cores, probs, shapes, width, row)
    {
      ReadGridStep(cores, probs, shapes, width, row);
      var p := PartitionOf(row, |decoders|);
      var line := ParseRow(decoders[p], probs, shapes, grid, width, above[row], left[row]);
      MatchesStep(shapes, grid, line);
      now := now[p := decoders[p].State()];
      grid := grid + [line];
    }
  }

  lemma NothingRead(cores: seq<Core>, probs: CoeffProbs, shapes: ShapeGrid, width: nat)
    requires |cores| > 0 && IsGrid(shapes, width)
    ensures ReadTokenGrid(cores, probs, shapes, width, 0) == ([], cores) && GridMatches(shapes, [])
  {}

  lemma MatchesStep(shapes: ShapeGrid, grid: ResidueGrid, line: ResidueRow)
    requires GridMatches(shapes, grid) && |grid| < |shapes| && RowMatches(shapes[|grid|], line)
    ensures GridMatches(shapes, grid + [line])
  {
    hide RowMatches;
  }
}
