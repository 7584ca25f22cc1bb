/** The tokens of a whole frame: rows of macroblocks dealt out to the DCT partitions, and Y2 contexts
    that skip macroblocks without a Y2 block (section 9.5 of RFC 6386; src/encoder/serializer.cc,
    src/decoder/frame.cc). */
module FrameTokens {
  import opened Wrappers
  import opened Grids
  import opened BoolCoding
  import opened BoolDecoding
  import opened TokenBlocks
  import opened MacroblockTokens

  type ResidueRow = seq<Residue>
  type ShapeRow = seq<Shape>

  // ----- Rows -----

  /** What a row of macroblocks sees above it: the row of residues (empty for the first row), and for
      each column the nearest coded Y2 block. */
  datatype RawRowView = RowView(probs: CoeffProbs, width: nat, above: ResidueRow, aboveY2: seq<Option<Block>>)
  type RowView = x: RawRowView | |x.aboveY2| == x.width && (x.above == [] || |x.above| == x.width)
    witness RowView([NO_TABLE, NO_TABLE, NO_TABLE, NO_TABLE], 0, [], [])

  /** The nearest coded Y2 block to the left of a column. */
  function LeftY2(row: ResidueRow, column: nat): Option<Block>
    requires column <= |row|
  {
    if column == 0 then None
    else if row[column - 1].y2.Some? then row[column - 1].y2
    else LeftY2(row, column - 1)
  }

  function ContextAt(x: RowView, row: ResidueRow, column: nat): TokenContext
    requires column < x.width && column <= |row|
  {
    TokenContext(
      x.probs, x.aboveY2[column], LeftY2(row, column),
      if x.above == [] then None else Some(x.above[column]),
      if column == 0 then None else Some(row[column - 1]))
  }

  /** The first n macroblocks of a row. */
  function RowTokens(x: RowView, shapes: ShapeRow, row: ResidueRow, n: nat): seq<Symbol>
    requires n <= |shapes| == |row| == x.width
  {
    if n == 0 then []
    else RowTokens(x, shapes, row, n - 1) + TokenSymbols(ContextAt(x, row, n - 1), shapes[n - 1], row[n - 1])
  }

  predicate RowCodable(x: RowView, shapes: ShapeRow, row: ResidueRow)
    requires |shapes| == |row| == x.width
  {
    forall i :: 0 <= i < |row| ==> TokensCodable(ContextAt(x, row, i), shapes[i], row[i])
  }

  predicate RowConsistent(x: RowView, shapes: ShapeRow, row: ResidueRow)
    requires |shapes| == |row| == x.width
  {
    forall i :: 0 <= i < |row| ==> ResidueConsistent(ContextAt(x, row, i), shapes[i], row[i])
  }

  function ReadRowTokens(c: Core, x: RowView, shapes: ShapeRow, n: nat): (r: (ResidueRow, Core))
    requires n <= |shapes| == x.width
    ensures |r.0| == n
  {
    if n == 0 then ([], c)
    else
      var (row, c1) := ReadRowTokens(c, x, shapes, n - 1);
      var (r, c2) := ReadTokens(c1, ContextAt(x, row, n - 1), shapes[n - 1]);
      (row + [r], c2)
  }

  lemma {:induction false} LeftY2FromPrefix(row: ResidueRow, other: ResidueRow, column: nat)
    requires column <= |row| && column <= |other| && row[..column] == other[..column]
    ensures LeftY2(row, column) == LeftY2(other, column)
  {
    if column > 0 {
      assert row[column - 1] == row[..column][column - 1] == other[column - 1];
      assert row[..column - 1] == row[..column][..column - 1] == other[..column - 1];
      LeftY2FromPrefix(row, other, column - 1);
    }
  }

  lemma ContextAtPrefix(x: RowView, row: ResidueRow, column: nat)
    requires column < x.width && column <= |row|
    ensures ContextAt(x, row[..column], column) == ContextAt(x, row, column)
  {
    LeftY2FromPrefix(row[..column], row, column);
  }

  lemma {:induction false} RowTokensRoundTrip(c: Core, x: RowView, shapes: ShapeRow, row: ResidueRow, n: nat)
    requires n <= |shapes| == |row| == x.width
    requires RowCodable(x, shapes, row) && RowConsistent(x, shapes, row)
    requires Serves(c, RowTokens(x, shapes, row, n))
    ensures ReadRowTokens(c, x, shapes, n) == (row[..n], After(c, RowTokens(x, shapes, row, n)))
  {
    hide Next, Serves, After, TokenSymbols, ReadTokens, TokensCodable, ResidueConsistent, ContextAt;
    if n == 0 {
      ServesNone(c);
    } else {
      var at := ContextAt(x, row, n - 1);
      var head := RowTokens(x, shapes, row, n - 1);
      ServesAppend(c, head, TokenSymbols(at, shapes[n - 1], row[n - 1]));
      RowTokensRoundTrip(c, x, shapes, row, n - 1);
      ContextAtPrefix(x, row, n - 1);
      TokensRoundTrip(After(c, head), at, shapes[n - 1], row[n - 1]);
      assert row[..n] == row[..n - 1] + [row[n - 1]];
    }
  }

  /** Every row that is read is consistent. */
  lemma {:induction false} ReadRowConsistent(c: Core, x: RowView, shapes: ShapeRow, n: nat)
    requires n <= |shapes| == x.width
    ensures var row := ReadRowTokens(c, x, shapes, n).0;
            forall i :: 0 <= i < n ==> ResidueConsistent(ContextAt(x, row, i), shapes[i], row[i])
  {
    hide ReadTokens, ResidueConsistent, ContextAt;
    if n > 0 {
      ReadRowConsistent(c, x, shapes, n - 1);
      var (init, c1) := ReadRowTokens(c, x, shapes, n - 1);
      var row := ReadRowTokens(c, x, shapes, n).0;
      ReadTokensConsistent(c1, ContextAt(x, init, n - 1), shapes[n - 1]);
      forall i | 0 <= i < n ensures ResidueConsistent(ContextAt(x, row, i), shapes[i], row[i]) {
        ContextAtPrefix(x, row, i);
        ContextAtPrefix(x, init, i);
        assert row[..i] == init[..i];
      }
    }
  }

  // ----- The grid -----

  type ResidueGrid = seq<ResidueRow>
  type ShapeGrid = seq<ShapeRow>

  /** The nearest coded Y2 block above a row, in one column. */
  function AboveY2(grid: ResidueGrid, width: nat, row: nat, column: nat): Option<Block>
    requires row <= |grid| && IsGrid(grid, width) && column < width
  {
    if row == 0 then None
    else if grid[row - 1][column].y2.Some? then grid[row - 1][column].y2
    else AboveY2(grid, width, row - 1, column)
  }

  function ViewOf(probs: CoeffProbs, grid: ResidueGrid, width: nat, row: nat): (x: RowView)
    requires row <= |grid| && IsGrid(grid, width)
    ensures x.width == width
  {
    RowView(
      probs, width, if row == 0 then [] else grid[row - 1],
      seq(width, column requires 0 <= column < width => AboveY2(grid, width, row, column)))
  }

  lemma {:induction false} AboveY2FromPrefix(grid: ResidueGrid, other: ResidueGrid, width: nat, row: nat, column: nat)
    requires row <= |grid| && row <= |other| && grid[..row] == other[..row]
    requires IsGrid(grid, width) && IsGrid(other, width) && column < width
    ensures AboveY2(grid, width, row, column) == AboveY2(other, width, row, column)
  {
    if row > 0 {
      assert grid[row - 1] == grid[..row][row - 1] == other[row - 1];
      assert grid[..row - 1] == grid[..row][..row - 1] == other[..row - 1];
      AboveY2FromPrefix(grid, other, width, row - 1, column);
    }
  }

  lemma ViewFromPrefix(probs: CoeffProbs, grid: ResidueGrid, other: ResidueGrid, width: nat, row: nat)
    requires row <= |grid| && row <= |other| && grid[..row] == other[..row]
    requires IsGrid(grid, width) && IsGrid(other, width)
    ensures ViewOf(probs, grid, width, row) == ViewOf(probs, other, width, row)
  {
    hide AboveY2;
    forall column | 0 <= column < width
      ensures AboveY2(grid, width, row, column) == AboveY2(other, width, row, column)
    {
      AboveY2FromPrefix(grid, other, width, row, column);
    }
    if row > 0 { assert grid[row - 1] == grid[..row][row - 1] == other[row - 1]; }
  }

  // ----- Contexts, seen in the grids of blocks that span the frame -----

  /** Block (x, y) of the grid of luma blocks, four to a macroblock in either direction; none outside the frame. */
  function LumaAt(grid: ResidueGrid, width: nat, x: int, y: int): Option<Block>
    requires IsGrid(grid, width) && x < 4 * width && y < 4 * |grid|
  {
    if x < 0 || y < 0 then None else Some(grid[y / 4][x / 4].y[y % 4 * 4 + x % 4])
  }

  /** The same for either grid of chroma blocks, two to a macroblock. */
  function ChromaAt(grid: ResidueGrid, width: nat, second: bool, x: int, y: int): Option<Block>
    requires IsGrid(grid, width) && x < 2 * width && y < 2 * |grid|
  {
    if x < 0 || y < 0 then None
    else
      var r := grid[y / 2][x / 2];
      Some((if second then r.v else r.u)[y % 2 * 2 + x % 2])
  }

  lemma ContextSees(probs: CoeffProbs, grid: ResidueGrid, width: nat, row: nat, column: nat)
    requires IsGrid(grid, width) && row < |grid| && column < width
    ensures var context := ContextAt(ViewOf(probs, grid, width, row), grid[row], column);
            && context.above == (if row > 0 then Some(grid[row - 1][column]) else None)
            && context.left == (if column > 0 then Some(grid[row][column - 1]) else None)
  {
    hide AboveY2, LeftY2;
  }

  /** Luma block i of a macroblock is coded in the context of the blocks above it and to its left in that grid, in
      whichever macroblock they are. */
  lemma LumaNeighbours(probs: CoeffProbs, grid: ResidueGrid, width: nat, row: nat, column: nat, i: nat, coded: bool)
    requires IsGrid(grid, width) && row < |grid| && column < width && i < 16
    ensures var x, y := 4 * column + i % 4, 4 * row + i / 4;
            var plane := ContextAt(ViewOf(probs, grid, width, row), grid[row], column).YPlane(coded);
            AboveBlock(plane, grid[row][column].y, i) == LumaAt(grid, width, x, y - 1)
            && LeftBlock(plane, grid[row][column].y, i) == LumaAt(grid, width, x - 1, y)
  {
    hide ViewOf, ContextAt;
    ContextSees(probs, grid, width, row, column);
    InBlockGrid(column, i % 4, 4);
    InBlockGrid(row, i / 4, 4);
  }

  lemma ChromaNeighbours(
      probs: CoeffProbs, grid: ResidueGrid, width: nat, row: nat, column: nat, second: bool, i: nat)
    requires IsGrid(grid, width) && row < |grid| && column < width && i < 4
    ensures var context := ContextAt(ViewOf(probs, grid, width, row), grid[row], column);
            var plane := if second then context.VPlane() else context.UPlane();
            var blocks := if second then grid[row][column].v else grid[row][column].u;
            && AboveBlock(plane, blocks, i) == ChromaAt(grid, width, second, 2 * column + i % 2, 2 * row + i / 2 - 1)
            && LeftBlock(plane, blocks, i) == ChromaAt(grid, width, second, 2 * column + i % 2 - 1, 2 * row + i / 2)
  {
    hide ViewOf, ContextAt;
    ContextSees(probs, grid, width, row, column);
    InBlockGrid(column, i % 2, 2);
    InBlockGrid(row, i / 2, 2);
  }

  /** Where a block of a macroblock and the one before it are. */
  lemma InBlockGrid(k: nat, j: nat, size: nat)
    requires j < size && size in {2, 4}
    ensures (size * k + j) / size == k && (size * k + j) % size == j
    ensures j > 0 ==> (size * k + j - 1) / size == k && (size * k + j - 1) % size == j - 1
    ensures j == 0 && k > 0 ==> (size * k + j - 1) / size == k - 1 && (size * k + j - 1) % size == size - 1
  {}

  // ----- Partitions -----

  type PartitionCount = n: nat | n > 0 witness 1

  /** The DCT partition that a row of macroblocks goes to. */
  function PartitionOf(row: nat, count: PartitionCount): (p: nat)
    ensures p < count
  {
    row % count
  }

  /** What the first n rows put into partition p. */
  function PartitionTokens(
      probs: CoeffProbs, shapes: ShapeGrid, grid: ResidueGrid, width: nat, count: PartitionCount, p: nat, n: nat)
    : seq<Symbol>
    requires n <= |grid| == |shapes| && IsGrid(grid, width) && IsGrid(shapes, width)
  {
    if n == 0 then []
    else
      PartitionTokens(probs, shapes, grid, width, count, p, n - 1)
      + if PartitionOf(n - 1, count) == p
        then RowTokens(ViewOf(probs, grid, width, n - 1), shapes[n - 1], grid[n - 1], width)
        else []
  }

  /** Quotient and remainder are the only numbers with their properties. */
  lemma RemainderIsUnique(x: nat, q: nat, r: nat, m: nat)
    requires r < m && x == q * m + r
    ensures x % m == r
  {
    var d := x / m - q;
    assert m * (x / m) + x % m == x;
    assert m * d == r - x % m;
    MultipleIsFar(m, d);
  }

  lemma MultipleIsFar(m: nat, d: int)
    ensures d >= 1 ==> m * d >= m
    ensures d <= -1 ==> m * d <= -(m as int)
  {}

  /** Rows are dealt out like cards: the first to the first partition, each next one to the next partition, starting
      over after the last. */
  lemma DealtInTurn(row: nat, count: PartitionCount)
    ensures PartitionOf(0, count) == 0
    ensures PartitionOf(row + 1, count) == if PartitionOf(row, count) + 1 == count then 0 else PartitionOf(row, count) + 1
  {
    var q, r := row / count, row % count;
    assert row == q * count + r;
    if r + 1 == count {
      assert row + 1 == (q + 1) * count + 0;
      RemainderIsUnique(row + 1, q + 1, 0, count);
    } else {
      RemainderIsUnique(row + 1, q, r + 1, count);
    }
    RemainderIsUnique(0, 0, 0, count);
  }

  /** A row goes to partition p if and only if it is p or a number of whole rounds after it. */
  lemma WholeRounds(row: nat, count: PartitionCount, p: nat)
    requires p < count
    ensures PartitionOf(row, count) == p <==> row >= p && PartitionOf(row - p, count) == 0
  {
    var q := row / count;
    assert row == q * count + row % count;
    if row % count == p { RemainderIsUnique(row - p, q, 0, count); }
    if row >= p && (row - p) % count == 0 {
      var k := (row - p) / count;
      assert row - p == k * count;
      RemainderIsUnique(row, k, p, count);
    }
  }

  lemma NextRound(m: nat, count: PartitionCount)
    ensures PartitionOf(m + count, count) == PartitionOf(m, count)
    ensures m < count ==> PartitionOf(m, count) == m
  {
    var q := m / count;
    assert m == q * count + m % count;
    assert m + count == (q + 1) * count + m % count;
    RemainderIsUnique(m + count, q + 1, m % count, count);
  }

  /** The tokens of rows r, r + count, r + 2 * count and so on below n, in this order. */
  function EveryNth(probs: CoeffProbs, shapes: ShapeGrid, grid: ResidueGrid, width: nat, count: PartitionCount, r: nat, n: nat)
    : seq<Symbol>
    requires n <= |grid| == |shapes| && IsGrid(grid, width) && IsGrid(shapes, width)
    decreases n - r
  {
    if r >= n then []
    else
      RowTokens(ViewOf(probs, grid, width, r), shapes[r], grid[r], width)
      + EveryNth(probs, shapes, grid, width, count, r + count, n)
  }

  lemma {:induction false} OneRowMore(
      probs: CoeffProbs, shapes: ShapeGrid, grid: ResidueGrid, width: nat, count: PartitionCount, r: nat, n: nat)
    requires n < |grid| == |shapes| && IsGrid(grid, width) && IsGrid(shapes, width)
    ensures EveryNth(probs, shapes, grid, width, count, r, n + 1)
            == EveryNth(probs, shapes, grid, width, count, r, n)
               + if r <= n && PartitionOf(n - r, count) == 0
                 then RowTokens(ViewOf(probs, grid, width, n), shapes[n], grid[n], width)
                 else []
    decreases n + 1 - r
  {
    hide RowTokens, ViewOf, PartitionOf;
    if r <= n {
      OneRowMore(probs, shapes, grid, width, count, r + count, n);
      if r + count <= n { NextRound(n - r - count, count); } else { NextRound(n - r, count); }
    }
  }

  /** A partition holds every count-th row, from its own number on. */
  lemma {:induction false} PartitionIsEveryNth(
      probs: CoeffProbs, shapes: ShapeGrid, grid: ResidueGrid, width: nat, count: PartitionCount, p: nat, n: nat)
    requires n <= |grid| == |shapes| && IsGrid(grid, width) && IsGrid(shapes, width) && p < count
    ensures PartitionTokens(probs, shapes, grid, width, count, p, n) == EveryNth(probs, shapes, grid, width, count, p, n)
  {
    hide RowTokens, ViewOf, PartitionOf;
    if n > 0 {
      PartitionIsEveryNth(probs, shapes, grid, width, count, p, n - 1);
      OneRowMore(probs, shapes, grid, width, count, p, n - 1);
      WholeRounds(n - 1, count, p);
    }
  }

  predicate GridCodable(probs: CoeffProbs, shapes: ShapeGrid, grid: ResidueGrid, width: nat)
    requires |grid| == |shapes| && IsGrid(grid, width) && IsGrid(shapes, width)
  {
    forall r :: 0 <= r < |grid| ==> RowCodable(ViewOf(probs, grid, width, r), shapes[r], grid[r])
  }

  /** The frame is consistent: the flags are right, and skipped macroblocks are zero. */
  predicate GridConsistent(probs: CoeffProbs, shapes: ShapeGrid, grid: ResidueGrid, width: nat)
    requires |grid| == |shapes| && IsGrid(grid, width) && IsGrid(shapes, width)
  {
    forall r :: 0 <= r < |grid| ==> RowConsistent(ViewOf(probs, grid, width, r), shapes[r], grid[r])
  }

  /** The parser: one decoder for each partition. */
  function ReadTokenGrid(cores: seq<Core>, probs: CoeffProbs, shapes: ShapeGrid, width: nat, n: nat)
    : (r: (ResidueGrid, seq<Core>))
    requires |cores| > 0 && n <= |shapes| && IsGrid(shapes, width)
    ensures |r.0| == n && IsGrid(r.0, width) && |r.1| == |cores|
  {
    if n == 0 then ([], cores)
    else
      var (grid, cs) := ReadTokenGrid(cores, probs, shapes, width, n - 1);
      var p := PartitionOf(n - 1, |cores|);
      var (row, c) := ReadRowTokens(cs[p], ViewOf(probs, grid, width, n - 1), shapes[n - 1], width);
      (grid + [row], cs[p := c])
  }

  /** Every frame that is read is consistent. */
  lemma {:induction false} ReadGridConsistent(cores: seq<Core>, probs: CoeffProbs, shapes: ShapeGrid, width: nat, n: nat)
    requires |cores| > 0 && n <= |shapes| && IsGrid(shapes, width)
    ensures var grid := ReadTokenGrid(cores, probs, shapes, width, n).0;
            forall r :: 0 <= r < n ==> RowConsistent(ViewOf(probs, grid, width, r), shapes[r], grid[r])
  {
    hide ReadRowTokens, ViewOf, RowConsistent, PartitionOf;
    if n > 0 {
      ReadGridConsistent(cores, probs, shapes, width, n - 1);
      var (init, cs) := ReadTokenGrid(cores, probs, shapes, width, n - 1);
      var grid := ReadTokenGrid(cores, probs, shapes, width, n).0;
      ReadRowIsConsistent(cs[PartitionOf(n - 1, |cores|)], ViewOf(probs, init, width, n - 1), shapes[n - 1]);
      forall r | 0 <= r < n ensures RowConsistent(ViewOf(probs, grid, width, r), shapes[r], grid[r]) {
        assert grid[..r] == init[..r];
        ViewFromPrefix(probs, grid, init, width, r);
      }
    }
  }

  lemma ReadRowIsConsistent(c: Core, x: RowView, shapes: ShapeRow)
    requires |shapes| == x.width
    ensures RowConsistent(x, shapes, ReadRowTokens(c, x, shapes, x.width).0)
  {
    hide ReadRowTokens, ResidueConsistent, ContextAt;
    ReadRowConsistent(c, x, shapes, x.width);
  }

  /** The decoders of all partitions have been served the first n rows. */
  predicate AllAfter(
      cores: seq<Core>, now: seq<Core>, probs: CoeffProbs, shapes: ShapeGrid, grid: ResidueGrid, width: nat, n: nat)
    requires |cores| > 0 && n <= |grid| == |shapes| && IsGrid(grid, width) && IsGrid(shapes, width)
  {
    |now| == |cores| && forall p :: 0 <= p < |cores| ==>
      now[p] == After(cores[p], PartitionTokens(probs, shapes, grid, width, |cores|, p, n))
  }

  predicate AllServe(
      cores: seq<Core>, probs: CoeffProbs, shapes: ShapeGrid, grid: ResidueGrid, width: nat, n: nat)
    requires |cores| > 0 && n <= |grid| == |shapes| && IsGrid(grid, width) && IsGrid(shapes, width)
  {
    forall p :: 0 <= p < |cores| ==> Serves(cores[p], PartitionTokens(probs, shapes, grid, width, |cores|, p, n))
  }

  /** A row is served by its partition, and leaves the others alone. */
  lemma ServeRow(c: Core, probs: CoeffProbs, shapes: ShapeGrid, grid: ResidueGrid, width: nat, count: PartitionCount, p: nat, n: nat)
    requires 0 < n <= |grid| == |shapes| && IsGrid(grid, width) && IsGrid(shapes, width)
    ensures var all, head := PartitionTokens(probs, shapes, grid, width, count, p, n),
                             PartitionTokens(probs, shapes, grid, width, count, p, n - 1);
            var row := RowTokens(ViewOf(probs, grid, width, n - 1), shapes[n - 1], grid[n - 1], width);
            && (Serves(c, all) ==> Serves(c, head))
            && (PartitionOf(n - 1, count) == p ==>
                  (Serves(c, all) ==> Serves(After(c, head), row)) && After(c, all) == After(After(c, head), row))
            && (PartitionOf(n - 1, count) != p ==> After(c, all) == After(c, head))
  {
    hide Next, Serves, After, RowTokens, ViewOf, PartitionOf;
    var head := PartitionTokens(probs, shapes, grid, width, count, p, n - 1);
    var row := RowTokens(ViewOf(probs, grid, width, n - 1), shapes[n - 1], grid[n - 1], width);
    if PartitionOf(n - 1, count) == p {
      ServesAppend(c, head, row);
    } else {
      assert head + [] == head;
    }
  }

  lemma ServeRowEverywhere(cores: seq<Core>, probs: CoeffProbs, shapes: ShapeGrid, grid: ResidueGrid, width: nat, n: nat)
    requires |cores| > 0 && 0 < n <= |grid| == |shapes| && IsGrid(grid, width) && IsGrid(shapes, width)
    requires AllServe(cores, probs, shapes, grid, width, n)
    ensures AllServe(cores, probs, shapes, grid, width, n - 1)
  {
    hide Serves, PartitionTokens, PartitionOf;
    forall p | 0 <= p < |cores|
      ensures Serves(cores[p], PartitionTokens(probs, shapes, grid, width, |cores|, p, n - 1))
    {
      ServeRow(cores[p], probs, shapes, grid, width, |cores|, p, n);
    }
  }

  lemma RowMovesOneCore(
      cores: seq<Core>, now: seq<Core>, c: Core, probs: CoeffProbs, shapes: ShapeGrid, grid: ResidueGrid, width: nat, n: nat)
    requires |cores| > 0 && 0 < n <= |grid| == |shapes| && IsGrid(grid, width) && IsGrid(shapes, width)
    requires AllAfter(cores, now, probs, shapes, grid, width, n - 1)
    requires c == After(now[PartitionOf(n - 1, |cores|)],
                        RowTokens(ViewOf(probs, grid, width, n - 1), shapes[n - 1], grid[n - 1], width))
    ensures AllAfter(cores, now[PartitionOf(n - 1, |cores|) := c], probs, shapes, grid, width, n)
  {
    hide Serves, After, PartitionTokens, PartitionOf, RowTokens, ViewOf;
    var next := now[PartitionOf(n - 1, |cores|) := c];
    forall p | 0 <= p < |cores|
      ensures next[p] == After(cores[p], PartitionTokens(probs, shapes, grid, width, |cores|, p, n))
    {
      ServeRow(cores[p], probs, shapes, grid, width, |cores|, p, n);
    }
  }

  /** Parsing the partitions of a consistent frame, row after row, gives back every macroblock's
      coefficients and flags. */
  lemma {:induction false} ConsistentGridRoundTrip(
      cores: seq<Core>, probs: CoeffProbs, shapes: ShapeGrid, grid: ResidueGrid, width: nat, n: nat)
    requires |cores| > 0 && n <= |grid| == |shapes| && IsGrid(grid, width) && IsGrid(shapes, width)
    requires GridCodable(probs, shapes, grid, width) && GridConsistent(probs, shapes, grid, width)
    requires AllServe(cores, probs, shapes, grid, width, n)
    ensures var (g, now) := ReadTokenGrid(cores, probs, shapes, width, n);
            g == grid[..n] && AllAfter(cores, now, probs, shapes, grid, width, n)
  {
    hide Next, Serves, After, PartitionOf, RowTokens, ReadRowTokens, ViewOf, RowCodable, RowConsistent, PartitionTokens;
    if n == 0 {
      NothingServed(cores, probs, shapes, grid, width);
    } else {
      ServeRowEverywhere(cores, probs, shapes, grid, width, n);
      ConsistentGridRoundTrip(cores, probs, shapes, grid, width, n - 1);
      var (init, now) := ReadTokenGrid(cores, probs, shapes, width, n - 1);
      var p, x := PartitionOf(n - 1, |cores|), ViewOf(probs, grid, width, n - 1);
      ViewFromPrefix(probs, init, grid, width, n - 1);
      ServeRow(cores[p], probs, shapes, grid, width, |cores|, p, n);
      RowTokensRoundTrip(now[p], x, shapes[n - 1], grid[n - 1], width);
      assert grid[n - 1][..width] == grid[n - 1];
      RowMovesOneCore(cores, now, ReadRowTokens(now[p], x, shapes[n - 1], width).1, probs, shapes, grid, width, n);
      assert grid[..n] == grid[..n - 1] + [grid[n - 1]];
    }
  }

  lemma NothingServed(cores: seq<Core>, probs: CoeffProbs, shapes: ShapeGrid, grid: ResidueGrid, width: nat)
    requires |cores| > 0 && |grid| == |shapes| && IsGrid(grid, width) && IsGrid(shapes, width)
    ensures AllAfter(cores, cores, probs, shapes, grid, width, 0)
  {
    forall p | 0 <= p < |cores|
      ensures After(cores[p], PartitionTokens(probs, shapes, grid, width, |cores|, p, 0)) == cores[p]
    {
      ServesNone(cores[p]);
    }
  }

  /** Frame token round trip, exactly: for any number of partitions, parsing what the printer emits gives
      back every macroblock's coefficients and flags if and only if the frame is consistent. */
  lemma TokenGridRoundTrip(cores: seq<Core>, probs: CoeffProbs, shapes: ShapeGrid, grid: ResidueGrid, width: nat)
    requires |cores| > 0 && |grid| == |shapes| && IsGrid(grid, width) && IsGrid(shapes, width)
    requires GridCodable(probs, shapes, grid, width)
    requires AllServe(cores, probs, shapes, grid, width, |grid|)
    ensures ReadTokenGrid(cores, probs, shapes, width, |grid|).0 == grid
            <==> GridConsistent(probs, shapes, grid, width)
  {
    hide ReadTokenGrid, AllServe, GridCodable, RowConsistent;
    if GridConsistent(probs, shapes, grid, width) {
      ConsistentGridRoundTrip(cores, probs, shapes, grid, width, |grid|);
      assert grid[..|grid|] == grid;
    }
    ReadGridConsistent(cores, probs, shapes, width, |grid|);
  }
}
