/** The loops that predict a block (src/decoder/prediction.cc): over clamped coordinates, or by walking
    pointers through the reference and the destination. */
module InterPredictor {
  import opened Wrappers
  import opened BoolCoding
  import opened MotionVectors
  import opened InterPrediction

  /** The rows of the block fit into the destination. */
  predicate Fits(length: nat, d: nat, stride: nat, size: nat) {
    size <= stride && d + Offset(size, stride) <= length + (stride - size)
  }

  lemma RowFits(length: nat, d: nat, stride: nat, size: nat, r: nat)
    requires Fits(length, d, stride, size) && r < size
    ensures d + Offset(r, stride) + size <= length
  {
    OffsetStep(size - 1, stride);
    if r < size - 1 { OffsetOrder(r, size - 1, stride); }
  }

  /** memcpy. */
  method CopyRow(dst: array<Octet>, d: nat, row: seq<Octet>)
    requires d + |row| <= dst.Length
    modifies dst
    ensures dst[..] == Spliced(old(dst[..]), d, row)
  {
    for k := 0 to |row|
      invariant dst[..] == Spliced(old(dst[..]), d, row[..k])
    {
      ghost var was := dst[..];
      dst[d + k] := row[k];
      OneMore(old(dst[..]), was, d, row, k);
    }
    assert row[..|row|] == row;
  }

  /** A row of the plane, when there is nothing to filter. */
  lemma CopiedRow(p: Plane, sourceColumn: nat, sourceRow: nat, mv: MotionVector, size: BlockSize, r: nat, c: nat)
    requires sourceColumn + size <= p.width && sourceRow + size <= p.height && r < size && c < size
    requires Part(mv.x) == 0 && Part(mv.y) == 0
    ensures var s := Offset(sourceRow, p.width) + sourceColumn;
            s + Offset(r, p.width) + c < |p.data|
            && p.data[s + Offset(r, p.width) + c] == Predicted(p, sourceColumn, sourceRow, mv, c, r)
  {
    hide EdgeAt, TwoPass, Offset;
    TapRow(p, sourceColumn, sourceRow, r, c);
    PassesDropped(Edges(p), 0, 0, sourceColumn + c, sourceRow + r);
  }

  method CopyBlock(
      p: Plane, out: array<Octet>, d: nat, mv: MotionVector, sourceColumn: nat, sourceRow: nat, size: BlockSize)
    requires Fits(out.Length, d, p.width, size) && sourceColumn + size <= p.width && sourceRow + size <= p.height
    requires Part(mv.x) == 0 && Part(mv.y) == 0
    modifies out
    ensures BlockDone(out[..], old(out[..]), d, p.width, p, sourceColumn, sourceRow, mv, size, size)
  {
    hide BlockDone, Predicted, Offset;
    ghost var was := out[..];
    NothingDone(was, d, p.width, p, sourceColumn, sourceRow, mv, size);
    OffsetStep(0, p.width);
    var destination, source := d, Offset(sourceRow, p.width) + sourceColumn;
    for r := 0 to size
      invariant destination == d + Offset(r, p.width)
      invariant source == Offset(sourceRow, p.width) + sourceColumn + Offset(r, p.width)
      invariant BlockDone(out[..], was, d, p.width, p, sourceColumn, sourceRow, mv, size, r)
    {
      RowFits(out.Length, d, p.width, size, r);
      CopiedRow(p, sourceColumn, sourceRow, mv, size, r, size - 1);
      ghost var before := out[..];
      var row := p.data[source..source + size];
      forall c | 0 <= c < size ensures row[c] == Predicted(p, sourceColumn, sourceRow, mv, c, r) {
        CopiedRow(p, sourceColumn, sourceRow, mv, size, r, c);
      }
      CopyRow(out, destination, row);
      RowDone(out[..], before, was, d, p.width, p, sourceColumn, sourceRow, mv, size, r, row);
      OffsetStep(r, p.width);
      destination := destination + p.width;
      source := source + p.width;
    }
  }

  /** The first pass: the rows of the intermediate block, one after another. */
  method FirstPassRows(p: Plane, mx: Fraction, sourceColumn: int, sourceRow: int, size: BlockSize)
    returns (intermediate: array<Octet>)
    requires InBounds(p, sourceColumn, sourceRow, size)
    ensures fresh(intermediate) && intermediate[..] == Intermediate(p, sourceColumn, sourceRow, size, mx)
  {
    hide TapAt, Offset, PassRow, Stacked, InBounds, Spliced;
    intermediate := new Octet[Offset(size + 5, size)](_ => 0);
    ghost var top := TopLeft(p, sourceColumn, sourceRow, size);
    StackedStart(p, sourceColumn, sourceRow, size, mx);
    OffsetStep(0, size);
    OffsetStep(0, p.width);
    var rowStart, source := 0, Offset(sourceRow - 2, p.width) + (sourceColumn - 2);
    for r := 0 to size + 5
      invariant rowStart == Offset(r, size) <= intermediate.Length && source == top + Offset(r, p.width)
      invariant r > 0 ==> top + Offset(r - 1, p.width) + 5 + size <= |p.data|
      invariant intermediate[..rowStart] == Stacked(mx, p.data, top, p.width, size, r)
    {
      RoomForPasses(p, sourceColumn, sourceRow, size, r);
      OffsetOrder(r, size + 5, size);
      OffsetStep(r, size);
      OffsetStep(r, p.width);
      ghost var before := intermediate[..];
      FilterRow(intermediate, rowStart, p.data, source, 1, mx, size);
      StackGrows(intermediate[..], before, rowStart, PassRow(mx, p.data, source, 1, size));
      StackedStep(mx, p.data, top, p.width, size, r);
      rowStart := rowStart + size;
      source := source + p.width;
    }
    assert intermediate[..rowStart] == intermediate[..];
  }

  lemma StackedStart(p: Plane, sourceColumn: int, sourceRow: int, size: BlockSize, mx: Fraction)
    requires InBounds(p, sourceColumn, sourceRow, size)
    ensures sourceRow >= 2 && sourceColumn >= 2 && size <= p.width
    ensures Stacked(mx, p.data, TopLeft(p, sourceColumn, sourceRow, size), p.width, size, 0) == []
  {}

  lemma StackedStep(mx: Fraction, src: seq<Octet>, s: nat, stride: nat, size: nat, n: nat)
    requires size <= stride && s + Offset(n, stride) + 5 + size <= |src|
    requires n > 0 ==> s + Offset(n - 1, stride) + 5 + size <= |src|
    ensures Stacked(mx, src, s, stride, size, n + 1)
            == Stacked(mx, src, s, stride, size, n) + PassRow(mx, src, s + Offset(n, stride), 1, size)
  {
    hide PassRow, Offset;
  }

  lemma StackGrows(now: seq<Octet>, before: seq<Octet>, at: nat, row: seq<Octet>)
    requires at + |row| <= |before| && now == Spliced(before, at, row)
    ensures now[..at + |row|] == before[..at] + row
  {}

  /** Walks pointers; all taps must be inside the plane. */
  method UnsafeInterPredict(
      p: Plane, out: array<Octet>, d: nat, mv: MotionVector, sourceColumn: int, sourceRow: int, size: BlockSize)
    requires Fits(out.Length, d, p.width, size) && InBounds(p, sourceColumn, sourceRow, size)
    modifies out
    ensures BlockDone(out[..], old(out[..]), d, p.width, p, sourceColumn, sourceRow, mv, size, size)
  {
    hide BlockDone, Offset, Intermediate, PassRow, TapAt;
    var mx, my := Part(mv.x), Part(mv.y);
    if mx == 0 && my == 0 {
      CopyBlock(p, out, d, mv, sourceColumn, sourceRow, size);
      return;
    }
    ghost var was := out[..];
    var intermediate := FirstPassRows(p, mx, sourceColumn, sourceRow, size);
    NothingDone(was, d, p.width, p, sourceColumn, sourceRow, mv, size);
    OffsetStep(0, p.width);
    OffsetStep(0, size);
    var destination, rowStart := d, 0;
    for r := 0 to size
      invariant destination == d + Offset(r, p.width) && rowStart == Offset(r, size)
      invariant intermediate[..] == Intermediate(p, sourceColumn, sourceRow, size, mx)
      invariant BlockDone(out[..], was, d, p.width, p, sourceColumn, sourceRow, mv, size, r)
    {
      RowFits(out.Length, d, p.width, size, r);
      SecondPass(p, sourceColumn, sourceRow, size, mx, my, r, size - 1);
      ghost var before := out[..];
      FilterRow(out, destination, intermediate[..], rowStart, size, my, size);
      ghost var row := PassRow(my, intermediate[..], rowStart, size, size);
      SecondPassRow(p, sourceColumn, sourceRow, size, mv, r, row);
      RowDone(out[..], before, was, d, p.width, p, sourceColumn, sourceRow, mv, size, r, row);
      OffsetStep(r, p.width);
      OffsetStep(r, size);
      destination := destination + p.width;
      rowStart := rowStart + size;
    }
  }

  lemma SecondPassRow(p: Plane, sourceColumn: int, sourceRow: int, size: BlockSize, mv: MotionVector, r: nat, row: seq<Octet>)
    requires InBounds(p, sourceColumn, sourceRow, size) && r < size
    requires var i := Intermediate(p, sourceColumn, sourceRow, size, Part(mv.x));
             Offset(r, size) + 6 * size <= |i| && row == PassRow(Part(mv.y), i, Offset(r, size), size, size)
    ensures forall c :: 0 <= c < size ==> row[c] == Predicted(p, sourceColumn, sourceRow, mv, c, r)
  {
    hide Offset, Intermediate, TapAt, TwoPass;
    forall c | 0 <= c < size ensures row[c] == Predicted(p, sourceColumn, sourceRow, mv, c, r) {
      SecondPass(p, sourceColumn, sourceRow, size, Part(mv.x), Part(mv.y), r, c);
    }
  }

  // ----- The path over clamped coordinates -----

  /** The rows of the first pass. */
  method FilterHorizontally(at: Lookup, mx: Fraction, sourceColumn: int, sourceRow: int, size: BlockSize)
    returns (intermediate: seq<seq<Octet>>)
    ensures |intermediate| == size + 5
    ensures forall r :: 0 <= r < size + 5 ==>
              intermediate[r] == HorizontalRow(at, mx, sourceColumn, sourceRow + r - 2, size)
  {
    hide SixTap;
    intermediate := [];
    for row := 0 to size + 5
      invariant |intermediate| == row
      invariant forall r :: 0 <= r < row ==>
                  intermediate[r] == HorizontalRow(at, mx, sourceColumn, sourceRow + r - 2, size)
    {
      var line: seq<Octet> := [];
      ghost var whole := HorizontalRow(at, mx, sourceColumn, sourceRow + row - 2, size);
      for column := 0 to size
        invariant line == whole[..column]
      {
        assert whole[column] == Horizontal(at, mx, sourceColumn + column, sourceRow + row - 2);
        var realRow, realColumn := sourceRow + row - 2, sourceColumn + column;
        line := line + [
          SixTap(mx, at(realColumn - 2, realRow), at(realColumn - 1, realRow), at(realColumn, realRow),
                 at(realColumn + 1, realRow), at(realColumn + 2, realRow), at(realColumn + 3, realRow))];
      }
      intermediate := intermediate + [line];
    }
  }

  function HorizontalRow(at: Lookup, mx: Fraction, sourceColumn: int, row: int, size: BlockSize): (line: seq<Octet>)
    ensures |line| == size
  {
    seq<Octet>(size, c => Horizontal(at, mx, sourceColumn + c, row))
  }

  /** Row r of the block. */
  function PredictedRow(p: Plane, sourceColumn: int, sourceRow: int, mv: MotionVector, size: BlockSize, r: nat): (line: seq<Octet>)
    ensures |line| == size
  {
    seq<Octet>(size, c requires 0 <= c < size => Predicted(p, sourceColumn, sourceRow, mv, c, r))
  }

  method SafeRow(
      p: Plane, intermediate: seq<seq<Octet>>, out: array<Octet>, d: nat, sourceColumn: int, sourceRow: int,
      mv: MotionVector, size: BlockSize, r: nat)
    requires r < size && d + size <= out.Length && |intermediate| == size + 5
    requires forall k :: 0 <= k < size + 5 ==>
               intermediate[k] == HorizontalRow(Edges(p), Part(mv.x), sourceColumn, sourceRow + k - 2, size)
    modifies out
    ensures out[..] == Spliced(old(out[..]), d, PredictedRow(p, sourceColumn, sourceRow, mv, size, r))
  {
    hide SixTap, EdgeAt, Horizontal;
    ghost var row := PredictedRow(p, sourceColumn, sourceRow, mv, size, r);
    for column := 0 to size
      invariant out[..] == Spliced(old(out[..]), d, row[..column])
    {
      ghost var was := out[..];
      out[d + column] :=
        SixTap(Part(mv.y), intermediate[r][column], intermediate[r + 1][column], intermediate[r + 2][column],
               intermediate[r + 3][column], intermediate[r + 4][column], intermediate[r + 5][column]);
      OneMore(old(out[..]), was, d, row, column);
    }
    assert row[..size] == row;
  }

  method SafeInterPredict(
      p: Plane, out: array<Octet>, d: nat, mv: MotionVector, sourceColumn: int, sourceRow: int, size: BlockSize)
    requires Fits(out.Length, d, p.width, size)
    modifies out
    ensures BlockDone(out[..], old(out[..]), d, p.width, p, sourceColumn, sourceRow, mv, size, size)
  {
    hide BlockDone, Offset, EdgeAt, Predicted;
    ghost var was := out[..];
    NothingDone(was, d, p.width, p, sourceColumn, sourceRow, mv, size);
    OffsetStep(0, p.width);
    var plain := Part(mv.x) == 0 && Part(mv.y) == 0;
    var intermediate: seq<seq<Octet>> := [];
    if !plain {
      intermediate := FilterHorizontally(Edges(p), Part(mv.x), sourceColumn, sourceRow, size);
    }
    for r := 0 to size
      invariant BlockDone(out[..], was, d, p.width, p, sourceColumn, sourceRow, mv, size, r)
    {
      RowFits(out.Length, d, p.width, size, r);
      ghost var before := out[..];
      if plain {
        PlainRow(p, out, d + Offset(r, p.width), mv, sourceColumn, sourceRow, size, r);
      } else {
        SafeRow(p, intermediate, out, d + Offset(r, p.width), sourceColumn, sourceRow, mv, size, r);
      }
      RowDone(out[..], before, was, d, p.width, p, sourceColumn, sourceRow, mv, size, r,
              PredictedRow(p, sourceColumn, sourceRow, mv, size, r));
    }
  }

  lemma PlainPixel(p: Plane, sourceColumn: int, sourceRow: int, mv: MotionVector, size: BlockSize, r: nat, c: nat)
    requires c < size && Part(mv.x) == 0 && Part(mv.y) == 0
    ensures PredictedRow(p, sourceColumn, sourceRow, mv, size, r)[c] == EdgeAt(p, sourceColumn + c, sourceRow + r)
  {
    hide EdgeAt, TwoPass;
    PassesDropped(Edges(p), 0, 0, sourceColumn + c, sourceRow + r);
  }

  method PlainRow(
      p: Plane, out: array<Octet>, d: nat, mv: MotionVector, sourceColumn: int, sourceRow: int, size: BlockSize, r: nat)
    requires r < size && d + size <= out.Length && Part(mv.x) == 0 && Part(mv.y) == 0
    modifies out
    ensures out[..] == Spliced(old(out[..]), d, PredictedRow(p, sourceColumn, sourceRow, mv, size, r))
  {
    hide EdgeAt, PredictedRow, Part;
    ghost var row := PredictedRow(p, sourceColumn, sourceRow, mv, size, r);
    for column := 0 to size
      invariant out[..] == Spliced(old(out[..]), d, row[..column])
    {
      ghost var was := out[..];
      out[d + column] := EdgeAt(p, sourceColumn + column, sourceRow + r);
      PlainPixel(p, sourceColumn, sourceRow, mv, size, r, column);
      OneMore(old(out[..]), was, d, row, column);
    }
    assert row[..size] == row;
  }

  // ----- The choice -----

  /** Predicts the block at (column, row) of the grid of blocks. Whichever path is taken, every pixel is
      that of two-pass filtering over clamped coordinates, and nothing outside the block changes. */
  method InterPredict(
      p: Plane, out: array<Octet>, d: nat, mv: MotionVector, column: nat, row: nat, size: BlockSize)
    requires Fits(out.Length, d, p.width, size)
    modifies out
    ensures BlockDone(out[..], old(out[..]), d, p.width, p, column * size + Whole(mv.x), row * size + Whole(mv.y), mv, size, size)
  {
    hide BlockDone;
    var sourceColumn, sourceRow := column * size + Whole(mv.x), row * size + Whole(mv.y);
    if sourceColumn - 2 < 0
       || sourceColumn + size + 3 > p.width
       || sourceRow - 2 < 0
       || sourceRow + size + 3 > p.height {
      SafeInterPredict(p, out, d, mv, sourceColumn, sourceRow, size);
    } else {
      UnsafeInterPredict(p, out, d, mv, sourceColumn, sourceRow, size);
    }
  }
}
