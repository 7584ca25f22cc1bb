/** Rasters with a margin wide enough that the encoder's motion search need not clamp coordinates
    (src/decoder/safe_raster.cc, src/decoder/vp8_raster.hh, src/decoder/prediction.cc). */
module SafeRasters {
  import opened BoolCoding
  import opened MotionVectors
  import opened InterPrediction

  const MARGIN_WIDTH: int := 256

  /** Column (or row) x of a plane with n columns is inside the margin. */
  predicate InMargin(x: int, n: nat) {
    -MARGIN_WIDTH <= x < n + MARGIN_WIDTH
  }

  /** One row of the plane between its two margins. */
  function ExtendedRow(p: Plane, row: nat): (line: seq<Octet>)
    requires row < p.height
    ensures |line| == p.width + 2 * MARGIN_WIDTH
  {
    OffsetOrder(row, p.height, p.width);
    seq<Octet>(MARGIN_WIDTH, _ => At(p, 0, row))
    + p.data[Offset(row, p.width)..Offset(row, p.width) + p.width]
    + seq<Octet>(MARGIN_WIDTH, _ => At(p, p.width - 1, row))
  }

  /** Inside the margin, the row is the row continued by its edges. */
  lemma ExtendedRowAt(p: Plane, row: nat, column: int)
    requires row < p.height && InMargin(column, p.width)
    ensures ExtendedRow(p, row)[column + MARGIN_WIDTH] == EdgeAt(p, column, row)
  {
    hide Offset;
    OffsetOrder(row, p.height, p.width);
    ExtendedParts(p, row, column);
  }

  lemma ExtendedParts(p: Plane, row: nat, column: int)
    requires row < p.height && InMargin(column, p.width) && Offset(row, p.width) + p.width <= |p.data|
    ensures ExtendedRow(p, row)[column + MARGIN_WIDTH]
            == if column < 0 then At(p, 0, row)
               else if column < p.width then p.data[Offset(row, p.width) + column]
               else At(p, p.width - 1, row)
  {
    hide Offset, At;
  }

  class SafeRaster {
    var safeY: seq<seq<Octet>>
    const width: nat
    const height: nat

    ghost predicate Holds(p: Plane)
      reads this
    {
      && width == p.width && height == p.height && |safeY| == p.height + 2 * MARGIN_WIDTH
      && forall r :: 0 <= r < |safeY| ==>
           safeY[r] == ExtendedRow(p, Bounded(r - MARGIN_WIDTH, p.height))
    }

    constructor (source: Plane)
      ensures Holds(source)
    {
      width, height := source.width, source.height;
      safeY := [];
      new;
      CopyRaster(source);
    }

    /** Nine regions: the image in the middle, its edges and corners repeated around it. */
    method CopyRaster(source: Plane)
      requires width == source.width && height == source.height
      modifies this
      ensures Holds(source)
    {
      hide ExtendedRow;
      safeY := [];
      for nrow := 0 to source.height + 2 * MARGIN_WIDTH
        invariant |safeY| == nrow
        invariant forall r :: 0 <= r < nrow ==>
                    safeY[r] == ExtendedRow(source, Bounded(r - MARGIN_WIDTH, source.height))
      {
        if nrow < MARGIN_WIDTH {
          safeY := safeY + [ExtendedRow(source, 0)];
        } else if nrow >= MARGIN_WIDTH + source.height {
          safeY := safeY + [ExtendedRow(source, source.height - 1)];
        } else {
          safeY := safeY + [ExtendedRow(source, nrow - MARGIN_WIDTH)];
        }
      }
    }

    function At(ghost p: Plane, column: int, row: int): (pixel: Octet)
      requires Holds(p) && InMargin(column, p.width) && InMargin(row, p.height)
      reads this
      ensures pixel == EdgeAt(p, column, row)
    {
      ExtendedRowAt(p, Bounded(row, p.height), column);
      BoundedTwice(row, p.height);
      safeY[row + MARGIN_WIDTH][column + MARGIN_WIDTH]
    }

    /** One result of the horizontal pass alone. */
    function HorizontalAt(ghost p: Plane, mx: Fraction, c: int, r: int): (pixel: Octet)
      requires Holds(p) && InMargin(c - 2, p.width) && InMargin(c + 3, p.width) && InMargin(r, p.height)
      reads this
      ensures pixel == Horizontal(Edges(p), mx, c, r)
    {
      SixTap(mx, At(p, c - 2, r), At(p, c - 1, r), At(p, c, r), At(p, c + 1, r), At(p, c + 2, r), At(p, c + 3, r))
    }

    /** All taps of a pixel are inside the margin. */
    ghost predicate TapsInMargin(p: Plane, c: int, r: int) {
      InMargin(c - 2, p.width) && InMargin(c + 3, p.width) && InMargin(r - 2, p.height) && InMargin(r + 3, p.height)
    }

    /** One pixel, leaving out a pass whose fraction is zero. */
    function PixelAt(ghost p: Plane, mx: Fraction, my: Fraction, c: int, r: int): (pixel: Octet)
      requires Holds(p) && TapsInMargin(p, c, r)
      reads this
      ensures pixel == TwoPass(Edges(p), mx, my, c, r)
    {
      PassesDropped(Edges(p), mx, my, c, r);
      if mx == 0 && my == 0 then At(p, c, r)
      else if mx != 0 && my != 0 then
        SixTap(my, HorizontalAt(p, mx, c, r - 2), HorizontalAt(p, mx, c, r - 1), HorizontalAt(p, mx, c, r),
               HorizontalAt(p, mx, c, r + 1), HorizontalAt(p, mx, c, r + 2), HorizontalAt(p, mx, c, r + 3))
      else if mx != 0 then HorizontalAt(p, mx, c, r)
      else SixTap(my, At(p, c, r - 2), At(p, c, r - 1), At(p, c, r), At(p, c, r + 1), At(p, c, r + 2), At(p, c, r + 3))
    }

    method PredictRow(ghost p: Plane, mv: MotionVector, sourceColumn: int, sourceRow: int, size: BlockSize, row: nat)
      returns (line: seq<Octet>)
      requires Holds(p) && row < size
      requires InMargin(sourceColumn - 2, p.width) && InMargin(sourceColumn + size + 2, p.width)
      requires InMargin(sourceRow - 2, p.height) && InMargin(sourceRow + size + 2, p.height)
      ensures |line| == size && forall c :: 0 <= c < size ==> line[c] == Predicted(p, sourceColumn, sourceRow, mv, c, row)
    {
      hide TwoPass, ExtendedRow, Holds;
      line := [];
      for column := 0 to size
        invariant |line| == column
        invariant forall c :: 0 <= c < column ==> line[c] == Predicted(p, sourceColumn, sourceRow, mv, c, row)
      {
        line := line + [PixelAt(p, Part(mv.x), Part(mv.y), sourceColumn + column, sourceRow + row)];
      }
    }

    /** Predicts a block. Where all taps are inside the margin this is what the decoder predicts. */
    method InterPredict(ghost p: Plane, mv: MotionVector, sourceColumn: int, sourceRow: int, size: BlockSize)
      returns (block: seq<seq<Octet>>)
      requires Holds(p)
      requires InMargin(sourceColumn - 2, p.width) && InMargin(sourceColumn + size + 2, p.width)
      requires InMargin(sourceRow - 2, p.height) && InMargin(sourceRow + size + 2, p.height)
      ensures |block| == size && forall r :: 0 <= r < size ==> |block[r]| == size
      ensures forall r, c :: 0 <= r < size && 0 <= c < size ==>
                block[r][c] == Predicted(p, sourceColumn, sourceRow, mv, c, r)
    {
      hide Predicted, Holds;
      block := [];
      for row := 0 to size
        invariant |block| == row && forall r :: 0 <= r < row ==> |block[r]| == size
        invariant forall r, c :: 0 <= r < row && 0 <= c < size ==>
                    block[r][c] == Predicted(p, sourceColumn, sourceRow, mv, c, r)
      {
        var line := PredictRow(p, mv, sourceColumn, sourceRow, size, row);
        block := block + [line];
      }
    }
  }

  lemma BoundedTwice(x: int, limit: nat)
    requires limit > 0
    ensures Bounded(Bounded(x, limit), limit) == Bounded(x, limit)
  {}
}
