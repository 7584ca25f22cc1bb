/** Inter prediction: six-tap filtering of a reference plane at a fractional position, by walking pointers
    where all taps are in bounds, and over clamped coordinates elsewhere (src/decoder/prediction.cc,
    src/decoder/vp8_raster.hh). */
module InterPrediction {
  import opened Wrappers
  import opened BoolCoding
  import opened MotionVectors

  // ----- Planes -----

  /** The distance between the starts of two rows r apart. */
  function Offset(r: nat, stride: nat): nat {
    if r == 0 then 0 else Offset(r - 1, stride) + stride
  }

  lemma {:induction false} OffsetAdd(a: nat, b: nat, stride: nat)
    ensures Offset(a + b, stride) == Offset(a, stride) + Offset(b, stride)
  {
    if b != 0 { OffsetAdd(a, b - 1, stride); }
  }

  lemma {:induction false} OffsetOrder(a: nat, b: nat, stride: nat)
    requires a < b
    ensures Offset(a, stride) + stride <= Offset(b, stride)
  {
    if a < b - 1 { OffsetOrder(a, b - 1, stride); }
  }

  lemma OffsetStep(r: nat, stride: nat)
    ensures Offset(r + 1, stride) == Offset(r, stride) + stride
    ensures Offset(0, stride) == 0
  {}

  datatype RawPlane = Plane(width: nat, height: nat, data: seq<Octet>)
  type Plane = p: RawPlane | p.width > 0 && p.height > 0 && |p.data| == Offset(p.height, p.width)
    witness Plane(1, 1, [0])

  function At(p: Plane, column: nat, row: nat): Octet
    requires column < p.width && row < p.height
  {
    OffsetOrder(row, p.height, p.width);
    p.data[Offset(row, p.width) + column]
  }

  function Bounded(x: int, limit: nat): (y: nat)
    requires limit > 0
    ensures y < limit && (0 <= x < limit ==> y == x)
  {
    if x < 0 then 0 else if x > limit - 1 then limit - 1 else x
  }

  /** The nearest number that is an index. */
  lemma BoundedIsNearest(x: int, limit: nat, y: nat)
    requires y < limit
    ensures var b := Bounded(x, limit);
            if x < b then b - x <= y - x else x - b <= (if x < y then y - x else x - y)
  {}

  /** A pixel of the plane continued by its edges. */
  function EdgeAt(p: Plane, column: int, row: int): Octet {
    At(p, Bounded(column, p.width), Bounded(row, p.height))
  }

  // ----- Filters -----

  const SIXTAP_FILTERS: seq<seq<int>> := [
    [0, 0, 128, 0, 0, 0],
    [0, -6, 123, 12, -1, 0],
    [2, -11, 108, 36, -8, 1],
    [0, -9, 93, 50, -6, 0],
    [3, -16, 77, 77, -16, 3],
    [0, -6, 50, 93, -9, 0],
    [1, -8, 36, 108, -11, 2],
    [0, -1, 12, 123, -6, 0]
  ]

  type Fraction = f: nat | f < 8

  function Clamp255(x: int): Octet {
    if x < 0 then 0 else if x > 255 then 255 else x
  }

  function SixTap(f: Fraction, a: Octet, b: Octet, c: Octet, d: Octet, e: Octet, g: Octet): Octet {
    var t := SIXTAP_FILTERS[f];
    Clamp255((a * t[0] + b * t[1] + c * t[2] + d * t[3] + e * t[4] + g * t[5] + 64) / 128)
  }

  /** A fraction of zero leaves the pixel as it is. */
  lemma ZeroFraction(a: Octet, b: Octet, c: Octet, d: Octet, e: Octet, g: Octet)
    ensures SixTap(0, a, b, c, d, e, g) == c
  {}

  /** The taps of every filter add up to 128: a flat area stays as it is. */
  lemma FlatStaysFlat(f: Fraction, a: Octet)
    ensures SixTap(f, a, a, a, a, a, a) == a
  {
    var t := SIXTAP_FILTERS[f];
    assert t[0] + t[1] + t[2] + t[3] + t[4] + t[5] == 128;
    Gathered(a, t[0], t[1], t[2], t[3], t[4], t[5]);
  }

  lemma Gathered(a: int, t0: int, t1: int, t2: int, t3: int, t4: int, t5: int)
    requires t0 + t1 + t2 + t3 + t4 + t5 == 128
    ensures a * t0 + a * t1 + a * t2 + a * t3 + a * t4 + a * t5 == 128 * a
  {
    assert a * t0 + a * t1 + a * t2 + a * t3 + a * t4 + a * t5 == a * (t0 + t1 + t2 + t3 + t4 + t5);
  }

  /** The pixels, weighted: the weights add up to 128. */
  function WeightedSum(f: Fraction, pixels: seq<Octet>, n: nat): int
    requires n <= |pixels| == 6
  {
    if n == 0 then 0 else WeightedSum(f, pixels, n - 1) + SIXTAP_FILTERS[f][n - 1] * pixels[n - 1]
  }

  lemma SixTerms(f: Fraction, a: Octet, b: Octet, c: Octet, d: Octet, e: Octet, g: Octet)
    ensures WeightedSum(f, [a, b, c, d, e, g], 6)
            == a * SIXTAP_FILTERS[f][0] + b * SIXTAP_FILTERS[f][1] + c * SIXTAP_FILTERS[f][2]
               + d * SIXTAP_FILTERS[f][3] + e * SIXTAP_FILTERS[f][4] + g * SIXTAP_FILTERS[f][5]
  {
    var t, s := SIXTAP_FILTERS[f], [a, b, c, d, e, g];
    hide WeightedSum;
    SumStep(f, s, 0); SumStep(f, s, 1); SumStep(f, s, 2); SumStep(f, s, 3); SumStep(f, s, 4); SumStep(f, s, 5);
    assert t[0] * a == a * t[0] && t[1] * b == b * t[1] && t[2] * c == c * t[2];
    assert t[3] * d == d * t[3] && t[4] * e == e * t[4] && t[5] * g == g * t[5];
  }

  lemma SumStep(f: Fraction, pixels: seq<Octet>, n: nat)
    requires n < |pixels| == 6
    ensures WeightedSum(f, pixels, 0) == 0
    ensures WeightedSum(f, pixels, n + 1) == WeightedSum(f, pixels, n) + SIXTAP_FILTERS[f][n] * pixels[n]
  {}

  /** The result is the weighted mean, rounded to the nearest number, upwards in case of a tie, and clamped to what a
      pixel can hold. No other number satisfies this. */
  lemma RoundsToNearest(f: Fraction, a: Octet, b: Octet, c: Octet, d: Octet, e: Octet, g: Octet)
    ensures var sum, r := WeightedSum(f, [a, b, c, d, e, g], 6), SixTap(f, a, b, c, d, e, g);
            && (0 <= sum <= 128 * 255 ==> -64 < 128 * r - sum <= 64)
            && (sum < 0 ==> r == 0) && (sum > 128 * 255 ==> r == 255)
  {
    hide WeightedSum;
    SixTerms(f, a, b, c, d, e, g);
    RoundedQuotient(WeightedSum(f, [a, b, c, d, e, g], 6));
  }

  lemma RoundedQuotient(sum: int)
    ensures var r := Clamp255((sum + 64) / 128);
            && (0 <= sum <= 128 * 255 ==> -64 < 128 * r - sum <= 64)
            && (sum < 0 ==> r == 0) && (sum > 128 * 255 ==> r == 255)
  {}

  /** Seen from the other side, a fraction is what is left of a whole pixel. */
  lemma Mirrored(f: Fraction, a: Octet, b: Octet, c: Octet, d: Octet, e: Octet, g: Octet)
    requires f > 0
    ensures SixTap(f, a, b, c, d, e, g) == SixTap(8 - f, g, e, d, c, b, a)
  {
    var t, u := SIXTAP_FILTERS[f], SIXTAP_FILTERS[8 - f];
    assert t[0] == u[5] && t[1] == u[4] && t[2] == u[3] && t[3] == u[2] && t[4] == u[1] && t[5] == u[0];
  }

  /** The weight of the three pixels on the far side. */
  function FarWeight(f: Fraction): int {
    SIXTAP_FILTERS[f][3] + SIXTAP_FILTERS[f][4] + SIXTAP_FILTERS[f][5]
  }

  lemma FarWeightGrows(f: Fraction)
    ensures 0 <= FarWeight(f) < 128 && (f > 0 ==> FarWeight(f - 1) < FarWeight(f))
  {}

  lemma EdgeSum(f: Fraction, x: Octet, y: Octet)
    ensures WeightedSum(f, [x, x, x, y, y, y], 6) == 128 * x + FarWeight(f) * (y - x)
  {
    var t := SIXTAP_FILTERS[f];
    assert t[0] + t[1] + t[2] == 128 - FarWeight(f);
    SixTerms(f, x, x, x, y, y, y);
    hide WeightedSum, FarWeight;
    Gathered3(x, t[0], t[1], t[2]);
    Gathered3(y, t[3], t[4], t[5]);
    EdgeProducts(x, y, t[0] + t[1] + t[2], t[3] + t[4] + t[5]);
    FarWeightIs(f);
  }

  lemma FarWeightIs(f: Fraction)
    ensures FarWeight(f) == SIXTAP_FILTERS[f][3] + SIXTAP_FILTERS[f][4] + SIXTAP_FILTERS[f][5]
  {}

  lemma Gathered3(x: int, a: int, b: int, c: int)
    ensures x * a + x * b + x * c == x * (a + b + c)
  {}

  lemma EdgeProducts(x: int, y: int, near: int, far: int)
    requires near == 128 - far
    ensures x * near + y * far == 128 * x + far * (y - x)
  {
    assert x * near == x * 128 - x * far;
    assert far * (y - x) == far * y - far * x;
  }

  /** Across a rising edge, the larger the fraction the brighter the pixel, from one side to the other. */
  lemma BrighterAcrossEdge(f: Fraction, x: Octet, y: Octet)
    requires x <= y
    ensures x <= SixTap(f, x, x, x, y, y, y) <= y
    ensures f > 0 ==> SixTap(f - 1, x, x, x, y, y, y) <= SixTap(f, x, x, x, y, y, y)
  {
    hide WeightedSum, SixTap, FarWeight;
    FarWeightGrows(f);
    RoundsToNearest(f, x, x, x, y, y, y);
    EdgeSum(f, x, y);
    WeightOrder(0, FarWeight(f), 128, y - x);
    if f > 0 {
      FarWeightGrows(f - 1);
      RoundsToNearest(f - 1, x, x, x, y, y, y);
      EdgeSum(f - 1, x, y);
      WeightOrder(0, FarWeight(f - 1), FarWeight(f), y - x);
    }
  }

  lemma WeightOrder(a: int, b: int, c: int, d: nat)
    requires a <= b <= c
    ensures a * d <= b * d <= c * d
  {}

  type Lookup = (int, int) -> Octet

  function Horizontal(at: Lookup, mx: Fraction, c: int, r: int): Octet {
    SixTap(mx, at(c - 2, r), at(c - 1, r), at(c, r), at(c + 1, r), at(c + 2, r), at(c + 3, r))
  }

  /** Two-pass filtering: horizontally, then vertically. */
  function TwoPass(at: Lookup, mx: Fraction, my: Fraction, c: int, r: int): Octet {
    SixTap(my, Horizontal(at, mx, c, r - 2), Horizontal(at, mx, c, r - 1), Horizontal(at, mx, c, r),
           Horizontal(at, mx, c, r + 1), Horizontal(at, mx, c, r + 2), Horizontal(at, mx, c, r + 3))
  }

  /** Leaving out a pass whose fraction is zero changes nothing. */
  lemma PassesDropped(at: Lookup, mx: Fraction, my: Fraction, c: int, r: int)
    ensures mx == 0 && my == 0 ==> TwoPass(at, mx, my, c, r) == at(c, r)
    ensures my == 0 ==> TwoPass(at, mx, my, c, r) == Horizontal(at, mx, c, r)
    ensures mx == 0 ==>
              TwoPass(at, mx, my, c, r)
              == SixTap(my, at(c, r - 2), at(c, r - 1), at(c, r), at(c, r + 1), at(c, r + 2), at(c, r + 3))
  {
    hide SixTap;
    if my == 0 {
      ZeroFraction(Horizontal(at, mx, c, r - 2), Horizontal(at, mx, c, r - 1), Horizontal(at, mx, c, r),
                   Horizontal(at, mx, c, r + 1), Horizontal(at, mx, c, r + 2), Horizontal(at, mx, c, r + 3));
    }
    if mx == 0 {
      ZeroHorizontal(at, c, r - 2); ZeroHorizontal(at, c, r - 1); ZeroHorizontal(at, c, r);
      ZeroHorizontal(at, c, r + 1); ZeroHorizontal(at, c, r + 2); ZeroHorizontal(at, c, r + 3);
    }
  }

  lemma ZeroHorizontal(at: Lookup, c: int, r: int)
    ensures Horizontal(at, 0, c, r) == at(c, r)
  {
    hide SixTap;
    ZeroFraction(at(c - 2, r), at(c - 1, r), at(c, r), at(c + 1, r), at(c + 2, r), at(c + 3, r));
  }

  // ----- What is predicted -----

  function Edges(p: Plane): Lookup {
    (column, row) => EdgeAt(p, column, row)
  }

  function Whole(x: Int16): int {
    x / 8
  }

  function Part(x: Int16): Fraction {
    x % 8
  }

  /** Whole pixels and eighths. */
  lemma WholeAndPart(x: Int16)
    ensures x == 8 * Whole(x) + Part(x)
  {}

  /** Pixel (column, row) of the prediction from the place (sourceColumn, sourceRow) and a fraction. */
  function Predicted(p: Plane, sourceColumn: int, sourceRow: int, mv: MotionVector, column: nat, row: nat): Octet {
    TwoPass(Edges(p), Part(mv.x), Part(mv.y), sourceColumn + column, sourceRow + row)
  }

  type BlockSize = n: nat | n == 4 || n == 8 || n == 16 witness 4

  // ----- Rows of six-tap results -----

  /** One result, from position s of the source on, with taps `step` apart. */
  function TapAt(f: Fraction, src: seq<Octet>, s: nat, step: nat): Octet
    requires s + 5 * step < |src|
  {
    SixTap(f, src[s], src[s + step], src[s + 2 * step], src[s + 3 * step], src[s + 4 * step], src[s + 5 * step])
  }

  function PassRow(f: Fraction, src: seq<Octet>, s: nat, step: nat, n: nat): (row: seq<Octet>)
    requires s + 5 * step + n <= |src|
    ensures |row| == n
  {
    seq<Octet>(n, k requires 0 <= k < n => TapAt(f, src, s + k, step))
  }

  /** An array with a stretch of it replaced. */
  function Spliced(was: seq<Octet>, d: nat, row: seq<Octet>): (r: seq<Octet>)
    requires d + |row| <= |was|
    ensures |r| == |was|
    ensures r[d..d + |row|] == row
    ensures r[..d] == was[..d] && r[d + |row|..] == was[d + |row|..]
  {
    was[..d] + row + was[d + |row|..]
  }

  /** The inner loop of both passes: two pointers advance together. */
  method FilterRow(dst: array<Octet>, d: nat, src: seq<Octet>, s: nat, step: nat, f: Fraction, n: nat)
    requires d + n <= dst.Length && s + 5 * step + n <= |src|
    modifies dst
    ensures dst[..] == Spliced(old(dst[..]), d, PassRow(f, src, s, step, n))
  {
    hide TapAt;
    var destination, source := d, s;
    while destination != d + n
      invariant d <= destination <= d + n && source - s == destination - d
      invariant dst[..] == Spliced(old(dst[..]), d, PassRow(f, src, s, step, n)[..destination - d])
      decreases d + n - destination
    {
      ghost var was, row := dst[..], PassRow(f, src, s, step, n);
      dst[destination] := TapAt(f, src, source, step);
      OneMore(old(dst[..]), was, d, row, destination - d);
      destination := destination + 1;
      source := source + 1;
    }
    assert PassRow(f, src, s, step, n)[..n] == PassRow(f, src, s, step, n);
  }

  lemma OneMore(was: seq<Octet>, now: seq<Octet>, d: nat, row: seq<Octet>, k: nat)
    requires d + |row| <= |was| && k < |row| && now == Spliced(was, d, row[..k])
    ensures now[d + k := row[k]] == Spliced(was, d, row[..k + 1])
  {}

  // ----- Walking pointers -----

  /** The rows of the first pass, one after another. */
  function Stacked(mx: Fraction, src: seq<Octet>, s: nat, stride: nat, size: nat, n: nat): (i: seq<Octet>)
    requires size <= stride && (n > 0 ==> s + Offset(n - 1, stride) + 5 + size <= |src|)
    ensures |i| == Offset(n, size)
  {
    if n == 0 then []
    else
      OffsetStep(n - 1, size);
      Earlier(s, stride, size, |src|, n);
      Stacked(mx, src, s, stride, size, n - 1) + PassRow(mx, src, s + Offset(n - 1, stride), 1, size)
  }

  lemma Earlier(s: nat, stride: nat, size: nat, limit: nat, n: nat)
    requires n > 0 && s + Offset(n - 1, stride) + 5 + size <= limit
    ensures n > 1 ==> s + Offset(n - 2, stride) + 5 + size <= limit
  {
    if n > 1 { OffsetStep(n - 2, stride); }
  }

  lemma {:induction false} StackedAt(mx: Fraction, src: seq<Octet>, s: nat, stride: nat, size: nat, n: nat, r: nat, c: nat)
    requires size <= stride && r < n && c < size && s + Offset(n - 1, stride) + 5 + size <= |src|
    ensures Offset(r, size) + c < Offset(n, size) && s + Offset(r, stride) + 5 + size <= |src|
    ensures Stacked(mx, src, s, stride, size, n)[Offset(r, size) + c]
            == PassRow(mx, src, s + Offset(r, stride), 1, size)[c]
  {
    hide PassRow;
    OffsetStep(n - 1, size);
    Earlier(s, stride, size, |src|, n);
    if r < n - 1 {
      StackedAt(mx, src, s, stride, size, n - 1, r, c);
    }
  }

  /** All taps of the block are inside the plane: the test that chooses the path. */
  predicate InBounds(p: Plane, sourceColumn: int, sourceRow: int, size: BlockSize) {
    && sourceColumn - 2 >= 0 && sourceColumn + size + 3 <= p.width
    && sourceRow - 2 >= 0 && sourceRow + size + 3 <= p.height
  }

  /** A pixel inside the plane, read through a pointer. */
  lemma PointerIs(p: Plane, column: nat, row: nat)
    requires column < p.width && row < p.height
    ensures Offset(row, p.width) + column < |p.data|
    ensures p.data[Offset(row, p.width) + column] == EdgeAt(p, column, row)
  {
    OffsetOrder(row, p.height, p.width);
  }

  /** The pointer to the top left tap of a block, and the rows below. */
  lemma TapRow(p: Plane, column: nat, row: nat, r: nat, k: nat)
    requires column + k < p.width && row + r < p.height
    ensures var s := Offset(row, p.width) + column;
            s + Offset(r, p.width) + k < |p.data| && p.data[s + Offset(r, p.width) + k] == EdgeAt(p, column + k, row + r)
  {
    hide EdgeAt;
    OffsetAdd(row, r, p.width);
    PointerIs(p, column + k, row + r);
  }

  /** One result of the first pass. */
  lemma FirstPass(p: Plane, mx: Fraction, column: nat, row: nat, r: nat, k: nat)
    requires column + k + 5 < p.width && row + r < p.height
    ensures var s := Offset(row, p.width) + column;
            s + Offset(r, p.width) + k + 5 < |p.data|
            && TapAt(mx, p.data, s + Offset(r, p.width) + k, 1) == Horizontal(Edges(p), mx, column + 2 + k, row + r)
  {
    hide SixTap, EdgeAt;
    TapRow(p, column, row, r, k); TapRow(p, column, row, r, k + 1); TapRow(p, column, row, r, k + 2);
    TapRow(p, column, row, r, k + 3); TapRow(p, column, row, r, k + 4); TapRow(p, column, row, r, k + 5);
  }

  /** Where the first pass starts reading. */
  function TopLeft(p: Plane, sourceColumn: int, sourceRow: int, size: BlockSize): nat
    requires InBounds(p, sourceColumn, sourceRow, size)
  {
    Offset(sourceRow - 2, p.width) + (sourceColumn - 2)
  }

  lemma RoomForPasses(p: Plane, sourceColumn: int, sourceRow: int, size: BlockSize, r: nat)
    requires InBounds(p, sourceColumn, sourceRow, size) && r < size + 5
    ensures TopLeft(p, sourceColumn, sourceRow, size) + Offset(r, p.width) + 5 + size <= |p.data|
  {
    TapRow(p, sourceColumn - 2, sourceRow - 2, r, size + 4);
  }

  function Intermediate(p: Plane, sourceColumn: int, sourceRow: int, size: BlockSize, mx: Fraction): (i: seq<Octet>)
    requires InBounds(p, sourceColumn, sourceRow, size)
    ensures |i| == Offset(size + 5, size)
  {
    RoomForPasses(p, sourceColumn, sourceRow, size, size + 4);
    Stacked(mx, p.data, TopLeft(p, sourceColumn, sourceRow, size), p.width, size, size + 5)
  }

  lemma IntermediateAt(p: Plane, sourceColumn: int, sourceRow: int, size: BlockSize, mx: Fraction, r: nat, c: nat)
    requires InBounds(p, sourceColumn, sourceRow, size) && r < size + 5 && c < size
    ensures Offset(r, size) + c < Offset(size + 5, size)
    ensures Intermediate(p, sourceColumn, sourceRow, size, mx)[Offset(r, size) + c]
            == Horizontal(Edges(p), mx, sourceColumn + c, sourceRow - 2 + r)
  {
    hide TapAt, Stacked, Horizontal;
    RoomForPasses(p, sourceColumn, sourceRow, size, size + 4);
    StackedAt(mx, p.data, TopLeft(p, sourceColumn, sourceRow, size), p.width, size, size + 5, r, c);
    FirstPass(p, mx, sourceColumn - 2, sourceRow - 2, r, c);
  }

  /** One result of the second pass. */
  lemma SecondPass(p: Plane, sourceColumn: int, sourceRow: int, size: BlockSize, mx: Fraction, my: Fraction, r: nat, c: nat)
    requires InBounds(p, sourceColumn, sourceRow, size) && r < size && c < size
    ensures var i := Intermediate(p, sourceColumn, sourceRow, size, mx);
            Offset(r, size) + c + 5 * size < |i|
            && TapAt(my, i, Offset(r, size) + c, size) == TwoPass(Edges(p), mx, my, sourceColumn + c, sourceRow + r)
  {
    hide SixTap, Intermediate, Horizontal, Offset, Edges;
    RowsApart(r, size);
    IntermediateAt(p, sourceColumn, sourceRow, size, mx, r, c);
    IntermediateAt(p, sourceColumn, sourceRow, size, mx, r + 1, c);
    IntermediateAt(p, sourceColumn, sourceRow, size, mx, r + 2, c);
    IntermediateAt(p, sourceColumn, sourceRow, size, mx, r + 3, c);
    IntermediateAt(p, sourceColumn, sourceRow, size, mx, r + 4, c);
    IntermediateAt(p, sourceColumn, sourceRow, size, mx, r + 5, c);
  }

  lemma RowsApart(r: nat, size: nat)
    ensures Offset(r + 1, size) == Offset(r, size) + size && Offset(r + 2, size) == Offset(r, size) + 2 * size
    ensures Offset(r + 3, size) == Offset(r, size) + 3 * size && Offset(r + 4, size) == Offset(r, size) + 4 * size
    ensures Offset(r + 5, size) == Offset(r, size) + 5 * size
  {
    OffsetStep(r, size); OffsetStep(r + 1, size); OffsetStep(r + 2, size); OffsetStep(r + 3, size); OffsetStep(r + 4, size);
  }

  // ----- The pointer-walking path -----

  /** The destination holds the rows of the prediction from 0 to n; everything else is as before. */
  ghost predicate BlockDone(
      now: seq<Octet>, was: seq<Octet>, d: nat, stride: nat, p: Plane, sourceColumn: int, sourceRow: int,
      mv: MotionVector, size: BlockSize, n: nat)
    requires n <= size <= stride && d + Offset(size, stride) <= |was| + (stride - size)
  {
    |now| == |was|
    && (forall r, c :: 0 <= r < n && 0 <= c < size ==>
          PixelAt(now, d + Offset(r, stride) + c) == Some(Predicted(p, sourceColumn, sourceRow, mv, c, r)))
    && (forall k :: 0 <= k < |was| && !InBlock(k, d, stride, size, n) ==> now[k] == was[k])
  }

  function PixelAt(s: seq<Octet>, k: nat): Option<Octet> {
    if k < |s| then Some(s[k]) else None
  }

  /** Position k belongs to the first n rows of the block. */
  ghost predicate InBlock(k: nat, d: nat, stride: nat, size: nat, n: nat) {
    exists r: nat :: r < n && d + Offset(r, stride) <= k < d + Offset(r, stride) + size
  }

  lemma NothingDone(was: seq<Octet>, d: nat, stride: nat, p: Plane, sourceColumn: int, sourceRow: int, mv: MotionVector, size: BlockSize)
    requires size <= stride && d + Offset(size, stride) <= |was| + (stride - size)
    ensures BlockDone(was, was, d, stride, p, sourceColumn, sourceRow, mv, size, 0)
  {
    hide Predicted;
  }

  /** One more row of the block. */
  lemma RowDone(
      now: seq<Octet>, before: seq<Octet>, was: seq<Octet>, d: nat, stride: nat, p: Plane, sourceColumn: int,
      sourceRow: int, mv: MotionVector, size: BlockSize, n: nat, row: seq<Octet>)
    requires n < size <= stride && d + Offset(size, stride) <= |was| + (stride - size)
    requires BlockDone(before, was, d, stride, p, sourceColumn, sourceRow, mv, size, n)
    requires |row| == size && d + Offset(n, stride) + size <= |was|
    requires now == Spliced(before, d + Offset(n, stride), row)
    requires forall c :: 0 <= c < size ==> row[c] == Predicted(p, sourceColumn, sourceRow, mv, c, n)
    ensures BlockDone(now, was, d, stride, p, sourceColumn, sourceRow, mv, size, n + 1)
  {
    hide Predicted, Offset, InBlock, Spliced;
    forall r, c | 0 <= r < n + 1 && 0 <= c < size
      ensures PixelAt(now, d + Offset(r, stride) + c) == Some(Predicted(p, sourceColumn, sourceRow, mv, c, r))
    {
      if r < n { OffsetOrder(r, n, stride); }
      SplicedPixel(before, d + Offset(n, stride), row, d + Offset(r, stride) + c);
      assert r < n ==> PixelAt(before, d + Offset(r, stride) + c) == Some(Predicted(p, sourceColumn, sourceRow, mv, c, r));
    }
    forall k | 0 <= k < |was| && !InBlock(k, d, stride, size, n + 1) ensures now[k] == was[k] {
      NotInBlock(k, d, stride, size, n);
      SplicedPixel(before, d + Offset(n, stride), row, k);
    }
  }

  lemma SplicedPixel(was: seq<Octet>, at: nat, row: seq<Octet>, k: nat)
    requires at + |row| <= |was| && k < |was|
    ensures Spliced(was, at, row)[k] == if at <= k < at + |row| then row[k - at] else was[k]
  {}

  lemma NotInBlock(k: nat, d: nat, stride: nat, size: nat, n: nat)
    requires !InBlock(k, d, stride, size, n + 1)
    ensures !InBlock(k, d, stride, size, n)
    ensures k < d + Offset(n, stride) || k >= d + Offset(n, stride) + size
  {}
}
