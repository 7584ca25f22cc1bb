/** The forward and inverse Walsh-Hadamard transforms in 16-bit integers (portable branches of
    src/decoder/dct.cc and src/decoder/transform.cc). */
module WalshHadamard {
  import opened MotionVectors

  datatype Vec = Vec(a: int, b: int, c: int, d: int)

  type Matrix = s: seq<Int16> | |s| == 16 witness [0, 0, 0, 0, 0, 0, 0, 0, 0, 0, 0, 0, 0, 0, 0, 0]

  function Row(s: Matrix, i: nat): Vec
    requires i < 4
  {
    Vec(s[4 * i], s[4 * i + 1], s[4 * i + 2], s[4 * i + 3])
  }

  function Column(s: Matrix, j: nat): Vec
    requires j < 4
  {
    Vec(s[j], s[j + 4], s[j + 8], s[j + 12])
  }

  /** A 16-bit store. */
  function Stored(v: Vec): (w: Vec)
    ensures IsStored(w)
  {
    Vec(Wrap16(v.a), Wrap16(v.b), Wrap16(v.c), Wrap16(v.d))
  }

  predicate Fits(x: int) {
    -0x8000 <= x < 0x8000
  }

  predicate IsStored(v: Vec) {
    Fits(v.a) && Fits(v.b) && Fits(v.c) && Fits(v.d)
  }

  function FromRows(r: Vec, s: Vec, t: Vec, u: Vec): (m: Matrix)
    requires IsStored(r) && IsStored(s) && IsStored(t) && IsStored(u)
    ensures Row(m, 0) == r && Row(m, 1) == s && Row(m, 2) == t && Row(m, 3) == u
  {
    [r.a, r.b, r.c, r.d, s.a, s.b, s.c, s.d, t.a, t.b, t.c, t.d, u.a, u.b, u.c, u.d]
  }

  function FromColumns(r: Vec, s: Vec, t: Vec, u: Vec): (m: Matrix)
    requires IsStored(r) && IsStored(s) && IsStored(t) && IsStored(u)
    ensures Column(m, 0) == r && Column(m, 1) == s && Column(m, 2) == t && Column(m, 3) == u
  {
    [r.a, s.a, t.a, u.a, r.b, s.b, t.b, u.b, r.c, s.c, t.c, u.c, r.d, s.d, t.d, u.d]
  }

  // ----- The four passes -----

  function ForwardRow(x: Vec): Vec {
    var a1, d1 := (x.a + x.c) * 4, (x.b + x.d) * 4;
    var c1, b1 := (x.b - x.d) * 4, (x.a - x.c) * 4;
    Vec(a1 + d1 + (if a1 != 0 then 1 else 0), b1 + c1, b1 - c1, a1 - d1)
  }

  function Rounded(t: int): int {
    (t + (if t < 0 then 1 else 0) + 3) / 8
  }

  function ForwardColumn(x: Vec): Vec {
    var a1, d1 := x.a + x.c, x.b + x.d;
    var c1, b1 := x.b - x.d, x.a - x.c;
    Vec(Rounded(a1 + d1), Rounded(b1 + c1), Rounded(b1 - c1), Rounded(a1 - d1))
  }

  function InverseColumn(y: Vec): Vec {
    var a1, b1 := y.a + y.d, y.b + y.c;
    var c1, d1 := y.b - y.c, y.a - y.d;
    Vec(a1 + b1, c1 + d1, a1 - b1, d1 - c1)
  }

  function InverseRow(z: Vec): Vec {
    var a1, b1 := z.a + z.d, z.b + z.c;
    var c1, d1 := z.b - z.c, z.a - z.d;
    Vec((a1 + b1 + 3) / 8, (c1 + d1 + 3) / 8, (a1 - b1 + 3) / 8, (d1 - c1 + 3) / 8)
  }

  function RowPass(x: Matrix): Matrix {
    FromRows(Stored(ForwardRow(Row(x, 0))), Stored(ForwardRow(Row(x, 1))),
             Stored(ForwardRow(Row(x, 2))), Stored(ForwardRow(Row(x, 3))))
  }

  function ColumnPass(m: Matrix): Matrix {
    FromColumns(Stored(ForwardColumn(Column(m, 0))), Stored(ForwardColumn(Column(m, 1))),
                Stored(ForwardColumn(Column(m, 2))), Stored(ForwardColumn(Column(m, 3))))
  }

  function Wht(x: Matrix): Matrix {
    ColumnPass(RowPass(x))
  }

  function InverseColumnPass(y: Matrix): Matrix {
    FromColumns(Stored(InverseColumn(Column(y, 0))), Stored(InverseColumn(Column(y, 1))),
                Stored(InverseColumn(Column(y, 2))), Stored(InverseColumn(Column(y, 3))))
  }

  function InverseRowPass(m: Matrix): Matrix {
    FromRows(Stored(InverseRow(Row(m, 0))), Stored(InverseRow(Row(m, 1))),
             Stored(InverseRow(Row(m, 2))), Stored(InverseRow(Row(m, 3))))
  }

  function Iwht(y: Matrix): Matrix {
    InverseRowPass(InverseColumnPass(y))
  }

  // ----- The transform without rounding -----

  /** The Hadamard transform of four numbers; its own inverse up to a factor of four. */
  function Hadamard(v: Vec): Vec {
    Vec(v.a + v.b + v.c + v.d, v.a + v.b - v.c - v.d, v.a - v.b - v.c + v.d, v.a - v.b + v.c - v.d)
  }

  predicate Near(v: Vec, w: Vec, a: int, n: int) {
    -a <= v.a - w.a <= a && -n <= v.b - w.b <= n && -n <= v.c - w.c <= n && -n <= v.d - w.d <= n
  }

  function Scaled(k: int, v: Vec): Vec {
    Vec(k * v.a, k * v.b, k * v.c, k * v.d)
  }

  predicate Small(v: Vec, n: int) {
    -n <= v.a <= n && -n <= v.b <= n && -n <= v.c <= n && -n <= v.d <= n
  }

  /** The first pass is exact, but for an excess of at most one in the first entry. */
  lemma ForwardRowIs(x: Vec)
    ensures var f, h := ForwardRow(x), Hadamard(x);
            && 4 * h.a <= f.a <= 4 * h.a + 1 && f.b == 4 * h.b && f.c == 4 * h.c && f.d == 4 * h.d
  {}

  /** Rounding to half the value: exact to one half, or to one if the excess of four rows piles up. */
  lemma RoundedHalf(w: int, s: int)
    ensures -2 <= s <= 2 ==> -1 <= 2 * Rounded(4 * w + s) - w <= 1
    ensures 0 <= s <= 4 ==> -2 <= 2 * Rounded(4 * w + s) - w <= 2
  {}

  lemma RoundedPart(t: int, w: int, s: int)
    requires t == 4 * w + s
    ensures s == 0 || -2 <= s <= 2 ==> -1 <= 2 * Rounded(t) - w <= 1
    ensures 0 <= s <= 4 ==> -2 <= 2 * Rounded(t) - w <= 2
  {
    RoundedHalf(w, s);
  }

  /** What the second pass rounds, on a column with excesses e. */
  lemma ColumnSums(x: Vec, r: Vec, e: Vec)
    requires x == Vec(4 * r.a + e.a, 4 * r.b + e.b, 4 * r.c + e.c, 4 * r.d + e.d)
    ensures var w, s := Hadamard(r), Hadamard(e);
            && x.a + x.c + (x.b + x.d) == 4 * w.a + s.a && x.a - x.c + (x.b - x.d) == 4 * w.b + s.b
            && x.a - x.c - (x.b - x.d) == 4 * w.c + s.c && x.a + x.c - (x.b + x.d) == 4 * w.d + s.d
  {}

  lemma ForwardColumnParts(x: Vec, r: Vec, e: Vec)
    requires x == Vec(4 * r.a + e.a, 4 * r.b + e.b, 4 * r.c + e.c, 4 * r.d + e.d)
    requires var s := Hadamard(e); 0 <= s.a <= 4 && -2 <= s.b <= 2 && -2 <= s.c <= 2 && -2 <= s.d <= 2
    ensures Near(Scaled(2, ForwardColumn(x)), Hadamard(r), if Hadamard(e).a == 0 then 1 else 2, 1)
  {
    hide Rounded, Hadamard;
    ColumnSums(x, r, e);
    var w, s := Hadamard(r), Hadamard(e);
    RoundedPart(x.a + x.c + (x.b + x.d), w.a, s.a);
    RoundedPart(x.a - x.c + (x.b - x.d), w.b, s.b);
    RoundedPart(x.a - x.c - (x.b - x.d), w.c, s.c);
    RoundedPart(x.a + x.c - (x.b + x.d), w.d, s.d);
  }

  /** The second pass halves the exact transform, to one half; to one where four excesses pile up. */
  lemma ForwardColumnIs(x: Vec, r: Vec, e: Vec)
    requires x == Vec(4 * r.a + e.a, 4 * r.b + e.b, 4 * r.c + e.c, 4 * r.d + e.d)
    requires 0 <= e.a <= 1 && 0 <= e.b <= 1 && 0 <= e.c <= 1 && 0 <= e.d <= 1
    ensures Near(Scaled(2, ForwardColumn(x)), Hadamard(r), 2, 1)
  {
    hide ForwardColumn;
    ForwardColumnParts(x, r, e);
  }

  lemma NoExcess()
    ensures Hadamard(Vec(0, 0, 0, 0)) == Vec(0, 0, 0, 0)
  {}

  lemma ForwardColumnIsClose(x: Vec, r: Vec)
    requires x == Vec(4 * r.a, 4 * r.b, 4 * r.c, 4 * r.d)
    ensures Near(Scaled(2, ForwardColumn(x)), Hadamard(r), 1, 1)
  {
    hide ForwardColumn, Near, Scaled;
    NoExcess();
    hide Hadamard;
    ForwardColumnParts(x, r, Vec(0, 0, 0, 0));
  }

  /** The third pass is the Hadamard transform again. */
  lemma InverseColumnIs(y: Vec, r: Vec, a: int)
    requires 0 <= a && Near(Scaled(2, y), Hadamard(r), a, 1)
    ensures var z := Scaled(2, InverseColumn(y));
            && -(a + 3) <= z.a - 4 * r.a <= a + 3 && -(a + 3) <= z.b - 4 * r.b <= a + 3
            && -(a + 3) <= z.c - 4 * r.c <= a + 3 && -(a + 3) <= z.d - 4 * r.d <= a + 3
  {}

  /** The last pass, on a row whose first entry is off by at most five and the others by at most four. */
  lemma InverseRowIs(z: Vec, x: Vec)
    requires Near(Scaled(2, z), Scaled(4, Hadamard(x)), 5, 4)
    ensures Near(InverseRow(z), x, 1, 1)
  {
    var h, k := Hadamard(z), Hadamard(Hadamard(x));
    assert k == Scaled(4, x);
    LastRounding(h.a, x.a);
    LastRounding(h.b, x.b);
    LastRounding(h.c, x.c);
    LastRounding(h.d, x.d);
  }

  lemma LastRounding(h: int, x: int)
    requires -17 <= 2 * h - 16 * x <= 17
    ensures -1 <= (h + 3) / 8 - x <= 1
  {}

  // ----- No store overflows -----

  const LIMIT: int := 2047  // one more and the first store can overflow

  lemma StoredFits(v: Vec)
    requires IsStored(v)
    ensures Stored(v) == v
  {}

  lemma HadamardBound(x: Vec)
    requires Small(x, LIMIT)
    ensures Small(Hadamard(x), 4 * LIMIT)
  {}

  lemma ForwardRowFits(x: Vec)
    requires Small(x, LIMIT)
    ensures IsStored(ForwardRow(x))
  {
    hide ForwardRow;
    ForwardRowIs(x);
    HadamardBound(x);
  }

  lemma RoundedFits(t: int)
    requires -0x2_0000 <= t < 0x2_0000
    ensures Fits(Rounded(t))
  {}

  lemma ForwardColumnFits(x: Vec)
    requires IsStored(x)
    ensures IsStored(ForwardColumn(x))
  {
    hide Rounded;
    RoundedFits(x.a + x.c + (x.b + x.d));
    RoundedFits(x.a - x.c + (x.b - x.d));
    RoundedFits(x.a - x.c - (x.b - x.d));
    RoundedFits(x.a + x.c - (x.b + x.d));
  }

  lemma InverseColumnFits(y: Vec, r: Vec)
    requires Near(Scaled(2, y), Hadamard(r), 2, 1) && Small(r, 4 * LIMIT)
    ensures IsStored(InverseColumn(y))
  {
    hide InverseColumn;
    InverseColumnIs(y, r, 2);
  }

  // ----- The four passes one after another -----

  /** One step of the exact transform: the first entries of four vectors, the second ones, and so on. */
  function Across(r: Vec, s: Vec, t: Vec, u: Vec, j: nat): Vec
    requires j < 4
  {
    if j == 0 then Vec(r.a, s.a, t.a, u.a)
    else if j == 1 then Vec(r.b, s.b, t.b, u.b)
    else if j == 2 then Vec(r.c, s.c, t.c, u.c)
    else Vec(r.d, s.d, t.d, u.d)
  }

  lemma RowsAcross(m: Matrix, j: nat)
    requires j < 4
    ensures Across(Row(m, 0), Row(m, 1), Row(m, 2), Row(m, 3), j) == Column(m, j)
    ensures Across(Column(m, 0), Column(m, 1), Column(m, 2), Column(m, 3), j) == Row(m, j)
  {}

  predicate InLimits(x: Matrix) {
    forall i :: 0 <= i < 16 ==> -LIMIT <= x[i] <= LIMIT
  }

  /** The Hadamard transform of row i. */
  function RowTransform(x: Matrix, i: nat): Vec
    requires i < 4
  {
    Hadamard(Row(x, i))
  }

  function TransformColumn(x: Matrix, j: nat): Vec
    requires j < 4
  {
    Across(RowTransform(x, 0), RowTransform(x, 1), RowTransform(x, 2), RowTransform(x, 3), j)
  }

  lemma RowSmall(x: Matrix, i: nat)
    requires InLimits(x) && i < 4
    ensures Small(Row(x, i), LIMIT)
  {}

  lemma TransformSmall(x: Matrix, j: nat)
    requires InLimits(x) && j < 4
    ensures Small(TransformColumn(x, j), 4 * LIMIT)
  {
    hide Hadamard, Row, InLimits;
    RowSmall(x, 0); RowSmall(x, 1); RowSmall(x, 2); RowSmall(x, 3);
    HadamardBound(Row(x, 0)); HadamardBound(Row(x, 1)); HadamardBound(Row(x, 2)); HadamardBound(Row(x, 3));
  }

  lemma RowPassRow(x: Matrix, i: nat)
    requires InLimits(x) && i < 4
    ensures Row(RowPass(x), i) == ForwardRow(Row(x, i)) && IsStored(ForwardRow(Row(x, i)))
  {
    hide ForwardRow, Row, Stored, InLimits;
    RowSmall(x, i);
    ForwardRowFits(Row(x, i));
    StoredFits(ForwardRow(Row(x, i)));
  }

  /** After the first two passes, every column is half its exact transform, but for rounding. */
  lemma ColumnsAfterForward(x: Matrix, j: nat)
    requires InLimits(x) && j < 4
    ensures Near(Scaled(2, Column(Wht(x), j)), Hadamard(TransformColumn(x, j)), if j == 0 then 2 else 1, 1)
    ensures Column(Wht(x), j) == ForwardColumn(Column(RowPass(x), j))
  {
    hide ForwardRow, Row, Column, Stored, InLimits, RowPass, ForwardColumn, Hadamard;
    var m := RowPass(x);
    RowPassRow(x, 0); RowPassRow(x, 1); RowPassRow(x, 2); RowPassRow(x, 3);
    ForwardRowIs(Row(x, 0)); ForwardRowIs(Row(x, 1)); ForwardRowIs(Row(x, 2)); ForwardRowIs(Row(x, 3));
    RowsAcross(m, j);
    var r, c := TransformColumn(x, j), Column(m, j);
    if j == 0 {
      ForwardColumnIs(c, r, Vec(c.a - 4 * r.a, c.b - 4 * r.b, c.c - 4 * r.c, c.d - 4 * r.d));
    } else {
      ForwardColumnIsClose(c, r);
    }
    ColumnStored(m, j);
    ForwardColumnFits(c);
    StoredFits(ForwardColumn(c));
  }

  lemma ColumnStored(m: Matrix, j: nat)
    requires j < 4
    ensures IsStored(Column(m, j))
  {}

  lemma InverseColumns(x: Matrix, j: nat)
    requires InLimits(x) && j < 4
    ensures var z, r := Column(InverseColumnPass(Wht(x)), j), TransformColumn(x, j);
            z == InverseColumn(Column(Wht(x), j)) && IsStored(z)
            && if j == 0 then Near(Scaled(2, z), Scaled(4, r), 5, 5) else Near(Scaled(2, z), Scaled(4, r), 4, 4)
  {
    hide Row, Column, Stored, InLimits, InverseColumn, Hadamard, Wht, TransformColumn;
    var y, r := Column(Wht(x), j), TransformColumn(x, j);
    ColumnsAfterForward(x, j);
    TransformSmall(x, j);
    InverseColumnIs(y, r, if j == 0 then 2 else 1);
    InverseColumnFits(y, r);
    StoredFits(InverseColumn(y));
  }

  /** Row i before the last pass: twice the exact transform of the row, but for what rounding has added. */
  lemma RowsBeforeLast(x: Matrix, i: nat)
    requires InLimits(x) && i < 4
    ensures Near(Scaled(2, Row(InverseColumnPass(Wht(x)), i)), Scaled(4, RowTransform(x, i)), 5, 4)
  {
    hide Row, Column, InLimits, Wht, RowTransform, InverseColumnPass;
    InverseColumns(x, 0); InverseColumns(x, 1); InverseColumns(x, 2); InverseColumns(x, 3);
    RowsAcross(InverseColumnPass(Wht(x)), i);
  }

  /** The inverse transform undoes the forward one, but for at most one in every entry; and no store of
      any of the four passes overflows 16 bits. */
  lemma WhtNearInverse(x: Matrix, i: nat)
    requires InLimits(x) && i < 4
    ensures Near(Row(Iwht(Wht(x)), i), Row(x, i), 1, 1)
    ensures IsStored(ForwardRow(Row(x, i)))
    ensures IsStored(ForwardColumn(Column(RowPass(x), i)))
    ensures IsStored(InverseColumn(Column(Wht(x), i)))
    ensures IsStored(InverseRow(Row(InverseColumnPass(Wht(x)), i)))
  {
    hide Row, Column, InLimits, Wht, RowTransform, InverseColumnPass, InverseRow, ForwardRow, ForwardColumn, InverseColumn,
      Stored, RowPass;
    RowPassRow(x, i);
    ColumnStored(RowPass(x), i);
    ForwardColumnFits(Column(RowPass(x), i));
    InverseColumns(x, i);
    RowsBeforeLast(x, i);
    var z := Row(InverseColumnPass(Wht(x)), i);
    RowTransformIs(x, i);
    InverseRowIs(z, Row(x, i));
    RowSmall(x, i);
    StoredFits(InverseRow(z));
  }

  lemma RowTransformIs(x: Matrix, i: nat)
    requires i < 4
    ensures RowTransform(x, i) == Hadamard(Row(x, i))
  {}

  /** The bound is the best possible: an entry of 2048 throughout overflows the first store. */
  lemma LimitIsTight()
    ensures !Fits(ForwardRow(Vec(LIMIT + 1, LIMIT + 1, LIMIT + 1, LIMIT + 1)).a)
  {}

  // ----- What exactly is computed -----

  /** r is t/8 rounded to the nearest number, towards zero in case of a tie. */
  predicate NearestEighth(r: int, t: int) {
    && -4 <= 8 * r - t <= 4
    && (8 * r - t == 4 ==> t < 0) && (8 * r - t == -4 ==> t > 0)
  }

  lemma RoundedIsNearest(t: int)
    ensures NearestEighth(Rounded(t), t)
  {}

  predicate NearestEighths(v: Vec, t: Vec) {
    NearestEighth(v.a, t.a) && NearestEighth(v.b, t.b) && NearestEighth(v.c, t.c) && NearestEighth(v.d, t.d)
  }

  /** A row comes out one too large in its first entry unless its even entries cancel. */
  function Excess(x: Vec): int {
    if x.a == -x.c then 0 else 1
  }

  lemma RowWithExcess(x: Vec)
    ensures var h := Hadamard(x);
            ForwardRow(x) == Vec(4 * h.a + Excess(x), 4 * h.b, 4 * h.c, 4 * h.d)
  {}

  lemma ColumnIsNearest(x: Vec, r: Vec, e: Vec)
    requires x == Vec(4 * r.a + e.a, 4 * r.b + e.b, 4 * r.c + e.c, 4 * r.d + e.d)
    ensures var w, s := Hadamard(r), Hadamard(e);
            NearestEighths(ForwardColumn(x), Vec(4 * w.a + s.a, 4 * w.b + s.b, 4 * w.c + s.c, 4 * w.d + s.d))
  {
    hide Rounded, NearestEighth, Hadamard;
    ColumnSums(x, r, e);
    RoundedIsNearest(x.a + x.c + (x.b + x.d));
    RoundedIsNearest(x.a - x.c + (x.b - x.d));
    RoundedIsNearest(x.a - x.c - (x.b - x.d));
    RoundedIsNearest(x.a + x.c - (x.b + x.d));
  }

  function Excesses(x: Matrix, j: nat): Vec {
    if j == 0 then Vec(Excess(Row(x, 0)), Excess(Row(x, 1)), Excess(Row(x, 2)), Excess(Row(x, 3))) else Vec(0, 0, 0, 0)
  }

  /** The forward transform, entry by entry: half the exact two-dimensional Hadamard transform, rounded to the
      nearest number and towards zero in case of a tie, the excesses of the rows counting as eighths in the first
      column. No other matrix satisfies this. */
  lemma WhtIsRounded(x: Matrix, j: nat)
    requires InLimits(x) && j < 4
    ensures var w, s := Hadamard(TransformColumn(x, j)), Hadamard(Excesses(x, j));
            NearestEighths(Column(Wht(x), j), Vec(4 * w.a + s.a, 4 * w.b + s.b, 4 * w.c + s.c, 4 * w.d + s.d))
  {
    hide ForwardRow, Row, Column, InLimits, RowPass, ForwardColumn, Hadamard, NearestEighths, Excess, Wht;
    var m := RowPass(x);
    RowPassRow(x, 0); RowPassRow(x, 1); RowPassRow(x, 2); RowPassRow(x, 3);
    RowWithExcess(Row(x, 0)); RowWithExcess(Row(x, 1)); RowWithExcess(Row(x, 2)); RowWithExcess(Row(x, 3));
    RowsAcross(m, j);
    ColumnIsNearest(Column(m, j), TransformColumn(x, j), Excesses(x, j));
    ColumnsAfterForward(x, j);
  }

  /** r is t/8 rounded to the nearest number, downwards in case of a tie. */
  predicate NearestEighthDown(r: int, t: int) {
    -4 <= 8 * r - t <= 3
  }

  const INVERSE_LIMIT: int := 8191  // four such numbers fit a store

  predicate AllSmall(y: Matrix) {
    forall i :: 0 <= i < 16 ==> -INVERSE_LIMIT <= y[i] <= INVERSE_LIMIT
  }

  /** The inverse passes are Hadamard transforms, the second one divided by eight. */
  lemma InverseIsHadamard(y: Vec)
    ensures InverseColumn(y) == Hadamard(y)
    ensures var r, t := InverseRow(y), Hadamard(y);
            NearestEighthDown(r.a, t.a) && NearestEighthDown(r.b, t.b) && NearestEighthDown(r.c, t.c) && NearestEighthDown(r.d, t.d)
  {}

  lemma InverseStores(y: Vec)
    ensures Small(y, INVERSE_LIMIT) ==> IsStored(Hadamard(y))
    ensures IsStored(y) ==> IsStored(InverseRow(y))
  {}

  /** Column j of the exact transform down the columns. */
  function DownColumn(y: Matrix, j: nat): Vec
    requires j < 4
  {
    Hadamard(Column(y, j))
  }

  /** The inverse transform, entry by entry: the exact two-dimensional Hadamard transform divided by eight, rounded to
      the nearest number and downwards in case of a tie. */
  lemma IwhtIsRounded(y: Matrix, i: nat)
    requires AllSmall(y) && i < 4
    ensures var r := Row(Iwht(y), i);
            var t := Hadamard(Across(DownColumn(y, 0), DownColumn(y, 1), DownColumn(y, 2), DownColumn(y, 3), i));
            NearestEighthDown(r.a, t.a) && NearestEighthDown(r.b, t.b) && NearestEighthDown(r.c, t.c) && NearestEighthDown(r.d, t.d)
  {
    hide Row, Column, Hadamard, InverseRow, NearestEighthDown, InverseColumn, Stored, AllSmall, Small, IsStored;
    var m := InverseColumnPass(y);
    InverseColumnStored(y, 0); InverseColumnStored(y, 1); InverseColumnStored(y, 2); InverseColumnStored(y, 3);
    RowsAcross(m, i);
    InverseIsHadamard(Row(m, i));
    RowStored(m, i);
    InverseStores(Row(m, i));
    StoredFits(InverseRow(Row(m, i)));
  }

  lemma RowStored(m: Matrix, i: nat)
    requires i < 4
    ensures IsStored(Row(m, i))
  {}

  lemma InverseColumnStored(y: Matrix, j: nat)
    requires AllSmall(y) && j < 4
    ensures Column(InverseColumnPass(y), j) == DownColumn(y, j)
  {
    hide Hadamard, InverseColumn, Stored;
    assert Small(Column(y, j), INVERSE_LIMIT);
    hide Column, AllSmall, Small, IsStored;
    InverseIsHadamard(Column(y, j));
    InverseStores(Column(y, j));
    StoredFits(InverseColumn(Column(y, j)));
  }

  // ----- The loops -----

  predicate RowsDone(a: Matrix, x: Matrix, i: nat)
    requires i <= 4
  {
    forall r :: 0 <= r < i ==> Row(a, r) == Stored(ForwardRow(Row(x, r)))
  }

  predicate ColumnsDone(a: Matrix, m: Matrix, j: nat)
    requires j <= 4
  {
    forall k :: 0 <= k < 4 ==> Column(a, k) == if k < j then Stored(ForwardColumn(Column(m, k))) else Column(m, k)
  }

  /** Overwrites the coefficients, first by rows and then in place by columns. */
  method WhtInPlace(a: array<Int16>, input: Matrix)
    requires a.Length == 16
    modifies a
    ensures a[..] == Wht(input)
  {
    hide Stored, ForwardRow, ForwardColumn;
    for i := 0 to 4
      invariant RowsDone(a[..], input, i)
    {
      var v := Stored(ForwardRow(Row(input, i)));
      ghost var was := a[..];
      a[4 * i], a[4 * i + 1], a[4 * i + 2], a[4 * i + 3] := v.a, v.b, v.c, v.d;
      forall r | 0 <= r < i ensures Row(a[..], r) == Row(was, r) {}
    }
    RowsDecide(a[..], RowPass(input));
    ghost var m := a[..];
    for j := 0 to 4
      invariant ColumnsDone(a[..], m, j)
    {
      var v := Stored(ForwardColumn(Column(a[..], j)));
      ghost var was := a[..];
      a[j], a[j + 4], a[j + 8], a[j + 12] := v.a, v.b, v.c, v.d;
      forall k | 0 <= k < 4 && k != j ensures Column(a[..], k) == Column(was, k) {}
    }
    ColumnsDecide(a[..], ColumnPass(m));
  }

  lemma RowsDecide(a: Matrix, b: Matrix)
    requires Row(a, 0) == Row(b, 0) && Row(a, 1) == Row(b, 1) && Row(a, 2) == Row(b, 2) && Row(a, 3) == Row(b, 3)
    ensures a == b
  {
    forall k | 0 <= k < 16 ensures a[k] == b[k] { assert k == 4 * (k / 4) + k % 4; }
  }

  lemma ColumnsDecide(a: Matrix, b: Matrix)
    requires Column(a, 0) == Column(b, 0) && Column(a, 1) == Column(b, 1)
    requires Column(a, 2) == Column(b, 2) && Column(a, 3) == Column(b, 3)
    ensures a == b
  {
    forall k | 0 <= k < 16 ensures a[k] == b[k] { assert k == k % 4 + 4 * (k / 4); }
  }

  predicate IntermediateDone(a: Matrix, y: Matrix, j: nat)
    requires j <= 4
  {
    forall k :: 0 <= k < j ==> Column(a, k) == Stored(InverseColumn(Column(y, k)))
  }

  predicate OutputDone(a: Matrix, m: Matrix, i: nat)
    requires i <= 4
  {
    forall r :: 0 <= r < i ==> Row(a, r) == Stored(InverseRow(Row(m, r)))
  }

  /** By columns into an intermediate array, then by rows into the DC coefficients of the sixteen blocks. */
  method IwhtInto(y: Matrix, output: array<Int16>)
    requires output.Length == 16
    modifies output
    ensures output[..] == Iwht(y)
  {
    hide Stored, InverseColumn, InverseRow;
    var intermediate := new Int16[16](_ => 0);
    for j := 0 to 4
      invariant IntermediateDone(intermediate[..], y, j)
    {
      var v := Stored(InverseColumn(Column(y, j)));
      ghost var was := intermediate[..];
      intermediate[j], intermediate[j + 4], intermediate[j + 8], intermediate[j + 12] := v.a, v.b, v.c, v.d;
      forall k | 0 <= k < j ensures Column(intermediate[..], k) == Column(was, k) {}
    }
    ColumnsDecide(intermediate[..], InverseColumnPass(y));
    ghost var m := intermediate[..];
    for i := 0 to 4
      invariant intermediate[..] == m && OutputDone(output[..], m, i)
    {
      var v := Stored(InverseRow(Row(intermediate[..], i)));
      ghost var was := output[..];
      output[4 * i], output[4 * i + 1], output[4 * i + 2], output[4 * i + 3] := v.a, v.b, v.c, v.d;
      forall r | 0 <= r < i ensures Row(output[..], r) == Row(was, r) {}
    }
    RowsDecide(output[..], InverseRowPass(m));
  }
}
