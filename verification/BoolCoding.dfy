/** The mathematics shared by the Boolean entropy encoder and decoder (section 7 of RFC 6386):
    symbols, the interval they select, and the number an octet sequence stands for. */
module BoolCoding {

  type Octet = x: int | 0 <= x < 256
  type Prob = Octet

  /** One coded Boolean together with the probability (out of 256) that it is false. */
  datatype Symbol = Symbol(bit: bool, prob: Prob)

  const WORD: int := 0x1_0000_0000

  // ----- Shifts of unbounded numbers -----

  function Shl(x: int, k: nat): int {
    if k == 0 then x else 2 * Shl(x, k - 1)
  }

  function Shr(x: nat, k: nat): nat {
    if k == 0 then x else Shr(x, k - 1) / 2
  }

  lemma {:induction false} ShlAdd(x: int, a: nat, b: nat)
    ensures Shl(Shl(x, a), b) == Shl(x, a + b)
  {
    if b != 0 {
      ShlAdd(x, a, b - 1);
    }
  }

  lemma {:induction false} ShlSum(x: int, y: int, k: nat)
    ensures Shl(x + y, k) == Shl(x, k) + Shl(y, k)
  {
    if k != 0 {
      ShlSum(x, y, k - 1);
    }
  }

  lemma {:induction false} ShlOrder(x: int, y: int, k: nat)
    ensures x <= y <==> Shl(x, k) <= Shl(y, k)
  {
    if k != 0 {
      ShlOrder(x, y, k - 1);
    }
  }

  /** Shifting a non-negative number never makes it smaller, and further shifting neither. */
  lemma {:induction false} ShlGrows(x: nat, a: nat, b: nat)
    requires a <= b
    ensures 0 <= Shl(x, a) <= Shl(x, b)
  {
    if a < b {
      ShlGrows(x, a, b - 1);
    } else if a != 0 {
      ShlGrows(x, a - 1, a - 1);
    }
  }

  lemma ShlZero(x: int)
    ensures Shl(x, 0) == x
  {}

  lemma ShlStep(x: int, k: nat)
    ensures Shl(x, k + 1) == 2 * Shl(x, k)
  {}

  lemma ShlTable(x: int)
    ensures Shl(x, 1) == 2 * x && Shl(x, 2) == 4 * x && Shl(x, 3) == 8 * x && Shl(x, 4) == 16 * x
    ensures Shl(x, 5) == 32 * x && Shl(x, 6) == 64 * x && Shl(x, 7) == 128 * x && Shl(x, 8) == 256 * x
  {
    ShlStep(x, 0); ShlStep(x, 1); ShlStep(x, 2); ShlStep(x, 3);
    ShlStep(x, 4); ShlStep(x, 5); ShlStep(x, 6); ShlStep(x, 7);
  }

  lemma ShlWide(x: int)
    ensures Shl(x, 16) == 0x1_0000 * x && Shl(x, 24) == 0x100_0000 * x
    ensures Shl(x, 31) == 0x8000_0000 * x && Shl(x, 32) == WORD * x
  {
    ShlTable(x);
    ShlAdd(x, 8, 8);
    ShlTable(Shl(x, 8));
    ShlAdd(x, 16, 8);
    ShlTable(Shl(x, 16));
    ShlAdd(x, 24, 7);
    ShlAdd(x, 24, 8);
    ShlTable(Shl(x, 24));
  }

  /** Shr is the floor of the division. */
  lemma {:induction false} ShrFloor(x: nat, k: nat)
    ensures Shl(Shr(x, k), k) <= x < Shl(Shr(x, k) + 1, k)
  {
    if k != 0 {
      ShrFloor(x, k - 1);
      var h := Shr(x, k - 1);
      ShlOrder(2 * (h / 2), h, k - 1);
      ShlOrder(h + 1, 2 * (h / 2 + 1), k - 1);
      ShlAdd(h / 2, 1, k - 1);
      ShlAdd(h / 2 + 1, 1, k - 1);
    }
  }

  /** The floor is unique. */
  lemma ShrUnique(x: nat, k: nat, q: nat)
    requires Shl(q, k) <= x < Shl(q + 1, k)
    ensures Shr(x, k) == q
  {
    ShrFloor(x, k);
    ShlOrder(q + 1, Shr(x, k), k);
    ShlOrder(Shr(x, k) + 1, q, k);
  }

  // ----- The interval coder -----

  lemma SmallMod(x: nat, m: nat)
    requires x < m
    ensures x % m == x
  {}

  /** Where the current range is cut in two. */
  function Split(range: nat, prob: Prob): int {
    1 + (range - 1) * prob / 256
  }

  /** Both halves of a normalised range are non-empty. */
  lemma SplitIsProper(range: nat, prob: Prob)
    requires 128 <= range <= 255
    ensures 1 <= Split(range, prob) < range
  {
    ProductBound(range - 1, prob);
  }

  lemma {:induction false} ProductBound(a: nat, b: nat)
    requires b <= 255
    ensures 0 <= a * b <= 255 * a
  {
    if a != 0 {
      ProductBound(a - 1, b);
      assert a * b == (a - 1) * b + b;
    }
  }

  /** The doublings that bring a range back to at least 128. */
  function Doublings(range: nat): (n: nat)
    requires 1 <= range <= 255
    ensures n <= 7
    ensures 128 <= Shl(range, n) <= 255
  {
    ShlTable(range);
    if range >= 128 then 0
    else if range >= 64 then 1
    else if range >= 32 then 2
    else if range >= 16 then 3
    else if range >= 8 then 4
    else if range >= 4 then 5
    else if range >= 2 then 6
    else 7
  }

  datatype RawInterval = Interval(low: nat, range: nat, shifts: nat)

  /** The numbers low .. low + range - 1, written with shifts + 8 bits. */
  type Interval = iv: RawInterval | 128 <= iv.range <= 255 && iv.low + iv.range <= Shl(255, iv.shifts)
    witness Interval(0, 255, 0)

  const Start: Interval := Interval(0, 255, 0)

  function SubLow(iv: Interval, s: Symbol): (low: nat)
    ensures iv.low <= low
  {
    SplitIsProper(iv.range, s.prob);
    iv.low + if s.bit then Split(iv.range, s.prob) else 0
  }

  function SubRange(iv: Interval, s: Symbol): (r: nat)
    ensures 1 <= r <= 254
    ensures SubLow(iv, s) + r <= iv.low + iv.range
  {
    SplitIsProper(iv.range, s.prob);
    if s.bit then iv.range - Split(iv.range, s.prob) else Split(iv.range, s.prob)
  }

  /** Choose a half of the interval, then renormalise. */
  function Narrow(iv: Interval, s: Symbol): Interval {
    var n := Doublings(SubRange(iv, s));
    NarrowIsInterval(iv, s, n);
    Interval(Shl(SubLow(iv, s), n), Shl(SubRange(iv, s), n), iv.shifts + n)
  }

  lemma NarrowIsInterval(iv: Interval, s: Symbol, n: nat)
    ensures 0 <= Shl(SubLow(iv, s), n)
    ensures Shl(SubLow(iv, s), n) + Shl(SubRange(iv, s), n) <= Shl(255, iv.shifts + n)
  {
    ShlGrows(SubLow(iv, s), 0, n);
    ShlSum(SubLow(iv, s), SubRange(iv, s), n);
    ShlOrder(SubLow(iv, s) + SubRange(iv, s), Shl(255, iv.shifts), n);
    ShlAdd(255, iv.shifts, n);
  }

  // ----- What the probability means -----

  /** The width of the half that a false symbol takes: the fraction prob/256 of range - 1, one more than its floor.
      No other number satisfies both inequalities. */
  lemma SplitIsFraction(range: nat, prob: Prob)
    requires 128 <= range <= 255
    ensures 256 * (Split(range, prob) - 1) <= (range - 1) * prob < 256 * Split(range, prob)
  {
    var n := (range - 1) * prob;
    assert 256 * (n / 256) <= n < 256 * (n / 256) + 256;
  }

  /** A false symbol takes the low part of the interval, of that width; a true symbol takes the rest. */
  lemma HalvesAreFractions(iv: Interval, p: Prob)
    ensures var f, t, w := Symbol(false, p), Symbol(true, p), SubRange(iv, Symbol(false, p));
            && 256 * (w - 1) <= (iv.range - 1) * p < 256 * w
            && SubLow(iv, f) == iv.low && SubLow(iv, t) == iv.low + w && SubRange(iv, t) == iv.range - w
  {
    hide Split;
    SplitIsFraction(iv.range, p);
  }

  lemma ProductOrder(a: nat, p: nat, q: nat)
    requires p <= q
    ensures a * p <= a * q
  {}

  /** The more probable a false symbol, the wider its part and the narrower the other. */
  lemma WiderIfLikelier(iv: Interval, p: Prob, q: Prob)
    requires p <= q
    ensures SubRange(iv, Symbol(false, p)) <= SubRange(iv, Symbol(false, q))
    ensures SubRange(iv, Symbol(true, p)) >= SubRange(iv, Symbol(true, q))
  {
    hide SubRange;
    HalvesAreFractions(iv, p);
    HalvesAreFractions(iv, q);
    ProductOrder(iv.range - 1, p, q);
  }

  /** What the coder is for: the more probable a symbol is said to be, the fewer bits it takes. */
  lemma LikelierIsShorter(iv: Interval, p: Prob, q: Prob)
    requires p <= q
    ensures Narrow(iv, Symbol(false, q)).shifts <= Narrow(iv, Symbol(false, p)).shifts
    ensures Narrow(iv, Symbol(true, p)).shifts <= Narrow(iv, Symbol(true, q)).shifts
  {
    hide SubRange, SubLow, Shl;
    WiderIfLikelier(iv, p, q);
  }

  /** The interval selected by a whole symbol sequence. */
  function Encoded(syms: seq<Symbol>): Interval {
    if syms == [] then Start
    else Narrow(Encoded(syms[..|syms| - 1]), syms[|syms| - 1])
  }

  lemma EncodedSnoc(syms: seq<Symbol>, s: Symbol)
    ensures Encoded(syms + [s]) == Narrow(Encoded(syms), s)
  {
    assert (syms + [s])[..|syms + [s]| - 1] == syms;
  }

  // ----- Octet sequences as binary fractions -----

  /** Bit i of an octet, the most significant one first. */
  function OctetBit(x: Octet, i: nat): (b: nat)
    requires i < 8
    ensures b <= 1
  {
    if i == 0 then x / 128
    else if i == 1 then x / 64 % 2
    else if i == 2 then x / 32 % 2
    else if i == 3 then x / 16 % 2
    else if i == 4 then x / 8 % 2
    else if i == 5 then x / 4 % 2
    else if i == 6 then x / 2 % 2
    else x % 2
  }

  function OctetAt(data: seq<Octet>, r: nat): Octet {
    if r < |data| then data[r] else 0
  }

  /** Bit i of a sequence that is continued by zeros without end. */
  function BitAt(data: seq<Octet>, i: nat): (b: nat)
    ensures b <= 1
  {
    OctetBit(OctetAt(data, i / 8), i % 8)
  }

  /** The number written by the first m bits. */
  function Window(data: seq<Octet>, m: nat): nat {
    if m == 0 then 0 else 2 * Window(data, m - 1) + BitAt(data, m - 1)
  }

  lemma OctetBits(x: Octet)
    ensures x == 128 * OctetBit(x, 0) + 64 * OctetBit(x, 1) + 32 * OctetBit(x, 2) + 16 * OctetBit(x, 3)
               + 8 * OctetBit(x, 4) + 4 * OctetBit(x, 5) + 2 * OctetBit(x, 6) + OctetBit(x, 7)
  {
    Halve(x, 2); Halve(x, 4); Halve(x, 8); Halve(x, 16); Halve(x, 32); Halve(x, 64);
  }

  lemma Halve(x: nat, d: nat)
    requires d in {2, 4, 8, 16, 32, 64}
    ensures x / d == 2 * (x / (2 * d)) + x / d % 2
  {}

  lemma WindowStep(data: seq<Octet>, r: nat, i: nat)
    requires i < 8
    ensures Window(data, 8 * r + i + 1) == 2 * Window(data, 8 * r + i) + OctetBit(OctetAt(data, r), i)
  {
    hide OctetBit;
    assert (8 * r + i) / 8 == r && (8 * r + i) % 8 == i;
  }

  lemma WindowOctet(data: seq<Octet>, r: nat)
    ensures Window(data, 8 * r + 8) == 256 * Window(data, 8 * r) + OctetAt(data, r)
  {
    hide OctetBit, Window;
    OctetBits(OctetAt(data, r));
    WindowStep(data, r, 0); WindowStep(data, r, 1); WindowStep(data, r, 2); WindowStep(data, r, 3);
    WindowStep(data, r, 4); WindowStep(data, r, 5); WindowStep(data, r, 6); WindowStep(data, r, 7);
  }

  lemma WindowLast(data: seq<Octet>, m: nat)
    ensures Window(data, m + 1) == 2 * Window(data, m) + BitAt(data, m)
  {}

  /** Dropping the last k bits of a window leaves the shorter window. */
  lemma {:induction false} WindowTruncate(data: seq<Octet>, m: nat, k: nat)
    ensures Shl(Window(data, m), k) <= Window(data, m + k) < Shl(Window(data, m) + 1, k)
  {
    hide BitAt;
    if k != 0 {
      WindowTruncate(data, m, k - 1);
      WindowLast(data, m + k - 1);
    }
  }

  lemma BitPastEnd(data: seq<Octet>, i: nat)
    ensures BitAt(data, 8 * |data| + i) == 0
  {
    assert (8 * |data| + i) / 8 >= |data|;
  }

  /** Past the end of the data every bit is zero. */
  lemma {:induction false} WindowPastEnd(data: seq<Octet>, k: nat)
    ensures Window(data, 8 * |data| + k) == Shl(Window(data, 8 * |data|), k)
  {
    hide BitAt;
    if k != 0 {
      WindowPastEnd(data, k - 1);
      BitPastEnd(data, k - 1);
      WindowLast(data, 8 * |data| + k - 1);
    }
  }

  /** A window reads only the octets it covers. */
  lemma {:induction false} WindowPrefix(a: seq<Octet>, b: seq<Octet>, m: nat)
    requires m <= 8 * |a|
    ensures Window(a + b, m) == Window(a, m)
  {
    hide OctetBit;
    if m != 0 {
      WindowPrefix(a, b, m - 1);
    }
  }

  /** The big-endian number an octet sequence stands for. */
  function BigEndian(data: seq<Octet>): nat {
    Window(data, 8 * |data|)
  }

  lemma BigEndianAppend(data: seq<Octet>, x: Octet)
    ensures BigEndian(data + [x]) == 256 * BigEndian(data) + x
  {
    hide Window;
    WindowPrefix(data, [x], 8 * |data|);
    WindowOctet(data + [x], |data|);
    assert 8 * |data + [x]| == 8 * |data| + 8;
  }

  /** The zero-continued fraction `data` lies in the interval. */
  predicate Inside(data: seq<Octet>, iv: Interval) {
    iv.low <= Window(data, iv.shifts + 8) < iv.low + iv.range
  }

  /** A fraction lies in a half of the interval exactly if its leading bits lie in the unscaled half. */
  lemma InsideNarrow(data: seq<Octet>, iv: Interval, s: Symbol)
    ensures Inside(data, Narrow(iv, s)) <==>
            SubLow(iv, s) <= Window(data, iv.shifts + 8) < SubLow(iv, s) + SubRange(iv, s)
  {
    hide Window, Shl, Doublings, Split, SubLow, SubRange;
    var n := Doublings(SubRange(iv, s));
    WindowTruncate(data, iv.shifts + 8, n);
    assert iv.shifts + n + 8 == iv.shifts + 8 + n;
    ShiftBetween(Window(data, iv.shifts + 8), Window(data, iv.shifts + 8 + n),
                 SubLow(iv, s), SubRange(iv, s), n);
  }

  lemma ShiftBetween(w: nat, w': nat, lo: nat, r: nat, n: nat)
    requires Shl(w, n) <= w' < Shl(w + 1, n)
    ensures Shl(lo, n) <= w' < Shl(lo, n) + Shl(r, n) <==> lo <= w < lo + r
  {
    hide Shl;
    ShlSum(lo, r, n);
    ShlOrder(lo, w, n);
    ShlOrder(w + 1, lo, n);
    ShlOrder(lo + r, w, n);
    ShlOrder(w + 1, lo + r, n);
  }

  lemma InsideWider(data: seq<Octet>, iv: Interval, s: Symbol)
    requires Inside(data, Narrow(iv, s))
    ensures Inside(data, iv)
  {
    InsideNarrow(data, iv, s);
  }

  /** Every extension of a symbol sequence stays inside its interval. */
  lemma {:induction false} InsidePrefix(data: seq<Octet>, syms: seq<Symbol>, more: seq<Symbol>)
    requires Inside(data, Encoded(syms + more))
    ensures Inside(data, Encoded(syms))
  {
    hide Inside, Narrow;
    if more == [] {
      assert syms + more == syms;
    } else {
      var init := more[..|more| - 1];
      assert syms + more == (syms + init) + [more[|more| - 1]];
      EncodedSnoc(syms + init, more[|more| - 1]);
      InsideWider(data, Encoded(syms + init), more[|more| - 1]);
      InsidePrefix(data, syms, init);
    }
  }
}
