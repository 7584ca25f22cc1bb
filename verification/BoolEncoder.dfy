/** The Boolean entropy encoder (src/encoder/bool_encoder.hh): a 32-bit register that emits octets
    late and propagates carries back into octets already emitted. */
module BoolEncoding {
  import opened BoolCoding

  /** The lookup table vp8_norm, by its runs of equal entries. */
  function Norm(range: Octet): nat {
    if range == 0 then 0
    else if range < 2 then 7
    else if range < 4 then 6
    else if range < 8 then 5
    else if range < 16 then 4
    else if range < 32 then 3
    else if range < 64 then 2
    else if range < 128 then 1
    else 0
  }

  /** The table gives exactly the number of doublings that renormalise the range. */
  lemma NormIsDoublings(range: Octet)
    requires range != 0
    ensures Norm(range) == Doublings(range)
  {}

  // ----- Carry propagation -----

  /** Some octet can absorb a carry. */
  predicate StopsCarry(data: seq<Octet>) {
    exists i :: 0 <= i < |data| && data[i] != 255
  }

  /** Adding one to the last octet, with the carry running backwards over octets of 255. */
  function Carried(data: seq<Octet>): (r: seq<Octet>)
    requires StopsCarry(data)
    ensures |r| == |data|
  {
    var init, last := data[..|data| - 1], data[|data| - 1];
    if last == 255 then
      assert StopsCarry(init) by {
        var i :| 0 <= i < |data| && data[i] != 255;
        assert init[i] != 255;
      }
      Carried(init) + [0]
    else init + [last + 1]
  }

  lemma {:induction false} CarriedAddsOne(data: seq<Octet>)
    requires StopsCarry(data)
    ensures BigEndian(Carried(data)) == BigEndian(data) + 1
  {
    hide BigEndian;
    var init, last := data[..|data| - 1], data[|data| - 1];
    assert data == init + [last];
    BigEndianAppend(init, last);
    if last == 255 {
      CarriedAddsOne(init);
      BigEndianAppend(Carried(init), 0);
    } else {
      BigEndianAppend(init, last + 1);
    }
  }

  /** A number that can be incremented within its octets has an octet to stop the carry. */
  lemma {:induction false} CarryStops(data: seq<Octet>)
    requires BigEndian(data) + 1 < Shl(1, 8 * |data|)
    ensures StopsCarry(data)
  {
    hide Window;
    if data == [] {
      EmptyNumber(data);
    } else {
      var init, last := data[..|data| - 1], data[|data| - 1];
      assert data == init + [last];
      BigEndianAppend(init, last);
      if last == 255 {
        ShlAdd(1, 8 * |init|, 8);
        ShlTable(Shl(1, 8 * |init|));
        CarryStops(init);
        var i :| 0 <= i < |init| && init[i] != 255;
        assert data[i] != 255;
      }
    }
  }

  lemma EmptyNumber(data: seq<Octet>)
    requires data == []
    ensures BigEndian(data) == 0 && Shl(1, 8 * |data|) == 1
  {}

  // ----- The register -----

  datatype Register = Register(output: seq<Octet>, range: int, bottom: int, bitCount: int)

  /** How many bits of the low end are still in the register, carry bit aside. */
  function Pending(r: Register): nat
    requires r.bitCount >= -24
  {
    32 + r.bitCount
  }

  /** The register and the octets emitted so far hold the exact low end of the interval. */
  ghost predicate Holds(r: Register, iv: Interval) {
    && r.range == iv.range
    && -24 <= r.bitCount <= -1
    && iv.shifts == 24 + r.bitCount + 8 * |r.output|
    && 0 <= r.bottom
    && iv.low == Shl(BigEndian(r.output), Pending(r)) + r.bottom
    && (|r.output| > 0 ==> r.bitCount >= -8 && r.bottom + r.range <= Shl(0x100_00FF, 8 + r.bitCount))
  }

  lemma StartHolds()
    ensures Holds(Register([], 255, 0, -24), Start)
  {
    EmptyNumber([]);
    ShlAdd(0, 0, 8);
    ShlTable(0);
  }

  /** The register never leaves 32 bits and holds at most one carry bit above its pending bits. */
  lemma RegisterBounds(r: Register, iv: Interval)
    requires Holds(r, iv)
    ensures r.bottom + r.range < WORD
    ensures r.bottom + r.range <= Shl(2, Pending(r))
    ensures r.range == iv.range && -24 <= r.bitCount <= -1
  {
    hide Shl, BigEndian;
    if |r.output| == 0 {
      EmptyNumber(r.output);
      ShlOfZero(Pending(r));
      EarlyBounds(r.bottom + r.range, 24 + r.bitCount);
    } else {
      LateBounds(r.bottom + r.range, 8 + r.bitCount);
    }
  }

  lemma {:induction false} ShlOfZero(k: nat)
    ensures Shl(0, k) == 0
  {
    if k != 0 { ShlOfZero(k - 1); }
  }

  lemma EarlyBounds(top: int, shifts: nat)
    requires shifts <= 23 && top <= Shl(255, shifts)
    ensures top < WORD && top <= Shl(2, shifts + 8)
  {
    hide Shl;
    ShlGrows(255, shifts, 24);
    ShlWide(255);
    ShlAdd(2, 8, shifts);
    ShlTable(2);
    ShlOrder(255, 512, shifts);
  }

  lemma LateBounds(top: int, s: nat)
    requires s <= 7 && top <= Shl(0x100_00FF, s)
    ensures top < WORD && top <= Shl(2, 24 + s)
  {
    hide Shl;
    ShlGrows(0x100_00FF, s, 7);
    ShlTable(0x100_00FF);
    ShlAdd(2, 24, s);
    ShlWide(2);
    ShlOrder(0x100_00FF, 0x200_0000, s);
  }

  /** Carry safety: whenever a carry is pending in the register, some emitted octet can absorb it. */
  lemma CarryIsSafe(r: Register, iv: Interval)
    requires Holds(r, iv)
    requires r.bottom >= Shl(1, Pending(r))
    ensures StopsCarry(r.output)
  {
    hide Shl, BigEndian;
    RoomForOne(BigEndian(r.output), |r.output|, Pending(r), iv.low, iv.shifts);
    CarryStops(r.output);
  }

  lemma RoomForOne(e: nat, n: nat, k: nat, low: nat, shifts: nat)
    requires low < Shl(255, shifts) && shifts + 8 == 8 * n + k
    requires Shl(e, k) + Shl(1, k) <= low
    ensures e + 1 < Shl(1, 8 * n)
  {
    hide Shl;
    ShlSum(e, 1, k);
    ShlAdd(1, 8 * n, k);
    ShlAdd(1, 8, shifts);
    ShlTable(1);
    ShlOrder(255, 256, shifts);
    ShlOrder(Shl(1, 8 * n), e + 1, k);
  }

  // ----- One put -----

  /** The register after the chosen half has been added, before renormalisation. */
  function SubBottom(r: Register, iv: Interval, s: Symbol): int {
    r.bottom + SubLow(iv, s) - iv.low
  }

  lemma SubBottomBounds(r: Register, iv: Interval, s: Symbol)
    requires Holds(r, iv)
    ensures 0 <= SubBottom(r, iv, s) && SubBottom(r, iv, s) + SubRange(iv, s) <= r.bottom + r.range < WORD
    ensures r.bottom + r.range <= Shl(2, Pending(r))
    ensures r.range == iv.range && -24 <= r.bitCount <= -1
  {
    hide Shl, BigEndian, Split;
    RegisterBounds(r, iv);
  }

  /** Renormalising by fewer doublings than complete the next octet. */
  lemma ShiftWithin(r: Register, iv: Interval, s: Symbol, n: nat)
    requires Holds(r, iv) && n == Doublings(SubRange(iv, s)) && r.bitCount + n < 0
    ensures Holds(Register(r.output, Shl(SubRange(iv, s), n), Shl(SubBottom(r, iv, s), n), r.bitCount + n),
                  Narrow(iv, s))
    ensures 0 <= Shl(SubBottom(r, iv, s), n) < WORD
  {
    hide Shl, BigEndian, Split, SubLow, SubRange, Doublings;
    var b, q := SubBottom(r, iv, s), SubRange(iv, s);
    SubBottomBounds(r, iv, s);
    ShlSum(Shl(BigEndian(r.output), Pending(r)), b, n);
    ShlAdd(BigEndian(r.output), Pending(r), n);
    ShlGrows(b, 0, n);
    ShlZero(b);
    if |r.output| > 0 {
      ShlSum(b, q, n);
      ShlOrder(b + q, Shl(0x100_00FF, 8 + r.bitCount), n);
      ShlAdd(0x100_00FF, 8 + r.bitCount, n);
    }
    RegisterBounds(Register(r.output, Shl(q, n), Shl(b, n), r.bitCount + n), Narrow(iv, s));
  }

  /** Shifting alone does not create a carry. */
  lemma ShiftKeepsNoCarry(r: Register, iv: Interval, s: Symbol, n: nat)
    requires Holds(r, iv) && !s.bit && r.bottom < Shl(1, Pending(r))
    ensures Shl(SubBottom(r, iv, s), n) < Shl(1, Pending(r) + n)
  {
    hide Shl;
    ShlOrder(Shl(1, Pending(r)), r.bottom, n);
    ShlAdd(1, Pending(r), n);
  }

  /** The sub-interval's low end, shifted until the register is full: its top octet is emitted next. */
  function Full(r: Register, iv: Interval, s: Symbol): int
    requires r.bitCount < 0
  {
    Shl(SubBottom(r, iv, s), -r.bitCount)
  }

  /** A full register holds 32 bits and at most one carry. */
  lemma FullIsLow(r: Register, iv: Interval, s: Symbol)
    requires Holds(r, iv)
    ensures 0 <= Full(r, iv, s) < 2 * WORD
    ensures Shl(SubLow(iv, s), -r.bitCount) == WORD * BigEndian(r.output) + Full(r, iv, s)
  {
    hide Shl, BigEndian, Split, SubLow, SubRange;
    var o, k, b := -r.bitCount, Pending(r), SubBottom(r, iv, s);
    SubBottomBounds(r, iv, s);
    ShlSum(Shl(BigEndian(r.output), k), b, o);
    ShlAdd(BigEndian(r.output), k, o);
    ShlWide(BigEndian(r.output));
    ShlGrows(b, 0, o);
    ShlZero(b);
    ShlOrder(Shl(2, k), b, o);
    ShlAdd(2, k, o);
    ShlWide(2);
  }

  /** A carry out of the full register has somewhere to go. */
  lemma FullCarryIsSafe(r: Register, iv: Interval, s: Symbol)
    requires Holds(r, iv) && Full(r, iv, s) >= WORD
    ensures StopsCarry(r.output)
  {
    hide Shl, BigEndian, Split, SubLow, SubRange;
    var o, n := -r.bitCount, |r.output|;
    FullIsLow(r, iv, s);
    ShlOrder(Shl(255, iv.shifts), SubLow(iv, s), o);
    ShlAdd(255, iv.shifts, o);
    ShlWide(BigEndian(r.output));
    ShlWide(1);
    assert iv.shifts + o + 8 == 8 * n + 32;
    assert SubLow(iv, s) < Shl(255, iv.shifts) by { var _ := SubRange(iv, s); }
    RoomForOne(BigEndian(r.output), n, 32, Shl(SubLow(iv, s), o), iv.shifts + o);
    CarryStops(r.output);
  }

  /** The octets after emission: carry, then the top octet of the full register. */
  function Emitted(output: seq<Octet>, full: int): seq<Octet>
    requires full >= WORD ==> StopsCarry(output)
  {
    (if full >= WORD then Carried(output) else output) + [full / 0x100_0000 % 256]
  }

  lemma EmittedValue(output: seq<Octet>, full: int)
    requires 0 <= full < 2 * WORD
    requires full >= WORD ==> StopsCarry(output)
    ensures 0x100_0000 * BigEndian(Emitted(output, full)) + full % 0x100_0000 == WORD * BigEndian(output) + full
    ensures |Emitted(output, full)| == |output| + 1
  {
    hide BigEndian, Carried;
    if full >= WORD { CarriedAddsOne(output); }
    BigEndianAppend(if full >= WORD then Carried(output) else output, full / 0x100_0000 % 256);
    OctetsOfFull(full);
  }

  lemma OctetsOfFull(full: int)
    requires 0 <= full < 2 * WORD
    ensures full == WORD * (if full >= WORD then 1 else 0)
                    + 0x100_0000 * (full / 0x100_0000 % 256) + full % 0x100_0000
  {
    var h := full / 0x100_0000;
    assert h < 512 && h / 256 == (if full >= WORD then 1 else 0);
    assert h == 256 * (h / 256) + h % 256;
  }

  /** The register after renormalising across an octet boundary. */
  function Across(r: Register, iv: Interval, s: Symbol, n: nat): Register
    requires r.bitCount < 0 && r.bitCount + n >= 0
    requires Full(r, iv, s) >= WORD ==> StopsCarry(r.output)
  {
    Register(Emitted(r.output, Full(r, iv, s)), Shl(SubRange(iv, s), n),
             Shl(Full(r, iv, s) % 0x100_0000, r.bitCount + n), r.bitCount + n - 8)
  }

  /** Renormalising across an octet boundary. */
  lemma ShiftAcross(r: Register, iv: Interval, s: Symbol, n: nat)
    requires Holds(r, iv) && n == Doublings(SubRange(iv, s)) && r.bitCount + n >= 0
    ensures Full(r, iv, s) >= WORD ==> StopsCarry(r.output)
    ensures Holds(Across(r, iv, s, n), Narrow(iv, s))
    ensures Across(r, iv, s, n).bottom < Shl(1, Pending(Across(r, iv, s, n)))
  {
    hide Shl, BigEndian, Split, SubLow, SubRange, Doublings, Full, Emitted;
    FullIsLow(r, iv, s);
    if Full(r, iv, s) >= WORD { FullCarryIsSafe(r, iv, s); }
    EmittedValue(r.output, Full(r, iv, s));
    AcrossLow(Full(r, iv, s), BigEndian(Emitted(r.output, Full(r, iv, s))), SubLow(iv, s), -r.bitCount, r.bitCount + n);
    var _ := Doublings(SubRange(iv, s));
  }

  lemma AcrossLow(full: nat, out: nat, sub: nat, o: nat, rest: nat)
    requires Shl(sub, o) == 0x100_0000 * out + full % 0x100_0000
    ensures Shl(sub, o + rest) == Shl(out, 24 + rest) + Shl(full % 0x100_0000, rest)
    ensures 0 <= Shl(full % 0x100_0000, rest) < Shl(1, 24 + rest)
    ensures Shl(full % 0x100_0000, rest) + 255 <= Shl(0x100_00FF, rest)
  {
    hide Shl;
    var low := full % 0x100_0000;
    ShlAdd(sub, o, rest);
    ShlWide(out);
    ShlSum(Shl(out, 24), low, rest);
    ShlAdd(out, 24, rest);
    ShlGrows(low, 0, rest);
    ShlZero(low);
    ShlWide(1);
    ShlAdd(1, 24, rest);
    ShlOrder(0x100_0000, low, rest);
    ShlSum(low, 255, rest);
    ShlGrows(255, 0, rest);
    ShlZero(255);
    ShlOrder(low + 255, 0x100_00FF, rest);
  }

  /** What put() computes on its 32-bit word when an octet is due. */
  lemma EmissionIsAcross(r: Register, iv: Interval, s: Symbol, n: nat)
    requires Holds(r, iv) && n == Doublings(SubRange(iv, s)) && r.bitCount + n >= 0
    ensures Full(r, iv, s) >= WORD ==> StopsCarry(r.output)
    ensures 1 <= -r.bitCount <= 24
    ensures var b, offset, a := SubBottom(r, iv, s), -r.bitCount, Across(r, iv, s, n);
            && (Shl(b, offset - 1) % WORD >= 0x8000_0000 <==> Full(r, iv, s) >= WORD)
            && b >= 0
            && a.output == (if Full(r, iv, s) >= WORD then Carried(r.output) else r.output)
                           + [Shr(b, 24 - offset) % 256]
            && a.bottom == Shl(Shl(b, offset) % WORD % 0x100_0000, r.bitCount + n) % WORD
            && a.range == Shl(SubRange(iv, s), n) && a.bitCount == r.bitCount + n - 8
            && Holds(a, Narrow(iv, s)) && a.bottom < Shl(1, Pending(a))
  {
    hide Shl, Shr, BigEndian, Split, SubLow, SubRange, Doublings, Carried, Narrow;
    ShiftAcross(r, iv, s, n);
    SubBottomBounds(r, iv, s);
    FullIsLow(r, iv, s);
    TopBit(SubBottom(r, iv, s), -r.bitCount);
    TopOctet(SubBottom(r, iv, s), -r.bitCount);
    ModMod(Full(r, iv, s));
    RegisterBounds(Across(r, iv, s, n), Narrow(iv, s));
  }

  lemma TopBit(bottom: nat, offset: nat)
    requires 1 <= offset && Shl(bottom, offset) < 2 * WORD
    ensures Shl(bottom, offset - 1) % WORD >= 0x8000_0000 <==> Shl(bottom, offset) >= WORD
  {
    ShlGrows(bottom, 0, offset - 1);
  }

  lemma TopOctet(bottom: nat, offset: nat)
    requires offset <= 24
    ensures 0 <= Shl(bottom, offset)
    ensures Shr(bottom, 24 - offset) % 256 == Shl(bottom, offset) / 0x100_0000 % 256
  {
    hide Shl, Shr;
    var q := Shr(bottom, 24 - offset);
    ShlGrows(bottom, 0, offset);
    ShlZero(bottom);
    ShrFloor(bottom, 24 - offset);
    ShlOrder(Shl(q, 24 - offset), bottom, offset);
    ShlOrder(Shl(q + 1, 24 - offset), bottom, offset);
    ShlAdd(q, 24 - offset, offset);
    ShlAdd(q + 1, 24 - offset, offset);
    ShlWide(q);
    ShlWide(q + 1);
  }

  lemma ModMod(x: int)
    ensures x % WORD % 0x100_0000 == x % 0x100_0000
  {}

  // ----- Flushing -----

  const FLUSH_LENGTH: nat := 32

  function Zeros(n: nat): (z: seq<Symbol>)
    ensures |z| == n
  {
    seq(n, _ => Symbol(false, 128))
  }

  /** z continues a by shifts alone. */
  ghost predicate OnlyShifted(a: Interval, z: Interval) {
    z.shifts >= a.shifts && z.low == Shl(a.low, z.shifts - a.shifts)
  }

  /** After the first flush symbol the range is even, and every further one costs exactly one shift. */
  lemma {:induction false} FlushShifts(syms: seq<Symbol>, n: nat)
    ensures OnlyShifted(Encoded(syms), Encoded(syms + Zeros(n)))
    ensures Encoded(syms + Zeros(n)).shifts + 1 >= Encoded(syms).shifts + n
    ensures n > 0 ==> Encoded(syms + Zeros(n)).range % 2 == 0
  {
    hide Narrow, Encoded;
    if n == 0 {
      assert syms + Zeros(0) == syms;
    } else {
      FlushShifts(syms, n - 1);
      assert syms + Zeros(n) == (syms + Zeros(n - 1)) + [Symbol(false, 128)];
      EncodedSnoc(syms + Zeros(n - 1), Symbol(false, 128));
      FlushStep(Encoded(syms + Zeros(n - 1)));
    }
  }

  lemma FlushStep(y: Interval)
    ensures var z := Narrow(y, Symbol(false, 128));
            && z.range % 2 == 0
            && z.shifts == y.shifts + (if y.range == 255 then 0 else 1)
            && z.low == y.low * (if y.range == 255 then 1 else 2)
  {
    hide Split, Doublings, Shl;
    HalfSplit(y.range);
    ShlTable((y.range + 1) / 2);
    ShlZero((y.range + 1) / 2);
    ShlTable(y.low);
    ShlZero(y.low);
  }

  lemma HalfSplit(range: nat)
    requires 128 <= range <= 255
    ensures Split(range, 128) == (range + 1) / 2
    ensures Doublings((range + 1) / 2) == if range == 255 then 0 else 1
  {
    assert (range - 1) * 128 / 256 == (range - 1) / 2;
  }

  /** How many octets finish() returns, given the final number of shifts. */
  function OctetCount(shifts: nat): nat {
    if shifts < 24 then 0 else (shifts - 16) / 8
  }

  /** The n-octet big-endian representation. */
  function ToOctets(v: nat, n: nat): (data: seq<Octet>)
    ensures |data| == n
  {
    if n == 0 then [] else ToOctets(v / 256, n - 1) + [v % 256]
  }

  lemma {:induction false} ToOctetsInverse(data: seq<Octet>)
    ensures ToOctets(BigEndian(data), |data|) == data
  {
    hide BigEndian;
    if data != [] {
      var init := data[..|data| - 1];
      assert data == init + [data[|data| - 1]];
      BigEndianAppend(init, data[|data| - 1]);
      ToOctetsInverse(init);
    }
  }

  lemma {:induction false} FromOctetsInverse(v: nat, n: nat)
    requires v < Shl(1, 8 * n)
    ensures BigEndian(ToOctets(v, n)) == v
  {
    hide Shl, BigEndian;
    if n == 0 {
      EmptyNumber([]);
      ShlZero(1);
    } else {
      ShlAdd(1, 8 * n - 8, 8);
      ShlTable(Shl(1, 8 * n - 8));
      FromOctetsInverse(v / 256, n - 1);
      BigEndianAppend(ToOctets(v / 256, n - 1), v % 256);
    }
  }

  /** The octets finish() returns for a symbol sequence: the low end of the flushed interval. */
  function Finished(syms: seq<Symbol>): seq<Octet> {
    var z := Encoded(syms + Zeros(FLUSH_LENGTH));
    var n := OctetCount(z.shifts);
    ToOctets(Shr(z.low, z.shifts + 8 - 8 * n), n)
  }

  /** The flush is long enough: the pending bits are all zero, so the octets (continued by zeros) are
      exactly the low end of the interval, and there is at least one of them. */
  lemma FlushIsExact(syms: seq<Symbol>)
    ensures var z := Encoded(syms + Zeros(FLUSH_LENGTH));
            |Finished(syms)| >= 1 && Window(Finished(syms), z.shifts + 8) == z.low
  {
    hide Shl, Shr, Window, Encoded, ToOctets;
    var a, z := Encoded(syms), Encoded(syms + Zeros(FLUSH_LENGTH));
    FlushShifts(syms, FLUSH_LENGTH);
    var n := OctetCount(z.shifts);
    var k := z.shifts + 8 - 8 * n;
    ShrExact(a.low, z.shifts - a.shifts, k);
    QuotientFits(z.low, z.shifts, n, k);
    FromOctetsInverse(Shr(z.low, k), n);
    WindowPastEnd(Finished(syms), k);
  }

  lemma {:induction false} ShiftsBound(syms: seq<Symbol>)
    ensures Encoded(syms).shifts <= 7 * |syms|
  {
    hide Shl;
    if syms != [] { ShiftsBound(syms[..|syms| - 1]); }
  }

  /** A symbol takes seven bits at most, so there are hardly more octets than symbols. */
  lemma FinishedLength(syms: seq<Symbol>)
    ensures |Finished(syms)| <= |syms| + 26
  {
    hide Encoded, Shr, ToOctets;
    ShiftsBound(syms + Zeros(FLUSH_LENGTH));
  }

  /** Shifting right by no more than was shifted left loses nothing. */
  lemma ShrExact(x: nat, t: nat, k: nat)
    requires k <= t
    ensures Shl(x, t) >= 0 && Shl(Shr(Shl(x, t), k), k) == Shl(x, t)
  {
    hide Shl, Shr;
    ShlAdd(x, t - k, k);
    ShlGrows(x, t - k, t);
    ShlOrder(Shl(x, t - k) + 1, Shl(x, t - k), k);
    ShrUnique(Shl(x, t), k, Shl(x, t - k));
  }

  lemma QuotientFits(low: nat, shifts: nat, n: nat, k: nat)
    requires low < Shl(255, shifts) && shifts + 8 == 8 * n + k
    ensures Shr(low, k) < Shl(1, 8 * n)
  {
    hide Shl, Shr;
    ShlAdd(1, 8, shifts);
    ShlTable(1);
    ShlOrder(255, 256, shifts);
    ShlAdd(1, 8 * n, k);
    ShrFloor(low, k);
    ShlOrder(Shl(1, 8 * n), Shr(low, k), k);
  }

  /** What finish() returns lies in the interval of the symbols that were put. */
  lemma FinishedInside(syms: seq<Symbol>)
    ensures Inside(Finished(syms), Encoded(syms))
  {
    hide Encoded, Finished, Window;
    FlushIsExact(syms);
    InsidePrefix(Finished(syms), syms, Zeros(FLUSH_LENGTH));
  }

  /** 31 shifts always complete another octet. */
  lemma FlushEmits(a: Register, iv: Interval, z: Register, iz: Interval)
    requires Holds(a, iv) && Holds(z, iz) && iz.shifts >= iv.shifts + 31
    ensures |z.output| > |a.output|
  {}

  lemma FinishedIsOutput(r: Register, syms: seq<Symbol>)
    requires Holds(r, Encoded(syms + Zeros(FLUSH_LENGTH)))
    requires |r.output| >= 1 && r.bottom < Shl(1, Pending(r))
    ensures Finished(syms) == r.output
  {
    hide Encoded, Shl, Shr, BigEndian, ToOctets;
    var z := Encoded(syms + Zeros(FLUSH_LENGTH));
    assert OctetCount(z.shifts) == |r.output|;
    ShlSum(BigEndian(r.output), 1, Pending(r));
    ShrUnique(z.low, Pending(r), BigEndian(r.output));
    ToOctetsInverse(r.output);
  }

  // ----- The encoder -----

  class BoolEncoder {
    var output: seq<Octet>
    var range: int
    var bottom: int
    var bitCount: int
    ghost var log: seq<Symbol>  // every symbol put so far

    function Contents(): Register
      reads this
    {
      Register(output, range, bottom, bitCount)
    }

    ghost predicate Valid()
      reads this
    {
      Holds(Contents(), Encoded(log))
    }

    /** No carry is waiting in the register. */
    ghost predicate NoCarry()
      reads this
      requires Valid()
    {
      bottom < Shl(1, Pending(Contents()))
    }

    constructor ()
      ensures Valid() && log == [] && output == []
    {
      output, range, bottom, bitCount := [], 255, 0, -24;
      log := [];
      new;
      StartHolds();
    }

    method AddOneToOutput()
      requires StopsCarry(output)
      modifies this`output
      ensures output == Carried(old(output))
    {
      ghost var was := output;
      var it := |output| - 1;
      assert was[..it + 1] == was && output[it + 1..] == [];
      while output[it] == 255
        invariant 0 <= it < |output| == |was|
        invariant output[..it + 1] == was[..it + 1]
        invariant StopsCarry(was[..it + 1])
        invariant Carried(was) == Carried(was[..it + 1]) + output[it + 1..]
        decreases it
      {
        output := output[it := 0];
        assert was[..it + 1][..it] == was[..it];
        assert output[it..] == [0] + output[it + 1..];
        it := it - 1;
      }
      assert was[..it + 1][..it] == was[..it];
      output := output[it := output[it] + 1];
    }

    method Put(value: bool, probability: Prob)
      requires Valid()
      modifies this
      ensures Valid() && log == old(log) + [Symbol(value, probability)]
      ensures |output| >= |old(output)|
      ensures |output| > |old(output)| || (!value && old(NoCarry())) ==> NoCarry()
    {
      hide Holds, Encoded, Shl, Shr, Split, Doublings, Norm, Narrow, Carried, Across, Full, StopsCarry;
      ghost var r, iv, s := Contents(), Encoded(log), Symbol(value, probability);
      SubBottomBounds(r, iv, s);

      var split := Split(range, probability);
      if value {
        bottom := (bottom + split) % WORD;
        range := range - split;
      } else {
        range := split;
      }
      assert range == SubRange(iv, s) && bottom == SubBottom(r, iv, s);

      NormIsDoublings(range);
      var shift := Norm(range);
      ghost var n := shift;
      range := Shl(range, shift);
      bitCount := bitCount + shift;

      if bitCount >= 0 {
        EmissionIsAcross(r, iv, s, n);
        var offset := shift - bitCount;
        if Shl(bottom, offset - 1) % WORD >= 0x8000_0000 {
          assert output == r.output;
          AddOneToOutput();
        }
        output := output + [Shr(bottom, 24 - offset) % 256];
        bottom := Shl(bottom, offset) % WORD;
        shift := bitCount;
        bottom := bottom % 0x100_0000;
        bitCount := bitCount - 8;
      } else {
        ShiftWithin(r, iv, s, n);
        if !value && r.bottom < Shl(1, Pending(r)) { ShiftKeepsNoCarry(r, iv, s, n); }
      }
      bottom := Shl(bottom, shift) % WORD;

      log := log + [s];
      EncodedSnoc(old(log), s);
    }

    method Flush()
      requires Valid()
      modifies this
      ensures Valid() && log == old(log) + Zeros(FLUSH_LENGTH)
      ensures NoCarry() && |output| >= 1
    {
      hide Holds, Encoded, Shl;
      ghost var r := Contents();
      assert old(log) + Zeros(0) == old(log);
      for i := 0 to FLUSH_LENGTH
        invariant Valid() && log == old(log) + Zeros(i)
        invariant |output| >= |r.output|
        invariant |output| > |r.output| ==> NoCarry()
      {
        Put(false, 128);
        assert Zeros(i) + [Symbol(false, 128)] == Zeros(i + 1);
      }
      FlushShifts(old(log), FLUSH_LENGTH);
      FlushEmits(r, Encoded(old(log)), Contents(), Encoded(log));
    }

    /** Terminates the stream and leaves the encoder as if newly constructed. */
    method Finish() returns (ret: seq<Octet>)
      requires Valid()
      modifies this
      ensures ret == Finished(old(log))
      ensures Valid() && log == [] && output == []
    {
      hide Shl, Finished;
      Flush();
      FinishedIsOutput(Contents(), old(log));
      ret := output;
      output, range, bottom, bitCount := [], 255, 0, -24;
      log := [];
      StartHolds();
    }
  }
}
