/** Motion vectors (section 17 of RFC 6386): the printer of src/encoder/serializer.cc and the parser of
    src/decoder/macroblock.cc. */
module MotionVectors {
  import opened BoolCoding
  import opened BoolEncoding
  import opened BoolDecoding
  import opened TreeCoder
  import opened CodingTrees

  type Int16 = x: int | -0x8000 <= x < 0x8000

  /** The low 16 bits, read as a signed number. */
  function Wrap16(x: int): Int16 {
    (x + 0x8000) % 0x1_0000 - 0x8000
  }

  datatype MotionVector = MotionVector(x: Int16, y: Int16) {
    predicate Empty() {
      x == 0 && y == 0
    }

    function Plus(other: MotionVector): MotionVector {
      MotionVector(Wrap16(x + other.x), Wrap16(y + other.y))
    }

    function Negated(): MotionVector {
      MotionVector(Wrap16(-(x as int)), Wrap16(-(y as int)))
    }

    function Minus(other: MotionVector): MotionVector {
      Plus(other.Negated())
    }
  }

  const ZERO_MV: MotionVector := MotionVector(0, 0)

  /** Subtraction and addition undo each other, wrap-around included. */
  lemma MinusPlus(a: MotionVector, b: MotionVector)
    ensures a.Minus(b).Plus(b) == a
  {
    WrapCancels(a.x, b.x);
    WrapCancels(a.y, b.y);
  }

  lemma WrapCancels(a: Int16, b: Int16)
    ensures Wrap16(Wrap16(a + Wrap16(-(b as int))) + b) == a
  {
    assert Wrap16(-(b as int)) == -(b as int) || Wrap16(-(b as int)) == -(b as int) - 0x1_0000;
    var s := a + Wrap16(-(b as int));
    assert exists k :: -2 <= k <= 2 && Wrap16(s) == s + 0x1_0000 * k by {
      if s < -0x8000 { assert Wrap16(s) == s + 0x1_0000 * 1; }
      else if s >= 0x8000 { assert Wrap16(s) == s + 0x1_0000 * -1; }
      else { assert Wrap16(s) == s + 0x1_0000 * 0; }
    }
  }

  const IS_SHORT: nat := 0
  const SIGN: nat := 1
  const SHORT: nat := 2
  const LONG: nat := 9  // called BITS in the source
  const LONG_MV_WIDTH: nat := 10
  const MV_PROB_CNT: nat := 19

  type ComponentProbs = p: seq<Prob> | |p| == MV_PROB_CNT
    witness [0, 0, 0, 0, 0, 0, 0, 0, 0, 0, 0, 0, 0, 0, 0, 0, 0, 0, 0]

  /** The order in which the bits of a long component are coded; bit 3 comes last, if at all. */
  const LONG_ORDER: seq<nat> := [0, 1, 2, 9, 8, 7, 6, 5, 4]

  /** The low three bits upwards, then the high ones downwards. */
  lemma LongOrder(i: nat)
    requires i < 9
    ensures LONG_ORDER[i] == if i < 3 then i else 12 - i
  {}

  function BitOf(x: nat, i: nat): (b: nat)
    ensures b <= 1
  {
    Shr(x, i) % 2
  }

  function LongBit(x: nat, p: ComponentProbs, i: nat): Symbol
    requires i < LONG_MV_WIDTH
  {
    Symbol(BitOf(x, i) == 1, p[LONG + i])
  }

  function LongBits(x: nat, p: ComponentProbs, n: nat): (s: seq<Symbol>)
    requires n <= 9
  {
    if n == 0 then [] else LongBits(x, p, n - 1) + [LongBit(x, p, LONG_ORDER[n - 1])]
  }

  function ShortProbs(p: ComponentProbs): Probs {
    p[SHORT..SHORT + 7]
  }

  function MagnitudeSymbols(x: nat, p: ComponentProbs): seq<Symbol> {
    SmallMvTree();
    if x < 8 then [Symbol(false, p[IS_SHORT])] + LeafPath(SMALL_MV_TREE, ShortProbs(p), x)
    else [Symbol(true, p[IS_SHORT])] + LongBits(x, p, 9) + BitThree(x, p)
  }

  /** Bit 3 is implied when no higher bit is set. */
  function BitThree(x: nat, p: ComponentProbs): seq<Symbol> {
    if x >= 16 then [LongBit(x, p, 3)] else []
  }

  /** The number that is coded: the component in quarter-pixel steps, rounded down. */
  function Halved(num: Int16): int {
    num / 2
  }

  function AbsHalved(num: Int16): nat {
    if Halved(num) < 0 then -Halved(num) else Halved(num)
  }

  function ComponentSymbols(num: Int16, p: ComponentProbs): seq<Symbol> {
    MagnitudeSymbols(AbsHalved(num), p)
    + if num / 2 != 0 then [Symbol(num / 2 < 0, p[SIGN])] else []
  }

  /** The first n bits, in coding order, added up. */
  function ReadLongBits(c: Core, p: ComponentProbs, n: nat): (nat, Core)
    requires n <= 9
  {
    if n == 0 then (0, c)
    else
      var (x, c1) := ReadLongBits(c, p, n - 1);
      var i := LONG_ORDER[n - 1];
      var (b, c2) := Next(c1, p[LONG + i]);
      (x + if b then Weight(i) else 0, c2)
  }

  function Weight(i: nat): nat {
    ShlGrows(1, 0, i);
    Shl(1, i)
  }

  function ReadMagnitude(c: Core, p: ComponentProbs): (nat, Core) {
    var (long, c1) := Next(c, p[IS_SHORT]);
    if long then
      var (x, c2) := ReadLongBits(c1, p, 9);
      if x < 16 then (x + 8, c2)
      else
        var (b, c3) := Next(c2, p[LONG + 3]);
        (if b then x + 8 else x, c3)
    else Walk(c1, SMALL_MV_TREE, ShortProbs(p))
  }

  function ReadComponent(c: Core, p: ComponentProbs): (Int16, Core) {
    MagnitudeRange(c, p);
    var (x, c1) := ReadMagnitude(c, p);
    if x == 0 then (0, c1)
    else
      var (negative, c2) := Next(c1, p[SIGN]);
      (if negative then -2 * x else 2 * x, c2)
  }

  /** What the low n coded bits can add up to. */
  function LongMaximum(n: nat): nat
    requires n <= 9
  {
    if n == 0 then 0 else LongMaximum(n - 1) + Weight(LONG_ORDER[n - 1])
  }

  lemma {:induction false} LongRange(c: Core, p: ComponentProbs, n: nat)
    requires n <= 9
    ensures ReadLongBits(c, p, n).0 <= LongMaximum(n)
  {
    hide Next, Weight;
    if n != 0 { LongRange(c, p, n - 1); }
  }

  lemma LongMaxima()
    ensures LongMaximum(9) == 1015
  {
    Weights();
    hide Weight;
    MaximumStep(0); MaximumStep(1); MaximumStep(2); MaximumStep(3); MaximumStep(4);
    MaximumStep(5); MaximumStep(6); MaximumStep(7); MaximumStep(8);
  }

  lemma MaximumStep(n: nat)
    requires n < 9
    ensures LongMaximum(n + 1) == LongMaximum(n) + Weight(LONG_ORDER[n])
    ensures LongMaximum(0) == 0
  {}

  lemma Weights()
    ensures Weight(0) == 1 && Weight(1) == 2 && Weight(2) == 4 && Weight(3) == 8 && Weight(4) == 16
    ensures Weight(5) == 32 && Weight(6) == 64 && Weight(7) == 128 && Weight(8) == 256 && Weight(9) == 512
  {
    ShlTable(1);
    ShlZero(1);
    ShlStep(1, 8);
  }

  /** Whatever the data, a decoded magnitude has ten bits. */
  lemma MagnitudeRange(c: Core, p: ComponentProbs)
    ensures ReadMagnitude(c, p).0 <= 1023
  {
    hide Next, ReadLongBits, Walk, LongMaximum;
    SmallMvTree();
    LongRange(Next(c, p[IS_SHORT]).1, p, 9);
    LongMaxima();
    WalkInvertsPath(Next(c, p[IS_SHORT]).1, SMALL_MV_TREE, ShortProbs(p), 0);
  }

  // ----- Round trip -----

  /** The part of x that its first n coded bits add up to. */
  function LongSum(x: nat, n: nat): nat
    requires n <= 9
  {
    if n == 0 then 0
    else LongSum(x, n - 1) + if BitOf(x, LONG_ORDER[n - 1]) == 1 then Weight(LONG_ORDER[n - 1]) else 0
  }

  lemma {:induction false} LongBitsRoundTrip(c: Core, x: nat, p: ComponentProbs, n: nat)
    requires n <= 9 && Serves(c, LongBits(x, p, n))
    ensures ReadLongBits(c, p, n) == (LongSum(x, n), After(c, LongBits(x, p, n)))
  {
    hide Next, Serves, After, Weight, BitOf;
    if n == 0 {
      ServesNone(c);
    } else {
      ServesSnoc(c, LongBits(x, p, n - 1), LongBit(x, p, LONG_ORDER[n - 1]));
      LongBitsRoundTrip(c, x, p, n - 1);
    }
  }

  lemma BinaryExpansion(x: nat)
    requires x < 1024
    ensures x == LongSum(x, 9) + 8 * BitOf(x, 3)
    ensures x >= 16 <==> LongSum(x, 9) >= 16
    ensures x < 16 && x >= 8 ==> BitOf(x, 3) == 1
  {
    hide Shr, BitOf, LongSum;
    Halvings(x);
    LongSums(x);
  }

  lemma LongSums(x: nat)
    ensures LongSum(x, 9) == BitOf(x, 0) + 2 * BitOf(x, 1) + 4 * BitOf(x, 2) + 512 * BitOf(x, 9) + 256 * BitOf(x, 8)
                             + 128 * BitOf(x, 7) + 64 * BitOf(x, 6) + 32 * BitOf(x, 5) + 16 * BitOf(x, 4)
  {
    hide BitOf, LongSum;
    Weights();
    hide Weight;
    LongSumStep(x, 0, 1); LongSumStep(x, 1, 2); LongSumStep(x, 2, 4); LongSumStep(x, 3, 512); LongSumStep(x, 4, 256);
    LongSumStep(x, 5, 128); LongSumStep(x, 6, 64); LongSumStep(x, 7, 32); LongSumStep(x, 8, 16);
  }

  lemma LongSumStep(x: nat, n: nat, w: nat)
    requires n < 9 && w == Weight(LONG_ORDER[n])
    ensures LongSum(x, n + 1) == LongSum(x, n) + w * BitOf(x, LONG_ORDER[n])
    ensures LongSum(x, 0) == 0
  {
    hide Weight;
    assert BitOf(x, LONG_ORDER[n]) <= 1;
    hide BitOf;
    if BitOf(x, LONG_ORDER[n]) == 1 {
      assert w * BitOf(x, LONG_ORDER[n]) == w;
    } else {
      assert w * BitOf(x, LONG_ORDER[n]) == 0;
    }
  }

  lemma Halvings(x: nat)
    requires x < 1024
    ensures x == BitOf(x, 0) + 2 * BitOf(x, 1) + 4 * BitOf(x, 2) + 8 * BitOf(x, 3) + 16 * Shr(x, 4)
    ensures Shr(x, 4) == BitOf(x, 4) + 2 * BitOf(x, 5) + 4 * BitOf(x, 6) + 8 * BitOf(x, 7) + 16 * BitOf(x, 8) + 32 * BitOf(x, 9)
  {
    HalfBit(x, 0); HalfBit(x, 1); HalfBit(x, 2); HalfBit(x, 3); HalfBit(x, 4);
    HalfBit(x, 5); HalfBit(x, 6); HalfBit(x, 7); HalfBit(x, 8); HalfBit(x, 9);
  }

  lemma HalfBit(x: nat, i: nat)
    ensures Shr(x, i) == 2 * Shr(x, i + 1) + BitOf(x, i)
    ensures i == 0 ==> Shr(x, i) == x
  {}

  lemma MagnitudeRoundTrip(c: Core, x: nat, p: ComponentProbs)
    requires x < 1024 && Serves(c, MagnitudeSymbols(x, p))
    ensures ReadMagnitude(c, p) == (x, After(c, MagnitudeSymbols(x, p)))
  {
    hide Next, Serves, After, LeafPath, LongBits, ReadLongBits, Walk, LongSum, BitOf;
    SmallMvTree();
    var first := Symbol(x >= 8, p[IS_SHORT]);
    ServesOne(c, first);
    if x < 8 {
      ServesAppend(c, [first], LeafPath(SMALL_MV_TREE, ShortProbs(p), x));
      WalkInvertsPath(After(c, [first]), SMALL_MV_TREE, ShortProbs(p), x);
    } else {
      var long, three := LongBits(x, p, 9), BitThree(x, p);
      ServesAppend(c, [first] + long, three);
      ServesAppend(c, [first], long);
      LongBitsRoundTrip(After(c, [first]), x, p, 9);
      BinaryExpansion(x);
      var c2 := After(c, [first] + long);
      ServesNone(c2);
      ServesOne(c2, LongBit(x, p, 3));
    }
  }

  /** The components that can be coded: even, with a ten-bit magnitude once halved. */
  predicate Representable(num: Int16) {
    num % 2 == 0 && -2046 <= num <= 2046
  }

  /** Component round trip, exactly: given what the printer emits for a component, the parser returns
      that component if and only if it is even and at most 2046 in magnitude. */
  lemma ComponentRoundTrip(c: Core, num: Int16, p: ComponentProbs)
    requires Serves(c, ComponentSymbols(num, p))
    ensures ReadComponent(c, p).0 == num <==> Representable(num)
    ensures Representable(num) ==> ReadComponent(c, p).1 == After(c, ComponentSymbols(num, p))
  {
    hide Next, Serves, After, MagnitudeSymbols, ReadMagnitude;
    MagnitudeRange(c, p);
    if Representable(num) {
      var x := AbsHalved(num);
      var head := MagnitudeSymbols(x, p);
      var sign := if num / 2 != 0 then [Symbol(num / 2 < 0, p[SIGN])] else [];
      ServesAppend(c, head, sign);
      MagnitudeRoundTrip(c, x, p);
      ServesNone(After(c, head));
      ServesOne(After(c, head), Symbol(num / 2 < 0, p[SIGN]));
    }
  }

  // ----- Vectors -----

  const NO_MV_PROBS: ComponentProbs := [0, 0, 0, 0, 0, 0, 0, 0, 0, 0, 0, 0, 0, 0, 0, 0, 0, 0, 0]

  type MvProbs = p: seq<ComponentProbs> | |p| == 2 witness [NO_MV_PROBS, NO_MV_PROBS]

  /** y is sent before x. */
  function VectorSymbols(mv: MotionVector, p: MvProbs): seq<Symbol> {
    ComponentSymbols(mv.y, p[0]) + ComponentSymbols(mv.x, p[1])
  }

  function ReadVector(c: Core, p: MvProbs): (MotionVector, Core) {
    var (y, c1) := ReadComponent(c, p[0]);
    var (x, c2) := ReadComponent(c1, p[1]);
    (MotionVector(x, y), c2)
  }

  predicate RepresentableVector(mv: MotionVector) {
    Representable(mv.x) && Representable(mv.y)
  }

  lemma VectorRoundTrip(c: Core, mv: MotionVector, p: MvProbs)
    requires Serves(c, VectorSymbols(mv, p))
    ensures ReadVector(c, p).0 == mv <==> RepresentableVector(mv)
    ensures RepresentableVector(mv) ==> ReadVector(c, p).1 == After(c, VectorSymbols(mv, p))
  {
    hide Next, Serves, After, ComponentSymbols, ReadComponent, Representable;
    ServesAppend(c, ComponentSymbols(mv.y, p[0]), ComponentSymbols(mv.x, p[1]));
    ComponentRoundTrip(c, mv.y, p[0]);
    ComponentRoundTrip(After(c, ComponentSymbols(mv.y, p[0])), mv.x, p[1]);
  }

  // ----- The printer and the parser -----

  method EncodeComponent(encoder: BoolEncoder, num: Int16, p: ComponentProbs)
    requires encoder.Valid()
    modifies encoder
    ensures encoder.Valid() && encoder.log == old(encoder.log) + ComponentSymbols(num, p)
  {
    hide Holds, Encoded, MagnitudeSymbols;
    var numToEncode := num / 2;
    var x := if numToEncode < 0 then -numToEncode else numToEncode;
    EncodeMagnitude(encoder, x, p);
    if x != 0 {
      encoder.Put(numToEncode < 0, p[SIGN]);
    }
  }

  method EncodeMagnitude(encoder: BoolEncoder, x: nat, p: ComponentProbs)
    requires encoder.Valid()
    modifies encoder
    ensures encoder.Valid() && encoder.log == old(encoder.log) + MagnitudeSymbols(x, p)
  {
    hide Holds, Encoded, LeafPath, LongBits, BitOf, Shr, HasLeaf, MagnitudeSymbols, BitThree, IsTree;
    if x < 8 {
      SmallMvTree();
      ShortIs(x, p);
      encoder.Put(false, p[IS_SHORT]);
      EncodeTree(encoder, SMALL_MV_TREE, ShortProbs(p), x);
    } else {
      LongIs(x, p);
      encoder.Put(true, p[IS_SHORT]);
      EncodeLongBits(encoder, x, p);
      if x >= 16 {
        encoder.Put(Shr(x, 3) % 2 == 1, p[LONG + 3]);
      }
    }
  }

  lemma ShortIs(x: nat, p: ComponentProbs)
    requires x < 8 && HasLeaf(SMALL_MV_TREE, x) && Fits(SMALL_MV_TREE, ShortProbs(p))
    ensures MagnitudeSymbols(x, p) == [Symbol(false, p[IS_SHORT])] + LeafPath(SMALL_MV_TREE, ShortProbs(p), x)
  {
    hide LeafPath, HasLeaf, IsTree;
  }

  lemma LongIs(x: nat, p: ComponentProbs)
    requires x >= 8
    ensures MagnitudeSymbols(x, p)
            == [Symbol(true, p[IS_SHORT])] + LongBits(x, p, 9)
               + if x >= 16 then [Symbol(Shr(x, 3) % 2 == 1, p[LONG + 3])] else []
  {
    hide LongBits, Shr;
  }

  lemma BitOfIs(x: nat, i: nat)
    ensures BitOf(x, i) == Shr(x, i) % 2
  {}

  method EncodeLongBits(encoder: BoolEncoder, x: nat, p: ComponentProbs)
    requires encoder.Valid()
    modifies encoder
    ensures encoder.Valid() && encoder.log == old(encoder.log) + LongBits(x, p, 9)
  {
    hide Holds, Encoded, BitOf, Shr;
    for i := 0 to 3
      invariant encoder.Valid() && encoder.log == old(encoder.log) + LongBits(x, p, i)
    {
      encoder.Put(Shr(x, i) % 2 == 1, p[LONG + i]);
      BitOfIs(x, i);
    }
    var i := LONG_MV_WIDTH - 1;
    while i > 3
      invariant 3 <= i <= 9
      invariant encoder.Valid() && encoder.log == old(encoder.log) + LongBits(x, p, 12 - i)
    {
      encoder.Put(Shr(x, i) % 2 == 1, p[LONG + i]);
      BitOfIs(x, i);
      assert LONG_ORDER[12 - i] == i;
      i := i - 1;
    }
  }

  method DecodeComponent(decoder: BoolDecoder, p: ComponentProbs) returns (num: Int16)
    requires decoder.Valid()
    modifies decoder
    ensures decoder.Valid() && (num, decoder.State()) == ReadComponent(old(decoder.State()), p)
  {
    hide Next, ReadLongBits, Walk, WellFormed;
    MagnitudeRange(decoder.State(), p);
    var x: nat;
    var long := decoder.Get(p[IS_SHORT]);
    if long {
      x := DecodeLongBits(decoder, p);
      if x < 16 {
        x := x + 8;
      } else {
        var b := decoder.Get(p[LONG + 3]);
        if b { x := x + 8; }
      }
    } else {
      x := DecodeTree(decoder, SMALL_MV_TREE, ShortProbs(p));
    }
    assert (x, decoder.State()) == ReadMagnitude(old(decoder.State()), p);
    if x != 0 {
      var negative := decoder.Get(p[SIGN]);
      num := if negative then -2 * x else 2 * x;
    } else {
      num := 0;
    }
  }

  method DecodeLongBits(decoder: BoolDecoder, p: ComponentProbs) returns (x: nat)
    requires decoder.Valid()
    modifies decoder
    ensures decoder.Valid() && (x, decoder.State()) == ReadLongBits(old(decoder.State()), p, 9)
  {
    hide Next, Weight, WellFormed;
    x := 0;
    for i := 0 to 3
      invariant decoder.Valid() && (x, decoder.State()) == ReadLongBits(old(decoder.State()), p, i)
    {
      var b := decoder.Get(p[LONG + i]);
      x := x + if b then Weight(i) else 0;
    }
    var i := LONG_MV_WIDTH - 1;
    while i > 3
      invariant 3 <= i <= 9
      invariant decoder.Valid() && (x, decoder.State()) == ReadLongBits(old(decoder.State()), p, 12 - i)
    {
      var b := decoder.Get(p[LONG + i]);
      x := x + if b then Weight(i) else 0;
      assert LONG_ORDER[12 - i] == i;
      i := i - 1;
    }
  }

  method EncodeVector(encoder: BoolEncoder, mv: MotionVector, p: MvProbs)
    requires encoder.Valid()
    modifies encoder
    ensures encoder.Valid() && encoder.log == old(encoder.log) + VectorSymbols(mv, p)
  {
    hide Holds, Encoded, ComponentSymbols;
    EncodeComponent(encoder, mv.y, p[0]);
    EncodeComponent(encoder, mv.x, p[1]);
  }

  method DecodeVector(decoder: BoolDecoder, p: MvProbs) returns (mv: MotionVector)
    requires decoder.Valid()
    modifies decoder
    ensures decoder.Valid() && (mv, decoder.State()) == ReadVector(old(decoder.State()), p)
  {
    hide ReadComponent;
    var y := DecodeComponent(decoder, p[0]);
    var x := DecodeComponent(decoder, p[1]);
    mv := MotionVector(x, y);
  }
}
