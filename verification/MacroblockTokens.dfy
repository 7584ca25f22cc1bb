/** The coefficients of a macroblock: up to twenty-five blocks, each coded in the context of its
    neighbours (src/encoder/serializer.cc, src/decoder/macroblock.cc, src/encoder/encoder.cc). */
module MacroblockTokens {
  import opened Wrappers
  import opened BoolCoding
  import opened BoolEncoding
  import opened BoolDecoding
  import opened Tokens
  import opened TokenBlocks

  /** The contents of a block, in zigzag order, and the flag its neighbours consult. */
  datatype Block = Block(coefficients: Coefficients, hasNonzero: bool)

  const ZERO_BLOCK: Block := Block(ZeroTail(16), false)

  function ContextOf(above: Option<Block>, left: Option<Block>): Context {
    (if above.Some? && above.value.hasNonzero then 1 else 0) + (if left.Some? && left.value.hasNonzero then 1 else 0)
  }

  /** The context counts the neighbours that have coefficients. */
  lemma ContextCounts(above: Option<Block>, left: Option<Block>)
    ensures var a, l := above.Some? && above.value.hasNonzero, left.Some? && left.value.hasNonzero;
            (ContextOf(above, left) == 0 <==> !a && !l) && (ContextOf(above, left) == 2 <==> a && l)
  {}

  /** The flag is right, and a DC that is not coded is zero. */
  predicate BlockConsistent(b: Block, first: nat)
    requires first <= 1
  {
    b.hasNonzero == AnyNonzero(b.coefficients) && (first == 1 ==> b.coefficients[0] == 0)
  }

  /** What parsing into a fresh block leaves there. */
  function ReadBlock(c: Core, bands: Bands, first: nat, ctx: Context): (Block, Core)
    requires first <= 1
  {
    var (z, c1) := ParseFrom(c, bands, first, false, ctx);
    (Block(ZeroTail(first) + z, AnyNonzero(ZeroTail(first) + z)), c1)
  }

  lemma ReadBlockConsistent(c: Core, bands: Bands, first: nat, ctx: Context)
    requires first <= 1
    ensures BlockConsistent(ReadBlock(c, bands, first, ctx).0, first)
  {
    hide ParseFrom, AnyNonzero;
  }

  lemma ConsistentBlockRoundTrip(c: Core, b: Block, bands: Bands, first: nat, ctx: Context)
    requires first <= 1 && Codable(b.coefficients, first) && BlockConsistent(b, first)
    requires Serves(c, BlockSymbols(b.coefficients, bands, first, ctx))
    ensures ReadBlock(c, bands, first, ctx) == (b, After(c, BlockSymbols(b.coefficients, bands, first, ctx)))
  {
    hide Next, Serves, After, BlockSymbols, ParseFrom, AnyNonzero, Codable;
    BlockRoundTrip(c, b.coefficients, bands, first, ctx);
    assert ZeroTail(first) + b.coefficients[first..] == b.coefficients;
  }

  // ----- A plane of blocks -----

  /** The 4x4 luma blocks or the 2x2 blocks of a chroma plane, with the planes above and to the left. */
  datatype RawPlane = Plane(luma: bool, bands: Bands, first: nat, above: Option<seq<Block>>, left: Option<seq<Block>>)
  {
    predicate Valid() {
      && first <= 1
      && (above.Some? ==> |above.value| == Size())
      && (left.Some? ==> |left.value| == Size())
    }

    function Side(): nat {
      if luma then 4 else 2
    }

    function Size(): nat {
      if luma then 16 else 4
    }

    function Column(i: nat): nat {
      if luma then i % 4 else i % 2
    }
  }

  type Plane = x: RawPlane | x.Valid() witness Plane(false, NO_TABLE, 0, None, None)

  /** The block above block i, the earlier ones being given in `blocks`. */
  function AboveBlock(x: Plane, blocks: seq<Block>, i: nat): Option<Block>
    requires i < x.Size() && i <= |blocks|
  {
    if i >= x.Side() then Some(blocks[i - x.Side()])
    else if x.above.Some? then Some(x.above.value[x.Size() - x.Side() + i])
    else None
  }

  function LeftBlock(x: Plane, blocks: seq<Block>, i: nat): Option<Block>
    requires i < x.Size() && i <= |blocks|
  {
    if x.Column(i) > 0 then Some(blocks[i - 1])
    else if x.left.Some? then Some(x.left.value[i + x.Side() - 1])
    else None
  }

  function PlaneContext(x: Plane, blocks: seq<Block>, i: nat): Context
    requires i < x.Size() && i <= |blocks|
  {
    ContextOf(AboveBlock(x, blocks, i), LeftBlock(x, blocks, i))
  }

  lemma PlaneContextFromPrefix(x: Plane, blocks: seq<Block>, i: nat)
    requires i < x.Size() && i <= |blocks|
    ensures PlaneContext(x, blocks[..i], i) == PlaneContext(x, blocks, i)
  {}

  /** The first n blocks. */
  function PlaneSymbols(x: Plane, blocks: seq<Block>, n: nat): seq<Symbol>
    requires n <= |blocks| == x.Size()
  {
    if n == 0 then []
    else
      PlaneSymbols(x, blocks, n - 1)
      + BlockSymbols(blocks[n - 1].coefficients, x.bands, x.first, PlaneContext(x, blocks, n - 1))
  }

  predicate PlaneCodable(x: Plane, blocks: seq<Block>) {
    forall i :: 0 <= i < |blocks| ==> Codable(blocks[i].coefficients, x.first)
  }

  predicate PlaneConsistent(x: Plane, blocks: seq<Block>) {
    forall i :: 0 <= i < |blocks| ==> BlockConsistent(blocks[i], x.first)
  }

  function ReadPlane(c: Core, x: Plane, n: nat): (r: (seq<Block>, Core))
    requires n <= x.Size()
    ensures |r.0| == n
  {
    if n == 0 then ([], c)
    else
      var (blocks, c1) := ReadPlane(c, x, n - 1);
      var (b, c2) := ReadBlock(c1, x.bands, x.first, PlaneContext(x, blocks, n - 1));
      (blocks + [b], c2)
  }

  lemma {:induction false} ReadPlaneConsistent(c: Core, x: Plane, n: nat)
    requires n <= x.Size()
    ensures PlaneConsistent(x, ReadPlane(c, x, n).0)
  {
    hide BlockConsistent, ReadBlock, PlaneContext;
    if n > 0 {
      ReadPlaneConsistent(c, x, n - 1);
      var (blocks, c1) := ReadPlane(c, x, n - 1);
      ReadBlockConsistent(c1, x.bands, x.first, PlaneContext(x, blocks, n - 1));
    }
  }

  lemma {:induction false} PlaneRoundTrip(c: Core, x: Plane, blocks: seq<Block>, n: nat)
    requires n <= |blocks| == x.Size() && PlaneCodable(x, blocks) && PlaneConsistent(x, blocks)
    requires Serves(c, PlaneSymbols(x, blocks, n))
    ensures ReadPlane(c, x, n) == (blocks[..n], After(c, PlaneSymbols(x, blocks, n)))
  {
    hide Next, Serves, After, BlockSymbols, ReadBlock, PlaneContext, BlockConsistent, Codable;
    if n == 0 {
      ServesNone(c);
    } else {
      var head := PlaneSymbols(x, blocks, n - 1);
      var ctx := PlaneContext(x, blocks, n - 1);
      ServesAppend(c, head, BlockSymbols(blocks[n - 1].coefficients, x.bands, x.first, ctx));
      PlaneRoundTrip(c, x, blocks, n - 1);
      PlaneContextFromPrefix(x, blocks, n - 1);
      ConsistentBlockRoundTrip(After(c, head), blocks[n - 1], x.bands, x.first, ctx);
      assert blocks[..n] == blocks[..n - 1] + [blocks[n - 1]];
    }
  }

  // ----- A macroblock -----

  type Luma = s: seq<Block> | |s| == 16 witness SIXTEEN_BLOCKS
  type Chroma = s: seq<Block> | |s| == 4 witness FOUR_BLOCKS

  const FOUR_BLOCKS: seq<Block> := [ZERO_BLOCK, ZERO_BLOCK, ZERO_BLOCK, ZERO_BLOCK]
  const SIXTEEN_BLOCKS: seq<Block> := FOUR_BLOCKS + FOUR_BLOCKS + FOUR_BLOCKS + FOUR_BLOCKS

  /** All coefficients of a macroblock; the Y2 block may be missing. */
  datatype Residue = Residue(y2: Option<Block>, y: Luma, u: Chroma, v: Chroma)

  /** What the macroblock header says about the residue. */
  datatype Shape = Shape(y2Coded: bool, skip: bool)

  /** The residues around a macroblock; for Y2, the nearest blocks above and to the left that are coded. */
  datatype TokenContext = TokenContext(
    probs: CoeffProbs, aboveY2: Option<Block>, leftY2: Option<Block>, above: Option<Residue>, left: Option<Residue>)
  {
    function YPlane(y2Coded: bool): Plane {
      Plane(true, probs[if y2Coded then Y_AFTER_Y2 else Y_WITHOUT_Y2], if y2Coded then 1 else 0,
            if above.Some? then Some(above.value.y) else None,
            if left.Some? then Some(left.value.y) else None)
    }

    function UPlane(): Plane {
      Plane(false, probs[UV], 0,
            if above.Some? then Some(above.value.u) else None,
            if left.Some? then Some(left.value.u) else None)
    }

    function VPlane(): Plane {
      Plane(false, probs[UV], 0,
            if above.Some? then Some(above.value.v) else None,
            if left.Some? then Some(left.value.v) else None)
    }
  }

  /** Which of the four sets of probabilities a plane is coded with, by number, and where it starts. */
  lemma PlaneProbs(x: TokenContext)
    ensures x.YPlane(true).bands == x.probs[0] && x.YPlane(true).first == 1
    ensures x.YPlane(false).bands == x.probs[3] && x.YPlane(false).first == 0
    ensures x.UPlane().bands == x.VPlane().bands == x.probs[2] && x.UPlane().first == x.VPlane().first == 0
  {}

  function Y2Symbols(x: TokenContext, y2: Option<Block>): seq<Symbol> {
    if y2.Some? then BlockSymbols(y2.value.coefficients, x.probs[Y2], 0, ContextOf(x.aboveY2, x.leftY2)) else []
  }

  function ResidueSymbols(x: TokenContext, r: Residue): seq<Symbol> {
    Y2Symbols(x, r.y2) + PlaneSymbols(x.YPlane(r.y2.Some?), r.y, 16)
    + PlaneSymbols(x.UPlane(), r.u, 4) + PlaneSymbols(x.VPlane(), r.v, 4)
  }

  /** What the printer emits for a macroblock: nothing if it is skipped. */
  function TokenSymbols(x: TokenContext, shape: Shape, r: Residue): seq<Symbol> {
    if shape.skip then [] else ResidueSymbols(x, r)
  }

  predicate Y2Codable(y2: Option<Block>) {
    y2.Some? ==> Codable(y2.value.coefficients, 0)
  }

  /** Every coefficient to be coded has a token. */
  predicate ResidueCodable(x: TokenContext, r: Residue) {
    && Y2Codable(r.y2) && PlaneCodable(x.YPlane(r.y2.Some?), r.y)
    && PlaneCodable(x.UPlane(), r.u) && PlaneCodable(x.VPlane(), r.v)
  }

  /** Nothing is coded of a skipped macroblock. */
  predicate TokensCodable(x: TokenContext, shape: Shape, r: Residue) {
    shape.skip || ResidueCodable(x, r)
  }

  /** The residue of a skipped macroblock. */
  function NoResidue(y2Coded: bool): Residue {
    Residue(if y2Coded then Some(ZERO_BLOCK) else None, SIXTEEN_BLOCKS, FOUR_BLOCKS, FOUR_BLOCKS)
  }

  predicate Y2Consistent(y2: Option<Block>) {
    y2.Some? ==> BlockConsistent(y2.value, 0)
  }

  /** The flags are those that calculate_has_nonzero() computes, the DC of a luma block is left to the Y2
      block, and a skipped macroblock is zero throughout. */
  predicate ResidueConsistent(x: TokenContext, shape: Shape, r: Residue) {
    && r.y2.Some? == shape.y2Coded
    && if shape.skip then r == NoResidue(shape.y2Coded)
       else
         && Y2Consistent(r.y2) && PlaneConsistent(x.YPlane(r.y2.Some?), r.y)
         && PlaneConsistent(x.UPlane(), r.u) && PlaneConsistent(x.VPlane(), r.v)
  }

  function ReadY2(c: Core, x: TokenContext, y2Coded: bool): (Option<Block>, Core) {
    if y2Coded then
      var (b, c1) := ReadBlock(c, x.probs[Y2], 0, ContextOf(x.aboveY2, x.leftY2));
      (Some(b), c1)
    else (None, c)
  }

  function ReadResidue(c: Core, x: TokenContext, y2Coded: bool): (Residue, Core) {
    var (y2, c1) := ReadY2(c, x, y2Coded);
    var (y, c2) := ReadPlane(c1, x.YPlane(y2Coded), 16);
    var (u, c3) := ReadPlane(c2, x.UPlane(), 4);
    var (v, c4) := ReadPlane(c3, x.VPlane(), 4);
    (Residue(y2, y, u, v), c4)
  }

  function ReadTokens(c: Core, x: TokenContext, shape: Shape): (Residue, Core) {
    if shape.skip then (NoResidue(shape.y2Coded), c) else ReadResidue(c, x, shape.y2Coded)
  }

  lemma ReadY2Consistent(c: Core, x: TokenContext, y2Coded: bool)
    ensures Y2Consistent(ReadY2(c, x, y2Coded).0) && ReadY2(c, x, y2Coded).0.Some? == y2Coded
  {
    hide ReadBlock, BlockConsistent;
    if y2Coded { ReadBlockConsistent(c, x.probs[Y2], 0, ContextOf(x.aboveY2, x.leftY2)); }
  }

  /** Whatever is read is consistent. */
  lemma ReadTokensConsistent(c: Core, x: TokenContext, shape: Shape)
    ensures ResidueConsistent(x, shape, ReadTokens(c, x, shape).0)
  {
    hide ReadY2, ReadPlane, Y2Consistent, PlaneConsistent;
    ReadY2Consistent(c, x, shape.y2Coded);
    var c1 := ReadY2(c, x, shape.y2Coded).1;
    ReadPlaneConsistent(c1, x.YPlane(shape.y2Coded), 16);
    var c2 := ReadPlane(c1, x.YPlane(shape.y2Coded), 16).1;
    ReadPlaneConsistent(c2, x.UPlane(), 4);
    ReadPlaneConsistent(ReadPlane(c2, x.UPlane(), 4).1, x.VPlane(), 4);
  }

  lemma Y2RoundTrip(c: Core, x: TokenContext, y2: Option<Block>)
    requires Y2Codable(y2) && Y2Consistent(y2) && Serves(c, Y2Symbols(x, y2))
    ensures ReadY2(c, x, y2.Some?) == (y2, After(c, Y2Symbols(x, y2)))
  {
    hide Next, Serves, After, BlockSymbols, ReadBlock, Codable, BlockConsistent;
    ServesNone(c);
    if y2.Some? { ConsistentBlockRoundTrip(c, y2.value, x.probs[Y2], 0, ContextOf(x.aboveY2, x.leftY2)); }
  }

  lemma WholePlaneRoundTrip(c: Core, x: Plane, blocks: seq<Block>)
    requires |blocks| == x.Size() && PlaneCodable(x, blocks) && PlaneConsistent(x, blocks)
    requires Serves(c, PlaneSymbols(x, blocks, x.Size()))
    ensures ReadPlane(c, x, x.Size()) == (blocks, After(c, PlaneSymbols(x, blocks, x.Size())))
  {
    hide Next, Serves, After, PlaneSymbols, ReadPlane, PlaneConsistent, PlaneCodable;
    PlaneRoundTrip(c, x, blocks, x.Size());
    assert blocks[..x.Size()] == blocks;
  }

  lemma TokensRoundTrip(c: Core, x: TokenContext, shape: Shape, r: Residue)
    requires TokensCodable(x, shape, r) && ResidueConsistent(x, shape, r)
    requires Serves(c, TokenSymbols(x, shape, r))
    ensures ReadTokens(c, x, shape) == (r, After(c, TokenSymbols(x, shape, r)))
  {
    hide Next, Serves, After, PlaneSymbols, ReadPlane, PlaneConsistent, PlaneCodable, Y2Symbols, ReadY2, Y2Codable, Y2Consistent;
    if shape.skip {
      ServesNone(c);
    } else {
      var yp := x.YPlane(shape.y2Coded);
      var a, b, d, e := Y2Symbols(x, r.y2), PlaneSymbols(yp, r.y, 16), PlaneSymbols(x.UPlane(), r.u, 4),
                        PlaneSymbols(x.VPlane(), r.v, 4);
      ServesAppend(c, a + b + d, e);
      ServesAppend(c, a + b, d);
      ServesAppend(c, a, b);
      Y2RoundTrip(c, x, r.y2);
      WholePlaneRoundTrip(After(c, a), yp, r.y);
      WholePlaneRoundTrip(After(c, a + b), x.UPlane(), r.u);
      WholePlaneRoundTrip(After(c, a + b + d), x.VPlane(), r.v);
    }
  }
}
