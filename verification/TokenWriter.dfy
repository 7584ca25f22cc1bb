/** The loops that print and parse the coefficients of blocks, planes and macroblocks, and the flags the
    encoder computes beforehand (src/encoder/serializer.cc, src/decoder/macroblock.cc, src/encoder/encoder.cc). */
module TokenWriter {
  import opened Wrappers
  import opened BoolCoding
  import opened BoolEncoding
  import opened BoolDecoding
  import opened Tokens
  import opened TokenBlocks
  import opened MacroblockTokens

  /** Zigzag order, undone. */
  function Unzigzagged(z: Coefficients): (raster: Coefficients)
    ensures Zigzagged(raster) == z
  {
    var raster := seq(16, i requires 0 <= i < 16 => ZigzagInverse(i); z[UNZIGZAG[i]]);
    assert Zigzagged(raster) == z by {
      forall i: nat | i < 16 ensures Zigzagged(raster)[i] == z[i] { ZigzagInverse(i); }
    }
    raster
  }

  /** The order does not matter for whether anything is nonzero. */
  lemma AnyNonzeroInAnyOrder(raster: Coefficients)
    ensures AnyNonzero(Zigzagged(raster)) == AnyNonzero(raster)
  {
    if AnyNonzero(raster) {
      var i :| 0 <= i < 16 && raster[i] != 0;
      ZigzagInverse(i);
      assert Zigzagged(raster)[UNZIGZAG[i]] == raster[i];
    }
    if AnyNonzero(Zigzagged(raster)) {
      var i :| 0 <= i < 16 && Zigzagged(raster)[i] != 0;
      ZigzagInverse(i);
      assert raster[ZIGZAG[i]] != 0;
    }
  }

  /** A block object holding a block value. */
  method Stored(t: nat, b: Block) returns (block: CoefficientBlock)
    requires t < 4
    ensures fresh(block) && fresh(block.coefficients) && block.Valid() && block.blockType == t
    ensures block.Zigzag() == b.coefficients && block.hasNonzero == b.hasNonzero
  {
    hide Zigzagged;
    block := new CoefficientBlock(t);
    var raster := Unzigzagged(b.coefficients);
    forall i | 0 <= i < 16 { block.coefficients[i] := raster[i]; }
    assert block.coefficients[..] == raster;
    block.hasNonzero := b.hasNonzero;
  }

  method SerializeBlock(encoder: BoolEncoder, t: nat, probs: CoeffProbs, b: Block, above: Option<Block>, left: Option<Block>)
    returns (ok: bool)
    requires t < 4 && encoder.Valid()
    modifies encoder
    ensures encoder.Valid() && ok == Codable(b.coefficients, FirstIndex(t))
    ensures ok ==> encoder.log == old(encoder.log)
                                  + BlockSymbols(b.coefficients, probs[t], FirstIndex(t), ContextOf(above, left))
  {
    hide Holds, Encoded, Zigzagged, BlockSymbols, Codable;
    var block := Stored(t, b);
    ok := block.SerializeTokens(encoder, probs, ContextOf(above, left));
  }

  method ParseBlock(decoder: BoolDecoder, t: nat, probs: CoeffProbs, above: Option<Block>, left: Option<Block>)
    returns (b: Block)
    requires t < 4 && decoder.Valid()
    modifies decoder
    ensures decoder.Valid()
    ensures (b, decoder.State()) == ReadBlock(old(decoder.State()), probs[t], FirstIndex(t), ContextOf(above, left))
  {
    hide Next, WellFormed, Zigzagged, ParseFrom, AnyNonzero, Merged;
    var block := new CoefficientBlock(t);
    ghost var z := ParseFrom(decoder.State(), probs[t], FirstIndex(t), false, ContextOf(above, left)).0;
    block.ParseTokens(decoder, probs, ContextOf(above, left));
    MergedIntoZeros(z, FirstIndex(t));
    LeadingZeros(z, FirstIndex(t));
    b := Block(Zigzagged(block.coefficients[..]), block.hasNonzero);
  }

  lemma LeadingZeros(z: seq<int>, first: nat)
    requires first <= 1
    ensures AnyNonzero(ZeroTail(first) + z) == AnyNonzero(z)
  {
    if AnyNonzero(z) {
      var i :| 0 <= i < |z| && z[i] != 0;
      assert (ZeroTail(first) + z)[first + i] != 0;
    }
  }

  // ----- Planes -----

  /** A plane together with the block type its probabilities were selected by. */
  predicate PlaneOf(x: Plane, t: nat, probs: CoeffProbs) {
    t < 4 && x.bands == probs[t] && x.first == FirstIndex(t)
  }

  method SerializePlane(encoder: BoolEncoder, t: nat, probs: CoeffProbs, x: Plane, blocks: seq<Block>) returns (ok: bool)
    requires encoder.Valid() && PlaneOf(x, t, probs) && |blocks| == x.Size()
    modifies encoder
    ensures encoder.Valid() && ok == PlaneCodable(x, blocks)
    ensures ok ==> encoder.log == old(encoder.log) + PlaneSymbols(x, blocks, x.Size())
  {
    hide Holds, Encoded, BlockSymbols, Codable, AboveBlock, LeftBlock;
    for i := 0 to |blocks|
      invariant encoder.Valid() && encoder.log == old(encoder.log) + PlaneSymbols(x, blocks, i)
      invariant forall j :: 0 <= j < i ==> Codable(blocks[j].coefficients, x.first)
    {
      ok := SerializeBlock(encoder, t, probs, blocks[i], AboveBlock(x, blocks, i), LeftBlock(x, blocks, i));
      if !ok { return; }
    }
    ok := true;
  }

  method ParsePlane(decoder: BoolDecoder, t: nat, probs: CoeffProbs, x: Plane) returns (blocks: seq<Block>)
    requires decoder.Valid() && PlaneOf(x, t, probs)
    modifies decoder
    ensures decoder.Valid() && (blocks, decoder.State()) == ReadPlane(old(decoder.State()), x, x.Size())
  {
    hide Next, WellFormed, ReadBlock, AboveBlock, LeftBlock;
    blocks := [];
    for i := 0 to x.Size()
      invariant decoder.Valid() && |blocks| == i
      invariant (blocks, decoder.State()) == ReadPlane(old(decoder.State()), x, i)
    {
      var b := ParseBlock(decoder, t, probs, AboveBlock(x, blocks, i), LeftBlock(x, blocks, i));
      blocks := blocks + [b];
    }
  }

  // ----- Macroblocks -----

  function LumaType(y2Coded: bool): (t: nat)
    ensures t < 4
  {
    if y2Coded then Y_AFTER_Y2 else Y_WITHOUT_Y2
  }

  /** Fails if a coefficient is too large to be coded. */
  method SerializeMacroblockTokens(encoder: BoolEncoder, x: TokenContext, shape: Shape, r: Residue) returns (ok: bool)
    requires encoder.Valid() && r.y2.Some? == shape.y2Coded
    modifies encoder
    ensures encoder.Valid() && ok == TokensCodable(x, shape, r)
    ensures ok ==> encoder.log == old(encoder.log) + TokenSymbols(x, shape, r)
  {
    hide Holds, Encoded, BlockSymbols, Codable, PlaneSymbols, PlaneCodable;
    if shape.skip {
      return true;
    }
    if shape.y2Coded {
      ok := SerializeBlock(encoder, Y2, x.probs, r.y2.value, x.aboveY2, x.leftY2);
      if !ok { return; }
    }
    ok := SerializePlane(encoder, LumaType(shape.y2Coded), x.probs, x.YPlane(shape.y2Coded), r.y);
    if !ok { return; }
    ok := SerializePlane(encoder, UV, x.probs, x.UPlane(), r.u);
    if !ok { return; }
    ok := SerializePlane(encoder, UV, x.probs, x.VPlane(), r.v);
  }

  method ParseMacroblockTokens(decoder: BoolDecoder, x: TokenContext, shape: Shape) returns (r: Residue)
    requires decoder.Valid()
    modifies decoder
    ensures decoder.Valid() && (r, decoder.State()) == ReadTokens(old(decoder.State()), x, shape)
  {
    hide Next, WellFormed, ReadBlock, ReadPlane;
    if shape.skip {
      return NoResidue(shape.y2Coded);
    }
    var y2: Option<Block> := None;
    if shape.y2Coded {
      var b := ParseBlock(decoder, Y2, x.probs, x.aboveY2, x.leftY2);
      y2 := Some(b);
    }
    var y := ParsePlane(decoder, LumaType(shape.y2Coded), x.probs, x.YPlane(shape.y2Coded));
    var u := ParsePlane(decoder, UV, x.probs, x.UPlane());
    var v := ParsePlane(decoder, UV, x.probs, x.VPlane());
    r := Residue(y2, y, u, v);
  }

  // ----- The flags -----

  function Flagged(b: Block): Block {
    Block(b.coefficients, AnyNonzero(b.coefficients))
  }

  predicate AnyFlagged(blocks: seq<Block>) {
    exists i :: 0 <= i < |blocks| && blocks[i].hasNonzero
  }

  predicate ResidueNonzero(r: Residue) {
    (r.y2.Some? && r.y2.value.hasNonzero) || AnyFlagged(r.y) || AnyFlagged(r.u) || AnyFlagged(r.v)
  }

  function FlaggedAll(blocks: seq<Block>): (f: seq<Block>)
    ensures |f| == |blocks|
  {
    seq(|blocks|, i requires 0 <= i < |blocks| => Flagged(blocks[i]))
  }

  function FlaggedResidue(r: Residue): Residue {
    Residue(if r.y2.Some? then Some(Flagged(r.y2.value)) else None, FlaggedAll(r.y), FlaggedAll(r.u), FlaggedAll(r.v))
  }

  method CalculateFlags(blocks: seq<Block>) returns (flagged: seq<Block>, hasNonzero: bool)
    ensures flagged == FlaggedAll(blocks) && hasNonzero == AnyFlagged(flagged)
  {
    hide AnyNonzero, Zigzagged;
    flagged, hasNonzero := [], false;
    for i := 0 to |blocks|
      invariant flagged == FlaggedAll(blocks)[..i] && hasNonzero == AnyFlagged(flagged)
    {
      var block := Stored(UV, blocks[i]);
      block.CalculateHasNonzero();
      AnyNonzeroInAnyOrder(block.coefficients[..]);
      OneMoreFlagged(flagged, Block(blocks[i].coefficients, block.hasNonzero));
      flagged := flagged + [Block(blocks[i].coefficients, block.hasNonzero)];
      hasNonzero := hasNonzero || block.hasNonzero;
    }
  }

  lemma OneMoreFlagged(blocks: seq<Block>, b: Block)
    ensures AnyFlagged(blocks + [b]) <==> AnyFlagged(blocks) || b.hasNonzero
  {
    if AnyFlagged(blocks) {
      var i :| 0 <= i < |blocks| && blocks[i].hasNonzero;
      assert (blocks + [b])[i].hasNonzero;
    }
    if b.hasNonzero {
      assert (blocks + [b])[|blocks|].hasNonzero;
    }
  }

  /** What the encoder does before it serializes a macroblock: the flags, and the skip flag. */
  method CalculateHasNonzero(r: Residue) returns (flagged: Residue, skip: bool)
    ensures flagged == FlaggedResidue(r) && skip == !ResidueNonzero(flagged)
  {
    hide AnyFlagged, FlaggedAll, AnyNonzero;
    var y2: Option<Block> := None;
    var hasNonzero := false;
    if r.y2.Some? {
      var one, any := CalculateFlags([r.y2.value]);
      OneFlag(r.y2.value);
      y2, hasNonzero := Some(one[0]), any;
    }
    var y, yAny := CalculateFlags(r.y);
    var u, uAny := CalculateFlags(r.u);
    var v, vAny := CalculateFlags(r.v);
    flagged := Residue(y2, y, u, v);
    skip := !(hasNonzero || yAny || uAny || vAny);
  }

  lemma OneFlag(b: Block)
    ensures FlaggedAll([b])[0] == Flagged(b) && AnyFlagged(FlaggedAll([b])) == AnyNonzero(b.coefficients)
  {
    hide AnyNonzero;
    assert FlaggedAll([b])[0] == Flagged(b);
  }

  /** The encoder's flags make a macroblock consistent, whatever its coefficients (as long as the DC of its
      luma blocks is left to the Y2 block): a skipped macroblock really is zero. */
  lemma FlaggedIsConsistent(x: TokenContext, r: Residue)
    requires r.y2.Some? ==> forall i :: 0 <= i < 16 ==> r.y[i].coefficients[0] == 0
    ensures var f := FlaggedResidue(r);
            ResidueConsistent(x, Shape(f.y2.Some?, !ResidueNonzero(f)), f)
  {
    hide AnyNonzero, AnyFlagged;
    var f := FlaggedResidue(r);
    if !ResidueNonzero(f) {
      if r.y2.Some? { UnflaggedIsZero(r.y2.value); }
      UnflaggedAreZero(r.y);
      UnflaggedAreZero(r.u);
      UnflaggedAreZero(r.v);
    }
  }

  lemma UnflaggedIsZero(b: Block)
    ensures !Flagged(b).hasNonzero ==> Flagged(b) == ZERO_BLOCK
  {}

  lemma UnflaggedAreZero(blocks: seq<Block>)
    ensures !AnyFlagged(FlaggedAll(blocks)) ==> forall i :: 0 <= i < |blocks| ==> FlaggedAll(blocks)[i] == ZERO_BLOCK
  {
    hide AnyNonzero, Flagged;
    if !AnyFlagged(FlaggedAll(blocks)) {
      forall i | 0 <= i < |blocks| ensures FlaggedAll(blocks)[i] == ZERO_BLOCK {
        UnflaggedIsZero(blocks[i]);
        assert !FlaggedAll(blocks)[i].hasNonzero;
      }
    }
  }
}
