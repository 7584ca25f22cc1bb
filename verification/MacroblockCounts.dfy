/** Counting the branches of a whole macroblock, and when the counts are those of the emitted bits
    (src/encoder/serializer.cc). */
module MacroblockCounts {
  import opened Wrappers
  import opened BoolCoding
  import opened Tokens
  import opened TokenBlocks
  import opened MacroblockTokens
  import opened TokenWriter
  import opened TokenCosts
  import opened TokenCounts

  /** The branches of the first n blocks of a plane. */
  function PlaneKeys(x: Plane, t: nat, blocks: seq<Block>, n: nat): seq<nat>
    requires n <= |blocks| == x.Size()
  {
    if n == 0 then []
    else
      PlaneKeys(x, t, blocks, n - 1)
      + Keys(t, BlockEvents(blocks[n - 1].coefficients, x.first, PlaneContext(x, blocks, n - 1)))
  }

  /** What accumulate_token_branches counts: luma and chroma, whether or not the macroblock is skipped. */
  function CountedKeys(x: TokenContext, r: Residue): seq<nat> {
    PlaneKeys(x.YPlane(r.y2.Some?), if r.y2.Some? then Y_AFTER_Y2 else Y_WITHOUT_Y2, r.y, 16)
    + PlaneKeys(x.UPlane(), UV, r.u, 4) + PlaneKeys(x.VPlane(), UV, r.v, 4)
  }

  /** What serialize_tokens emits: nothing for a skipped macroblock, and the Y2 block too if there is one. */
  function EmittedKeys(x: TokenContext, shape: Shape, r: Residue): seq<nat> {
    if shape.skip then []
    else
      (if r.y2.Some? then Keys(Y2, BlockEvents(r.y2.value.coefficients, 0, ContextOf(x.aboveY2, x.leftY2))) else [])
      + CountedKeys(x, r)
  }

  /** Every block emits at least one decision, be it only that there is nothing in it. */
  lemma SomethingEmitted(z: Coefficients, t: nat, first: nat, ctx: Context)
    requires first <= 1
    ensures |Keys(t, BlockEvents(z, first, ctx))| > 0
  {
    hide Keys, EventsFrom, CodedLength, Path, TokenOf, Base;
    var length := CodedLength(z, first, 16);
    if first < length {
      KeysStep(z, t, first, length, false, ctx);
      PathNotEmpty(z[first]);
    } else {
      KeysEnd(z, t, first, length, ctx);
    }
  }

  lemma PathNotEmpty(x: int)
    ensures |Path(x, false)| > 0
  {}

  lemma PlaneNotEmpty(x: Plane, t: nat, blocks: seq<Block>)
    requires |blocks| == x.Size()
    ensures |PlaneKeys(x, t, blocks, x.Size())| > 0
  {
    hide Keys, BlockEvents, PlaneContext;
    SomethingEmitted(blocks[x.Size() - 1].coefficients, t, x.first, PlaneContext(x, blocks, x.Size() - 1));
  }

  /** The counts of a macroblock equal those of the bits that are emitted if and only if it is not skipped
      and has no Y2 block. */
  lemma CountsMatch(x: TokenContext, shape: Shape, r: Residue)
    requires r.y2.Some? == shape.y2Coded
    ensures multiset(CountedKeys(x, r)) == multiset(EmittedKeys(x, shape, r)) <==> !shape.skip && !shape.y2Coded
  {
    hide Keys, BlockEvents, PlaneKeys;
    PlaneNotEmpty(x.UPlane(), UV, r.u);
    var counted, emitted := CountedKeys(x, r), EmittedKeys(x, shape, r);
    assert |multiset(counted)| == |counted| > 0;
    assert |multiset(emitted)| == |emitted|;
    if shape.y2Coded {
      SomethingEmitted(r.y2.value.coefficients, Y2, 0, ContextOf(x.aboveY2, x.leftY2));
    } else if !shape.skip {
      assert emitted == counted;
    }
  }

  // ----- The loops -----

  method CountBlock(counts: array<nat>, t: nat, b: Block, above: Option<Block>, left: Option<Block>) returns (ok: bool)
    requires counts.Length == COUNTS && t < 4
    modifies counts
    ensures ok == Codable(b.coefficients, FirstIndex(t))
    ensures ok ==> Counted(counts[..], old(counts[..]), Keys(t, BlockEvents(b.coefficients, FirstIndex(t), ContextOf(above, left))))
  {
    hide Counted, Keys, BlockEvents, Codable, Zigzagged;
    var block := Stored(t, b);
    ok := AccumulateTokenBranches(counts, block, ContextOf(above, left));
  }

  method CountPlane(counts: array<nat>, t: nat, x: Plane, blocks: seq<Block>) returns (ok: bool)
    requires counts.Length == COUNTS && t < 4 && x.first == FirstIndex(t) && |blocks| == x.Size()
    modifies counts
    ensures ok == PlaneCodable(x, blocks)
    ensures ok ==> Counted(counts[..], old(counts[..]), PlaneKeys(x, t, blocks, x.Size()))
  {
    hide Counted, Keys, BlockEvents, Codable, AboveBlock, LeftBlock;
    NothingCounted(counts[..]);
    for i := 0 to |blocks|
      invariant Counted(counts[..], old(counts[..]), PlaneKeys(x, t, blocks, i))
      invariant forall j :: 0 <= j < i ==> Codable(blocks[j].coefficients, x.first)
    {
      ghost var before := counts[..];
      ok := CountBlock(counts, t, blocks[i], AboveBlock(x, blocks, i), LeftBlock(x, blocks, i));
      if !ok { return; }
      CountedMore(counts[..], before, old(counts[..]), PlaneKeys(x, t, blocks, i),
                  Keys(t, BlockEvents(blocks[i].coefficients, x.first, PlaneContext(x, blocks, i))));
    }
    ok := true;
  }

  /** Three loops, over the luma blocks and those of either chroma plane; neither the Y2 block nor the skip flag is
      consulted. Fails on the first coefficient that is too large. */
  method CountMacroblock(counts: array<nat>, x: TokenContext, r: Residue) returns (ok: bool)
    requires counts.Length == COUNTS
    modifies counts
    ensures ok == (PlaneCodable(x.YPlane(r.y2.Some?), r.y) && PlaneCodable(x.UPlane(), r.u) && PlaneCodable(x.VPlane(), r.v))
    ensures ok ==> Counted(counts[..], old(counts[..]), CountedKeys(x, r))
  {
    hide Counted, PlaneCodable, PlaneKeys;
    var y, u, v := x.YPlane(r.y2.Some?), x.UPlane(), x.VPlane();
    var t := if r.y2.Some? then Y_AFTER_Y2 else Y_WITHOUT_Y2;
    ghost var was := counts[..];
    ok := CountPlane(counts, t, y, r.y);
    if !ok { return; }
    ghost var before := counts[..];
    ok := CountPlane(counts, UV, u, r.u);
    if !ok { return; }
    CountedMore(counts[..], before, was, PlaneKeys(y, t, r.y, 16), PlaneKeys(u, UV, r.u, 4));
    before := counts[..];
    ok := CountPlane(counts, UV, v, r.v);
    if !ok { return; }
    CountedMore(counts[..], before, was, PlaneKeys(y, t, r.y, 16) + PlaneKeys(u, UV, r.u, 4), PlaneKeys(v, UV, r.v, 4));
  }
}
