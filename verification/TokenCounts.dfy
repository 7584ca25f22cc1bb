/** Counting how often each branch of the token tree is taken, against the decisions that are really
    emitted (src/encoder/serializer.cc). */
module TokenCounts {
  import opened BoolCoding
  import opened TreeCoder
  import opened CodingTrees
  import opened Tokens
  import opened TokenCoder
  import opened TokenBlocks
  import opened TokenCosts

  /** One emitted symbol: a decision at index i of the token tree under some band and context, or a bit that
      is not part of the tree. */
  datatype Event = Branch(band: nat, ctx: Context, i: nat) | Extra(symbol: Symbol)

  /** How the event is emitted. */
  function Emitted(e: Event, bands: Bands): Symbol
    requires e.Branch? ==> e.band < 8 && e.i < 22
  {
    match e
    case Branch(band, ctx, i) => Decision(bands[band][ctx], i)
    case Extra(s) => s
  }

  predicate AllValid(es: seq<Event>) {
    forall k :: 0 <= k < |es| && es[k].Branch? ==> es[k].band < 8 && es[k].i < 22
  }

  function AllEmitted(es: seq<Event>, bands: Bands): (s: seq<Symbol>)
    requires AllValid(es)
    ensures |s| == |es|
  {
    seq(|es|, k requires 0 <= k < |es| => Emitted(es[k], bands))
  }

  const COUNTS: nat := 2112  // block types, bands, contexts, and two counters for each of eleven nodes

  function Base(blockType: nat, band: nat, ctx: Context): nat {
    ((blockType * 8 + band) * 3 + ctx) * 22
  }

  /** The counter of a branch. */
  function Key(blockType: nat, e: Event): nat
    requires e.Branch?
  {
    Base(blockType, e.band, e.ctx) + e.i
  }

  /** The counters of all branches among the events. */
  function Keys(blockType: nat, es: seq<Event>): seq<nat> {
    if es == [] then []
    else
      Keys(blockType, es[..|es| - 1])
      + if es[|es| - 1].Branch? then [Key(blockType, es[|es| - 1])] else []
  }

  // ----- The events of a block -----

  function Branches(band: nat, ctx: Context, indices: seq<nat>): (es: seq<Event>)
    ensures |es| == |indices|
  {
    seq(|indices|, k requires 0 <= k < |indices| => Branch(band, ctx, indices[k]))
  }

  function Extras(syms: seq<Symbol>): (es: seq<Event>)
    ensures |es| == |syms|
  {
    seq(|syms|, k requires 0 <= k < |syms| => Extra(syms[k]))
  }

  /** The tree decisions of a coefficient. */
  function Path(x: int, afterZero: bool): (indices: seq<nat>)
    ensures forall k :: 0 <= k < |indices| ==> indices[k] < 22
  {
    (if afterZero then [] else [1]) + TokenIndices(TokenOf(Magnitude(x)))
  }

  function CoefficientEvents(x: int, band: nat, ctx: Context, afterZero: bool): seq<Event> {
    Branches(band, ctx, Path(x, afterZero)) + Extras(ExtraSymbols(x))
  }

  function EventsFrom(z: Coefficients, index: nat, length: nat, afterZero: bool, ctx: Context): seq<Event>
    requires index <= 16 && length <= 16
    decreases 16 - index
  {
    if index < length then
      CoefficientEvents(z[index], COEFFICIENT_TO_BAND[index], ctx, afterZero)
      + EventsFrom(z, index + 1, length, z[index] == 0, ContextAfter(z[index]))
    else if length < 16 && index < 16 then [Branch(COEFFICIENT_TO_BAND[index], ctx, 0)]
    else []
  }

  lemma EmittedAppend(a: seq<Event>, b: seq<Event>, bands: Bands)
    requires AllValid(a) && AllValid(b)
    ensures AllValid(a + b) && AllEmitted(a + b, bands) == AllEmitted(a, bands) + AllEmitted(b, bands)
  {}

  /** The events of a coefficient are what the printer emits for it. */
  lemma CoefficientEmitted(x: int, bands: Bands, band: nat, ctx: Context, afterZero: bool)
    requires band < 8
    ensures AllValid(CoefficientEvents(x, band, ctx, afterZero))
    ensures AllEmitted(CoefficientEvents(x, band, ctx, afterZero), bands)
            == CoefficientSymbols(x, bands[band][ctx], afterZero)
  {
    hide CoefficientSymbols, Bits, TokenIndices, TokenOf, CategoryOf, Decision;
    var row := bands[band][ctx];
    CoefficientUnfolded(x, row, afterZero);
    var t := TokenOf(Magnitude(x));
    var a, b := Branches(band, ctx, Path(x, afterZero)), Extras(ExtraSymbols(x));
    EmittedAppend(a, b, bands);
    assert AllEmitted(b, bands) == ExtraSymbols(x);
    assert AllEmitted(a, bands) == (if afterZero then [] else [Decision(row, 1)]) + Decisions(row, TokenIndices(t));
  }

  lemma {:induction false} EventsEmitted(
      z: Coefficients, bands: Bands, index: nat, length: nat, afterZero: bool, ctx: Context)
    requires index <= 16 && length <= 16
    ensures AllValid(EventsFrom(z, index, length, afterZero, ctx))
    ensures AllEmitted(EventsFrom(z, index, length, afterZero, ctx), bands)
            == SymbolsFrom(z, bands, index, length, afterZero, ctx)
    decreases 16 - index
  {
    hide CoefficientSymbols, CoefficientEvents, ContextAfter, EndOfBlock, AllValid, AllEmitted;
    if index < length {
      BandsGrow(index);
      CoefficientEmitted(z[index], bands, COEFFICIENT_TO_BAND[index], ctx, afterZero);
      EventsEmitted(z, bands, index + 1, length, z[index] == 0, ContextAfter(z[index]));
      EmittedAppend(CoefficientEvents(z[index], COEFFICIENT_TO_BAND[index], ctx, afterZero),
                    EventsFrom(z, index + 1, length, z[index] == 0, ContextAfter(z[index])), bands);
    } else if length < 16 && index < 16 {
      BandsGrow(index);
      EndEmitted(bands, COEFFICIENT_TO_BAND[index], ctx);
    } else {
      NothingEmitted(bands);
    }
  }

  lemma EndEmitted(bands: Bands, band: nat, ctx: Context)
    requires band < 8
    ensures AllValid([Branch(band, ctx, 0)]) && AllEmitted([Branch(band, ctx, 0)], bands) == EndOfBlock(bands[band][ctx])
  {
    hide EndOfBlock;
    EndPath(bands[band][ctx]);
  }

  lemma NothingEmitted(bands: Bands)
    ensures AllValid([]) && AllEmitted([], bands) == []
  {}

  /** The events of a whole block; a lemma about them and the printer is the next one. */
  function BlockEvents(z: Coefficients, first: nat, ctx: Context): seq<Event>
    requires first <= 1
  {
    EventsFrom(z, first, CodedLength(z, first, 16), false, ctx)
  }

  lemma BlockEmitted(z: Coefficients, bands: Bands, first: nat, ctx: Context)
    requires first <= 1
    ensures AllValid(BlockEvents(z, first, ctx))
    ensures AllEmitted(BlockEvents(z, first, ctx), bands) == BlockSymbols(z, bands, first, ctx)
  {
    EventsEmitted(z, bands, first, CodedLength(z, first, 16), false, ctx);
  }

  // ----- Counting -----

  /** Each counter has grown by the number of times its branch is listed. */
  ghost predicate Counted(now: seq<nat>, was: seq<nat>, keys: seq<nat>) {
    |now| == |was| && forall k :: 0 <= k < |now| ==> now[k] == was[k] + multiset(keys)[k]
  }

  lemma NothingCounted(was: seq<nat>)
    ensures Counted(was, was, [])
  {}

  lemma {:induction false} KeysAppend(blockType: nat, a: seq<Event>, b: seq<Event>)
    ensures Keys(blockType, a + b) == Keys(blockType, a) + Keys(blockType, b)
    decreases |b|
  {
    if b == [] {
      assert a + b == a;
    } else {
      var n := |b| - 1;
      assert (a + b)[..|a| + n] == a + b[..n];
      KeysAppend(blockType, a, b[..n]);
    }
  }

  lemma {:induction false} ExtrasHaveNoKeys(blockType: nat, syms: seq<Symbol>)
    ensures Keys(blockType, Extras(syms)) == []
    decreases |syms|
  {
    if syms != [] {
      var n := |syms| - 1;
      assert Extras(syms)[..n] == Extras(syms[..n]);
      ExtrasHaveNoKeys(blockType, syms[..n]);
    }
  }

  function Offsets(base: nat, indices: seq<nat>): (s: seq<nat>)
    ensures |s| == |indices|
  {
    seq(|indices|, k requires 0 <= k < |indices| => base + indices[k])
  }

  lemma {:induction false} BranchKeys(blockType: nat, band: nat, ctx: Context, indices: seq<nat>)
    ensures Keys(blockType, Branches(band, ctx, indices)) == Offsets(Base(blockType, band, ctx), indices)
    decreases |indices|
  {
    hide Base;
    if indices != [] {
      var n := |indices| - 1;
      assert Branches(band, ctx, indices)[..n] == Branches(band, ctx, indices[..n]);
      BranchKeys(blockType, band, ctx, indices[..n]);
    }
  }

  lemma CoefficientKeys(blockType: nat, x: int, band: nat, ctx: Context, afterZero: bool)
    ensures Keys(blockType, CoefficientEvents(x, band, ctx, afterZero))
            == Offsets(Base(blockType, band, ctx), Path(x, afterZero))
  {
    hide Keys, Base, Path, ExtraSymbols;
    KeysAppend(blockType, Branches(band, ctx, Path(x, afterZero)), Extras(ExtraSymbols(x)));
    ExtrasHaveNoKeys(blockType, ExtraSymbols(x));
    BranchKeys(blockType, band, ctx, Path(x, afterZero));
  }

  lemma CountedMore(now: seq<nat>, before: seq<nat>, was: seq<nat>, a: seq<nat>, b: seq<nat>)
    requires Counted(before, was, a) && Counted(now, before, b)
    ensures Counted(now, was, a + b)
  {}

  /** Increments one counter; `keys` lists what has been counted since `was`. */
  method Bump(counts: array<nat>, base: nat, i: nat, ghost was: seq<nat>, ghost indices: seq<nat>)
    requires base + i < counts.Length && Counted(counts[..], was, Offsets(base, indices))
    modifies counts
    ensures Counted(counts[..], was, Offsets(base, indices + [i]))
  {
    ghost var before := counts[..];
    counts[base + i] := counts[base + i] + 1;
    OneCounted(counts[..], before, base + i);
    CountedMore(counts[..], before, was, Offsets(base, indices), [base + i]);
    assert Offsets(base, indices + [i]) == Offsets(base, indices) + [base + i];
  }

  lemma OneCounted(now: seq<nat>, was: seq<nat>, k: nat)
    requires k < |was| && now == was[k := was[k] + 1]
    ensures Counted(now, was, [k])
  {}

  /** Counts the category of a magnitude of at least 11. */
  method CountLarge(counts: array<nat>, base: nat, v: nat, ghost was: seq<nat>, ghost up: seq<nat>) returns (ok: bool)
    requires base + 22 <= counts.Length && v >= 11 && Counted(counts[..], was, Offsets(base, up))
    modifies counts
    ensures ok == (v < MAGNITUDE_LIMIT)
    ensures ok ==> Counted(counts[..], was, Offsets(base, up + TokenIndices(TokenOf(v))[3..]))
  {
    hide Counted, UpperLimit, Offsets;
    UpperLimits();
    ok := true;
    Bump(counts, base, 13, was, up);
    if v < UpperLimit(TOKEN_DECODER_3) {
      Bump(counts, base, 16, was, up + [13]);
      var last := if v < UpperLimit(TOKEN_DECODER_2) then 18 else 19;
      Bump(counts, base, last, was, up + [13] + [16]);
      assert up + [13] + [16] + [last] == up + [13, 16, last];
      return;
    }
    Bump(counts, base, 17, was, up + [13]);
    if v < UpperLimit(TOKEN_DECODER_5) {
      var last := if v < UpperLimit(TOKEN_DECODER_4) then 20 else 21;
      Bump(counts, base, last, was, up + [13] + [17]);
      assert up + [13] + [17] + [last] == up + [13, 17, last];
      return;
    }
    ok := false;
  }

  /** Counts the decisions of a nonzero magnitude. */
  method CountMagnitude(counts: array<nat>, base: nat, v: nat, ghost was: seq<nat>, ghost up: seq<nat>) returns (ok: bool)
    requires base + 22 <= counts.Length && v >= 1 && Counted(counts[..], was, Offsets(base, up))
    modifies counts
    ensures ok == (v < MAGNITUDE_LIMIT)
    ensures ok ==> Counted(counts[..], was, Offsets(base, up + TokenIndices(TokenOf(v))))
  {
    hide Counted, UpperLimit, Offsets;
    UpperLimits();
    ok := true;
    Bump(counts, base, 3, was, up);
    if v == 1 {
      Bump(counts, base, 4, was, up + [3]);
      assert up + [3] + [4] == up + [3, 4];
      return;
    }
    Bump(counts, base, 5, was, up + [3]);
    assert up + [3] + [5] == up + [3, 5];
    if v <= 4 {
      CountSmall(counts, base, v, was, up + [3, 5]);
      assert up + [3, 5] + TokenIndices(TokenOf(v))[2..] == up + TokenIndices(TokenOf(v));
      return;
    }
    Bump(counts, base, 7, was, up + [3, 5]);
    assert up + [3, 5] + [7] == up + [3, 5, 7];
    if v < UpperLimit(TOKEN_DECODER_1) {
      Bump(counts, base, 12, was, up + [3, 5, 7]);
      var last := if v < TOKEN_DECODER_1.base then 14 else 15;
      Bump(counts, base, last, was, up + [3, 5, 7] + [12]);
      assert up + [3, 5, 7] + [12] + [last] == up + [3, 5, 7, 12, last];
      return;
    }
    ok := CountLarge(counts, base, v, was, up + [3, 5, 7]);
    assert up + [3, 5, 7] + TokenIndices(TokenOf(v))[3..] == up + TokenIndices(TokenOf(v));
  }

  /** Counts the rest of a magnitude of two to four. */
  method CountSmall(counts: array<nat>, base: nat, v: nat, ghost was: seq<nat>, ghost up: seq<nat>)
    requires base + 22 <= counts.Length && 2 <= v <= 4 && Counted(counts[..], was, Offsets(base, up))
    modifies counts
    ensures Counted(counts[..], was, Offsets(base, up + TokenIndices(TokenOf(v))[2..]))
  {
    hide Counted, Offsets;
    Bump(counts, base, 6, was, up);
    if v == 2 {
      Bump(counts, base, 8, was, up + [6]);
      assert up + [6] + [8] == up + [6, 8];
      return;
    }
    Bump(counts, base, 9, was, up + [6]);
    var last := if v == 3 then 10 else 11;
    Bump(counts, base, last, was, up + [6] + [9]);
    assert up + [6] + [9] + [last] == up + [6, 9, last];
  }

  method CountCoefficient(counts: array<nat>, base: nat, x: int, afterZero: bool, ghost was: seq<nat>) returns (ok: bool)
    requires base + 22 <= counts.Length && was == counts[..]
    modifies counts
    ensures ok == (Magnitude(x) < MAGNITUDE_LIMIT)
    ensures ok ==> Counted(counts[..], was, Offsets(base, Path(x, afterZero)))
  {
    hide Counted, Offsets;
    NothingCounted(was);
    ghost var up: seq<nat> := [];
    NoOffsets(base);
    if !afterZero {
      Bump(counts, base, 1, was, []);
      up := [1];
      assert [] + [1] == up;
    }
    if x == 0 {
      Bump(counts, base, 2, was, up);
      return true;
    }
    ok := CountMagnitude(counts, base, Magnitude(x), was, up);
  }

  lemma NoOffsets(base: nat)
    ensures Offsets(base, []) == []
  {}

  lemma BaseInRange(blockType: nat, band: nat, ctx: Context)
    requires blockType < 4 && band < 8
    ensures Base(blockType, band, ctx) + 22 <= COUNTS
  {}

  /** What is still to be counted of a block. */
  function KeysFrom(z: Coefficients, blockType: nat, index: nat, length: nat, afterZero: bool, ctx: Context): seq<nat>
    requires index <= 16 && length <= 16
  {
    Keys(blockType, EventsFrom(z, index, length, afterZero, ctx))
  }

  lemma KeysStep(z: Coefficients, blockType: nat, index: nat, length: nat, afterZero: bool, ctx: Context)
    requires index < length <= 16
    ensures KeysFrom(z, blockType, index, length, afterZero, ctx)
            == Offsets(Base(blockType, COEFFICIENT_TO_BAND[index], ctx), Path(z[index], afterZero))
               + KeysFrom(z, blockType, index + 1, length, z[index] == 0, ContextAfter(z[index]))
  {
    hide Keys, Base, Path, CoefficientEvents, ContextAfter, Offsets;
    CoefficientKeys(blockType, z[index], COEFFICIENT_TO_BAND[index], ctx, afterZero);
    KeysAppend(blockType, CoefficientEvents(z[index], COEFFICIENT_TO_BAND[index], ctx, afterZero),
               EventsFrom(z, index + 1, length, z[index] == 0, ContextAfter(z[index])));
  }

  lemma KeysEnd(z: Coefficients, blockType: nat, index: nat, length: nat, ctx: Context)
    requires length <= index <= 16 && length <= 16 && (index == 16 ==> length == 16)
    ensures KeysFrom(z, blockType, index, length, false, ctx)
            == if length < 16 then Offsets(Base(blockType, COEFFICIENT_TO_BAND[index], ctx), [0]) else []
  {
    hide Base;
    if length < 16 {
      var es := [Branch(COEFFICIENT_TO_BAND[index], ctx, 0)];
      assert es[..0] == [];
      assert Keys(blockType, es) == [] + [Key(blockType, es[0])];
    }
  }

  /** Counts the end of the block. */
  method CountEnd(counts: array<nat>, ghost z: Coefficients, blockType: nat, index: nat, codedLength: nat, ctx: Context)
    requires counts.Length == COUNTS && blockType < 4
    requires codedLength <= index <= 16 && codedLength <= 16 && (index == 16 ==> codedLength == 16)
    modifies counts
    ensures Counted(counts[..], old(counts[..]), KeysFrom(z, blockType, index, codedLength, false, ctx))
  {
    hide Counted, KeysFrom, Base;
    KeysEnd(z, blockType, index, codedLength, ctx);
    NothingCounted(counts[..]);
    if codedLength < 16 {
      BandsGrow(index);
      var base := Base(blockType, COEFFICIENT_TO_BAND[index], ctx);
      BaseInRange(blockType, COEFFICIENT_TO_BAND[index], ctx);
      NoOffsets(base);
      Bump(counts, base, 0, counts[..], []);
      assert [] + [0] == [0];
    }
  }

  /** The counters grow by exactly the branches that the printer emits for the block. Fails, like the
      printer, on a coefficient that is too large. */
  method AccumulateTokenBranches(counts: array<nat>, block: CoefficientBlock, ctx: Context) returns (ok: bool)
    requires counts.Length == COUNTS && block.Valid()
    modifies counts
    ensures var first, z := FirstIndex(block.blockType), block.Zigzag();
            && ok == Codable(z, first)
            && (ok ==> Counted(counts[..], old(counts[..]), Keys(block.blockType, BlockEvents(z, first, ctx))))
  {
    hide CodedLength, Zigzagged, Counted, KeysFrom, Path, ContextAfter, Base, Keys, EventsFrom;
    ghost var z, t, first := block.Zigzag(), block.blockType, FirstIndex(block.blockType);
    ghost var was := counts[..];
    var codedLength := block.CountTokens();
    var lastWasZero, tokenContext, index := false, ctx, FirstIndex(block.blockType);
    ghost var keys: seq<nat> := [];
    ghost var all := KeysFrom(z, t, index, codedLength, false, ctx);
    assert CodedLength(z, first, 16) == codedLength;
    NothingCounted(was);
    while index < codedLength
      invariant first <= index <= 16 && (index <= codedLength || (codedLength == 0 && index == first))
      invariant block.Zigzag() == z
      invariant Counted(counts[..], was, keys)
      invariant keys + KeysFrom(z, t, index, codedLength, lastWasZero, tokenContext) == all
      invariant forall i :: first <= i < index ==> Magnitude(z[i]) < MAGNITUDE_LIMIT
      invariant lastWasZero ==> index < codedLength
      decreases 16 - index
    {
      block.ZigzagEntry(index);
      BandsGrow(index);
      var coefficient := block.coefficients[ZIGZAG[index]];
      KeysStep(z, t, index, codedLength, lastWasZero, tokenContext);
      BaseInRange(t, COEFFICIENT_TO_BAND[index], tokenContext);
      var base := Base(block.blockType, COEFFICIENT_TO_BAND[index], tokenContext);
      ghost var before := counts[..];
      var fits := CountCoefficient(counts, base, coefficient, lastWasZero, before);
      if !fits {
        return false;
      }
      ghost var more := Offsets(base, Path(coefficient, lastWasZero));
      CountedMore(counts[..], before, was, keys, more);
      keys := keys + more;
      lastWasZero := coefficient == 0;
      tokenContext := ContextAfter(coefficient);
      index := index + 1;
    }
    ghost var before := counts[..];
    CountEnd(counts, z, block.blockType, index, codedLength, tokenContext);
    CountedMore(counts[..], before, was, keys, KeysFrom(z, t, index, codedLength, false, tokenContext));
    AllKeys(z, t, codedLength, ctx);
    ok := true;
  }

  lemma AllKeys(z: Coefficients, t: nat, length: nat, ctx: Context)
    requires t < 4 && length == CodedLength(z, FirstIndex(t), 16)
    ensures KeysFrom(z, t, FirstIndex(t), length, false, ctx) == Keys(t, BlockEvents(z, FirstIndex(t), ctx))
  {
    hide EventsFrom, Keys;
  }
}
