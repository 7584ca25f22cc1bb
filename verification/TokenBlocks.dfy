/** Blocks of sixteen coefficients: coded length, contexts, implicit end of block. */
module TokenBlocks {
  import opened BoolCoding
  import opened BoolEncoding
  import opened BoolDecoding
  import opened TreeCoder
  import opened CodingTrees
  import opened Tokens
  import opened TokenCoder

  // block types
  const Y_AFTER_Y2: nat := 0
  const Y2: nat := 1
  const UV: nat := 2
  const Y_WITHOUT_Y2: nat := 3

  const NO_ROWS: seq<Row> := [NO_ROW, NO_ROW, NO_ROW]
  const NO_BANDS: seq<seq<Row>> :=
    [NO_ROWS, NO_ROWS, NO_ROWS, NO_ROWS, NO_ROWS, NO_ROWS, NO_ROWS, NO_ROWS]

  /** The probabilities of one block type: eight bands, three contexts each. */
  type Bands = t: seq<seq<Row>> | |t| == 8 && forall b :: 0 <= b < 8 ==> |t[b]| == 3
    witness NO_BANDS

  const NO_TABLE: Bands := NO_BANDS

  type CoeffProbs = t: seq<Bands> | |t| == 4 witness [NO_TABLE, NO_TABLE, NO_TABLE, NO_TABLE]

  /** How many of the neighbours above and to the left have coefficients; later, how large the last one was. */
  type Context = c: nat | c <= 2

  function RowAt(bands: Bands, index: nat, ctx: Context): Row
    requires index < 16
  {
    bands[COEFFICIENT_TO_BAND[index]][ctx]
  }

  function ContextAfter(x: int): Context {
    if x == 0 then 0 else if Magnitude(x) == 1 then 1 else 2
  }

  /** Magnitudes count up to two. */
  lemma ContextIsMagnitude(x: int)
    ensures ContextAfter(x) <= Magnitude(x) && (Magnitude(x) <= 2 ==> ContextAfter(x) == Magnitude(x))
    ensures Magnitude(x) >= 2 ==> ContextAfter(x) == 2
  {}

  /** The first coded position: the DC of a luma block is left to its Y2 block. */
  function FirstIndex(blockType: nat): nat {
    if blockType == Y_AFTER_Y2 then 1 else 0
  }

  type Coefficients = z: seq<int> | |z| == 16 witness seq(16, _ => 0)

  /** One past the last nonzero position among first .. n, or 0. */
  function CodedLength(z: Coefficients, first: nat, n: nat): (length: nat)
    requires n <= 16
    ensures length == 0 || first < length <= n
    ensures length > 0 ==> z[length - 1] != 0
    ensures forall i :: first <= i < n && length <= i ==> z[i] == 0
  {
    if n <= first then 0 else if z[n - 1] != 0 then n else CodedLength(z, first, n - 1)
  }

  function SymbolsFrom(z: Coefficients, bands: Bands, index: nat, length: nat, afterZero: bool, ctx: Context)
    : seq<Symbol>
    requires index <= 16 && length <= 16
    decreases 16 - index
  {
    if index < length then
      CoefficientSymbols(z[index], RowAt(bands, index, ctx), afterZero)
      + SymbolsFrom(z, bands, index + 1, length, z[index] == 0, ContextAfter(z[index]))
    else if length < 16 && index < 16 then EndOfBlock(RowAt(bands, index, ctx))
    else []
  }

  /** What the printer of a block emits; z lists the coefficients in zigzag order. */
  function BlockSymbols(z: Coefficients, bands: Bands, first: nat, ctx: Context): seq<Symbol>
    requires first <= 1
  {
    SymbolsFrom(z, bands, first, CodedLength(z, first, 16), false, ctx)
  }

  /** Every coded magnitude has a token. */
  predicate Codable(z: Coefficients, first: nat) {
    forall i :: first <= i < 16 ==> Magnitude(z[i]) < MAGNITUDE_LIMIT
  }

  function ZeroTail(n: nat): (z: seq<int>)
    ensures |z| == n
  {
    seq(n, _ => 0)
  }

  /** What the parser reads from position index on. */
  function ParseFrom(c: Core, bands: Bands, index: nat, afterZero: bool, ctx: Context): (r: (seq<int>, Core))
    requires index <= 16
    ensures |r.0| == 16 - index
    decreases 16 - index
  {
    if index == 16 then ([], c)
    else
      var (token, c1) := ReadToken(c, RowAt(bands, index, ctx), afterZero);
      match token
      case EndToken => (ZeroTail(16 - index), c1)
      case Coefficient(x) =>
        var (rest, c2) := ParseFrom(c1, bands, index + 1, x == 0, ContextAfter(x));
        ([x] + rest, c2)
  }

  lemma {:induction false} SymbolsAreParsed(
      c: Core, z: Coefficients, bands: Bands, first: nat, index: nat, afterZero: bool, ctx: Context)
    requires first <= index <= 16 && first <= 1 && Codable(z, first)
    requires afterZero ==> index < CodedLength(z, first, 16)
    requires Serves(c, SymbolsFrom(z, bands, index, CodedLength(z, first, 16), afterZero, ctx))
    ensures ParseFrom(c, bands, index, afterZero, ctx)
            == (z[index..], After(c, SymbolsFrom(z, bands, index, CodedLength(z, first, 16), afterZero, ctx)))
    decreases 16 - index
  {
    hide Next, Serves, After, ReadToken, CoefficientSymbols, EndOfBlock, CodedLength;
    var length := CodedLength(z, first, 16);
    if index < length {
      var row := RowAt(bands, index, ctx);
      var head := CoefficientSymbols(z[index], row, afterZero);
      var tail := SymbolsFrom(z, bands, index + 1, length, z[index] == 0, ContextAfter(z[index]));
      ServesAppend(c, head, tail);
      CoefficientRoundTrip(c, z[index], row, afterZero);
      SymbolsAreParsed(After(c, head), z, bands, first, index + 1, z[index] == 0, ContextAfter(z[index]));
      assert z[index..] == [z[index]] + z[index + 1..];
    } else if index < 16 {
      EndOfBlockRoundTrip(c, RowAt(bands, index, ctx));
      assert z[index..] == ZeroTail(16 - index);
    } else {
      ServesNone(c);
    }
  }

  /** Block round trip: for every type, context and table, and for all codable coefficients (with the DC
      zero where it is not coded), the parser returns exactly the coefficients that were printed. */
  lemma BlockRoundTrip(c: Core, z: Coefficients, bands: Bands, first: nat, ctx: Context)
    requires first <= 1 && Codable(z, first)
    requires Serves(c, BlockSymbols(z, bands, first, ctx))
    ensures ParseFrom(c, bands, first, false, ctx)
            == (z[first..], After(c, BlockSymbols(z, bands, first, ctx)))
  {
    SymbolsAreParsed(c, z, bands, first, first, false, ctx);
  }

  // ----- The block object -----

  const UNZIGZAG: seq<nat> := [0, 1, 5, 6, 2, 4, 7, 12, 3, 8, 11, 13, 9, 10, 14, 15]

  lemma ZigzagInverse(i: nat)
    requires i < 16
    ensures ZIGZAG[i] < 16 && UNZIGZAG[i] < 16
    ensures ZIGZAG[UNZIGZAG[i]] == i && UNZIGZAG[ZIGZAG[i]] == i
  {}

  /** The antidiagonal of a raster position. */
  function Diagonal(k: nat): nat {
    k % 4 + k / 4
  }

  /** The order goes from one antidiagonal to the next, down and to the left on the odd ones, up and to the right on the
      even ones. Only one permutation does. */
  lemma ZigzagOrder(i: nat, j: nat)
    requires i < j < 16
    ensures var a, b := ZIGZAG[i], ZIGZAG[j];
            && a < 16 && b < 16 && a != b
            && (Diagonal(a) < Diagonal(b)
                || (Diagonal(a) == Diagonal(b) && if Diagonal(a) % 2 == 1 then a / 4 < b / 4 else a % 4 < b % 4))
  {}

  /** Coefficients in raster order, read in zigzag order. */
  function Zigzagged(raster: Coefficients): Coefficients {
    seq(16, i requires 0 <= i < 16 => ZigzagInverse(i); raster[ZIGZAG[i]])
  }

  /** The zigzag order determines the raster order. */
  lemma ZigzagIsInjective(a: Coefficients, b: Coefficients)
    ensures Zigzagged(a) == Zigzagged(b) <==> a == b
  {
    if Zigzagged(a) == Zigzagged(b) {
      forall k: nat | k < 16 ensures a[k] == b[k] {
        ZigzagInverse(k);
        assert Zigzagged(a)[UNZIGZAG[k]] == Zigzagged(b)[UNZIGZAG[k]];
      }
    }
  }

  /** Writing one raster entry writes one zigzag entry. */
  lemma ZigzagUpdate(raster: Coefficients, i: nat, x: int)
    requires i < 16
    ensures ZIGZAG[i] < 16 && Zigzagged(raster[ZIGZAG[i] := x]) == Zigzagged(raster)[i := x]
  {
    ZigzagInverse(i);
    var a, b := Zigzagged(raster[ZIGZAG[i] := x]), Zigzagged(raster)[i := x];
    forall k: nat | k < 16 ensures a[k] == b[k] {
      ZigzagInverse(k);
    }
  }

  /** What a block holds after positions first .. n of z have been parsed: zeros are not stored. */
  function Merged(was: Coefficients, z: seq<int>, first: nat, n: nat): Coefficients
    requires first <= n <= 16 && |z| == 16 - first
  {
    seq(16, i requires 0 <= i < 16 => if first <= i < n && z[i - first] != 0 then z[i - first] else was[i])
  }

  /** On a fresh block the parser leaves exactly what it reads. */
  lemma MergedIntoZeros(z: seq<int>, first: nat)
    requires first <= 16 && |z| == 16 - first
    ensures Merged(ZeroTail(16), z, first, 16) == ZeroTail(first) + z
  {}

  lemma MergedStep(was: Coefficients, z: seq<int>, first: nat, n: nat)
    requires first <= n < 16 && |z| == 16 - first
    ensures Merged(was, z, first, n + 1)
            == if z[n - first] == 0 then Merged(was, z, first, n) else Merged(was, z, first, n)[n := z[n - first]]
  {}

  lemma MergedRest(was: Coefficients, z: seq<int>, first: nat, n: nat)
    requires first <= n <= 16 && |z| == 16 - first && z[n - first..] == ZeroTail(16 - n)
    ensures Merged(was, z, first, 16) == Merged(was, z, first, n)
    ensures AnyNonzero(z) == AnyNonzero(z[..n - first])
  {
    assert z == z[..n - first] + ZeroTail(16 - n);
    ZerosAppended(z[..n - first], 16 - n);
  }

  lemma {:induction false} ZerosAppended(z: seq<int>, n: nat)
    ensures AnyNonzero(z + ZeroTail(n)) == AnyNonzero(z)
  {
    if n == 0 {
      assert z + ZeroTail(0) == z;
    } else {
      ZerosAppended(z, n - 1);
      LastNonzero(z + ZeroTail(n - 1), 0);
      assert z + ZeroTail(n) == z + ZeroTail(n - 1) + [0];
    }
  }

  /** One iteration of the parser's loop. */
  lemma ParseStep(c: Core, bands: Bands, first: nat, index: nat, afterZero: bool, ctx: Context, z: seq<int>, end: Core)
    requires first <= index < 16 && |z| == 16 - first
    requires ParseFrom(c, bands, index, afterZero, ctx) == (z[index - first..], end)
    ensures match ReadToken(c, RowAt(bands, index, ctx), afterZero).0
            case EndToken =>
              z[index - first..] == ZeroTail(16 - index)
              && ReadToken(c, RowAt(bands, index, ctx), afterZero).1 == end
            case Coefficient(x) =>
              x == z[index - first]
              && z[..index + 1 - first] == z[..index - first] + [x]
              && ParseFrom(ReadToken(c, RowAt(bands, index, ctx), afterZero).1, bands, index + 1, x == 0, ContextAfter(x))
                 == (z[index + 1 - first..], end)
  {
    hide ReadToken;
    match ReadToken(c, RowAt(bands, index, ctx), afterZero).0
    case EndToken =>
    case Coefficient(x) =>
      var rest := z[index - first..];
      assert rest[0] == z[index - first] && rest[1..] == z[index + 1 - first..];
  }

  predicate AnyNonzero(z: seq<int>) {
    exists i :: 0 <= i < |z| && z[i] != 0
  }

  class CoefficientBlock {
    const coefficients: array<int>  // raster order
    var blockType: nat
    var hasNonzero: bool

    ghost predicate Valid()
      reads this
    {
      coefficients.Length == 16 && blockType < 4
    }

    function Zigzag(): Coefficients
      requires coefficients.Length == 16
      reads coefficients
    {
      Zigzagged(coefficients[..])
    }

    constructor (t: nat)
      requires t < 4
      ensures Valid() && fresh(coefficients) && blockType == t && !hasNonzero
      ensures Zigzag() == ZeroTail(16)
    {
      coefficients := new int[16](_ => 0);
      blockType := t;
      hasNonzero := false;
      new;
      assert coefficients[..] == ZeroTail(16);
    }

    method CalculateHasNonzero()
      requires Valid()
      modifies this`hasNonzero
      ensures hasNonzero == AnyNonzero(coefficients[..])
    {
      hasNonzero := false;
      for i := 0 to 16
        invariant hasNonzero == AnyNonzero(coefficients[..i])
      {
        hasNonzero := hasNonzero || coefficients[i] != 0;
        assert coefficients[..i + 1] == coefficients[..i] + [coefficients[i]];
        LastNonzero(coefficients[..i], coefficients[i]);
      }
      assert coefficients[..16] == coefficients[..];
    }

    /** How many tokens are we going to encode? */
    method CountTokens() returns (codedLength: nat)
      requires Valid()
      ensures codedLength == CodedLength(Zigzag(), FirstIndex(blockType), 16)
    {
      codedLength := 0;
      for index := FirstIndex(blockType) to 16
        invariant codedLength == CodedLength(Zigzag(), FirstIndex(blockType), index)
      {
        ZigzagInverse(index);
        if coefficients[ZIGZAG[index]] != 0 {
          codedLength := index + 1;
        }
      }
    }

    method SerializeTokens(encoder: BoolEncoder, probs: CoeffProbs, ctx: Context) returns (ok: bool)
      requires Valid() && encoder.Valid()
      modifies encoder
      ensures encoder.Valid() && ok == Codable(Zigzag(), FirstIndex(blockType))
      ensures ok ==> encoder.log == old(encoder.log)
                                    + BlockSymbols(Zigzag(), probs[blockType], FirstIndex(blockType), ctx)
    {
      hide Holds, Encoded, CoefficientSymbols, EndOfBlock, Zigzagged, CodedLength, RowAt, SymbolsFrom;
      ghost var z, first := Zigzag(), FirstIndex(blockType);
      var bands := probs[blockType];
      var codedLength := CountTokens();
      assert CodedLength(z, first, 16) == codedLength;

      var lastWasZero := false;
      var tokenContext := ctx;
      var index := FirstIndex(blockType);
      ghost var log := encoder.log;
      ghost var all := log + BlockSymbols(z, bands, first, ctx);
      while index < codedLength
        invariant first <= index <= 16 && (index <= codedLength || (codedLength == 0 && index == first))
        invariant encoder.Valid()
        invariant encoder.log + SymbolsFrom(z, bands, index, codedLength, lastWasZero, tokenContext) == all
        invariant forall i :: first <= i < index ==> Magnitude(z[i]) < MAGNITUDE_LIMIT
        invariant lastWasZero ==> index < codedLength
        decreases 16 - index
      {
        ZigzagEntry(index);
        var coefficient := coefficients[ZIGZAG[index]];
        SymbolsStep(encoder.log, z, bands, index, codedLength, lastWasZero, tokenContext);
        var fits := PutCoefficient(encoder, RowAt(bands, index, tokenContext), coefficient, lastWasZero);
        if !fits {
          return false;
        }
        lastWasZero := coefficient == 0;
        tokenContext := ContextAfter(coefficient);
        index := index + 1;
      }
      assert !lastWasZero;

      // write end of block
      SymbolsEnd(z, bands, index, codedLength, tokenContext);
      if codedLength < 16 {
        encoder.Put(false, RowAt(bands, index, tokenContext)[0]);
      }
      ok := true;
    }

    lemma ZigzagEntry(i: nat)
      requires Valid() && i < 16
      ensures ZIGZAG[i] < 16 && coefficients[ZIGZAG[i]] == Zigzag()[i]
    {
      ZigzagInverse(i);
    }

    method ParseTokens(decoder: BoolDecoder, probs: CoeffProbs, ctx: Context)
      requires Valid() && decoder.Valid()
      modifies this`hasNonzero, coefficients, decoder
      ensures Valid() && decoder.Valid()
      ensures var first := FirstIndex(blockType);
              var (z, c) := ParseFrom(old(decoder.State()), probs[blockType], first, false, ctx);
              && decoder.State() == c
              && Zigzag() == Merged(old(Zigzag()), z, first, 16)
              && hasNonzero == (old(hasNonzero) || AnyNonzero(z))
    {
      hide Next, ReadToken, ParseFrom, Merged, Zigzagged, AnyNonzero, RowAt, WellFormed;
      var lastWasZero := false;
      var tokenContext := ctx;
      var index := FirstIndex(blockType);
      ghost var first, was := index, Zigzag();
      var bands := probs[blockType];
      ghost var (z, end) := ParseFrom(decoder.State(), bands, first, false, ctx);
      NothingMerged(was, z, first);
      while index < 16
        invariant first <= index <= 16 && decoder.Valid()
        invariant Zigzag() == Merged(was, z, first, index)
        invariant hasNonzero == (old(hasNonzero) || AnyNonzero(z[..index - first]))
        invariant ParseFrom(decoder.State(), bands, index, lastWasZero, tokenContext) == (z[index - first..], end)
      {
        ParseStep(decoder.State(), bands, first, index, lastWasZero, tokenContext, z, end);
        var token := GetToken(decoder, RowAt(bands, index, tokenContext), lastWasZero);
        if token == EndToken {
          MergedRest(was, z, first, index);
          return;
        }
        var value := token.x;
        MergedStep(was, z, first, index);
        LastNonzero(z[..index - first], value);
        lastWasZero := value == 0;
        tokenContext := ContextAfter(value);
        if value != 0 {
          hasNonzero := true;
          ZigzagUpdate(coefficients[..], index, value);
          ghost var before := coefficients[..];
          coefficients[ZIGZAG[index]] := value;
          assert coefficients[..] == before[ZIGZAG[index] := value];
        }
        index := index + 1;
      }
      assert z[..16 - first] == z;
      ParseDone(decoder.State(), bands, lastWasZero, tokenContext);
    }
  }

  lemma ParseDone(c: Core, bands: Bands, afterZero: bool, ctx: Context)
    ensures ParseFrom(c, bands, 16, afterZero, ctx) == ([], c)
  {}

  lemma NothingMerged(was: Coefficients, z: seq<int>, first: nat)
    requires first <= 16 && |z| == 16 - first
    ensures Merged(was, z, first, first) == was
    ensures !AnyNonzero(z[..0]) && z[0..] == z
  {}

  lemma SymbolsStep(log: seq<Symbol>, z: Coefficients, bands: Bands, index: nat, length: nat, afterZero: bool, ctx: Context)
    requires index < length <= 16
    ensures log + SymbolsFrom(z, bands, index, length, afterZero, ctx)
            == log + CoefficientSymbols(z[index], RowAt(bands, index, ctx), afterZero)
               + SymbolsFrom(z, bands, index + 1, length, z[index] == 0, ContextAfter(z[index]))
  {
    hide CoefficientSymbols;
  }

  lemma SymbolsEnd(z: Coefficients, bands: Bands, index: nat, length: nat, ctx: Context)
    requires length <= index <= 16 && length <= 16 && (index == 16 ==> length == 16)
    ensures SymbolsFrom(z, bands, index, length, false, ctx)
            == if length < 16 then [Symbol(false, RowAt(bands, index, ctx)[0])] else []
  {
    hide EndOfBlock;
    if index < 16 { EndDecision(RowAt(bands, index, ctx)); }
  }

  lemma LastNonzero(z: seq<int>, x: int)
    ensures AnyNonzero(z + [x]) <==> AnyNonzero(z) || x != 0
  {
    if AnyNonzero(z) {
      var i :| 0 <= i < |z| && z[i] != 0;
      assert (z + [x])[i] != 0;
    }
    if x != 0 {
      assert (z + [x])[|z|] != 0;
    }
  }

  lemma EndDecision(row: Row)
    ensures EndOfBlock(row) == [Symbol(false, row[0])]
  {
    hide EndOfBlock;
    EndPath(row);
  }
}
