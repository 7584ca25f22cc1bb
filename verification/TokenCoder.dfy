/** The printer and the unfolded parser of coefficient blocks (src/encoder/serializer.cc,
    src/decoder/tokens.cc), each proved against the token tree. */
module TokenCoder {
  import opened BoolCoding
  import opened BoolEncoding
  import opened BoolDecoding
  import opened TreeCoder
  import opened CodingTrees
  import opened Tokens

  // ----- Extra bits -----

  method EncodeBits(encoder: BoolEncoder, x: nat, probs: Probs)
    requires encoder.Valid()
    modifies encoder
    ensures encoder.Valid() && encoder.log == old(encoder.log) + Bits(x, probs)
  {
    hide Bits, Holds, Encoded, Shr;
    ghost var bits := Bits(x, probs);
    for i := 0 to |probs|
      invariant encoder.Valid() && encoder.log == old(encoder.log) + bits[..i]
    {
      BitOfBits(x, probs, i);
      encoder.Put(Shr(x, |probs| - 1 - i) % 2 == 1, probs[i]);
      assert bits[..i + 1] == bits[..i] + [bits[i]];
    }
    assert bits[..|probs|] == bits;
  }

  method DecodeBits(decoder: BoolDecoder, probs: Probs) returns (x: nat)
    requires decoder.Valid()
    modifies decoder
    ensures decoder.Valid() && (x, decoder.State()) == ReadBits(old(decoder.State()), probs, 0)
  {
    hide Next;
    x := 0;
    assert probs[0..] == probs;
    for i := 0 to |probs|
      invariant decoder.Valid()
      invariant ReadBits(decoder.State(), probs[i..], x) == ReadBits(old(decoder.State()), probs, 0)
    {
      var b := decoder.Get(probs[i]);
      assert probs[i..][1..] == probs[i + 1..];
      x := 2 * x + if b then 1 else 0;
    }
  }

  method EncodeExtra(encoder: BoolEncoder, category: Category, value: nat)
    requires encoder.Valid() && value >= category.base
    modifies encoder
    ensures encoder.Valid()
    ensures encoder.log == old(encoder.log) + Bits(value - category.base, category.probs)
  {
    hide Bits, Holds, Encoded;
    EncodeBits(encoder, value - category.base, category.probs);
  }

  method DecodeExtra(decoder: BoolDecoder, category: Category) returns (value: nat)
    requires decoder.Valid()
    modifies decoder
    ensures decoder.Valid()
    ensures var (x, c) := ReadBits(old(decoder.State()), category.probs, 0);
            (value, decoder.State()) == (category.base + x, c)
  {
    hide Next, ReadBits;
    var increment := DecodeBits(decoder, category.probs);
    value := category.base + increment;
  }

  // ----- One token -----

  /** The symbols of a coefficient, decision by decision. */
  lemma CoefficientUnfolded(x: int, row: Row, afterZero: bool)
    ensures CoefficientSymbols(x, row, afterZero)
            == (if afterZero then [] else [Decision(row, 1)])
               + Decisions(row, TokenIndices(TokenOf(Magnitude(x))))
               + Bits(Magnitude(x) - CategoryBase(Magnitude(x)), CategoryOf(TokenOf(Magnitude(x))).probs)
               + SignBit(x)
  {
    hide LeafPathFrom, Decisions, TokenIndices, Bits, CategoryBase, CategoryOf, SignBit, IsTree;
    hide HasLeaf, LeafUnder, TokenOf, Decision, EndOfBlock;
    var t := TokenOf(Magnitude(x));
    TokenPath(row, t);
    RootPath(row, t);
    var path := Decisions(row, TokenIndices(t));
    assert [] + path == path;
  }

  /** Prints the category of a magnitude of at least 11 and the offset in it. */
  method PutLargeCategory(encoder: BoolEncoder, row: Row, v: nat) returns (ok: bool)
    requires encoder.Valid() && v >= 11
    modifies encoder
    ensures encoder.Valid() && ok == (v < MAGNITUDE_LIMIT)
    ensures ok ==> encoder.log == old(encoder.log)
                                  + Decisions(row, TokenIndices(TokenOf(v))[3..])
                                  + Bits(v - CategoryBase(v), CategoryOf(TokenOf(v)).probs)
  {
    hide Bits, Holds, Encoded, UpperLimit;
    UpperLimits();
    ok := true;
    ghost var log := encoder.log;
    encoder.Put(true, row[6]);
    if v < UpperLimit(TOKEN_DECODER_2) {
      encoder.Put(false, row[8]);
      encoder.Put(false, row[9]);
      assert encoder.log == log + Decisions(row, [13, 16, 18]);
      EncodeExtra(encoder, TOKEN_DECODER_2, v);
      return;
    }
    if v < UpperLimit(TOKEN_DECODER_3) {
      encoder.Put(false, row[8]);
      encoder.Put(true, row[9]);
      assert encoder.log == log + Decisions(row, [13, 16, 19]);
      EncodeExtra(encoder, TOKEN_DECODER_3, v);
      return;
    }
    encoder.Put(true, row[8]);
    if v < UpperLimit(TOKEN_DECODER_4) {
      encoder.Put(false, row[10]);
      assert encoder.log == log + Decisions(row, [13, 17, 20]);
      EncodeExtra(encoder, TOKEN_DECODER_4, v);
      return;
    }
    if v < UpperLimit(TOKEN_DECODER_5) {
      encoder.Put(true, row[10]);
      assert encoder.log == log + Decisions(row, [13, 17, 21]);
      EncodeExtra(encoder, TOKEN_DECODER_5, v);
      return;
    }
    ok := false;
  }

  /** Prints the category of a magnitude of at least 5 and the offset in it. */
  method PutCategory(encoder: BoolEncoder, row: Row, v: nat) returns (ok: bool)
    requires encoder.Valid() && v >= 5
    modifies encoder
    ensures encoder.Valid() && ok == (v < MAGNITUDE_LIMIT)
    ensures ok ==> encoder.log == old(encoder.log)
                                  + Decisions(row, TokenIndices(TokenOf(v))[2..])
                                  + Bits(v - CategoryBase(v), CategoryOf(TokenOf(v)).probs)
  {
    hide Bits, Holds, Encoded, UpperLimit;
    UpperLimits();
    ok := true;
    ghost var log := encoder.log;
    encoder.Put(true, row[3]);
    if v < TOKEN_DECODER_1.base {
      encoder.Put(false, row[6]);
      encoder.Put(false, row[7]);
      encoder.Put(v == 6, 159);
      SingleBit(v - 5);
      assert encoder.log == log + Decisions(row, [7, 12, 14]) + Bits(v - 5, [159]);
    } else if v < UpperLimit(TOKEN_DECODER_1) {
      encoder.Put(false, row[6]);
      encoder.Put(true, row[7]);
      assert encoder.log == log + Decisions(row, [7, 12, 15]);
      EncodeExtra(encoder, TOKEN_DECODER_1, v);
    } else {
      ok := PutLargeCategory(encoder, row, v);
      LargeStartsWith7(row, v);
    }
  }

  lemma LargeStartsWith7(row: Row, v: nat)
    requires v >= 11
    ensures Decisions(row, TokenIndices(TokenOf(v))[2..])
            == [Symbol(true, row[3])] + Decisions(row, TokenIndices(TokenOf(v))[3..])
  {}

  lemma SingleBit(x: nat)
    requires x < 2
    ensures Bits(x, [159]) == [Symbol(x == 1, 159)]
  {}

  /** Prints the rest of a magnitude of two to four. */
  method PutSmall(encoder: BoolEncoder, row: Row, v: nat)
    requires encoder.Valid() && 2 <= v <= 4
    modifies encoder
    ensures encoder.Valid() && encoder.log == old(encoder.log) + Decisions(row, TokenIndices(TokenOf(v))[2..])
  {
    hide Holds, Encoded;
    ghost var log := encoder.log;
    encoder.Put(false, row[3]);
    if v == 2 {
      encoder.Put(false, row[4]);
      assert encoder.log == log + Decisions(row, [6, 8]);
    } else if v == 3 {
      encoder.Put(true, row[4]);
      encoder.Put(false, row[5]);
      assert encoder.log == log + Decisions(row, [6, 9, 10]);
    } else {
      encoder.Put(true, row[4]);
      encoder.Put(true, row[5]);
      assert encoder.log == log + Decisions(row, [6, 9, 11]);
    }
  }

  /** Prints a nonzero magnitude. */
  method PutMagnitude(encoder: BoolEncoder, row: Row, v: nat) returns (ok: bool)
    requires encoder.Valid() && v >= 1
    modifies encoder
    ensures encoder.Valid() && ok == (v < MAGNITUDE_LIMIT)
    ensures ok ==> encoder.log == old(encoder.log)
                                  + Decisions(row, TokenIndices(TokenOf(v)))
                                  + Bits(v - CategoryBase(v), CategoryOf(TokenOf(v)).probs)
  {
    hide Holds, Encoded, Bits, CategoryOf, CategoryBase, Shl;
    NoExtra(v);
    ok := true;
    ghost var log := encoder.log;
    encoder.Put(true, row[1]);
    if v == 1 {
      encoder.Put(false, row[2]);
      assert encoder.log == log + Decisions(row, [3, 4]);
      return;
    }
    encoder.Put(true, row[2]);
    if v <= 4 {
      PutSmall(encoder, row, v);
      StartsWith35(row, v);
    } else {
      ok := PutCategory(encoder, row, v);
      StartsWith35(row, v);
    }
  }

  lemma NoExtra(v: nat)
    ensures v <= 4 ==> Bits(v - CategoryBase(v), CategoryOf(TokenOf(v)).probs) == []
  {}

  lemma StartsWith35(row: Row, v: nat)
    requires v >= 2
    ensures Decisions(row, TokenIndices(TokenOf(v)))
            == [Symbol(true, row[1]), Symbol(true, row[2])] + Decisions(row, TokenIndices(TokenOf(v))[2..])
  {}

  lemma ZeroUnfolded(row: Row)
    ensures Decisions(row, TokenIndices(TokenOf(0))) == [Symbol(false, row[1])]
    ensures Bits(0, CategoryOf(TokenOf(0)).probs) == []
  {}

  /** Prints one coefficient. Fails exactly on a magnitude that no token covers. */
  method PutCoefficient(encoder: BoolEncoder, row: Row, x: int, afterZero: bool) returns (ok: bool)
    requires encoder.Valid()
    modifies encoder
    ensures encoder.Valid() && ok == (Magnitude(x) < MAGNITUDE_LIMIT)
    ensures ok ==> encoder.log == old(encoder.log) + CoefficientSymbols(x, row, afterZero)
  {
    hide Bits, Holds, Encoded, CoefficientSymbols, Decisions, TokenIndices, TokenOf, CategoryOf;
    CoefficientUnfolded(x, row, afterZero);
    ok := true;
    ghost var log := encoder.log;
    if !afterZero {
      encoder.Put(true, row[0]);
    }
    assert encoder.log == log + if afterZero then [] else [Decision(row, 1)];
    if x == 0 {
      ZeroUnfolded(row);
      encoder.Put(false, row[1]);
      assert CategoryBase(0) == 0;
    } else {
      ok := PutMagnitude(encoder, row, Magnitude(x));
      if ok {
        encoder.Put(x < 0, 128);
      }
    }
  }

  // ----- The unfolded parser -----

  /** One step of the walk through the token tree. */
  lemma WalkStep(c: Core, row: Row, s: nat)
    requires s < 22 && s % 2 == 0
    ensures var (b, c') := Next(c, row[s / 2]);
            var e := COEF_NODES[if b then s + 1 else s];
            WalkFrom(c, COEF_TREE, row, s) == if e > 0 then WalkFrom(c', COEF_TREE, row, e) else (-e, c')
  {
    hide Next, IsTree;
  }

  /** Reads the rest of a token after the magnitude is known to be at least 11. */
  method GetLargeCategory(decoder: BoolDecoder, row: Row) returns (v: nat)
    requires decoder.Valid()
    modifies decoder
    ensures decoder.Valid()
    ensures ReadsMagnitude(v, decoder.State(), old(decoder.State()), row, 16)
  {
    hide Next, WalkFrom, ReadBits;
    ghost var c := decoder.State();
    WalkStep(c, row, 16);
    var b8 := decoder.Get(row[8]);
    if !b8 {
      WalkStep(decoder.State(), row, 18);
      var b9 := decoder.Get(row[9]);
      if !b9 {
        v := DecodeExtra(decoder, TOKEN_DECODER_2);
      } else {
        v := DecodeExtra(decoder, TOKEN_DECODER_3);
      }
    } else {
      WalkStep(decoder.State(), row, 20);
      var b10 := decoder.Get(row[10]);
      if !b10 {
        v := DecodeExtra(decoder, TOKEN_DECODER_4);
      } else {
        v := DecodeExtra(decoder, TOKEN_DECODER_5);
      }
    }
  }

  /** Reads a magnitude of at least 2, entering the tree at its pair 6. */
  method GetLarge(decoder: BoolDecoder, row: Row) returns (v: nat)
    requires decoder.Valid()
    modifies decoder
    ensures decoder.Valid()
    ensures ReadsMagnitude(v, decoder.State(), old(decoder.State()), row, 6)
  {
    hide Next, WalkFrom, ReadBits, IsTree, WellFormed;
    WalkStep(decoder.State(), row, 6);
    var b3 := decoder.Get(row[3]);
    if !b3 {
      WalkStep(decoder.State(), row, 8);
      var b4 := decoder.Get(row[4]);
      if !b4 {
        v := 2;
      } else {
        WalkStep(decoder.State(), row, 10);
        var b5 := decoder.Get(row[5]);
        v := if !b5 then 3 else 4;
      }
      NothingToRead(decoder.State());
    } else {
      WalkStep(decoder.State(), row, 12);
      var b6 := decoder.Get(row[6]);
      if !b6 {
        WalkStep(decoder.State(), row, 14);
        var b7 := decoder.Get(row[7]);
        if !b7 {
          OneToRead(decoder.State(), 159);
          var b := decoder.Get(159);
          v := 5 + if b then 1 else 0;
        } else {
          v := DecodeExtra(decoder, TOKEN_DECODER_1);
        }
      } else {
        v := GetLargeCategory(decoder, row);
      }
    }
  }

  /** v is the magnitude of the token found from pair s on, extra bits included. */
  ghost predicate ReadsMagnitude(v: nat, after: Core, before: Core, row: Row, s: nat)
    requires s < 22 && s % 2 == 0
  {
    var (t, c) := WalkFrom(before, COEF_TREE, row, s);
    && ZERO_TOKEN < t < DCT_EOB_TOKEN
    && var (x, c') := ReadBits(c, CategoryOf(t).probs, 0);
       v == CategoryOf(t).base + x && after == c'
  }

  lemma NothingToRead(c: Core)
    ensures ReadBits(c, [], 0) == (0, c)
  {}

  lemma OneToRead(c: Core, p: Prob)
    ensures ReadBits(c, [p], 0) == (if Next(c, p).0 then 1 else 0, Next(c, p).1)
  {
    hide Next;
    NothingToRead(Next(c, p).1);
    assert [p][1..] == [];
  }

  /** Reads one token. Walking the tree and this code agree on every stream. */
  method GetToken(decoder: BoolDecoder, row: Row, afterZero: bool) returns (token: Token)
    requires decoder.Valid()
    modifies decoder
    ensures decoder.Valid()
    ensures (token, decoder.State()) == ReadToken(old(decoder.State()), row, afterZero)
  {
    hide Next, WalkFrom, ReadBits, IsTree, WellFormed;
    if !afterZero {
      WalkStep(decoder.State(), row, 0);
      var b0 := decoder.Get(row[0]);
      if !b0 {
        return EndToken;
      }
    }
    WalkStep(decoder.State(), row, 2);
    var b1 := decoder.Get(row[1]);
    if !b1 {
      return Coefficient(0);
    }
    var value: int;
    WalkStep(decoder.State(), row, 4);
    var b2 := decoder.Get(row[2]);
    if !b2 {
      value := 1;
      NothingToRead(decoder.State());
    } else {
      value := GetLarge(decoder, row);
    }
    var negative := decoder.Get(128);
    token := Coefficient(if negative then -value else value);
  }
}
