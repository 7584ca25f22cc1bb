/** The elements that frame headers are made of: flags, unsigned and signed numbers, each possibly
    preceded by a flag that says whether it is there (src/decoder/vp8_header_structures.hh and the
    corresponding printers in src/encoder/serializer.cc). */
module HeaderFields {
  import opened Wrappers
  import opened BoolCoding
  import opened BoolEncoding
  import opened BoolDecoding
  import opened TreeCoder
  import opened Tokens
  import opened TokenCoder

  type Int8 = x: int | -128 <= x < 128

  /** How an element is coded: with or without a flag, in how many bits, with or without a sign. */
  datatype RawFormat = Format(flagProb: Option<Prob>, width: nat, signed: bool)
  type Format = f: RawFormat | 1 <= f.width <= 8 && (f.signed ==> f.width <= 7) witness Format(None, 1, false)

  const FLAG: Format := Format(None, 1, false)

  function Unsigned(width: nat): Format
    requires 1 <= width <= 8
  {
    Format(None, width, false)
  }

  function FlaggedUnsigned(width: nat, p: Prob): Format
    requires 1 <= width <= 8
  {
    Format(Some(p), width, false)
  }

  function FlaggedSigned(width: nat): Format
    requires 1 <= width <= 7
  {
    Format(Some(128), width, true)
  }

  /** The value of an element, if it is there. */
  type Value = Option<int>

  function OfFlag(b: bool): Value {
    Some(if b then 1 else 0)
  }

  function Halves(width: nat): (p: seq<Prob>)
    ensures |p| == width
  {
    seq(width, _ => 128)
  }

  /** A mandatory element is there. */
  predicate Typed(f: Format, v: Value) {
    f.flagProb.None? ==> v.Some?
  }

  function Limit(width: nat): (n: nat)
    requires width <= 8
    ensures n <= 256 && (width <= 7 ==> n <= 128) && n == Shl(1, width)
  {
    WidthLimit(width);
    Shl(1, width)
  }

  lemma WidthLimit(width: nat)
    requires width <= 8
    ensures 0 <= Shl(1, width) <= 256 && (width <= 7 ==> Shl(1, width) <= 128)
  {
    ShlTable(1);
    ShlGrows(1, width, 8);
    if width <= 7 { ShlGrows(1, width, 7); }
  }

  predicate NumberInRange(f: Format, x: int) {
    Magnitude(x) < Limit(f.width) && (x < 0 ==> f.signed)
  }

  /** The value fits the width, and is not negative where there is no sign. */
  predicate InRange(f: Format, v: Value) {
    v.Some? ==> NumberInRange(f, v.value)
  }

  function NumberSymbols(f: Format, x: int): seq<Symbol> {
    Bits(Magnitude(x), Halves(f.width)) + if f.signed then [Symbol(x < 0, 128)] else []
  }

  function FieldSymbols(f: Format, v: Value): seq<Symbol> {
    (if f.flagProb.Some? then [Symbol(v.Some?, f.flagProb.value)] else [])
    + if v.Some? then NumberSymbols(f, v.value) else []
  }

  function ReadNumber(c: Core, f: Format): (int, Core) {
    var (x, c1) := ReadBits(c, Halves(f.width), 0);
    if f.signed then
      var (negative, c2) := Next(c1, 128);
      (if negative then -(x as int) else x, c2)
    else (x, c1)
  }

  function ReadField(c: Core, f: Format): (Value, Core) {
    if f.flagProb.Some? then
      var (present, c1) := Next(c, f.flagProb.value);
      if present then
        var (x, c2) := ReadNumber(c1, f);
        (Some(x), c2)
      else (None, c1)
    else
      var (x, c1) := ReadNumber(c, f);
      (Some(x), c1)
  }

  lemma {:induction false} ReadBitsBound(c: Core, probs: Probs)
    ensures ReadBits(c, probs, 0).0 < Shl(1, |probs|)
    decreases |probs|
  {
    hide Next;
    if probs != [] {
      ReadBitsBound(c, probs[..|probs| - 1]);
      ReadBitsLast(c, probs, 0);
    }
  }

  /** Whatever the data, what is read has the right form. */
  lemma ReadFieldTyped(c: Core, f: Format)
    ensures Typed(f, ReadField(c, f).0) && InRange(f, ReadField(c, f).0)
  {
    hide Next, ReadBits, Shl;
    ReadBitsBound(c, Halves(f.width));
    if f.flagProb.Some? { ReadBitsBound(Next(c, f.flagProb.value).1, Halves(f.width)); }
  }

  lemma NumberRoundTrip(c: Core, f: Format, x: int)
    requires Serves(c, NumberSymbols(f, x))
    ensures ReadNumber(c, f).0 == x <==> NumberInRange(f, x)
    ensures NumberInRange(f, x) ==> ReadNumber(c, f).1 == After(c, NumberSymbols(f, x))
  {
    hide Next, Serves, After, Bits, ReadBits, Shl;
    var bits := Bits(Magnitude(x), Halves(f.width));
    ReadBitsBound(c, Halves(f.width));
    if f.signed { ServesSnoc(c, bits, Symbol(x < 0, 128)); } else { assert bits + [] == bits; }
    if Magnitude(x) < Limit(f.width) {
      BitsRoundTrip(c, Magnitude(x), Halves(f.width));
    }
  }

  lemma FieldRoundTrip(c: Core, f: Format, v: Value)
    requires Typed(f, v) && Serves(c, FieldSymbols(f, v))
    ensures ReadField(c, f).0 == v <==> InRange(f, v)
    ensures InRange(f, v) ==> ReadField(c, f).1 == After(c, FieldSymbols(f, v))
  {
    hide Next, Serves, After, NumberSymbols, ReadNumber, Limit;
    var head := if f.flagProb.Some? then [Symbol(v.Some?, f.flagProb.value)] else [];
    var tail := if v.Some? then NumberSymbols(f, v.value) else [];
    ServesAppend(c, head, tail);
    if f.flagProb.Some? { ServesOne(c, Symbol(v.Some?, f.flagProb.value)); } else { ServesNone(c); }
    if v.Some? { NumberRoundTrip(After(c, head), f, v.value); } else { ServesNone(After(c, head)); }
  }

  // ----- Lists of elements -----

  /** The first n of a list of elements. */
  function FieldsSymbols(fs: seq<Format>, vs: seq<Value>, n: nat): seq<Symbol>
    requires n <= |fs| == |vs|
  {
    if n == 0 then [] else FieldsSymbols(fs, vs, n - 1) + FieldSymbols(fs[n - 1], vs[n - 1])
  }

  function ReadFields(c: Core, fs: seq<Format>, n: nat): (r: (seq<Value>, Core))
    requires n <= |fs|
    ensures |r.0| == n
  {
    if n == 0 then ([], c)
    else
      var (vs, c1) := ReadFields(c, fs, n - 1);
      var (v, c2) := ReadField(c1, fs[n - 1]);
      (vs + [v], c2)
  }

  predicate AllTyped(fs: seq<Format>, vs: seq<Value>) {
    |fs| == |vs| && forall i :: 0 <= i < |fs| ==> Typed(fs[i], vs[i])
  }

  predicate AllInRange(fs: seq<Format>, vs: seq<Value>) {
    |fs| == |vs| && forall i :: 0 <= i < |fs| ==> InRange(fs[i], vs[i])
  }

  lemma {:induction false} ReadFieldsTyped(c: Core, fs: seq<Format>, n: nat)
    requires n <= |fs|
    ensures var vs := ReadFields(c, fs, n).0;
            AllTyped(fs[..n], vs) && AllInRange(fs[..n], vs)
  {
    hide ReadField, Typed, InRange;
    if n > 0 {
      ReadFieldsTyped(c, fs, n - 1);
      ReadFieldTyped(ReadFields(c, fs, n - 1).1, fs[n - 1]);
    }
  }

  lemma {:induction false} SomeFieldsRoundTrip(c: Core, fs: seq<Format>, vs: seq<Value>, n: nat)
    requires n <= |fs| && AllTyped(fs, vs) && Serves(c, FieldsSymbols(fs, vs, n))
    ensures ReadFields(c, fs, n).0 == vs[..n] <==> forall i :: 0 <= i < n ==> InRange(fs[i], vs[i])
    ensures (forall i :: 0 <= i < n ==> InRange(fs[i], vs[i])) ==>
              ReadFields(c, fs, n).1 == After(c, FieldsSymbols(fs, vs, n))
  {
    hide Next, Serves, After, FieldSymbols, ReadField, InRange, Typed;
    if n == 0 {
      ServesNone(c);
    } else {
      var head := FieldsSymbols(fs, vs, n - 1);
      ServesAppend(c, head, FieldSymbols(fs[n - 1], vs[n - 1]));
      SomeFieldsRoundTrip(c, fs, vs, n - 1);
      var (init, c1) := ReadFields(c, fs, n - 1);
      var last := ReadField(c1, fs[n - 1]).0;
      assert vs[..n] == vs[..n - 1] + [vs[n - 1]];
      if init + [last] == vs[..n] {
        assert init == (init + [last])[..n - 1] == vs[..n - 1];
        assert last == (init + [last])[n - 1] == vs[n - 1];
      }
      if init == vs[..n - 1] {
        FieldRoundTrip(c1, fs[n - 1], vs[n - 1]);
      }
    }
  }

  function ListSymbols(fs: seq<Format>, vs: seq<Value>): seq<Symbol>
    requires |fs| == |vs|
  {
    FieldsSymbols(fs, vs, |fs|)
  }

  function ReadList(c: Core, fs: seq<Format>): (r: (seq<Value>, Core))
    ensures AllTyped(fs, r.0) && AllInRange(fs, r.0)
  {
    ReadFieldsTyped(c, fs, |fs|);
    assert fs[..|fs|] == fs;
    ReadFields(c, fs, |fs|)
  }

  /** A list of elements comes back exactly if every value fits its width. */
  lemma ListRoundTrip(c: Core, fs: seq<Format>, vs: seq<Value>)
    requires AllTyped(fs, vs) && Serves(c, ListSymbols(fs, vs))
    ensures ReadList(c, fs).0 == vs <==> AllInRange(fs, vs)
    ensures AllInRange(fs, vs) ==> ReadList(c, fs).1 == After(c, ListSymbols(fs, vs))
  {
    hide Next, Serves, After, FieldsSymbols, ReadFields, InRange, Typed;
    SomeFieldsRoundTrip(c, fs, vs, |fs|);
    assert vs[..|fs|] == vs;
  }

  // ----- Optional lists -----

  /** A list that is there or not, as known from elsewhere. */
  function OptionalSymbols(fs: seq<Format>, vs: Option<seq<Value>>): seq<Symbol>
    requires vs.Some? ==> |vs.value| == |fs|
  {
    if vs.Some? then ListSymbols(fs, vs.value) else []
  }

  function ReadOptional(c: Core, fs: seq<Format>, present: bool): (Option<seq<Value>>, Core) {
    if present then
      var (vs, c1) := ReadList(c, fs);
      (Some(vs), c1)
    else (None, c)
  }

  predicate OptionalTyped(fs: seq<Format>, vs: Option<seq<Value>>) {
    vs.Some? ==> AllTyped(fs, vs.value)
  }

  predicate OptionalInRange(fs: seq<Format>, vs: Option<seq<Value>>) {
    vs.Some? ==> AllInRange(fs, vs.value)
  }

  lemma ReadOptionalTyped(c: Core, fs: seq<Format>, present: bool)
    ensures OptionalTyped(fs, ReadOptional(c, fs, present).0) && OptionalInRange(fs, ReadOptional(c, fs, present).0)
    ensures ReadOptional(c, fs, present).0.Some? == present
  {
    hide AllTyped, AllInRange;
  }

  lemma OptionalRoundTrip(c: Core, fs: seq<Format>, vs: Option<seq<Value>>, present: bool)
    requires OptionalTyped(fs, vs) && Serves(c, OptionalSymbols(fs, vs))
    ensures ReadOptional(c, fs, present).0 == vs <==> (vs.Some? <==> present) && OptionalInRange(fs, vs)
    ensures (vs.Some? <==> present) && OptionalInRange(fs, vs) ==>
              ReadOptional(c, fs, present).1 == After(c, OptionalSymbols(fs, vs))
  {
    hide Next, Serves, After, ListSymbols, ReadList, AllInRange, AllTyped;
    ServesNone(c);
    if vs.Some? { ListRoundTrip(c, fs, vs.value); }
  }

  /** A list that a flag in front of it says is there or not. */
  function FlaggedSymbols(fs: seq<Format>, vs: Option<seq<Value>>): seq<Symbol>
    requires vs.Some? ==> |vs.value| == |fs|
  {
    [Symbol(vs.Some?, 128)] + OptionalSymbols(fs, vs)
  }

  function ReadFlagged(c: Core, fs: seq<Format>): (Option<seq<Value>>, Core) {
    var (present, c1) := Next(c, 128);
    ReadOptional(c1, fs, present)
  }

  lemma ReadFlaggedTyped(c: Core, fs: seq<Format>)
    ensures OptionalTyped(fs, ReadFlagged(c, fs).0) && OptionalInRange(fs, ReadFlagged(c, fs).0)
  {
    hide Next, ReadOptional, OptionalTyped, OptionalInRange;
    ReadOptionalTyped(Next(c, 128).1, fs, Next(c, 128).0);
  }

  lemma FlaggedRoundTrip(c: Core, fs: seq<Format>, vs: Option<seq<Value>>)
    requires OptionalTyped(fs, vs) && Serves(c, FlaggedSymbols(fs, vs))
    ensures ReadFlagged(c, fs).0 == vs <==> OptionalInRange(fs, vs)
    ensures OptionalInRange(fs, vs) ==> ReadFlagged(c, fs).1 == After(c, FlaggedSymbols(fs, vs))
  {
    hide Next, Serves, After, OptionalSymbols, ReadOptional, OptionalInRange;
    var flag := Symbol(vs.Some?, 128);
    ServesOne(c, flag);
    ServesAppend(c, [flag], OptionalSymbols(fs, vs));
    OptionalRoundTrip(After(c, [flag]), fs, vs, vs.Some?);
  }

  // ----- The printer and the parser -----

  method EncodeField(encoder: BoolEncoder, f: Format, v: Value)
    requires encoder.Valid() && Typed(f, v)
    modifies encoder
    ensures encoder.Valid() && encoder.log == old(encoder.log) + FieldSymbols(f, v)
  {
    hide Holds, Encoded, Bits;
    if f.flagProb.Some? {
      encoder.Put(v.Some?, f.flagProb.value);
    }
    if v.Some? {
      EncodeBits(encoder, Magnitude(v.value), Halves(f.width));
      if f.signed {
        encoder.Put(v.value < 0, 128);
      }
    }
  }

  method DecodeField(decoder: BoolDecoder, f: Format) returns (v: Value)
    requires decoder.Valid()
    modifies decoder
    ensures decoder.Valid() && (v, decoder.State()) == ReadField(old(decoder.State()), f)
  {
    hide Next, WellFormed, ReadBits;
    var present := true;
    if f.flagProb.Some? {
      present := decoder.Get(f.flagProb.value);
    }
    v := None;
    if present {
      var x := DecodeBits(decoder, Halves(f.width));
      var negative := false;
      if f.signed {
        negative := decoder.Get(128);
      }
      v := Some(if negative then -(x as int) else x);
    }
  }

  method EncodeList(encoder: BoolEncoder, fs: seq<Format>, vs: seq<Value>)
    requires encoder.Valid() && AllTyped(fs, vs)
    modifies encoder
    ensures encoder.Valid() && encoder.log == old(encoder.log) + ListSymbols(fs, vs)
  {
    hide Holds, Encoded, FieldSymbols, Typed;
    for i := 0 to |fs|
      invariant encoder.Valid() && encoder.log == old(encoder.log) + FieldsSymbols(fs, vs, i)
    {
      EncodeField(encoder, fs[i], vs[i]);
    }
  }

  method DecodeList(decoder: BoolDecoder, fs: seq<Format>) returns (vs: seq<Value>)
    requires decoder.Valid()
    modifies decoder
    ensures decoder.Valid() && (vs, decoder.State()) == ReadList(old(decoder.State()), fs)
  {
    hide Next, WellFormed, ReadField;
    vs := [];
    for i := 0 to |fs|
      invariant decoder.Valid() && |vs| == i
      invariant (vs, decoder.State()) == ReadFields(old(decoder.State()), fs, i)
    {
      var v := DecodeField(decoder, fs[i]);
      vs := vs + [v];
    }
  }

  method EncodeFlagged(encoder: BoolEncoder, fs: seq<Format>, vs: Option<seq<Value>>)
    requires encoder.Valid() && OptionalTyped(fs, vs)
    modifies encoder
    ensures encoder.Valid() && encoder.log == old(encoder.log) + FlaggedSymbols(fs, vs)
  {
    hide Holds, Encoded, ListSymbols;
    encoder.Put(vs.Some?, 128);
    if vs.Some? {
      EncodeList(encoder, fs, vs.value);
    }
  }

  method DecodeFlagged(decoder: BoolDecoder, fs: seq<Format>) returns (vs: Option<seq<Value>>)
    requires decoder.Valid()
    modifies decoder
    ensures decoder.Valid() && (vs, decoder.State()) == ReadFlagged(old(decoder.State()), fs)
  {
    hide Next, WellFormed, ReadList;
    var present := decoder.Get(128);
    vs := None;
    if present {
      var list := DecodeList(decoder, fs);
      vs := Some(list);
    }
  }
}
