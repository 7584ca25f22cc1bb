/** The two halves of the Boolean coder undo each other. */
module BoolRoundTrip {
  import opened BoolCoding
  import opened BoolEncoding
  import opened BoolDecoding

  /** For every sequence of Booleans and probabilities: a decoder opened on what finish() returns and
      asked with the same probabilities returns the same Booleans. */
  lemma EncodeThenDecode(syms: seq<Symbol>)
    ensures Serves(Opened(Finished(syms)), syms)
  {
    FinishedInside(syms);
    ServesIffInside(Finished(syms), syms);
  }

  /** The encoder driven by a list of symbols, as every printer of the bitstream drives it. */
  method Encode(syms: seq<Symbol>) returns (data: seq<Octet>)
    ensures data == Finished(syms)
  {
    var encoder := new BoolEncoder();
    for i := 0 to |syms|
      invariant encoder.Valid() && encoder.log == syms[..i] && fresh(encoder)
    {
      encoder.Put(syms[i].bit, syms[i].prob);
    }
    assert syms[..|syms|] == syms;
    data := encoder.Finish();
  }

  /** The decoder asked with a list of probabilities. */
  method Decode(data: seq<Octet>, probs: seq<Prob>) returns (bits: seq<bool>)
    ensures |bits| == |probs|
    ensures Serves(Opened(data), Symbols(bits, probs))
  {
    hide Next;
    var decoder := new BoolDecoder(data);
    bits := [];
    assert Symbols([], probs[..0]) == [];
    for i := 0 to |probs|
      invariant decoder.Valid() && fresh(decoder) && |bits| == i
      invariant Serves(Opened(data), Symbols(bits, probs[..i]))
      invariant decoder.State() == After(Opened(data), Symbols(bits, probs[..i]))
    {
      ghost var c := decoder.State();
      var bit := decoder.Get(probs[i]);
      ServesAppend(Opened(data), Symbols(bits, probs[..i]), [Symbol(bit, probs[i])]);
      ServesOne(c, Symbol(bit, probs[i]));
      assert Symbols(bits + [bit], probs[..i + 1]) == Symbols(bits, probs[..i]) + [Symbol(bit, probs[i])];
      bits := bits + [bit];
    }
    assert probs[..|probs|] == probs;
  }

  function Symbols(bits: seq<bool>, probs: seq<Prob>): (syms: seq<Symbol>)
    requires |bits| == |probs|
  {
    seq(|bits|, i requires 0 <= i < |bits| => Symbol(bits[i], probs[i]))
  }

  /** Two symbol sequences that ask with the same probabilities and are both served are the same one. */
  lemma {:induction false} ServedIsUnique(c: Core, a: seq<Symbol>, b: seq<Symbol>)
    requires |a| == |b| && forall i :: 0 <= i < |a| ==> a[i].prob == b[i].prob
    requires Serves(c, a) && Serves(c, b)
    ensures a == b
    decreases |a|
  {
    hide Next;
    if a != [] {
      assert a[0].prob == b[0].prob;
      ServedIsUnique(Next(c, a[0].prob).1, a[1..], b[1..]);
    }
  }

  /** Running encoder and decoder back to back. */
  method RoundTrip(syms: seq<Symbol>) returns (bits: seq<bool>)
    ensures bits == seq(|syms|, i requires 0 <= i < |syms| => syms[i].bit)
  {
    var data := Encode(syms);
    var probs := seq(|syms|, i requires 0 <= i < |syms| => syms[i].prob);
    bits := Decode(data, probs);
    EncodeThenDecode(syms);
    ServedIsUnique(Opened(data), syms, Symbols(bits, probs));
    forall i | 0 <= i < |syms| ensures bits[i] == syms[i].bit {
      assert Symbols(bits, probs)[i] == syms[i];
    }
  }
}
