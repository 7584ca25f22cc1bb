/** The Boolean entropy decoder (src/decoder/bool_decoder.hh): a 16-bit window on the data that is
    refilled one octet at a time, with zeros once the data runs out. */
module BoolDecoding {
  import opened BoolCoding

  datatype RawCore = Core(rest: seq<Octet>, range: nat, value: nat, bitCount: nat)

  /** The low k bits are zero. */
  predicate Aligned(x: nat, k: nat) {
    k == 0 || (x % 2 == 0 && Aligned(x / 2, k - 1))
  }

  predicate WellFormed(c: RawCore) {
    128 <= c.range <= 255 && Loadable(c)
  }

  /** The register bits below the loaded data are zero, so that an octet can be or-ed in. */
  predicate Loadable(c: RawCore) {
    c.value < WORD && c.bitCount < 8 && Aligned(c.value, c.bitCount)
  }

  /** The state between two calls of get(). */
  type Core = c: RawCore | WellFormed(c) witness Core([], 255, 0, 0)

  function Front(rest: seq<Octet>): Octet {
    OctetAt(rest, 0)
  }

  function Tail(rest: seq<Octet>): seq<Octet> {
    if rest == [] then [] else rest[1..]
  }

  /** The state of a newly constructed decoder: two octets loaded. */
  function Opened(data: seq<Octet>): Core {
    Core(Tail(Tail(data)), 255, 256 * Front(data) + Front(Tail(data)), 0)
  }

  /** One doubling; every eighth brings in an octet. The value is kept in 32 bits. */
  function ShiftOnce(c: RawCore): RawCore {
    if c.bitCount + 1 == 8
    then Core(Tail(c.rest), 2 * c.range, 2 * c.value % WORD + Front(c.rest), 0)
    else Core(c.rest, 2 * c.range, 2 * c.value % WORD, c.bitCount + 1)
  }

  lemma {:induction false} AlignedSub(x: nat, y: nat, k: nat)
    requires y <= x && Aligned(x, k) && Aligned(y, k)
    ensures Aligned(x - y, k)
  {
    if k != 0 {
      AlignedSub(x / 2, y / 2, k - 1);
      assert (x - y) / 2 == x / 2 - y / 2;
    }
  }

  lemma {:induction false} ShlAligned(x: nat, k: nat)
    ensures 0 <= Shl(x, k) && Aligned(Shl(x, k), k)
  {
    if k != 0 {
      ShlAligned(x, k - 1);
    }
  }

  /** Multiples of 256 have their low octet zero. */
  lemma OctetsAligned(x: nat, k: nat)
    requires k <= 8
    ensures Aligned(256 * x, k)
  {
    hide Aligned, Shl;
    ShlTable(x);
    ShlAdd(x, 8 - k, k);
    ShlGrows(x, 0, 8 - k);
    ShlAligned(Shl(x, 8 - k), k);
  }

  lemma {:induction false} AlignedQuotient(x: nat, k: nat) returns (q: nat)
    requires Aligned(x, k)
    ensures x == Shl(q, k)
  {
    if k == 0 {
      q := x;
    } else {
      q := AlignedQuotient(x / 2, k - 1);
    }
  }

  lemma AlignedOctet(x: nat)
    requires Aligned(x, 8)
    ensures x % 256 == 0
  {
    hide Aligned, Shl;
    var q := AlignedQuotient(x, 8);
    assert x == 256 * q by { ShlTable(q); }
    OctetMultiple(q);
  }

  lemma OctetMultiple(q: int)
    ensures 256 * q % 256 == 0
  {}

  lemma ShiftOnceLoadable(c: RawCore)
    requires Loadable(c)
    ensures Loadable(ShiftOnce(c))
    ensures c.bitCount == 7 ==> 2 * c.value % WORD % 256 == 0
  {
    hide Aligned;
    AlignedDouble(c.value, c.bitCount);
    OctetsAligned(0x100_0000 * (2 * c.value / WORD), c.bitCount + 1);
    AlignedSub(2 * c.value, WORD * (2 * c.value / WORD), c.bitCount + 1);
    if c.bitCount == 7 {
      AlignedOctet(2 * c.value % WORD);
      AlignedNone(ShiftOnce(c).value);
    }
  }

  lemma AlignedNone(x: nat)
    ensures Aligned(x, 0)
  {}

  lemma AlignedDouble(x: nat, k: nat)
    requires Aligned(x, k)
    ensures Aligned(2 * x, k + 1)
  {}

  /** The loop "while range < 128". */
  function Renormalised(c: RawCore): (r: RawCore)
    requires 1 <= c.range <= 255
    ensures 128 <= r.range <= 255
    decreases 255 - c.range
  {
    if c.range < 128 then Renormalised(ShiftOnce(c)) else c
  }

  lemma DoublingsStep(range: nat)
    requires 1 <= range < 128
    ensures Doublings(range) == Doublings(2 * range) + 1
  {}

  lemma NoDoublings(range: nat)
    requires 128 <= range <= 255
    ensures Doublings(range) == 0
  {}

  lemma {:induction false} RenormalisedLoadable(c: RawCore)
    requires 1 <= c.range <= 255 && Loadable(c)
    ensures Loadable(Renormalised(c))
    decreases 255 - c.range
  {
    hide Aligned;
    if c.range < 128 {
      ShiftOnceLoadable(c);
      RenormalisedLoadable(ShiftOnce(c));
    }
  }

  /** The comparison get() makes. */
  predicate IsOne(c: Core, p: Prob) {
    c.value >= 256 * Split(c.range, p)
  }

  /** The state after the comparison, before renormalisation. */
  function Chosen(c: Core, p: Prob): (r: RawCore)
    ensures 1 <= r.range <= 254 && Loadable(r)
  {
    SplitIsProper(c.range, p);
    var s := Split(c.range, p);
    if IsOne(c, p) then
      OctetsAligned(s, c.bitCount);
      AlignedSub(c.value, 256 * s, c.bitCount);
      c.(range := c.range - s, value := c.value - 256 * s)
    else c.(range := s)
  }

  /** What get() returns and the state it leaves. Total: any data can be decoded. */
  function Next(c: Core, p: Prob): (bool, Core) {
    RenormalisedLoadable(Chosen(c, p));
    (IsOne(c, p), Renormalised(Chosen(c, p)))
  }

  /** The answer is true if and only if the upper octets of the window, as a fraction of the range, exceed the
      probability of a false symbol. */
  lemma AnswerIsComparison(c: Core, p: Prob)
    ensures Next(c, p).0 <==> 256 * (c.value / 256) > (c.range - 1) * p
  {
    hide Split, Renormalised, Chosen;
    SplitIsFraction(c.range, p);
    var v, s := c.value / 256, Split(c.range, p);
    assert c.value >= 256 * s <==> v >= s;
  }

  /** Asked with the probabilities of syms, in order, the decoder answers with their bits. */
  predicate Serves(c: Core, syms: seq<Symbol>)
    decreases |syms|
  {
    syms == [] || (Next(c, syms[0].prob).0 == syms[0].bit && Serves(Next(c, syms[0].prob).1, syms[1..]))
  }

  /** The state after asking with the probabilities of syms. */
  function After(c: Core, syms: seq<Symbol>): Core
    decreases |syms|
  {
    if syms == [] then c else After(Next(c, syms[0].prob).1, syms[1..])
  }

  lemma {:induction false} ServesAppend(c: Core, a: seq<Symbol>, b: seq<Symbol>)
    ensures Serves(c, a + b) <==> Serves(c, a) && Serves(After(c, a), b)
    ensures After(c, a + b) == After(After(c, a), b)
    decreases |a|
  {
    hide Next;
    if a == [] {
      assert a + b == b;
    } else {
      assert (a + b)[1..] == a[1..] + b;
      ServesAppend(Next(c, a[0].prob).1, a[1..], b);
    }
  }

  lemma ServesNone(c: Core)
    ensures Serves(c, []) && After(c, []) == c
  {}

  lemma ServesOne(c: Core, s: Symbol)
    ensures Serves(c, [s]) <==> Next(c, s.prob).0 == s.bit
    ensures After(c, [s]) == Next(c, s.prob).1
  {
    hide Next;
  }

  lemma ServesSnoc(c: Core, a: seq<Symbol>, s: Symbol)
    ensures Serves(c, a + [s]) <==> Serves(c, a) && Next(After(c, a), s.prob).0 == s.bit
    ensures After(c, a + [s]) == Next(After(c, a), s.prob).1
  {
    hide Next, Serves, After;
    ServesAppend(c, a, [s]);
    ServesOne(After(c, a), s);
  }

  // ----- The decoder follows the encoder's interval -----

  /** `rest` is what is left of data, continued by zeros, after n octets. */
  predicate RestAfter(rest: seq<Octet>, data: seq<Octet>, n: nat) {
    rest == if n <= |data| then data[n..] else []
  }

  /** The window holds the next bits of the data less the low end of the interval, with the bits
      that are not loaded yet replaced by zeros. */
  predicate Tracks(c: RawCore, data: seq<Octet>, low: nat, shifts: nat) {
    && c.bitCount < 8
    && (shifts - c.bitCount) % 8 == 0 && shifts >= c.bitCount
    && RestAfter(c.rest, data, (shifts - c.bitCount) / 8 + 2)
    && c.value == Shl(Window(data, shifts - c.bitCount + 16), c.bitCount) - 256 * low
  }

  lemma TailAfter(rest: seq<Octet>, data: seq<Octet>, n: nat)
    requires RestAfter(rest, data, n)
    ensures RestAfter(Tail(rest), data, n + 1) && Front(rest) == OctetAt(data, n)
  {}

  lemma OpenedTracks(data: seq<Octet>)
    ensures Tracks(Opened(data), data, 0, 0)
  {
    hide Front, Tail, RestAfter;
    RestOfAll(data);
    TailAfter(data, data, 0);
    TailAfter(Tail(data), data, 1);
    WindowOctet(data, 0);
    WindowOctet(data, 1);
  }

  lemma RestOfAll(data: seq<Octet>)
    ensures RestAfter(data, data, 0)
  {}

  lemma ShiftOnceTracks(c: RawCore, data: seq<Octet>, low: nat, shifts: nat)
    requires Tracks(c, data, low, shifts) && 2 * c.value < WORD
    ensures Tracks(ShiftOnce(c), data, 2 * low, shifts + 1)
    ensures ShiftOnce(c).range == 2 * c.range
  {
    hide Shl, Window, RestAfter, Tail, Front;
    var n := (shifts - c.bitCount) / 8 + 2;
    assert shifts - c.bitCount + 16 == 8 * n;
    ShlStep(Window(data, 8 * n), c.bitCount);
    if c.bitCount == 7 {
      TailAfter(c.rest, data, n);
      WindowOctet(data, n);
      ShlTable(Window(data, 8 * n));
      ShlZero(Window(data, 8 * n + 8));
      assert shifts + 1 + 16 == 8 * n + 8;
    }
  }

  /** The top of the window is the distance of the data from the low end; the lower octet lags behind. */
  lemma ValueIsDistance(c: RawCore, data: seq<Octet>, low: nat, shifts: nat)
    requires Tracks(c, data, low, shifts)
    ensures c.value / 256 == Window(data, shifts + 8) - low
  {
    hide Shl, Window, RestAfter;
    var j, w, v := c.bitCount, Window(data, shifts + 8), Window(data, shifts - c.bitCount + 16);
    WindowTruncate(data, shifts + 8, 8 - j);
    assert shifts + 8 + (8 - j) == shifts - j + 16;
    ShlOrder(Shl(w, 8 - j), v, j);
    ShlOrder(Shl(w + 1, 8 - j), v, j);
    ShlAdd(w, 8 - j, j);
    ShlAdd(w + 1, 8 - j, j);
    ShlTable(w);
    ShlTable(w + 1);
  }

  lemma ShiftOnceBound(c: RawCore, data: seq<Octet>, low: nat, shifts: nat)
    requires Tracks(c, data, low, shifts) && c.value < 256 * c.range && c.range < 128
    ensures ShiftOnce(c).value < 256 * ShiftOnce(c).range
  {
    hide Window, BitAt, Tracks, ShiftOnce;
    ShiftOnceTracks(c, data, low, shifts);
    ValueIsDistance(c, data, low, shifts);
    ValueIsDistance(ShiftOnce(c), data, 2 * low, shifts + 1);
    WindowLast(data, shifts + 8);
    FloorDouble(c.value, ShiftOnce(c).value, c.range, BitAt(data, shifts + 8));
  }

  lemma FloorDouble(v: nat, v': nat, range: nat, b: nat)
    requires v < 256 * range && v' / 256 == 2 * (v / 256) + b && b <= 1
    ensures v' < 256 * (2 * range)
  {
    assert v / 256 <= range - 1;
  }

  lemma {:induction false} RenormalisedTracks(c: RawCore, data: seq<Octet>, low: nat, shifts: nat)
    requires 1 <= c.range <= 255 && c.value < 256 * c.range
    requires Tracks(c, data, low, shifts)
    ensures Shl(low, Doublings(c.range)) >= 0
    ensures Tracks(Renormalised(c), data, Shl(low, Doublings(c.range)), shifts + Doublings(c.range))
    ensures Renormalised(c).value < 256 * Renormalised(c).range == 256 * Shl(c.range, Doublings(c.range))
    decreases 255 - c.range
  {
    hide Shl, Doublings, Window, Tracks, ShiftOnce;
    if c.range < 128 {
      var n := Doublings(2 * c.range);
      ShiftOnceTracks(c, data, low, shifts);
      ShiftOnceBound(c, data, low, shifts);
      RenormalisedTracks(ShiftOnce(c), data, 2 * low, shifts + 1);
      DoublingsStep(c.range);
      ShlTable(low);
      ShlTable(c.range);
      ShlAdd(low, 1, n);
      ShlAdd(c.range, 1, n);
    } else {
      NoDoublings(c.range);
      ShlZero(low);
      ShlZero(c.range);
    }
  }

  /** The decoder has been reading data that lies in the interval, and knows exactly where. */
  predicate InStep(c: Core, data: seq<Octet>, iv: Interval) {
    c.range == iv.range && Tracks(c, data, iv.low, iv.shifts) && c.value < 256 * c.range
  }

  /** One get() decides which half the data lies in, and follows the interval there. */
  lemma NextInStep(c: Core, data: seq<Octet>, iv: Interval, p: Prob)
    requires InStep(c, data, iv)
    ensures Inside(data, iv)
    ensures forall b :: Next(c, p).0 == b <==> Inside(data, Narrow(iv, Symbol(b, p)))
    ensures InStep(Next(c, p).1, data, Narrow(iv, Symbol(Next(c, p).0, p)))
  {
    hide Shl, Window, RestAfter, Split, Doublings, Renormalised, Tracks, Aligned;
    SplitIsProper(iv.range, p);
    ValueIsDistance(c, data, iv.low, iv.shifts);
    InsideNarrow(data, iv, Symbol(false, p));
    InsideNarrow(data, iv, Symbol(true, p));
    var s := Symbol(IsOne(c, p), p);
    ChosenTracks(c, data, iv, p);
    RenormalisedTracks(Chosen(c, p), data, SubLow(iv, s), iv.shifts);
  }

  lemma ChosenTracks(c: Core, data: seq<Octet>, iv: Interval, p: Prob)
    requires InStep(c, data, iv)
    ensures var s := Symbol(IsOne(c, p), p);
            && Chosen(c, p).range == SubRange(iv, s)
            && Tracks(Chosen(c, p), data, SubLow(iv, s), iv.shifts)
            && Chosen(c, p).value < 256 * Chosen(c, p).range
  {
    hide Shl, Window, RestAfter, Split, Doublings, Aligned;
    SplitIsProper(iv.range, p);
  }

  /** Round trip, in its strongest form: on any data, a decoder answers with exactly the symbol
      sequences whose interval the data lies in (no interval reaches up to a first octet of 255). */
  lemma {:induction false} ServesIffInside(data: seq<Octet>, syms: seq<Symbol>)
    ensures OctetAt(data, 0) != 255 && Serves(Opened(data), syms) <==> Inside(data, Encoded(syms))
    ensures Inside(data, Encoded(syms)) ==> InStep(After(Opened(data), syms), data, Encoded(syms))
  {
    hide Window, Next, Narrow, InStep;
    if syms == [] {
      OpenedInStep(data);
    } else {
      var init, last := syms[..|syms| - 1], syms[|syms| - 1];
      assert syms == init + [last];
      ServesIffInside(data, init);
      ServesAppend(Opened(data), init, [last]);
      ServesOne(After(Opened(data), init), last);
      if Inside(data, Encoded(init)) {
        NextInStep(After(Opened(data), init), data, Encoded(init), last.prob);
      }
      if Inside(data, Encoded(syms)) {
        InsideWider(data, Encoded(init), last);
      }
    }
  }

  lemma OpenedInStep(data: seq<Octet>)
    ensures Inside(data, Start) <==> OctetAt(data, 0) != 255
    ensures Inside(data, Start) ==> InStep(Opened(data), data, Start)
  {
    hide Window, Shl, Tracks;
    OpenedTracks(data);
    ValueIsDistance(Opened(data), data, 0, 0);
    assert Front(data) == OctetAt(data, 0);
  }

  // ----- The decoder -----

  class BoolDecoder {
    var chunk: seq<Octet>
    var range: nat
    var value: nat
    var bitCount: nat

    function Contents(): RawCore
      reads this
    {
      Core(chunk, range, value, bitCount)
    }

    predicate Valid()
      reads this
    {
      WellFormed(Contents())
    }

    function State(): Core
      requires Valid()
      reads this
    {
      Contents()
    }

    constructor (data: seq<Octet>)
      ensures Valid() && State() == Opened(data)
    {
      chunk, range, value, bitCount := data, 255, 0, 0;
      new;
      LoadOctet();
      value := 256 * value % WORD;
      LoadOctet();
    }

    /** The octet is or-ed into the low bits of the register, which are zero. */
    method LoadOctet()
      requires value % 256 == 0
      modifies this`chunk, this`value
      ensures chunk == Tail(old(chunk)) && value == old(value) + Front(old(chunk))
    {
      if |chunk| > 0 {
        value := value + chunk[0];
        chunk := chunk[1..];
      }
    }

    method Get(probability: Prob) returns (ret: bool)
      requires Valid()
      modifies this
      ensures Valid() && (ret, State()) == Next(old(State()), probability)
    {
      hide Aligned, Shl, Split;
      ghost var c := State();
      SplitIsProper(range, probability);
      RenormalisedLoadable(Chosen(c, probability));
      var split := Split(range, probability);
      if value >= 256 * split {
        ret := true;
        range := range - split;
        value := value - 256 * split;
      } else {
        ret := false;
        range := split;
      }

      while range < 128
        invariant 1 <= range <= 255 && Loadable(Contents())
        invariant Renormalised(Contents()) == Renormalised(Chosen(c, probability))
        decreases 255 - range
      {
        ShiftOnceLoadable(Contents());
        value := 2 * value % WORD;
        range := 2 * range;
        bitCount := bitCount + 1;
        if bitCount == 8 {
          bitCount := 0;
          LoadOctet();
        }
      }
    }
  }
}
