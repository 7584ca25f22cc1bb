/** Coefficient tokens (section 13 of RFC 6386): the printer of src/encoder/serializer.cc and the
    unfolded parser of src/decoder/tokens.cc, both against the token tree. */
module Tokens {
  import opened BoolCoding
  import opened BoolEncoding
  import opened BoolDecoding
  import opened TreeCoder
  import opened CodingTrees

  const ENTROPY_NODES: nat := 11

  /** The probabilities of one (block type, band, context). */
  type Row = p: seq<Prob> | |p| == ENTROPY_NODES witness [0, 0, 0, 0, 0, 0, 0, 0, 0, 0, 0]

  const NO_ROW: Row := [0, 0, 0, 0, 0, 0, 0, 0, 0, 0, 0]

  const COEFFICIENT_TO_BAND: seq<nat> := [0, 1, 2, 3, 6, 4, 5, 6, 6, 6, 6, 6, 6, 6, 6, 7]
  const ZIGZAG: seq<nat> := [0, 1, 4, 8, 5, 2, 3, 6, 9, 12, 13, 10, 7, 11, 14, 15]

  // ----- Tokens and their extra bits -----

  /** A range of magnitudes coded as one token followed by an offset. */
  datatype Category = Category(base: nat, probs: Probs)

  const CATEGORY1: Category := Category(5, [159])
  const TOKEN_DECODER_1: Category := Category(7, [165, 145])
  const TOKEN_DECODER_2: Category := Category(11, [173, 148, 140])
  const TOKEN_DECODER_3: Category := Category(19, [176, 155, 140, 135])
  const TOKEN_DECODER_4: Category := Category(35, [180, 157, 141, 134, 130])
  const TOKEN_DECODER_5: Category := Category(67, [254, 254, 243, 230, 196, 177, 153, 140, 133, 130, 129])

  function UpperLimit(category: Category): nat {
    ShlGrows(1, 0, |category.probs|);
    category.base + Shl(1, |category.probs|)
  }

  lemma UpperLimits()
    ensures UpperLimit(TOKEN_DECODER_1) == 11 && UpperLimit(TOKEN_DECODER_2) == 19
    ensures UpperLimit(TOKEN_DECODER_3) == 35 && UpperLimit(TOKEN_DECODER_4) == 67
    ensures UpperLimit(TOKEN_DECODER_5) == MAGNITUDE_LIMIT
  {
    ShlTable(1);
    ShlStep(1, 8); ShlStep(1, 9); ShlStep(1, 10);
  }

  /** One more than the largest magnitude that can be coded. */
  const MAGNITUDE_LIMIT: nat := 2115

  function TokenOf(v: nat): (t: nat)
    ensures t <= DCT_VAL_CATEGORY6
  {
    if v <= 4 then v
    else if v <= 6 then DCT_VAL_CATEGORY1
    else if v <= 10 then DCT_VAL_CATEGORY2
    else if v <= 18 then DCT_VAL_CATEGORY3
    else if v <= 34 then DCT_VAL_CATEGORY4
    else if v <= 66 then DCT_VAL_CATEGORY5
    else DCT_VAL_CATEGORY6
  }

  /** The magnitudes a token stands for; a small token stands for its own value alone. */
  function CategoryOf(t: nat): Category
    requires t <= DCT_VAL_CATEGORY6
  {
    if t < DCT_VAL_CATEGORY1 then Category(t, [])
    else if t == DCT_VAL_CATEGORY1 then CATEGORY1
    else if t == DCT_VAL_CATEGORY2 then TOKEN_DECODER_1
    else if t == DCT_VAL_CATEGORY3 then TOKEN_DECODER_2
    else if t == DCT_VAL_CATEGORY4 then TOKEN_DECODER_3
    else if t == DCT_VAL_CATEGORY5 then TOKEN_DECODER_4
    else TOKEN_DECODER_5
  }

  /** A magnitude lies in the range of its token, and nowhere else. */
  lemma TokenRanges(v: nat, t: nat)
    requires v < MAGNITUDE_LIMIT && t <= DCT_VAL_CATEGORY6
    ensures TokenOf(v) == t <==> CategoryOf(t).base <= v < CategoryOf(t).base + Shl(1, |CategoryOf(t).probs|)
  {
    ShlTable(1);
    ShlStep(1, 8); ShlStep(1, 9); ShlStep(1, 10);
    ShlZero(1);
  }

  /** x in |probs| bits, the most significant one first. */
  function Bits(x: nat, probs: Probs): (s: seq<Symbol>)
    ensures |s| == |probs|
  {
    if probs == [] then []
    else Bits(x / 2, probs[..|probs| - 1]) + [Symbol(x % 2 == 1, probs[|probs| - 1])]
  }

  /** Reading bits most significant first on top of what has been read. */
  function ReadBits(c: Core, probs: Probs, acc: nat): (nat, Core)
    decreases |probs|
  {
    if probs == [] then (acc, c)
    else
      var (b, c') := Next(c, probs[0]);
      ReadBits(c', probs[1..], 2 * acc + if b then 1 else 0)
  }

  lemma {:induction false} ReadBitsLast(c: Core, probs: Probs, acc: nat)
    requires probs != []
    ensures var (x, c') := ReadBits(c, probs[..|probs| - 1], acc);
            var (b, c'') := Next(c', probs[|probs| - 1]);
            ReadBits(c, probs, acc) == (2 * x + (if b then 1 else 0), c'')
    decreases |probs|
  {
    hide Next;
    if |probs| == 1 {
      assert probs[..0] == [] && probs[1..] == [];
    } else {
      var (b, c') := Next(c, probs[0]);
      assert probs[1..][..|probs| - 2] == probs[..|probs| - 1][1..];
      ReadBitsLast(c', probs[1..], 2 * acc + if b then 1 else 0);
    }
  }

  lemma {:induction false} BitsRoundTrip(c: Core, x: nat, probs: Probs)
    requires x < Shl(1, |probs|) && Serves(c, Bits(x, probs))
    ensures ReadBits(c, probs, 0) == (x, After(c, Bits(x, probs)))
    decreases |probs|
  {
    hide Next, Serves, After;
    if probs == [] {
      ServesNone(c);
    } else {
      var init, last := probs[..|probs| - 1], probs[|probs| - 1];
      ServesSnoc(c, Bits(x / 2, init), Symbol(x % 2 == 1, last));
      BitsRoundTrip(c, x / 2, init);
      ReadBitsLast(c, probs, 0);
    }
  }

  /** The bit i places above the end of the number. */
  lemma {:induction false} BitOfBits(x: nat, probs: Probs, i: nat)
    requires i < |probs|
    ensures Bits(x, probs)[i] == Symbol(Shr(x, |probs| - 1 - i) % 2 == 1, probs[i])
    decreases |probs|
  {
    if i < |probs| - 1 {
      BitOfBits(x / 2, probs[..|probs| - 1], i);
      ShrHalf(x, |probs| - 2 - i);
    }
  }

  lemma {:induction false} ShrHalf(x: nat, k: nat)
    ensures Shr(x / 2, k) == Shr(x, k + 1)
  {
    if k != 0 { ShrHalf(x, k - 1); }
  }

  /** The symbols are the binary digits. */
  lemma {:induction false} BitsAreDigits(x: nat, probs: Probs, i: nat)
    requires i < |probs|
    ensures Bits(x, probs)[i] == Symbol(Shr(x, |probs| - 1 - i) % 2 == 1, probs[i])
    decreases |probs|
  {
    var n := |probs| - 1;
    if i < n {
      BitsAreDigits(x / 2, probs[..n], i);
      ShrHalf(x, n - 1 - i);
    }
  }

  // ----- One coefficient -----

  function Magnitude(x: int): nat {
    if x < 0 then -x else x
  }

  /** Sign of a nonzero coefficient. */
  function SignBit(x: int): seq<Symbol> {
    if x == 0 then [] else [Symbol(x < 0, 128)]
  }

  /** The symbols of a coefficient; after a zero the tree is entered past its end-of-block decision. */
  function CoefficientSymbols(x: int, row: Row, afterZero: bool): seq<Symbol> {
    CoefTokens();
    var t := TokenOf(Magnitude(x));
    LeafPathFrom(COEF_TREE, row, if afterZero then 2 else 0, t)
    + Bits(Magnitude(x) - CategoryBase(Magnitude(x)), CategoryOf(t).probs)
    + SignBit(x)
  }

  function CategoryBase(v: nat): (b: nat)
    ensures b <= v
  {
    CategoryOf(TokenOf(v)).base
  }

  function EndOfBlock(row: Row): seq<Symbol> {
    CoefTokens();
    LeafPathFrom(COEF_TREE, row, 0, DCT_EOB_TOKEN)
  }

  /** A decoded token: end of block, or a coefficient. */
  datatype Token = EndToken | Coefficient(x: int)

  /** Parsing a token by walking the token tree, then reading its extra bits and sign. */
  function ReadToken(c: Core, row: Row, afterZero: bool): (Token, Core) {
    var (t, c1) := WalkFrom(c, COEF_TREE, row, if afterZero then 2 else 0);
    if t == ZERO_TOKEN then (Coefficient(0), c1)
    else if t >= DCT_EOB_TOKEN then (EndToken, c1)
    else
      var (x, c2) := ReadBits(c1, CategoryOf(t).probs, 0);
      var (negative, c3) := Next(c2, 128);
      var v := CategoryOf(t).base + x;
      (Coefficient(if negative then -v else v), c3)
  }

  lemma TokensUnder(t: nat)
    requires t <= DCT_VAL_CATEGORY6
    ensures HasLeaf(COEF_TREE, t) && LeafUnder(COEF_TREE, 0, t) && LeafUnder(COEF_TREE, 2, t)
  {
    hide LeafPathFrom, Decisions, TokenIndices, LeafUnder, HasLeaf, IsTree;
    TokenPath(NO_ROW, t);
    RootPath(NO_ROW, t);
  }

  lemma CoefficientRoundTrip(c: Core, x: int, row: Row, afterZero: bool)
    requires Magnitude(x) < MAGNITUDE_LIMIT
    requires Serves(c, CoefficientSymbols(x, row, afterZero))
    ensures ReadToken(c, row, afterZero) == (Coefficient(x), After(c, CoefficientSymbols(x, row, afterZero)))
  {
    hide Next, Serves, After, LeafPathFrom, LeafUnder, WalkFrom, Bits, ReadBits, IsTree, HasLeaf;
    var v := Magnitude(x);
    var t, s := TokenOf(v), if afterZero then 2 else 0;
    CoefTokens();
    TokensUnder(t);
    var path, extra := LeafPathFrom(COEF_TREE, row, s, t), Bits(v - CategoryBase(v), CategoryOf(t).probs);
    ServesAppend(c, path + extra, SignBit(x));
    ServesAppend(c, path, extra);
    PathIsWalked(c, COEF_TREE, row, s, t);
    TokenRanges(v, t);
    var c1 := After(c, path);
    BitsRoundTrip(c1, v - CategoryBase(v), CategoryOf(t).probs);
    if x == 0 {
      assert extra == [];
      ServesNone(c1);
    } else {
      ServesOne(After(c1, extra), Symbol(x < 0, 128));
    }
  }

  lemma EndOfBlockRoundTrip(c: Core, row: Row)
    requires Serves(c, EndOfBlock(row))
    ensures ReadToken(c, row, false) == (EndToken, After(c, EndOfBlock(row)))
  {
    hide Next, LeafPathFrom, LeafUnder, WalkFrom, Serves, After;
    EndPath(row);
    PathIsWalked(c, COEF_TREE, row, 0, DCT_EOB_TOKEN);
  }

  // ----- The token tree, unfolded -----

  /** The tree indices passed on the way from pair 2 to a token. */
  function TokenIndices(t: nat): (indices: seq<nat>)
    requires t <= DCT_VAL_CATEGORY6
    ensures forall i :: 0 <= i < |indices| ==> indices[i] < 22
  {
    if t == ZERO_TOKEN then [2]
    else if t == ONE_TOKEN then [3, 4]
    else if t == TWO_TOKEN then [3, 5, 6, 8]
    else if t == THREE_TOKEN then [3, 5, 6, 9, 10]
    else if t == FOUR_TOKEN then [3, 5, 6, 9, 11]
    else if t == DCT_VAL_CATEGORY1 then [3, 5, 7, 12, 14]
    else if t == DCT_VAL_CATEGORY2 then [3, 5, 7, 12, 15]
    else if t == DCT_VAL_CATEGORY3 then [3, 5, 7, 13, 16, 18]
    else if t == DCT_VAL_CATEGORY4 then [3, 5, 7, 13, 16, 19]
    else if t == DCT_VAL_CATEGORY5 then [3, 5, 7, 13, 17, 20]
    else [3, 5, 7, 13, 17, 21]
  }

  function Decisions(row: Row, indices: seq<nat>): (s: seq<Symbol>)
    requires forall i :: 0 <= i < |indices| ==> indices[i] < 22
    ensures |s| == |indices|
  {
    seq(|indices|, k requires 0 <= k < |indices| => Decision(row, indices[k]))
  }

  /** The way from pair s down to pair b. */
  ghost predicate Reaches(row: Row, s: nat, b: nat, indices: seq<nat>)
  {
    && b < 22 && b % 2 == 0 && (forall i :: 0 <= i < |indices| ==> indices[i] < 22)
    && Under(COEF_TREE, s, b) && PairPath(COEF_TREE, row, s, b) == Decisions(row, indices)
  }

  lemma ReachBounds(row: Row, s: nat, b: nat, indices: seq<nat>)
    requires Reaches(row, s, b, indices)
    ensures forall i :: 0 <= i < |indices| ==> indices[i] < 22
  {}

  lemma Descend(row: Row, s: nat, i: nat, indices: seq<nat>, longer: seq<nat>)
    requires s <= i < 22 && COEF_NODES[i] > 0 && Reaches(row, s, i - i % 2, indices)
    requires longer == indices + [i]
    ensures Reaches(row, s, COEF_NODES[i], longer)
  {
    hide Under, PairPath, IsTree;
    StepDown(COEF_TREE, row, s, i);
  }

  lemma Arrive(row: Row, s: nat, i: nat, t: nat, indices: seq<nat>, longer: seq<nat>)
    requires i < 22 && COEF_NODES[i] == -(t as int) && Reaches(row, s, i - i % 2, indices)
    requires longer == indices + [i]
    ensures HasLeaf(COEF_TREE, t) && LeafUnder(COEF_TREE, s, t)
    ensures LeafPathFrom(COEF_TREE, row, s, t) == Decisions(row, longer)
  {
    hide Under, PairPath, IsTree;
    IndexIsUnique(COEF_TREE, i);
  }

  lemma PathsToPairs(row: Row, s: nat, up: seq<nat>)
    requires s <= 2 && Reaches(row, s, 2, up)
    ensures Reaches(row, s, 4, up + [3]) && Reaches(row, s, 8, up + [3, 5, 6])
    ensures Reaches(row, s, 10, up + [3, 5, 6, 9]) && Reaches(row, s, 12, up + [3, 5, 7])
  {
    hide Reaches, IsTree;
    Descend(row, s, 3, up, up + [3]);
    Descend(row, s, 5, up + [3], up + [3, 5]);
    Descend(row, s, 6, up + [3, 5], up + [3, 5, 6]);
    Descend(row, s, 7, up + [3, 5], up + [3, 5, 7]);
    Descend(row, s, 9, up + [3, 5, 6], up + [3, 5, 6, 9]);
  }

  lemma PathsToDeepPairs(row: Row, s: nat, up: seq<nat>)
    requires s <= 2 && Reaches(row, s, 12, up + [3, 5, 7])
    ensures Reaches(row, s, 14, up + [3, 5, 7, 12])
    ensures Reaches(row, s, 18, up + [3, 5, 7, 13, 16]) && Reaches(row, s, 20, up + [3, 5, 7, 13, 17])
  {
    hide Reaches, IsTree;
    Descend(row, s, 12, up + [3, 5, 7], up + [3, 5, 7, 12]);
    Descend(row, s, 13, up + [3, 5, 7], up + [3, 5, 7, 13]);
    Descend(row, s, 16, up + [3, 5, 7, 13], up + [3, 5, 7, 13, 16]);
    Descend(row, s, 17, up + [3, 5, 7, 13], up + [3, 5, 7, 13, 17]);
  }

  /** The pair a token's leaf sits in, the way there from pair 2, and the leaf's index. */
  function TokenPair(t: nat): (nat, seq<nat>, nat)
    requires t <= DCT_VAL_CATEGORY6
  {
    if t == ZERO_TOKEN then (2, [], 2)
    else if t == ONE_TOKEN then (4, [3], 4)
    else if t == TWO_TOKEN then (8, [3, 5, 6], 8)
    else if t == THREE_TOKEN then (10, [3, 5, 6, 9], 10)
    else if t == FOUR_TOKEN then (10, [3, 5, 6, 9], 11)
    else if t == DCT_VAL_CATEGORY1 then (14, [3, 5, 7, 12], 14)
    else if t == DCT_VAL_CATEGORY2 then (14, [3, 5, 7, 12], 15)
    else if t == DCT_VAL_CATEGORY3 then (18, [3, 5, 7, 13, 16], 18)
    else if t == DCT_VAL_CATEGORY4 then (18, [3, 5, 7, 13, 16], 19)
    else if t == DCT_VAL_CATEGORY5 then (20, [3, 5, 7, 13, 17], 20)
    else (20, [3, 5, 7, 13, 17], 21)
  }

  lemma TokenPairs(t: nat)
    requires t <= DCT_VAL_CATEGORY6
    ensures var (b, indices, i) := TokenPair(t);
            && i < 22 && b == i - i % 2 && COEF_NODES[i] == -(t as int)
            && TokenIndices(t) == indices + [i]
  {}

  lemma ReachTokenPair(row: Row, s: nat, up: seq<nat>, t: nat)
    requires t <= DCT_VAL_CATEGORY6 && s <= 2 && Reaches(row, s, 2, up)
    ensures Reaches(row, s, TokenPair(t).0, up + TokenPair(t).1)
  {
    hide Reaches, IsTree;
    PathsToPairs(row, s, up);
    PathsToDeepPairs(row, s, up);
    assert up + [] == up;
  }

  /** The path from pair s to a token's leaf, given the path from pair s to pair 2. */
  lemma PathToToken(row: Row, s: nat, up: seq<nat>, t: nat)
    requires t <= DCT_VAL_CATEGORY6 && s <= 2 && Reaches(row, s, 2, up)
    ensures HasLeaf(COEF_TREE, t) && LeafUnder(COEF_TREE, s, t)
    ensures forall i :: 0 <= i < |up| ==> up[i] < 22
    ensures LeafPathFrom(COEF_TREE, row, s, t) == Decisions(row, up + TokenIndices(t))
  {
    hide Reaches, LeafUnder, LeafPathFrom, IsTree, TokenPair, TokenIndices, Decisions, HasLeaf;
    ReachBounds(row, s, 2, up);
    ReachTokenPair(row, s, up, t);
    TokenPairs(t);
    var (b, indices, i) := TokenPair(t);
    assert up + TokenIndices(t) == up + indices + [i];
    Arrive(row, s, i, t, up + indices, up + TokenIndices(t));
  }

  lemma TokenRoots(row: Row)
    ensures Reaches(row, 2, 2, []) && Reaches(row, 0, 0, []) && Reaches(row, 0, 2, [1])
  {
    EmptyPath(COEF_TREE, row, 0);
    EmptyPath(COEF_TREE, row, 2);
    hide Reaches;
    RootReach(row, 0);
    RootReach(row, 2);
    Descend(row, 0, 1, [], [1]);
  }

  lemma RootReach(row: Row, s: nat)
    requires s in {0, 2}
    ensures Reaches(row, s, s, [])
  {
    hide IsTree;
    EmptyPath(COEF_TREE, row, s);
  }

  /** The unfolded decisions are the path through the token tree. */
  lemma TokenPath(row: Row, t: nat)
    requires t <= DCT_VAL_CATEGORY6
    ensures HasLeaf(COEF_TREE, t) && LeafUnder(COEF_TREE, 2, t)
    ensures LeafPathFrom(COEF_TREE, row, 2, t) == Decisions(row, TokenIndices(t))
  {
    hide Reaches, LeafUnder, LeafPathFrom, IsTree, TokenIndices, HasLeaf;
    TokenRoots(row);
    PathToToken(row, 2, [], t);
    assert [] + TokenIndices(t) == TokenIndices(t);
  }

  /** Entered at the root, every token but the end of block starts with one more decision. */
  lemma RootPath(row: Row, t: nat)
    requires t <= DCT_VAL_CATEGORY6
    ensures HasLeaf(COEF_TREE, t) && LeafUnder(COEF_TREE, 0, t)
    ensures LeafPathFrom(COEF_TREE, row, 0, t) == [Decision(row, 1)] + LeafPathFrom(COEF_TREE, row, 2, t)
  {
    hide Reaches, LeafUnder, LeafPathFrom, IsTree, TokenIndices, HasLeaf;
    TokenRoots(row);
    TokenPath(row, t);
    PathToToken(row, 0, [1], t);
    assert Decisions(row, [1] + TokenIndices(t)) == [Decision(row, 1)] + Decisions(row, TokenIndices(t));
  }

  lemma EndPath(row: Row)
    ensures HasLeaf(COEF_TREE, DCT_EOB_TOKEN) && LeafUnder(COEF_TREE, 0, DCT_EOB_TOKEN)
    ensures EndOfBlock(row) == [Decision(row, 0)]
  {
    hide Reaches, LeafUnder, LeafPathFrom, IsTree, HasLeaf;
    TokenRoots(row);
    Arrive(row, 0, 0, DCT_EOB_TOKEN, [], [0]);
  }
}
