/** The estimated cost of a block, against the bits that are really emitted for it
    (src/encoder/costs.cc, src/encoder/costs.hh). */
module TokenCosts {
  import opened BoolCoding
  import opened TreeCoder
  import opened CodingTrees
  import opened Tokens
  import opened TokenBlocks
  import opened TreeCosts

  const PREV_TOKEN_CLASS: seq<Context> := [0, 1, 2, 2, 2, 2, 2, 2, 2, 2, 2, 0]

  /** The context that a token leaves is the one the printer uses. */
  lemma TokenClassIsContext(x: int)
    ensures PREV_TOKEN_CLASS[TokenOf(Magnitude(x))] == ContextAfter(x)
  {}

  /** Where the costs of a context start in the token tree: context 0 beyond the first coded band is taken
      to mean that the previous token was zero. */
  function StartFor(blockType: nat, band: nat, ctx: Context): (s: nat)
    ensures s == 0 || s == 2
  {
    if ctx == 0 && band > (if blockType == Y_AFTER_Y2 then 1 else 0) then 2 else 0
  }

  function TokenCost(table: CostTable, row: Row, s: nat, t: nat): nat
    requires s == 0 || s == 2
    requires t <= DCT_EOB_TOKEN
  {
    CoefTokens();
    LeafCost(table, COEF_TREE, row, s, t)
  }

  /** One row of the cost table is right for every token that can occur in its context. */
  ghost predicate RowFilled(costs: seq<nat>, table: CostTable, row: Row, s: nat)
    requires s == 0 || s == 2
  {
    |costs| == 12
    && (forall t :: 0 <= t <= DCT_VAL_CATEGORY6 ==> costs[t] == TokenCost(table, row, s, t))
    && (s == 0 ==> costs[DCT_EOB_TOKEN] == TokenCost(table, row, s, DCT_EOB_TOKEN))
  }

  type CostRows = c: seq<seq<seq<seq<nat>>>> | |c| == 4 && forall i :: 0 <= i < 4 ==> Shaped(c[i])
    witness seq(4, _ => seq(8, _ => seq(3, _ => seq(12, _ => 0))))

  predicate Shaped(c: seq<seq<seq<nat>>>) {
    |c| == 8 && forall j :: 0 <= j < 8 ==> |c[j]| == 3 && forall k :: 0 <= k < 3 ==> |c[j][k]| == 12
  }

  function CostRow(costs: CostRows, blockType: nat, band: nat, ctx: Context): (row: seq<nat>)
    requires blockType < 4 && band < 8
    ensures |row| == 12
  {
    costs[blockType][band][ctx]
  }

  /** What fill_token_costs leaves in the table. */
  ghost predicate AllFilled(costs: CostRows, table: CostTable, probs: CoeffProbs) {
    forall i: nat, j: nat, k: Context :: i < 4 && j < 8 ==>
      RowFilled(CostRow(costs, i, j, k), table, probs[i][j][k], StartFor(i, j, k))
  }

  method FillRow(table: CostTable, row: Row, s: nat) returns (costs: seq<nat>)
    requires s == 0 || s == 2
    ensures RowFilled(costs, table, row, s)
  {
    hide PathCost, LeafCost, IsTree, Under, PairPath, HasLeaf;
    var a := new nat[12](_ => 0);
    EmptyPath(COEF_TREE, row, s);
    CostNone(table);
    EntriesFit();
    ComputeCost(a, table, COEF_TREE, row, s, s, 0);
    costs := a[..];
    forall t: nat | t <= DCT_VAL_CATEGORY6 ensures costs[t] == TokenCost(table, row, s, t) {
      TokensUnder(t);
    }
    EndPath(row);
  }

  lemma EntriesFit()
    ensures forall i :: 0 <= i < |COEF_NODES| ==> -COEF_NODES[i] < 12
  {}

  method FillTokenCosts(table: CostTable, probs: CoeffProbs) returns (costs: CostRows)
    ensures AllFilled(costs, table, probs)
  {
    hide RowFilled;
    var list: seq<seq<seq<seq<nat>>>> := [];
    for i := 0 to 4
      invariant |list| == i && forall i' :: 0 <= i' < i ==> Shaped(list[i']) && TypeFilled(list[i'], table, probs, i')
    {
      var bands := FillType(table, probs, i);
      list := list + [bands];
    }
    costs := list;
  }

  ghost predicate TypeFilled(costs: seq<seq<seq<nat>>>, table: CostTable, probs: CoeffProbs, i: nat)
    requires Shaped(costs) && i < 4
  {
    forall j: nat, k: Context :: j < 8 ==> RowFilled(costs[j][k], table, probs[i][j][k], StartFor(i, j, k))
  }

  method FillType(table: CostTable, probs: CoeffProbs, i: nat) returns (bands: seq<seq<seq<nat>>>)
    requires i < 4
    ensures Shaped(bands) && TypeFilled(bands, table, probs, i)
  {
    hide RowFilled;
    bands := [];
    for j := 0 to 8
      invariant |bands| == j
      invariant forall j' :: 0 <= j' < j ==> |bands[j']| == 3 && forall k :: 0 <= k < 3 ==> |bands[j'][k]| == 12
      invariant forall j': nat, k: Context :: j' < j ==> RowFilled(bands[j'][k], table, probs[i][j'][k], StartFor(i, j', k))
    {
      var r0 := FillRow(table, probs[i][j][0], StartFor(i, j, 0));
      var r1 := FillRow(table, probs[i][j][1], StartFor(i, j, 1));
      var r2 := FillRow(table, probs[i][j][2], StartFor(i, j, 2));
      RowLength(r0, table, probs[i][j][0], StartFor(i, j, 0));
      RowLength(r1, table, probs[i][j][1], StartFor(i, j, 1));
      RowLength(r2, table, probs[i][j][2], StartFor(i, j, 2));
      bands := bands + [[r0, r1, r2]];
    }
  }

  lemma RowLength(costs: seq<nat>, table: CostTable, row: Row, s: nat)
    requires (s == 0 || s == 2) && RowFilled(costs, table, row, s)
    ensures |costs| == 12
  {}

  // ----- The cost of a block -----

  /** What the estimate adds for a coefficient beyond its token: given by a table. */
  type BaseCosts = int -> nat

  function CostFrom(costs: CostRows, base: BaseCosts, z: Coefficients, blockType: nat, index: nat, length: nat, ctx: Context): nat
    requires blockType < 4 && index <= 16 && length <= 16
    decreases 16 - index
  {
    if index < length then
      CostRow(costs, blockType, COEFFICIENT_TO_BAND[index], ctx)[TokenOf(Magnitude(z[index]))] + base(z[index])
      + CostFrom(costs, base, z, blockType, index + 1, length, PREV_TOKEN_CLASS[TokenOf(Magnitude(z[index]))])
    else if length < 16 && index < 16 then
      CostRow(costs, blockType, COEFFICIENT_TO_BAND[index], ctx)[DCT_EOB_TOKEN]
    else 0
  }

  function BaseFrom(base: BaseCosts, z: Coefficients, index: nat, length: nat): nat
    requires index <= 16 && length <= 16
    decreases 16 - index
  {
    if index < length then base(z[index]) + BaseFrom(base, z, index + 1, length) else 0
  }

  /** The extra bits and the sign of a coefficient: what the token's own cost leaves out. */
  function ExtraSymbols(x: int): seq<Symbol> {
    Bits(Magnitude(x) - CategoryBase(Magnitude(x)), CategoryOf(TokenOf(Magnitude(x))).probs) + SignBit(x)
  }

  function ExtraFrom(table: CostTable, z: Coefficients, index: nat, length: nat): nat
    requires index <= 16 && length <= 16
    decreases 16 - index
  {
    if index < length then PathCost(table, ExtraSymbols(z[index])) + ExtraFrom(table, z, index + 1, length) else 0
  }

  /** In the first coded band context 0 can occur without a zero before; beyond it, it cannot. */
  lemma StartIsRight(blockType: nat, index: nat, afterZero: bool, ctx: Context)
    requires blockType < 4 && FirstIndex(blockType) <= index < 16
    requires if index == FirstIndex(blockType) then !afterZero else afterZero <==> ctx == 0
    ensures StartFor(blockType, COEFFICIENT_TO_BAND[index], ctx) == if afterZero then 2 else 0
  {
    BandsGrow(index);
  }

  lemma BandsGrow(index: nat)
    requires index < 16
    ensures COEFFICIENT_TO_BAND[index] < 8
    ensures index <= 1 ==> COEFFICIENT_TO_BAND[index] == index
    ensures index > 0 ==> COEFFICIENT_TO_BAND[index] > 0
    ensures index > 1 ==> COEFFICIENT_TO_BAND[index] > 1
  {}

  lemma CoefficientCost(table: CostTable, x: int, row: Row, afterZero: bool)
    ensures PathCost(table, CoefficientSymbols(x, row, afterZero))
            == TokenCost(table, row, if afterZero then 2 else 0, TokenOf(Magnitude(x))) + PathCost(table, ExtraSymbols(x))
  {
    hide PathCost, LeafPathFrom, Bits, TokenOf, CategoryOf;
    CoefTokens();
    hide HasLeaf;
    var t, s := TokenOf(Magnitude(x)), if afterZero then 2 else 0;
    var path := LeafPathFrom(COEF_TREE, row, s, t);
    var bits := Bits(Magnitude(x) - CategoryBase(Magnitude(x)), CategoryOf(t).probs);
    CostAppend(table, path, bits + SignBit(x));
    assert path + (bits + SignBit(x)) == CoefficientSymbols(x, row, afterZero);
  }

  /** The estimate for a context that the table was filled for. */
  lemma EstimateIs(costs: CostRows, table: CostTable, probs: CoeffProbs, blockType: nat, index: nat, afterZero: bool, ctx: Context, t: nat)
    requires AllFilled(costs, table, probs)
    requires blockType < 4 && FirstIndex(blockType) <= index < 16 && t <= DCT_EOB_TOKEN
    requires if index == FirstIndex(blockType) then !afterZero else afterZero <==> ctx == 0
    requires afterZero ==> t != DCT_EOB_TOKEN
    ensures COEFFICIENT_TO_BAND[index] < 8
    ensures CostRow(costs, blockType, COEFFICIENT_TO_BAND[index], ctx)[t]
            == TokenCost(table, RowAt(probs[blockType], index, ctx), if afterZero then 2 else 0, t)
  {
    hide TokenCost, StartFor, CostRow;
    StartIsRight(blockType, index, afterZero, ctx);
    BandsGrow(index);
    assert RowFilled(CostRow(costs, blockType, COEFFICIENT_TO_BAND[index], ctx), table,
                     probs[blockType][COEFFICIENT_TO_BAND[index]][ctx], StartFor(blockType, COEFFICIENT_TO_BAND[index], ctx));
  }

  lemma EndCost(table: CostTable, row: Row)
    ensures PathCost(table, EndOfBlock(row)) == TokenCost(table, row, 0, DCT_EOB_TOKEN)
  {
    hide PathCost, LeafPathFrom, IsTree;
  }

  lemma NonzeroContext(x: int)
    ensures ContextAfter(x) == 0 <==> x == 0
  {}

  /** One coefficient of each of the sums. */
  lemma CostStep(
      costs: CostRows, table: CostTable, base: BaseCosts, bands: Bands, z: Coefficients, blockType: nat,
      index: nat, length: nat, afterZero: bool, ctx: Context)
    requires blockType < 4 && index < length <= 16
    ensures var x := z[index];
            && CostFrom(costs, base, z, blockType, index, length, ctx)
               == CostRow(costs, blockType, COEFFICIENT_TO_BAND[index], ctx)[TokenOf(Magnitude(x))] + base(x)
                  + CostFrom(costs, base, z, blockType, index + 1, length, ContextAfter(x))
            && ExtraFrom(table, z, index, length) == PathCost(table, ExtraSymbols(x)) + ExtraFrom(table, z, index + 1, length)
            && BaseFrom(base, z, index, length) == base(x) + BaseFrom(base, z, index + 1, length)
            && SymbolsFrom(z, bands, index, length, afterZero, ctx)
               == CoefficientSymbols(x, RowAt(bands, index, ctx), afterZero)
                  + SymbolsFrom(z, bands, index + 1, length, x == 0, ContextAfter(x))
  {
    hide PathCost, CoefficientSymbols, ExtraSymbols, CostRow, RowAt, TokenOf, ContextAfter, EndOfBlock;
    TokenClassIsContext(z[index]);
  }

  /** The estimate equals the cost of the bits that are emitted, except that each coefficient's base cost
      stands in for its extra bits and its sign. */
  lemma {:induction false} CostIsEmitted(
      costs: CostRows, table: CostTable, base: BaseCosts, probs: CoeffProbs, z: Coefficients, blockType: nat,
      index: nat, afterZero: bool, ctx: Context)
    requires AllFilled(costs, table, probs) && blockType < 4 && FirstIndex(blockType) <= index <= 16
    requires index < 16 ==> if index == FirstIndex(blockType) then !afterZero else afterZero <==> ctx == 0
    requires afterZero ==> index < CodedLength(z, FirstIndex(blockType), 16)
    ensures var length := CodedLength(z, FirstIndex(blockType), 16);
            CostFrom(costs, base, z, blockType, index, length, ctx) + ExtraFrom(table, z, index, length)
            == PathCost(table, SymbolsFrom(z, probs[blockType], index, length, afterZero, ctx))
               + BaseFrom(base, z, index, length)
    decreases 16 - index
  {
    hide PathCost, TokenCost, CoefficientSymbols, ExtraSymbols, EndOfBlock, AllFilled, CostRow, RowAt, TokenOf, CodedLength;
    var length, bands := CodedLength(z, FirstIndex(blockType), 16), probs[blockType];
    if index < length {
      var x, row := z[index], RowAt(bands, index, ctx);
      EstimateIs(costs, table, probs, blockType, index, afterZero, ctx, TokenOf(Magnitude(x)));
      CoefficientCost(table, x, row, afterZero);
      CostStep(costs, table, base, bands, z, blockType, index, length, afterZero, ctx);
      hide SymbolsFrom, CostFrom, ExtraFrom, BaseFrom, ContextAfter;
      NonzeroContext(x);
      CostIsEmitted(costs, table, base, probs, z, blockType, index + 1, x == 0, ContextAfter(x));
      CostAppend(table, CoefficientSymbols(x, row, afterZero),
                 SymbolsFrom(z, bands, index + 1, length, x == 0, ContextAfter(x)));
    } else if length < 16 && index < 16 {
      EstimateIs(costs, table, probs, blockType, index, false, ctx, DCT_EOB_TOKEN);
      EndCost(table, RowAt(bands, index, ctx));
    } else {
      CostNone(table);
    }
  }

  /** Block cost: for every block, context and table, the estimate is the cost of all emitted bits, with the
      base costs in place of extra bits and signs. */
  lemma BlockCostIsEmitted(
      costs: CostRows, table: CostTable, base: BaseCosts, probs: CoeffProbs, z: Coefficients, blockType: nat, ctx: Context)
    requires AllFilled(costs, table, probs) && blockType < 4
    ensures var first := FirstIndex(blockType);
            var length := CodedLength(z, first, 16);
            CostFrom(costs, base, z, blockType, first, length, ctx) + ExtraFrom(table, z, first, length)
            == PathCost(table, BlockSymbols(z, probs[blockType], first, ctx)) + BaseFrom(base, z, first, length)
  {
    hide PathCost, AllFilled, SymbolsFrom, CostFrom, ExtraFrom, BaseFrom, CodedLength;
    CostIsEmitted(costs, table, base, probs, z, blockType, FirstIndex(blockType), false, ctx);
  }

  method BlockCost(costs: CostRows, base: BaseCosts, block: CoefficientBlock, ctx: Context) returns (cost: nat)
    requires block.Valid()
    ensures cost == CostFrom(costs, base, block.Zigzag(), block.blockType, FirstIndex(block.blockType),
                             CodedLength(block.Zigzag(), FirstIndex(block.blockType), 16), ctx)
  {
    hide CodedLength, CostRow, Zigzagged, TokenOf;
    ghost var z, t := block.Zigzag(), block.blockType;
    var codedLength := block.CountTokens();
    cost := 0;
    var tokenContext := ctx;
    var i := FirstIndex(block.blockType);
    ghost var whole := CostFrom(costs, base, z, t, i, codedLength, ctx);
    while i < codedLength
      invariant FirstIndex(t) <= i <= 16 && (i <= codedLength || (codedLength == 0 && i == FirstIndex(t)))
      invariant cost + CostFrom(costs, base, z, t, i, codedLength, tokenContext) == whole
      decreases 16 - i
    {
      block.ZigzagEntry(i);
      BandsGrow(i);
      var coeff := block.coefficients[ZIGZAG[i]];
      var token := TokenOf(Magnitude(coeff));
      cost := cost + CostRow(costs, block.blockType, COEFFICIENT_TO_BAND[i], tokenContext)[token];
      cost := cost + base(coeff);
      tokenContext := PREV_TOKEN_CLASS[token];
      i := i + 1;
    }
    if codedLength < 16 {
      BandsGrow(i);
      cost := cost + CostRow(costs, block.blockType, COEFFICIENT_TO_BAND[i], tokenContext)[DCT_EOB_TOKEN];
    }
  }
}
