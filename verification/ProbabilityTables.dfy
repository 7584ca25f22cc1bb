/** The probability tables that persist from frame to frame, and their updates
    (src/decoder/probability_tables.cc, src/decoder/frame_header.hh). */
module ProbabilityTables {
  import opened Wrappers
  import opened BoolCoding
  import opened Tokens
  import opened TokenBlocks
  import opened MotionVectors
  import opened IntraModes
  import opened HeaderFields
  import opened FrameHeaders

  type CoeffTable = s: seq<Prob> | |s| == TOKEN_PROB_COUNT witness seq(TOKEN_PROB_COUNT, _ => 128)
  type MvTable = s: seq<Prob> | |s| == MV_PROB_COUNT witness seq(MV_PROB_COUNT, _ => 128)

  /** The tables, with nested arrays listed in the order of the loops over them. */
  datatype Tables = Tables(coeff: CoeffTable, yMode: YModeProbs, uvMode: UvModeProbs, mv: MvTable)

  /** A header element is kept in eight bits. */
  function AsProb(x: int): Prob {
    x % 256
  }

  /** Half probabilities stand for even ones, except that zero stands for one. */
  function ReadHalfProb(x: Prob): Prob {
    if x != 0 then AsProb(2 * x) else 1
  }

  /** The motion vector probabilities that an update can set: even ones, and one. */
  lemma SettableProbabilities(x: Prob)
    ensures ReadHalfProb(x / 2) == x <==> x == 1 || (x > 0 && x % 2 == 0)
  {
    if x % 2 == 0 && x > 0 { assert 2 * (x / 2) == x; }
  }

  function Updated(table: seq<Prob>, updates: seq<Value>, i: nat): Prob
    requires i < |table| == |updates|
  {
    if updates[i].Some? then AsProb(updates[i].value) else table[i]
  }

  function UpdatedMv(table: seq<Prob>, updates: seq<Value>, i: nat): Prob
    requires i < |table| == |updates|
  {
    if updates[i].Some? then ReadHalfProb(AsProb(updates[i].value)) else table[i]
  }

  function CoeffUpdate(table: CoeffTable, updates: TokenUpdates): CoeffTable {
    seq(TOKEN_PROB_COUNT, i requires 0 <= i < TOKEN_PROB_COUNT => Updated(table, updates, i))
  }

  function MvUpdate(table: MvTable, updates: MvUpdates): MvTable {
    seq(MV_PROB_COUNT, i requires 0 <= i < MV_PROB_COUNT => UpdatedMv(table, updates, i))
  }

  /** Mode probabilities are replaced as a whole. */
  function Assigned(table: seq<Prob>, update: Option<seq<Value>>): (t: seq<Prob>)
    requires update.Some? ==> |update.value| == |table| && forall i :: 0 <= i < |table| ==> update.value[i].Some?
    ensures |t| == |table|
  {
    if update.Some? then seq(|table|, i requires 0 <= i < |table| => AsProb(update.value[i].value)) else table
  }

  function CoeffProbUpdate(t: Tables, updates: TokenUpdates): Tables {
    t.(coeff := CoeffUpdate(t.coeff, updates))
  }

  function Update(t: Tables, h: InterFrameHeader): Tables
    requires ProbsTyped(h.probs)
  {
    Tables(
      CoeffUpdate(t.coeff, h.tokenProbUpdate), Assigned(t.yMode, h.probs.intra16x16Prob),
      Assigned(t.uvMode, h.probs.intraChromaProb), MvUpdate(t.mv, h.probs.mvProbUpdate))
  }

  /** Updating twice is the same as updating once. */
  lemma CoeffProbUpdateIdempotent(t: Tables, updates: TokenUpdates)
    ensures CoeffProbUpdate(CoeffProbUpdate(t, updates), updates) == CoeffProbUpdate(t, updates)
  {
    var once := CoeffUpdate(t.coeff, updates);
    assert CoeffUpdate(once, updates) == once;
  }

  lemma UpdateIdempotent(t: Tables, h: InterFrameHeader)
    requires ProbsTyped(h.probs)
    ensures Update(Update(t, h), h) == Update(t, h)
  {
    var once := Update(t, h);
    assert CoeffUpdate(once.coeff, h.tokenProbUpdate) == once.coeff;
    assert MvUpdate(once.mv, h.probs.mvProbUpdate) == once.mv;
  }

  // ----- The tables as the other components index them -----

  /** Three rows for the contexts of one band of one block type. */
  function BandAt(table: CoeffTable, block: nat, band: nat): (rows: seq<Row>)
    requires block < 4 && band < 8
    ensures |rows| == 3
  {
    var at := 264 * block + 33 * band;
    [table[at..at + 11], table[at + 11..at + 22], table[at + 22..at + 33]]
  }

  function BandsAt(table: CoeffTable, block: nat): Bands
    requires block < 4
  {
    seq(8, band requires 0 <= band < 8 => BandAt(table, block, band))
  }

  function CoeffProbsOf(table: CoeffTable): CoeffProbs {
    [BandsAt(table, 0), BandsAt(table, 1), BandsAt(table, 2), BandsAt(table, 3)]
  }

  /** Nested arrays are listed with the innermost index running fastest. */
  lemma CoeffProbAt(table: CoeffTable, block: nat, band: nat, ctx: nat, node: nat)
    requires block < 4 && band < 8 && ctx < 3 && node < 11
    ensures ((block * 8 + band) * 3 + ctx) * 11 + node < TOKEN_PROB_COUNT
    ensures CoeffProbsOf(table)[block][band][ctx][node] == table[((block * 8 + band) * 3 + ctx) * 11 + node]
  {
    var at := 264 * block + 33 * band;
    assert ((block * 8 + band) * 3 + ctx) * 11 + node == at + 11 * ctx + node;
    assert CoeffProbsOf(table)[block] == BandsAt(table, block);
  }

  function MvProbsOf(table: MvTable): MvProbs {
    [table[..19], table[19..]]
  }

  lemma MvProbAt(table: MvTable, component: nat, i: nat)
    requires component < 2 && i < 19
    ensures MvProbsOf(table)[component][i] == table[19 * component + i]
  {}

  // ----- The loops that overwrite the tables -----

  class TableStore {
    const coeff: array<Prob>
    const mv: array<Prob>
    var yMode: YModeProbs
    var uvMode: UvModeProbs

    ghost predicate Valid() {
      coeff.Length == TOKEN_PROB_COUNT && mv.Length == MV_PROB_COUNT && coeff != mv
    }

    function Contents(): Tables
      requires Valid()
      reads this, coeff, mv
    {
      Tables(coeff[..], yMode, uvMode, mv[..])
    }

    constructor (t: Tables)
      ensures Valid() && fresh(coeff) && fresh(mv) && Contents() == t
    {
      coeff := new Prob[TOKEN_PROB_COUNT](i requires 0 <= i < TOKEN_PROB_COUNT => t.coeff[i]);
      mv := new Prob[MV_PROB_COUNT](i requires 0 <= i < MV_PROB_COUNT => t.mv[i]);
      yMode, uvMode := t.yMode, t.uvMode;
      new;
      assert coeff[..] == t.coeff && mv[..] == t.mv;
    }

    method UpdateCoeffProbs(updates: TokenUpdates)
      requires Valid()
      modifies coeff
      ensures Contents() == CoeffProbUpdate(old(Contents()), updates)
    {
      ghost var was := Contents();
      for i := 0 to TOKEN_PROB_COUNT
        invariant yMode == was.yMode && uvMode == was.uvMode && mv[..] == was.mv
        invariant forall k :: 0 <= k < i ==> coeff[k] == Updated(was.coeff, updates, k)
        invariant forall k :: i <= k < TOKEN_PROB_COUNT ==> coeff[k] == was.coeff[k]
      {
        if updates[i].Some? {
          coeff[i] := AsProb(updates[i].value);
        }
      }
      assert coeff[..] == CoeffUpdate(was.coeff, updates);
    }

    method UpdateFrom(h: InterFrameHeader)
      requires Valid() && ProbsTyped(h.probs)
      modifies this, coeff, mv
      ensures Contents() == Update(old(Contents()), h)
    {
      ghost var was := Contents();
      UpdateCoeffProbs(h.tokenProbUpdate);
      yMode := Assigned(yMode, h.probs.intra16x16Prob);
      uvMode := Assigned(uvMode, h.probs.intraChromaProb);
      ghost var now := Contents();
      for i := 0 to MV_PROB_COUNT
        invariant yMode == now.yMode && uvMode == now.uvMode && coeff[..] == now.coeff
        invariant forall k :: 0 <= k < i ==> mv[k] == UpdatedMv(was.mv, h.probs.mvProbUpdate, k)
        invariant forall k :: i <= k < MV_PROB_COUNT ==> mv[k] == was.mv[k]
      {
        if h.probs.mvProbUpdate[i].Some? {
          mv[i] := ReadHalfProb(AsProb(h.probs.mvProbUpdate[i].value));
        }
      }
      assert mv[..] == MvUpdate(was.mv, h.probs.mvProbUpdate);
    }
  }
}
