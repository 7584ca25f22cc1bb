/** Estimating how many bits symbols cost: the recursion that fills a table with the cost of every leaf of
    a tree, and the cost of motion vector components (src/encoder/costs.cc). */
module TreeCosts {
  import opened BoolCoding
  import opened TreeCoder
  import opened CodingTrees
  import opened MotionVectors

  /** The cost, in 1/256 bit, of a symbol with a given probability. */
  type CostTable = s: seq<nat> | |s| == 256 && forall i :: 0 <= i < 256 ==> s[i] <= 2047
    witness seq(256, _ => 0)

  function CostBit(table: CostTable, p: Prob, b: bool): (cost: nat)
    ensures cost <= 2047
  {
    table[if b then 255 - p else p]
  }

  /** A true symbol costs what a false one of the opposite probability costs. */
  lemma OppositeCost(table: CostTable, p: Prob)
    ensures CostBit(table, p, false) == table[p] && CostBit(table, p, true) == CostBit(table, 255 - p, false)
  {}

  /** The cost of a sequence of symbols. */
  function PathCost(table: CostTable, syms: seq<Symbol>): (cost: nat)
    ensures cost <= 2047 * |syms|
  {
    if syms == [] then 0
    else PathCost(table, syms[..|syms| - 1]) + CostBit(table, syms[|syms| - 1].prob, syms[|syms| - 1].bit)
  }

  lemma CostSnoc(table: CostTable, syms: seq<Symbol>, s: Symbol)
    ensures PathCost(table, syms + [s]) == PathCost(table, syms) + CostBit(table, s.prob, s.bit)
  {
    assert (syms + [s])[..|syms|] == syms;
  }

  lemma CostNone(table: CostTable)
    ensures PathCost(table, []) == 0
  {}

  lemma {:induction false} CostAppend(table: CostTable, a: seq<Symbol>, b: seq<Symbol>)
    ensures PathCost(table, a + b) == PathCost(table, a) + PathCost(table, b)
    decreases |b|
  {
    if b == [] {
      assert a + b == a;
    } else {
      var n := |b| - 1;
      assert (a + b)[..|a| + n] == a + b[..n];
      CostAppend(table, a, b[..n]);
    }
  }

  // ----- Trees -----

  /** Below a pair there are only the pairs below its two entries. */
  lemma {:induction false} UnderSplit(nodes: Tree, s: nat, b: nat) returns (i: nat)
    requires s + 1 < |nodes| && s % 2 == 0 && b < |nodes| && b % 2 == 0 && Under(nodes, s, b) && b != s
    ensures s <= i <= s + 1 && nodes[i] > 0 && nodes[i] % 2 == 0 && Under(nodes, nodes[i], b)
    decreases b
  {
    hide IsTree, Distinct, PairsHaveParents;
    var p := IndexOf(nodes, b);
    var q := p - p % 2;
    if q == s {
      i := p;
    } else {
      ParentIsEarlier(nodes, p);
      i := UnderSplit(nodes, s, q);
      UnderIsLater(nodes, nodes[i], q);
    }
  }

  lemma ParentIsEarlier(nodes: Tree, p: nat)
    requires p < |nodes| && nodes[p] > 0
    ensures p - p % 2 < nodes[p]
  {}

  /** The whole cost of a leaf, reckoned from pair `root`. */
  function LeafCost(table: CostTable, nodes: Tree, probs: Probs, root: nat, v: nat): nat
    requires Fits(nodes, probs) && HasLeaf(nodes, v)
  {
    PathCost(table, LeafPathFrom(nodes, probs, root, v))
  }

  /** No cost outgrows sixteen bits. */
  lemma {:induction false} PathLength(nodes: Tree, probs: Probs, root: nat, b: nat)
    requires Fits(nodes, probs) && b < |nodes| && b % 2 == 0
    ensures 2 * |PairPath(nodes, probs, root, b)| <= b
    decreases b
  {
    if b > root {
      var p := ParentOf(nodes, b);
      ParentIsEarlier(nodes, p);
      hide IsTree;
      PathLength(nodes, probs, root, p - p % 2);
    }
  }

  lemma ParentOf(nodes: Tree, b: nat) returns (p: nat)
    requires 0 < b < |nodes| && b % 2 == 0
    ensures b in nodes && p == IndexOf(nodes, b) && nodes[p] == b
  {
    p := IndexOf(nodes, b);
  }

  lemma LeafCostFits(table: CostTable, nodes: Tree, probs: Probs, root: nat, v: nat)
    requires Fits(nodes, probs) && HasLeaf(nodes, v) && |nodes| <= 62
    ensures LeafCost(table, nodes, probs, root, v) < 0x1_0000
  {
    hide IsTree, PairPath, PathCost;
    var i := IndexOf(nodes, -(v as int));
    PathLength(nodes, probs, root, i - i % 2);
  }

  ghost predicate Filled(costs: seq<nat>, table: CostTable, nodes: Tree, probs: Probs, root: nat, s: nat)
    requires Fits(nodes, probs)
  {
    forall v: nat :: v < |costs| && LeafUnder(nodes, s, v) ==> costs[v] == LeafCost(table, nodes, probs, root, v)
  }

  /** Every entry is as before, or right. */
  ghost predicate OnlyRight(costs: seq<nat>, was: seq<nat>, table: CostTable, nodes: Tree, probs: Probs, root: nat)
    requires Fits(nodes, probs) && |costs| == |was|
  {
    forall v: nat :: v < |costs| ==> EntryRight(costs, was, table, nodes, probs, root, v)
  }

  ghost predicate EntryRight(
      costs: seq<nat>, was: seq<nat>, table: CostTable, nodes: Tree, probs: Probs, root: nat, v: nat)
    requires Fits(nodes, probs) && v < |costs| == |was|
  {
    costs[v] != was[v] ==> HasLeaf(nodes, v) && costs[v] == LeafCost(table, nodes, probs, root, v)
  }

  lemma LeafHere(nodes: Tree, probs: Probs, root: nat, s: nat, i: nat)
    requires Fits(nodes, probs) && s <= i <= s + 1 && i < |nodes| && s % 2 == 0 && nodes[i] <= 0
    ensures HasLeaf(nodes, -nodes[i])
    ensures LeafPathFrom(nodes, probs, root, -nodes[i]) == PairPath(nodes, probs, root, s) + [Decision(probs, i)]
  {
    hide IsTree;
    IndexIsUnique(nodes, i);
  }

  /** Once both entries of a pair have been seen to, so have all leaves below it. */
  lemma BothSides(costs: seq<nat>, table: CostTable, nodes: Tree, probs: Probs, root: nat, s: nat)
    requires Fits(nodes, probs) && s + 1 < |nodes| && s % 2 == 0
    requires forall i :: s <= i <= s + 1 ==>
               if nodes[i] > 0 then Filled(costs, table, nodes, probs, root, nodes[i])
               else -nodes[i] < |costs| && HasLeaf(nodes, -nodes[i])
                    && costs[-nodes[i]] == LeafCost(table, nodes, probs, root, -nodes[i])
    ensures Filled(costs, table, nodes, probs, root, s)
  {
    hide IsTree, Under, LeafCost;
    forall v: nat | v < |costs| && LeafUnder(nodes, s, v)
      ensures costs[v] == LeafCost(table, nodes, probs, root, v)
    {
      var k := IndexOf(nodes, -(v as int));
      if k - k % 2 == s {
        assert nodes[k] == -(v as int);
      } else {
        var i := UnderSplit(nodes, s, k - k % 2);
        assert LeafUnder(nodes, nodes[i], v);
      }
    }
  }

  /** Fills in the costs of all leaves below pair s. */
  method ComputeCost(
      costs: array<nat>, table: CostTable, nodes: Tree, probs: Probs, ghost root: nat, s: nat, currentCost: nat)
    requires Fits(nodes, probs) && root <= s && s + 1 < |nodes| && s % 2 == 0 && Under(nodes, root, s)
    requires forall i :: 0 <= i < |nodes| ==> -nodes[i] < costs.Length
    requires currentCost == PathCost(table, PairPath(nodes, probs, root, s))
    modifies costs
    ensures Filled(costs[..], table, nodes, probs, root, s)
    ensures OnlyRight(costs[..], old(costs[..]), table, nodes, probs, root)
    decreases |nodes| - s
  {
    hide IsTree, Under, PairPath, PathCost, LeafCost, Decision;
    for i := 0 to 2
      invariant OnlyRight(costs[..], old(costs[..]), table, nodes, probs, root)
      invariant forall k :: s <= k < s + i ==> Seen(costs[..], table, nodes, probs, root, k)
    {
      var entry := nodes[s + i];
      var cost := currentCost + CostBit(table, probs[s / 2], i == 1);
      CostSnoc(table, PairPath(nodes, probs, root, s), Decision(probs, s + i));
      DecisionIs(probs, s, i);
      ghost var was := costs[..];
      if entry <= 0 {
        LeafHere(nodes, probs, root, s, s + i);
        LeafCostIs(table, nodes, probs, root, -entry);
        costs[-entry] := cost;
      } else {
        StepDown(nodes, probs, root, s + i);
        ChildFollows(nodes, s + i);
        EvenLength(nodes);
        ComputeCost(costs, table, nodes, probs, root, entry, cost);
      }
      StaySeen(costs[..], was, table, nodes, probs, root, s, i);
      OnlyRightTwice(costs[..], was, old(costs[..]), table, nodes, probs, root);
    }
    BothSeen(costs[..], table, nodes, probs, root, s);
  }

  lemma LeafCostIs(table: CostTable, nodes: Tree, probs: Probs, root: nat, v: nat)
    requires Fits(nodes, probs) && HasLeaf(nodes, v)
    ensures LeafCost(table, nodes, probs, root, v) == PathCost(table, LeafPathFrom(nodes, probs, root, v))
  {}

  lemma DecisionIs(probs: Probs, s: nat, i: nat)
    requires s % 2 == 0 && i < 2 && s + i < 2 * |probs|
    ensures Decision(probs, s + i) == Symbol(i == 1, probs[s / 2])
  {}

  /** Entry k of the tree has been seen to. */
  ghost predicate Seen(costs: seq<nat>, table: CostTable, nodes: Tree, probs: Probs, root: nat, k: nat)
    requires Fits(nodes, probs) && k < |nodes|
  {
    if nodes[k] > 0 then Filled(costs, table, nodes, probs, root, nodes[k])
    else -nodes[k] < |costs| && HasLeaf(nodes, -nodes[k])
         && costs[-nodes[k]] == LeafCost(table, nodes, probs, root, -nodes[k])
  }

  lemma StaySeen(
      costs: seq<nat>, was: seq<nat>, table: CostTable, nodes: Tree, probs: Probs, root: nat, s: nat, i: nat)
    requires Fits(nodes, probs) && s + i <= |nodes| && |costs| == |was|
    requires OnlyRight(costs, was, table, nodes, probs, root)
    requires forall k :: s <= k < s + i ==> Seen(was, table, nodes, probs, root, k)
    ensures forall k :: s <= k < s + i ==> Seen(costs, table, nodes, probs, root, k)
  {
    hide IsTree, LeafCost, Filled, OnlyRight;
    forall k | s <= k < s + i ensures Seen(costs, table, nodes, probs, root, k) {
      assert Seen(was, table, nodes, probs, root, k);
      if nodes[k] > 0 {
        StayFilled(costs, was, table, nodes, probs, root, nodes[k]);
      } else {
        RightAt(costs, was, table, nodes, probs, root, -nodes[k]);
      }
    }
  }

  lemma RightAt(costs: seq<nat>, was: seq<nat>, table: CostTable, nodes: Tree, probs: Probs, root: nat, v: nat)
    requires Fits(nodes, probs) && v < |costs| == |was| && HasLeaf(nodes, v)
    requires OnlyRight(costs, was, table, nodes, probs, root)
    requires was[v] == LeafCost(table, nodes, probs, root, v)
    ensures costs[v] == LeafCost(table, nodes, probs, root, v)
  {
    hide IsTree, LeafCost;
    assert EntryRight(costs, was, table, nodes, probs, root, v);
  }

  lemma StayFilled(costs: seq<nat>, was: seq<nat>, table: CostTable, nodes: Tree, probs: Probs, root: nat, s: nat)
    requires Fits(nodes, probs) && |costs| == |was|
    requires OnlyRight(costs, was, table, nodes, probs, root) && Filled(was, table, nodes, probs, root, s)
    ensures Filled(costs, table, nodes, probs, root, s)
  {
    hide IsTree, LeafCost, OnlyRight, Under, HasLeaf;
    forall v: nat | v < |costs| && LeafUnder(nodes, s, v)
      ensures costs[v] == LeafCost(table, nodes, probs, root, v)
    {
      RightAt(costs, was, table, nodes, probs, root, v);
    }
  }

  lemma OnlyRightTwice(
      a: seq<nat>, b: seq<nat>, c: seq<nat>, table: CostTable, nodes: Tree, probs: Probs, root: nat)
    requires Fits(nodes, probs) && |a| == |b| == |c|
    requires OnlyRight(a, b, table, nodes, probs, root) && OnlyRight(b, c, table, nodes, probs, root)
    ensures OnlyRight(a, c, table, nodes, probs, root)
  {
    hide IsTree, LeafCost;
    forall v: nat | v < |a| ensures EntryRight(a, c, table, nodes, probs, root, v) {
      assert EntryRight(a, b, table, nodes, probs, root, v) && EntryRight(b, c, table, nodes, probs, root, v);
    }
  }

  lemma BothSeen(costs: seq<nat>, table: CostTable, nodes: Tree, probs: Probs, root: nat, s: nat)
    requires Fits(nodes, probs) && s + 1 < |nodes| && s % 2 == 0
    requires forall k :: s <= k < s + 2 ==> Seen(costs, table, nodes, probs, root, k)
    ensures Filled(costs, table, nodes, probs, root, s)
  {
    hide IsTree, LeafCost, Filled;
    assert Seen(costs, table, nodes, probs, root, s) && Seen(costs, table, nodes, probs, root, s + 1);
    BothSides(costs, table, nodes, probs, root, s);
  }

  // ----- Motion vector components -----

  /** The cost of a token whose bits, most significant first, are the decisions on its path. */
  method TreeCost(table: CostTable, token: nat, numOfBits: nat, nodes: seq<int>, probs: Probs) returns (cost: nat)
    requires token < 8 && numOfBits == 3 && nodes == SMALL_MV_NODES && |probs| == 7
    ensures HasLeaf(SMALL_MV_TREE, token) && cost == PathCost(table, LeafPath(SMALL_MV_TREE, probs, token))
  {
    hide IsTree, PathCost, Shr;
    SmallMvTree();
    cost := 0;
    var treeIndex := 0;
    ghost var path: seq<Symbol> := [];
    CostNone(table);
    for n := numOfBits downto 0
      invariant cost == PathCost(table, path)
      invariant path == SmallMvPath(probs, token, numOfBits - n)
      invariant treeIndex == SmallMvNode(token, numOfBits - n)
    {
      var bit := Shr(token, n) % 2;
      SmallMvBits(token, n);
      CostSnoc(table, path, Symbol(bit == 1, probs[treeIndex / 2]));
      path := path + [Symbol(bit == 1, probs[treeIndex / 2])];
      cost := cost + CostBit(table, probs[treeIndex / 2], bit == 1);
      treeIndex := nodes[treeIndex + bit];
    }
    SmallMvPathIs(probs, token);
  }

  /** Where the first n bits of x lead. */
  function SmallMvNode(x: nat, n: nat): int
    requires x < 8 && n <= 3
  {
    if n == 0 then 0
    else if n == 1 then (if x >= 4 then 8 else 2)
    else if n == 2 then (if x >= 6 then 12 else if x >= 4 then 10 else if x >= 2 then 6 else 4)
    else -(x as int)
  }

  /** Bit 2, 1 or 0 of x. */
  function SmallMvBit(x: nat, n: nat): nat
    requires x < 8 && n < 3
  {
    if n == 2 then x / 4 else if n == 1 then x / 2 % 2 else x % 2
  }

  lemma SmallMvBits(x: nat, n: nat)
    requires x < 8 && n < 3
    ensures Shr(x, n) % 2 == SmallMvBit(x, n) <= 1
    ensures SMALL_MV_NODES[SmallMvNode(x, 2 - n) + SmallMvBit(x, n)] == SmallMvNode(x, 3 - n)
    ensures 0 <= SmallMvNode(x, 2 - n) <= 12
  {
    SmallMvShifts(x, n);
    SmallMvStep(x, n);
  }

  lemma SmallMvShifts(x: nat, n: nat)
    requires x < 8 && n < 3
    ensures Shr(x, n) % 2 == SmallMvBit(x, n)
  {
    assert Shr(x, 0) == x && Shr(x, 1) == x / 2 && Shr(x, 2) == x / 4;
  }

  lemma SmallMvStep(x: nat, n: nat)
    requires x < 8 && n < 3
    ensures SmallMvBit(x, n) <= 1 && 0 <= SmallMvNode(x, 2 - n) <= 12 && SmallMvNode(x, 2 - n) % 2 == 0
    ensures SMALL_MV_NODES[SmallMvNode(x, 2 - n) + SmallMvBit(x, n)] == SmallMvNode(x, 3 - n)
    ensures n > 0 ==> SmallMvNode(x, 3 - n) > 0
    ensures n == 2 ==> SmallMvNode(x, 2 - n) == 0
    ensures n == 0 ==> SmallMvNode(x, 3 - n) == -(x as int)
  {}

  /** The decisions on the way of the first n bits. */
  function SmallMvPath(probs: Probs, x: nat, n: nat): seq<Symbol>
    requires |probs| == 7 && x < 8 && n <= 3
  {
    if n == 0 then []
    else
      SmallMvPath(probs, x, n - 1)
      + [Symbol(SmallMvBit(x, 3 - n) == 1, probs[SmallMvNode(x, n - 1) / 2])]
  }

  lemma SmallMvPathIs(probs: Probs, x: nat)
    requires |probs| == 7 && x < 8
    ensures HasLeaf(SMALL_MV_TREE, x) && SmallMvPath(probs, x, 3) == LeafPath(SMALL_MV_TREE, probs, x)
  {
    hide IsTree, PairPath, Under, SmallMvPath, SmallMvNode, SmallMvBit;
    SmallMvTree();
    SmallMvStep(x, 2);
    SmallMvStep(x, 1);
    SmallMvStep(x, 0);
    EmptyPath(SMALL_MV_TREE, probs, 0);
    StepDown(SMALL_MV_TREE, probs, 0, SmallMvBit(x, 2));
    StepDown(SMALL_MV_TREE, probs, 0, SmallMvNode(x, 1) + SmallMvBit(x, 1));
    IndexIsUnique(SMALL_MV_TREE, SmallMvNode(x, 2) + SmallMvBit(x, 0));
    SmallMvPathStep(probs, x, 1);
    SmallMvPathStep(probs, x, 2);
    SmallMvPathStep(probs, x, 3);
  }

  lemma SmallMvPathStep(probs: Probs, x: nat, n: nat)
    requires |probs| == 7 && x < 8 && 0 < n <= 3
    ensures 0 <= SmallMvNode(x, n - 1) <= 12
    ensures SmallMvPath(probs, x, n)
            == SmallMvPath(probs, x, n - 1) + [Symbol(SmallMvBit(x, 3 - n) == 1, probs[SmallMvNode(x, n - 1) / 2])]
    ensures SmallMvPath(probs, x, 0) == []
  {}

  /** The cost of a component equals the cost of all the bits the printer emits for it but the sign. */
  method MvComponentCost(table: CostTable, num: Int16, p: ComponentProbs) returns (cost: nat)
    ensures cost == PathCost(table, MagnitudeSymbols(AbsHalved(num), p))
  {
    hide PathCost, MagnitudeSymbols;
    var numToEncode := num / 2;
    var x := if numToEncode < 0 then -numToEncode else numToEncode;
    if x < 8 {
      cost := ShortCost(table, x, p);
    } else {
      cost := LongCost(table, x, p, CostBit(table, p[IS_SHORT], true));
      if x >= 16 {
        BitOfIs(x, 3);
        cost := cost + CostBit(table, p[LONG + 3], Shr(x, 3) % 2 == 1);
      }
      LongMagnitude(table, x, p);
    }
  }

  method ShortCost(table: CostTable, x: nat, p: ComponentProbs) returns (cost: nat)
    requires x < 8
    ensures cost == PathCost(table, MagnitudeSymbols(x, p))
  {
    hide PathCost, IsTree, LeafPath;
    SmallMvTree();
    cost := TreeCost(table, x, 3, SMALL_MV_NODES, ShortProbs(p));
    cost := CostBit(table, p[IS_SHORT], false) + cost;
    CostOne(table, Symbol(false, p[IS_SHORT]));
    CostAppend(table, [Symbol(false, p[IS_SHORT])], LeafPath(SMALL_MV_TREE, ShortProbs(p), x));
  }

  lemma CostOne(table: CostTable, s: Symbol)
    ensures PathCost(table, [s]) == CostBit(table, s.prob, s.bit)
  {
    CostNone(table);
    CostSnoc(table, [], s);
    assert [] + [s] == [s];
  }

  lemma LongMagnitude(table: CostTable, x: nat, p: ComponentProbs)
    requires x >= 8
    ensures PathCost(table, MagnitudeSymbols(x, p))
            == CostBit(table, p[IS_SHORT], true) + PathCost(table, LongBits(x, p, 9))
               + if x >= 16 then CostBit(table, p[LONG + 3], BitOf(x, 3) == 1) else 0
  {
    hide PathCost, LongBits, BitOf, CostBit;
    var first, long := Symbol(true, p[IS_SHORT]), LongBits(x, p, 9);
    CostOne(table, first);
    CostAppend(table, [first], long);
    if x >= 16 {
      CostSnoc(table, [first] + long, LongBit(x, p, 3));
    } else {
      assert [first] + long + [] == [first] + long;
    }
  }

  method LongCost(table: CostTable, x: nat, p: ComponentProbs, base: nat) returns (cost: nat)
    ensures cost == base + PathCost(table, LongBits(x, p, 9))
  {
    hide PathCost, BitOf, Shr;
    cost := base;
    CostNone(table);
    for i := 0 to 3
      invariant cost == base + PathCost(table, LongBits(x, p, i))
    {
      BitOfIs(x, i);
      CostSnoc(table, LongBits(x, p, i), LongBit(x, p, i));
      cost := cost + CostBit(table, p[LONG + i], Shr(x, i) % 2 == 1);
    }
    var i := LONG_MV_WIDTH - 1;
    while i > 3
      invariant 3 <= i <= 9
      invariant cost == base + PathCost(table, LongBits(x, p, 12 - i))
    {
      BitOfIs(x, i);
      assert LONG_ORDER[12 - i] == i;
      CostSnoc(table, LongBits(x, p, 12 - i), LongBit(x, p, i));
      cost := cost + CostBit(table, p[LONG + i], Shr(x, i) % 2 == 1);
      i := i - 1;
    }
  }
}
