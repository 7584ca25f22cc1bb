/** Tree-coded values (section 8.1 of RFC 6386; src/encoder/encode_tree.cc, src/decoder/tree.cc).
    A tree is an array of pairs: a positive entry is the index of a child pair, any other entry is the
    negation of a leaf's value. */
module TreeCoder {
  import opened BoolCoding
  import opened BoolEncoding
  import opened BoolDecoding

  type Nodes = seq<int>

  /** The last index that holds an entry: what reversing the tree into value_to_index leaves there. */
  function IndexOf(nodes: Nodes, e: int): (i: nat)
    requires e in nodes
    ensures i < |nodes| && nodes[i] == e
  {
    if nodes[|nodes| - 1] == e then |nodes| - 1 else IndexOf(nodes[..|nodes| - 1], e)
  }

  /** Children follow their parents and start at even indices. */
  predicate ChildrenFollow(nodes: Nodes) {
    forall i :: 0 <= i < |nodes| && nodes[i] > 0 ==> nodes[i] % 2 == 0 && nodes[i] > i + 1 - i % 2
  }

  /** Every pair but the first has a parent. */
  predicate PairsHaveParents(nodes: Nodes) {
    forall b :: 2 <= b < |nodes| && b % 2 == 0 ==> b in nodes
  }

  /** No child and no leaf occurs twice. */
  predicate Distinct(nodes: Nodes) {
    forall i, j :: 0 <= i < j < |nodes| ==> nodes[i] != nodes[j]
  }

  predicate IsTree(nodes: Nodes) {
    && 2 <= |nodes| <= 128 && |nodes| % 2 == 0
    && (forall i :: 0 <= i < |nodes| ==> -127 <= nodes[i] < |nodes|)
    && ChildrenFollow(nodes) && PairsHaveParents(nodes) && Distinct(nodes)
  }

  type Tree = nodes: Nodes | IsTree(nodes) witness [0, -1]

  predicate HasLeaf(nodes: Nodes, v: nat) {
    -(v as int) in nodes
  }

  type Probs = seq<Prob>

  /** One probability for each pair. */
  predicate Fits(nodes: Tree, probs: Probs) {
    |nodes| <= 2 * |probs|
  }

  /** The decision that leads to index i. */
  function Decision(probs: Probs, i: nat): Symbol
    requires i < 2 * |probs|
  {
    Symbol(i % 2 == 1, probs[i / 2])
  }

  /** Pair b lies under pair s. */
  predicate Under(nodes: Tree, s: nat, b: nat)
    requires b < |nodes| && b % 2 == 0
    decreases b
  {
    b == s || (b > s && var p := IndexOf(nodes, b); Under(nodes, s, p - p % 2))
  }

  /** The decisions that lead from pair s down to pair b. */
  function PairPath(nodes: Tree, probs: Probs, s: nat, b: nat): seq<Symbol>
    requires Fits(nodes, probs) && b < |nodes| && b % 2 == 0
    decreases b
  {
    if b <= s then []
    else
      var p := IndexOf(nodes, b);
      PairPath(nodes, probs, s, p - p % 2) + [Decision(probs, p)]
  }

  predicate LeafUnder(nodes: Tree, s: nat, v: nat)
  {
    HasLeaf(nodes, v) && var i := IndexOf(nodes, -(v as int)); Under(nodes, s, i - i % 2)
  }

  /** The decisions that lead from pair s down to the leaf of v. */
  function LeafPathFrom(nodes: Tree, probs: Probs, s: nat, v: nat): seq<Symbol>
    requires Fits(nodes, probs) && HasLeaf(nodes, v)
  {
    var i := IndexOf(nodes, -(v as int));
    PairPath(nodes, probs, s, i - i % 2) + [Decision(probs, i)]
  }

  /** What the printer of a tree-coded value emits. */
  function LeafPath(nodes: Tree, probs: Probs, v: nat): seq<Symbol>
    requires Fits(nodes, probs) && HasLeaf(nodes, v)
  {
    LeafPathFrom(nodes, probs, 0, v)
  }

  /** What the parser returns when it enters the tree at pair s. */
  function WalkFrom(c: Core, nodes: Tree, probs: Probs, s: nat): (nat, Core)
    requires Fits(nodes, probs) && s < |nodes| && s % 2 == 0
    decreases |nodes| - s
  {
    var (b, c') := Next(c, probs[s / 2]);
    var e := nodes[if b then s + 1 else s];
    if e > 0 then WalkFrom(c', nodes, probs, e) else (-e, c')
  }

  function Walk(c: Core, nodes: Tree, probs: Probs): (nat, Core)
    requires Fits(nodes, probs)
  {
    WalkFrom(c, nodes, probs, 0)
  }

  // ----- Path and walk are inverse -----

  lemma {:induction false} AllUnderRoot(nodes: Tree, b: nat)
    requires b < |nodes| && b % 2 == 0
    ensures Under(nodes, 0, b)
    decreases b
  {
    if b != 0 {
      var p := IndexOf(nodes, b);
      AllUnderRoot(nodes, p - p % 2);
    }
  }

  /** Entries are distinct, so an entry's index is the index it was found at. */
  lemma IndexIsUnique(nodes: Tree, i: nat)
    requires i < |nodes|
    ensures IndexOf(nodes, nodes[i]) == i
  {}

  /** One step up the tree from a child pair. */
  lemma StepUp(nodes: Tree, probs: Probs, s: nat, b: nat)
    requires Fits(nodes, probs) && s < b < |nodes| && b % 2 == 0 && Under(nodes, s, b)
    ensures var p := IndexOf(nodes, b);
            && p < b && Under(nodes, s, p - p % 2)
            && PairPath(nodes, probs, s, b) == PairPath(nodes, probs, s, p - p % 2) + [Decision(probs, p)]
  {}

  /** One step down the tree to a child pair. */
  lemma StepDown(nodes: Tree, probs: Probs, s: nat, i: nat)
    requires Fits(nodes, probs) && s <= i < |nodes| && nodes[i] > 0
    requires Under(nodes, s, i - i % 2)
    ensures i < nodes[i] < |nodes| && nodes[i] % 2 == 0 && Under(nodes, s, nodes[i])
    ensures PairPath(nodes, probs, s, nodes[i]) == PairPath(nodes, probs, s, i - i % 2) + [Decision(probs, i)]
  {
    hide IsTree, Decision;
    ChildFollows(nodes, i);
    IndexIsUnique(nodes, i);
  }

  lemma ChildFollows(nodes: Tree, i: nat)
    requires i < |nodes| && nodes[i] > 0
    ensures i - i % 2 < i + 1 - i % 2 < nodes[i] < |nodes| && nodes[i] % 2 == 0
  {}

  lemma EmptyPath(nodes: Tree, probs: Probs, s: nat)
    requires Fits(nodes, probs) && s < |nodes| && s % 2 == 0
    ensures Under(nodes, s, s) && PairPath(nodes, probs, s, s) == []
  {}

  lemma UnderIsLater(nodes: Tree, s: nat, b: nat)
    requires b < |nodes| && b % 2 == 0 && Under(nodes, s, b)
    ensures s <= b
  {}

  lemma {:induction false} WalkReachesPair(c: Core, nodes: Tree, probs: Probs, s: nat, b: nat)
    requires Fits(nodes, probs) && s < |nodes| && s % 2 == 0
    requires b < |nodes| && b % 2 == 0 && Under(nodes, s, b)
    requires Serves(c, PairPath(nodes, probs, s, b))
    ensures WalkFrom(c, nodes, probs, s) == WalkFrom(After(c, PairPath(nodes, probs, s, b)), nodes, probs, b)
    decreases b
  {
    hide Next, Serves, After, IsTree, PairPath, Under;
    UnderIsLater(nodes, s, b);
    if b > s {
      StepUp(nodes, probs, s, b);
      var p := IndexOf(nodes, b);
      ServesSnoc(c, PairPath(nodes, probs, s, p - p % 2), Decision(probs, p));
      WalkReachesPair(c, nodes, probs, s, p - p % 2);
    } else {
      EmptyPath(nodes, probs, s);
      ServesNone(c);
    }
  }

  /** A parser served the path of v returns v. */
  lemma PathIsWalked(c: Core, nodes: Tree, probs: Probs, s: nat, v: nat)
    requires Fits(nodes, probs) && s < |nodes| && s % 2 == 0
    requires LeafUnder(nodes, s, v)
    requires Serves(c, LeafPathFrom(nodes, probs, s, v))
    ensures WalkFrom(c, nodes, probs, s) == (v, After(c, LeafPathFrom(nodes, probs, s, v)))
  {
    hide Next, Serves, After, PairPath, Under;
    var i := IndexOf(nodes, -(v as int));
    ServesSnoc(c, PairPath(nodes, probs, s, i - i % 2), Decision(probs, i));
    WalkReachesPair(c, nodes, probs, s, i - i % 2);
  }

  /** Whatever the data, the parser returns a leaf and has been served exactly that leaf's path. */
  lemma {:induction false} WalkIsServed(c: Core, nodes: Tree, probs: Probs, s: nat, b: nat)
    requires Fits(nodes, probs) && s <= b < |nodes| && s % 2 == b % 2 == 0
    requires Under(nodes, s, b) && Serves(c, PairPath(nodes, probs, s, b))
    ensures var (v, c') := WalkFrom(After(c, PairPath(nodes, probs, s, b)), nodes, probs, b);
            && LeafUnder(nodes, s, v)
            && Serves(c, LeafPathFrom(nodes, probs, s, v))
            && c' == After(c, LeafPathFrom(nodes, probs, s, v))
    decreases |nodes| - b
  {
    hide Next, Serves, After, PairPath, Under, IsTree;
    var path := PairPath(nodes, probs, s, b);
    var bit := Next(After(c, path), probs[b / 2]).0;
    var i := if bit then b + 1 else b;
    EvenLength(nodes);
    assert Decision(probs, i) == Symbol(bit, probs[b / 2]);
    ServesSnoc(c, path, Decision(probs, i));
    if nodes[i] > 0 {
      StepDown(nodes, probs, s, i);
      WalkIsServed(c, nodes, probs, s, nodes[i]);
    } else {
      IndexIsUnique(nodes, i);
    }
  }

  lemma EvenLength(nodes: Tree)
    ensures |nodes| % 2 == 0
  {}

  /** Round trip in both directions: for every tree, every stream and every value that has a leaf, the
      parser returns the value exactly if the stream holds what the printer emits for it. */
  lemma WalkInvertsPath(c: Core, nodes: Tree, probs: Probs, v: nat)
    requires Fits(nodes, probs) && HasLeaf(nodes, v)
    ensures Serves(c, LeafPath(nodes, probs, v)) <==> Walk(c, nodes, probs).0 == v
    ensures Walk(c, nodes, probs).0 == v ==> Walk(c, nodes, probs).1 == After(c, LeafPath(nodes, probs, v))
    ensures HasLeaf(nodes, Walk(c, nodes, probs).0)
  {
    hide Next, Serves, After, Under, PairPath;
    ServesNone(c);
    EmptyPath(nodes, probs, 0);
    var i := IndexOf(nodes, -(v as int));
    AllUnderRoot(nodes, i - i % 2);
    if Serves(c, LeafPath(nodes, probs, v)) {
      PathIsWalked(c, nodes, probs, 0, v);
    }
    WalkIsServed(c, nodes, probs, 0, 0);
  }

  // ----- The printer and the parser -----

  /** The decisions recorded while climbing from index i to the root, in the order they are recorded. */
  function Climb(nodes: Tree, probs: Probs, i: nat): seq<Symbol>
    requires Fits(nodes, probs) && i < |nodes|
    decreases i
  {
    if i <= 1 then [Decision(probs, i)]
    else [Decision(probs, i)] + Climb(nodes, probs, IndexOf(nodes, i - i % 2))
  }

  function Reversed(s: seq<Symbol>): (r: seq<Symbol>)
    ensures |r| == |s|
    ensures forall k :: 0 <= k < |s| ==> r[k] == s[|s| - 1 - k]
  {
    seq(|s|, k requires 0 <= k < |s| => s[|s| - 1 - k])
  }

  lemma {:induction false} ClimbIsPath(nodes: Tree, probs: Probs, i: nat)
    requires Fits(nodes, probs) && i < |nodes|
    ensures Reversed(Climb(nodes, probs, i)) == PairPath(nodes, probs, 0, i - i % 2) + [Decision(probs, i)]
    decreases i
  {
    if i > 1 {
      var p := IndexOf(nodes, i - i % 2);
      ClimbIsPath(nodes, probs, p);
      var d, up := [Decision(probs, i)], Climb(nodes, probs, p);
      assert Reversed(d + up) == Reversed(up) + d;
    } else {
      assert Climb(nodes, probs, i) == [Decision(probs, i)];
    }
  }

  /** The array that maps an entry back to its index. */
  method ReverseTree(nodes: Tree) returns (valueToIndex: array<nat>)
    ensures valueToIndex.Length == 128 + |nodes|
    ensures forall k :: 0 <= k < |nodes| ==>
              -127 <= nodes[k] <= |nodes| && valueToIndex[127 + nodes[k]] == k
  {
    valueToIndex := new nat[128 + |nodes|];
    for i := 0 to |nodes|
      invariant forall k :: 0 <= k < i ==> valueToIndex[127 + nodes[k]] == k
    {
      valueToIndex[127 + nodes[i]] := i;
    }
  }

  /** Climbs from the leaf to the root, recording the decisions on the way. */
  method FindPath(nodes: Tree, probs: Probs, value: nat) returns (bits: seq<Symbol>)
    requires Fits(nodes, probs) && HasLeaf(nodes, value)
    ensures Reversed(bits) == LeafPath(nodes, probs, value)
  {
    hide PairPath, IsTree, Climb, Further, Reversed;
    var valueToIndex := ReverseTree(nodes);
    ghost var leaf := IndexOf(nodes, -(value as int));
    assert valueToIndex[127 + nodes[leaf]] == leaf;
    var nodeIndex := valueToIndex[127 - value];
    bits := [Decision(probs, nodeIndex)];
    ghost var whole := Climb(nodes, probs, leaf);
    ClimbStep(nodes, probs, leaf);
    while nodeIndex > 1
      invariant 0 <= nodeIndex < |nodes|
      invariant bits + Further(nodes, probs, nodeIndex) == whole
      invariant forall k :: 0 <= k < |nodes| ==>
                  -127 <= nodes[k] <= |nodes| && valueToIndex[127 + nodes[k]] == k
      decreases nodeIndex
    {
      FurtherStep(nodes, probs, nodeIndex);
      ghost var p := IndexOf(nodes, nodeIndex - nodeIndex % 2);
      ClimbStep(nodes, probs, p);
      assert valueToIndex[127 + nodes[p]] == p;
      nodeIndex := valueToIndex[127 + nodeIndex - nodeIndex % 2];
      assert bits + ([Decision(probs, p)] + Further(nodes, probs, p))
             == (bits + [Decision(probs, p)]) + Further(nodes, probs, p);
      bits := bits + [Decision(probs, nodeIndex)];
    }
    NothingFurther(nodes, probs, nodeIndex);
    assert bits == whole;
    ClimbIsPath(nodes, probs, leaf);
  }

  /** The decisions still to be recorded above index i. */
  function Further(nodes: Tree, probs: Probs, i: nat): seq<Symbol>
    requires Fits(nodes, probs) && i < |nodes|
  {
    if i <= 1 then [] else Climb(nodes, probs, IndexOf(nodes, i - i % 2))
  }

  lemma NothingFurther(nodes: Tree, probs: Probs, i: nat)
    requires Fits(nodes, probs) && i < |nodes| && i <= 1
    ensures Further(nodes, probs, i) == []
  {}

  lemma FurtherStep(nodes: Tree, probs: Probs, i: nat)
    requires Fits(nodes, probs) && 1 < i < |nodes|
    ensures i - i % 2 in nodes && IndexOf(nodes, i - i % 2) < i
    ensures Further(nodes, probs, i) == Climb(nodes, probs, IndexOf(nodes, i - i % 2))
  {}

  lemma ClimbStep(nodes: Tree, probs: Probs, i: nat)
    requires Fits(nodes, probs) && i < |nodes|
    ensures Climb(nodes, probs, i) == [Decision(probs, i)] + Further(nodes, probs, i)
  {
    hide Decision;
  }

  method EncodeTree(encoder: BoolEncoder, nodes: Tree, probs: Probs, value: nat)
    requires encoder.Valid()
    requires Fits(nodes, probs) && HasLeaf(nodes, value)
    modifies encoder
    ensures encoder.Valid() && encoder.log == old(encoder.log) + LeafPath(nodes, probs, value)
  {
    hide IsTree, LeafPath, Holds, Encoded;
    var bits := FindPath(nodes, probs, value);
    ghost var path := LeafPath(nodes, probs, value);
    var it := |bits|;
    while it > 0
      invariant 0 <= it <= |bits|
      invariant encoder.Valid() && encoder.log == old(encoder.log) + path[..|bits| - it]
    {
      it := it - 1;
      encoder.Put(bits[it].bit, bits[it].prob);
      assert bits[it] == path[|bits| - 1 - it];
      assert path[..|bits| - it] == path[..|bits| - 1 - it] + [bits[it]];
    }
    assert path[..|bits|] == path;
  }

  method DecodeTree(decoder: BoolDecoder, nodes: Tree, probs: Probs) returns (value: nat)
    requires decoder.Valid()
    requires Fits(nodes, probs)
    modifies decoder
    ensures decoder.Valid() && (value, decoder.State()) == Walk(old(decoder.State()), nodes, probs)
  {
    hide Next;
    var b := decoder.Get(probs[0]);
    var i := nodes[if b then 1 else 0];
    while i > 0
      invariant -127 <= i < |nodes| && (i > 0 ==> i % 2 == 0)
      invariant decoder.Valid()
      invariant Walk(old(decoder.State()), nodes, probs)
                == if i > 0 then WalkFrom(decoder.State(), nodes, probs, i) else (-i, decoder.State())
      decreases if i > 0 then |nodes| - i else 0
    {
      b := decoder.Get(probs[i / 2]);
      i := nodes[if b then i + 1 else i];
    }
    value := -i;
  }
}
