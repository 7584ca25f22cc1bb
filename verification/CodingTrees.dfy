/** The coding trees of the bitstream (src/decoder/modemv_data.cc, src/encoder/costs.cc) and the
    enumerations their leaves stand for (src/decoder/modemv_data.hh, src/decoder/tokens.hh). */
module CodingTrees {
  import opened TreeCoder

  // macroblock prediction modes
  const DC_PRED: nat := 0
  const V_PRED: nat := 1
  const H_PRED: nat := 2
  const TM_PRED: nat := 3
  const B_PRED: nat := 4
  const NEARESTMV: nat := 5
  const NEARMV: nat := 6
  const ZEROMV: nat := 7
  const NEWMV: nat := 8
  const SPLITMV: nat := 9

  // subblock prediction modes
  const B_DC_PRED: nat := 0
  const B_TM_PRED: nat := 1
  const B_VE_PRED: nat := 2
  const B_HE_PRED: nat := 3
  const B_LD_PRED: nat := 4
  const B_RD_PRED: nat := 5
  const B_VR_PRED: nat := 6
  const B_VL_PRED: nat := 7
  const B_HD_PRED: nat := 8
  const B_HU_PRED: nat := 9
  const LEFT4X4: nat := 10
  const ABOVE4X4: nat := 11
  const ZERO4X4: nat := 12
  const NEW4X4: nat := 13

  // DCT tokens
  const ZERO_TOKEN: nat := 0
  const ONE_TOKEN: nat := 1
  const TWO_TOKEN: nat := 2
  const THREE_TOKEN: nat := 3
  const FOUR_TOKEN: nat := 4
  const DCT_VAL_CATEGORY1: nat := 5
  const DCT_VAL_CATEGORY2: nat := 6
  const DCT_VAL_CATEGORY3: nat := 7
  const DCT_VAL_CATEGORY4: nat := 8
  const DCT_VAL_CATEGORY5: nat := 9
  const DCT_VAL_CATEGORY6: nat := 10
  const DCT_EOB_TOKEN: nat := 11

  const KF_Y_MODE_NODES: Nodes := [-4, 2, 4, 6, 0, -1, -2, -3]
  const Y_MODE_NODES: Nodes := [0, 2, 4, 6, -1, -2, -3, -4]
  const UV_MODE_NODES: Nodes := [0, 2, -1, 4, -2, -3]
  const B_MODE_NODES: Nodes := [0, 2, -1, 4, -2, 6, 8, 12, -3, 10, -5, -6, -4, 14, -7, 16, -8, -9]
  const SMALL_MV_NODES: Nodes := [2, 8, 4, 6, 0, -1, -2, -3, 10, 12, -4, -5, -6, -7]
  const MV_REF_NODES: Nodes := [-7, 2, -5, 4, -6, 6, -8, -9]
  const SUBMV_REF_NODES: Nodes := [-10, 2, -11, 4, -12, -13]
  const SPLIT_MV_NODES: Nodes := [-3, 2, -2, 4, 0, -1]
  const SEGMENT_ID_NODES: Nodes := [2, 4, 0, -1, -2, -3]
  const COEF_NODES: Nodes :=
    [-11, 2, 0, 4, -1, 6, 8, 12, -2, 10, -3, -4, 14, 16, -5, -6, 18, 20, -7, -8, -9, -10]

  const KF_Y_MODE_TREE: Tree := (KeyModeTree(); KF_Y_MODE_NODES)
  const Y_MODE_TREE: Tree := (ModeTree(); Y_MODE_NODES)
  const UV_MODE_TREE: Tree := (ChromaModeTree(); UV_MODE_NODES)
  const B_MODE_TREE: Tree := (SubblockModeTree(); B_MODE_NODES)
  const SMALL_MV_TREE: Tree := (SmallMvTree(); SMALL_MV_NODES)
  const MV_REF_TREE: Tree := (MvRefTree(); MV_REF_NODES)
  const SUBMV_REF_TREE: Tree := (SubMvRefTree(); SUBMV_REF_NODES)
  const SPLIT_MV_TREE: Tree := (SplitMvTree(); SPLIT_MV_NODES)
  const SEGMENT_ID_TREE: Tree := (SegmentIdTree(); SEGMENT_ID_NODES)
  const COEF_TREE: Tree := (CoefTree(); COEF_NODES)

  lemma KeyModeTree()
    ensures IsTree(KF_Y_MODE_NODES) && forall v: nat :: v <= B_PRED <==> HasLeaf(KF_Y_MODE_NODES, v)
  {}

  lemma ModeTree()
    ensures IsTree(Y_MODE_NODES) && forall v: nat :: v <= B_PRED <==> HasLeaf(Y_MODE_NODES, v)
  {}

  lemma ChromaModeTree()
    ensures IsTree(UV_MODE_NODES) && forall v: nat :: v <= TM_PRED <==> HasLeaf(UV_MODE_NODES, v)
  {}

  lemma SubblockModeTree()
    ensures IsTree(B_MODE_NODES) && forall v: nat :: v <= B_HU_PRED <==> HasLeaf(B_MODE_NODES, v)
  {
    SubblockModesDistinct();
    SubblockPairsHaveParents();
    hide Distinct, PairsHaveParents;
  }

  lemma SubblockPairsHaveParents()
    ensures PairsHaveParents(B_MODE_NODES)
  {}

  lemma SubblockModesDistinct()
    ensures Distinct(B_MODE_NODES)
  {}

  lemma SmallMvTree()
    ensures IsTree(SMALL_MV_NODES) && forall v: nat :: v < 8 <==> HasLeaf(SMALL_MV_NODES, v)
  {
    SmallMvDistinct();
    hide Distinct;
  }

  lemma SmallMvDistinct()
    ensures Distinct(SMALL_MV_NODES)
  {}

  lemma MvRefTree()
    ensures IsTree(MV_REF_NODES) && forall v: nat :: NEARESTMV <= v <= SPLITMV <==> HasLeaf(MV_REF_NODES, v)
  {}

  lemma SubMvRefTree()
    ensures IsTree(SUBMV_REF_NODES) && forall v: nat :: LEFT4X4 <= v <= NEW4X4 <==> HasLeaf(SUBMV_REF_NODES, v)
  {}

  lemma SplitMvTree()
    ensures IsTree(SPLIT_MV_NODES) && forall v: nat :: v < 4 <==> HasLeaf(SPLIT_MV_NODES, v)
  {}

  lemma SegmentIdTree()
    ensures IsTree(SEGMENT_ID_NODES) && forall v: nat :: v < 4 <==> HasLeaf(SEGMENT_ID_NODES, v)
  {}

  lemma CoefTree()
    ensures IsTree(COEF_NODES)
  {
    CoefTokensDistinct();
    CoefPairsHaveParents();
    hide Distinct, PairsHaveParents;
  }

  /** Where each entry of the token tree stands, indexed by the entry plus 11. */
  const COEF_POSITIONS: seq<nat> :=
    [0, 21, 20, 19, 18, 15, 14, 11, 10, 8, 4, 2, 0, 1, 0, 3, 0, 5, 0, 6, 0, 9, 0, 7, 0, 12, 0, 13, 0, 16, 0, 17]

  lemma CoefTokensDistinct()
    ensures Distinct(COEF_NODES)
  {
    forall i, j | 0 <= i < j < |COEF_NODES| ensures COEF_NODES[i] != COEF_NODES[j] {
      CoefPosition(i);
      CoefPosition(j);
    }
  }

  lemma CoefPosition(i: nat)
    requires i < 22
    ensures 0 <= COEF_NODES[i] + 11 < 32 && COEF_POSITIONS[COEF_NODES[i] + 11] == i
  {}

  lemma CoefPairsHaveParents()
    ensures PairsHaveParents(COEF_NODES)
  {}

  lemma CoefTokens()
    ensures forall v: nat :: v <= DCT_EOB_TOKEN <==> HasLeaf(COEF_NODES, v)
  {}
}
