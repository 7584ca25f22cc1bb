/** Small frames with segmentation on which encoder and decoder part: what Lockstep's condition excludes does
    happen (src/encoder/encoder.cc, src/encoder/reencode.cc, src/decoder/decoder_state.hh). */
module SegmentedFrames {
  import opened Wrappers
  import opened Grids
  import opened BoolCoding
  import opened BoolEncoding
  import opened TreeCoder
  import opened CodingTrees
  import opened HeaderFields
  import opened FrameHeaders
  import opened ProbabilityTables
  import opened MacroblockTokens
  import opened FrameCodec
  import opened DecoderStates
  import opened L = Lockstep
  import Modes
  import IntraModes
  import Container
  import Tokens
  import FrameTokenCoder
  import FT = FrameTokens
  import MH = MacroblockHeaders

  // ----- Frames of one macroblock, skipped, predicted from DC alone -----

  const ONE_PIXEL: Dims := Dims(1, 1)
  function NoTokens(): TokenUpdates {
    seq<Value>(TOKEN_PROB_COUNT, _ => None)
  }

  function NoVectors(): MvUpdates {
    seq<Value>(MV_PROB_COUNT, _ => None)
  }

  const MACROBLOCKS: MH.Grid := [[Modes.Macroblock(None, Some(true), Modes.IntraWhole(DC_PRED, DC_PRED))]]
  const NO_QUANTIZERS: QuantIndices := QuantIndices(0, None, None, None, None, None)

  function CommonOf(u: Option<UpdateSegmentation>): CommonHeader {
    CommonHeader(u, false, 0, 0, None, 0, NO_QUANTIZERS)
  }

  function SmallKey(u: Option<UpdateSegmentation>): Frame {
    Frame(true, Key(KeyFrameHeader(false, false, CommonOf(u), false, NoTokens(), Some(1))),
          MACROBLOCKS, [[NoResidue(true)]])
  }

  function SmallInter(u: Option<UpdateSegmentation>): Frame {
    Frame(true,
          Inter(InterFrameHeader(
            CommonOf(u), ReferenceUpdates(false, false, Some(0), Some(0), false, false), false, true, NoTokens(), Some(1),
            InterProbs(0, 0, 0, None, None, NoVectors()))),
          MACROBLOCKS, [[NoResidue(true)]])
  }

  /** No map is sent, and the features fit. */
  predicate Plain(u: Option<UpdateSegmentation>) {
    u.Some? ==> !u.value.updateMbSegmentationMap && u.value.mbSegmentationMap.None? && UpdateSegmentationOk(u)
  }

  // ----- They are short -----

  lemma FieldLength(f: Format, v: Value)
    ensures |FieldSymbols(f, v)| <= 10
  {
    hide Tokens.Bits;
  }

  lemma {:induction false} FieldsLength(fs: seq<Format>, vs: seq<Value>, n: nat)
    requires n <= |fs| == |vs|
    ensures |FieldsSymbols(fs, vs, n)| <= 10 * n
  {
    hide FieldSymbols;
    if n > 0 {
      FieldsLength(fs, vs, n - 1);
      FieldLength(fs[n - 1], vs[n - 1]);
    }
  }

  lemma ListLength(fs: seq<Format>, vs: seq<Value>)
    requires |fs| == |vs|
    ensures |ListSymbols(fs, vs)| <= 10 * |fs|
  {
    hide FieldsSymbols;
    FieldsLength(fs, vs, |fs|);
  }

  lemma {:induction false} PairPathLength(nodes: Tree, probs: Probs, s: nat, b: nat)
    requires Fits(nodes, probs) && b < |nodes| && b % 2 == 0
    ensures |PairPath(nodes, probs, s, b)| <= b
    decreases b
  {
    hide IsTree, Decision;
    if b > s {
      AllUnderRoot(nodes, b);
      StepUp(nodes, probs, 0, b);
      var p := IndexOf(nodes, b);
      PairPathLength(nodes, probs, s, p - p % 2);
    }
  }

  lemma LeafPathLength(nodes: Tree, probs: Probs, v: nat)
    requires Fits(nodes, probs) && HasLeaf(nodes, v)
    ensures |LeafPath(nodes, probs, v)| <= |nodes|
  {
    hide PairPath, IsTree;
    var i := IndexOf(nodes, -(v as int));
    PairPathLength(nodes, probs, 0, i - i % 2);
  }

  lemma SegmentationLength(u: Option<UpdateSegmentation>)
    ensures |UpdateSegmentationSymbols(u)| <= 123
  {
    hide ListSymbols, FeatureValues;
    if u.Some? {
      if u.value.segmentFeatureData.Some? { ListLength(FEATURE_FORMATS, FeatureValues(u.value.segmentFeatureData.value)); }
      if u.value.mbSegmentationMap.Some? { ListLength(MAP_FORMATS, u.value.mbSegmentationMap.value); }
    }
  }

  lemma CommonLength(u: Option<UpdateSegmentation>)
    ensures |CommonSymbols(CommonOf(u))| <= 224
  {
    hide ListSymbols, UpdateSegmentationSymbols, FilterValues, QuantValues;
    SegmentationLength(u);
    ListLength(FILTER_FORMATS, FilterValues(CommonOf(u)));
    ListLength(QUANT_FORMATS, QuantValues(CommonOf(u)));
  }

  lemma KeyHeaderLength(t: UpdateTables, u: Option<UpdateSegmentation>)
    ensures |KeyHeaderSymbols(t, SmallKey(u).header.key)| <= 11000
  {
    hide ListSymbols, CommonSymbols, TokenFormats;
    CommonLength(u);
    ListLength(TokenFormats(t), NoTokens());
    ListLength(SKIP_FORMATS, [Some(1)]);
  }

  lemma InterHeaderLength(t: UpdateTables, u: Option<UpdateSegmentation>)
    ensures |InterHeaderSymbols(t, SmallInter(u).header.inter)| <= 12000
  {
    hide ListSymbols, CommonSymbols, TokenFormats, MvFormats, ProbValues;
    var h := SmallInter(u).header.inter;
    CommonLength(u);
    ListLength(TokenFormats(t), NoTokens());
    ListLength(SKIP_FORMATS, [Some(1)]);
    ListLength(PROB_FORMATS, ProbValues(h.probs));
    ListLength(MvFormats(t), NoVectors());
    ListLength(COPY_FORMATS, [Some(0)]);
  }

  lemma IntraLength(coding: IntraModes.Coding, n: Modes.Neighbours)
    ensures |IntraModes.IntraSymbols(coding, Modes.IntraWhole(DC_PRED, DC_PRED), n)| <= 20
  {
    hide LeafPath, IsTree;
    ChromaModeTree();
    LeafPathLength(IntraModes.YTree(coding), coding.y, DC_PRED);
    LeafPathLength(UV_MODE_TREE, coding.uv, DC_PRED);
  }

  lemma MacroblockLength(f: MH.FrameParams, n: Modes.Neighbours, at: Modes.Place)
    ensures |MH.MacroblockSymbols(f, MACROBLOCKS[0][0], n, at)| <= 22
  {
    hide IntraModes.IntraSymbols;
    IntraLength(f.kind.IntraCoding(), n);
  }

  lemma GridLength(f: MH.FrameParams)
    ensures MH.GridBelongs(f, MACROBLOCKS) && |MH.GridSymbols(f, MACROBLOCKS, 1, 1)| <= 22
  {
    hide MH.MacroblockSymbols;
    var x := MH.ContextOf(MACROBLOCKS, 0, 1, 1);
    MacroblockLength(f, MH.NeighboursAt(x, MACROBLOCKS[0], 0), x.PlaceAt(0));
    assert MH.RowSymbols(f, x, MACROBLOCKS[0], 0) == [];
    assert MH.GridSymbols(f, MACROBLOCKS, 1, 0) == [];
  }

  // ----- They can be coded, with any tables -----

  predicate Small(frame: Frame, u: Option<UpdateSegmentation>) {
    frame == SmallKey(u) || frame == SmallInter(u)
  }

  lemma SmallTyped(frame: Frame, u: Option<UpdateSegmentation>)
    requires Small(frame, u)
    ensures FrameTyped(frame, ONE_PIXEL)
  {}

  lemma SmallLengths(fixed: Fixed, t: Tables, frame: Frame, u: Option<UpdateSegmentation>)
    requires Small(frame, u) && FrameTyped(frame, ONE_PIXEL)
    ensures LengthsFit(fixed, ONE_PIXEL, t, frame)
  {
    hide FrameTyped, MH.GridSymbols, Finished, Params, FrameTables, KeyHeaderSymbols, InterHeaderSymbols, TokenSymbolsOf;
    KeyHeaderLength(fixed.updates, u);
    InterHeaderLength(fixed.updates, u);
    GridLength(Params(fixed, frame.header, FrameTables(t, frame.header)));
    FinishedLength(FirstSymbols(fixed, ONE_PIXEL, t, frame));
  }

  lemma SmallSerializable(t: Tables, frame: Frame, u: Option<UpdateSegmentation>)
    requires Small(frame, u) && FrameTyped(frame, ONE_PIXEL)
    ensures Serializable(ONE_PIXEL, t, frame) && ResidueOk(ONE_PIXEL, t, frame)
  {
    hide FrameTyped, FrameTables, CoeffProbsOf;
  }

  lemma SmallCommonOk(u: Option<UpdateSegmentation>)
    requires Plain(u)
    ensures CommonOk(CommonOf(u))
  {
    hide SegmentationOk, Limit;
    Widths();
    assert AllInRange(FILTER_FORMATS, FilterValues(CommonOf(u)));
    assert AllInRange(QUANT_FORMATS, QuantValues(CommonOf(u)));
  }

  lemma NoneInRange(fs: seq<Format>, vs: seq<Value>)
    requires |fs| == |vs| && forall i :: 0 <= i < |vs| ==> vs[i].None?
    ensures AllInRange(fs, vs)
  {}

  lemma SmallFieldsOk(frame: Frame, u: Option<UpdateSegmentation>)
    requires Small(frame, u)
    ensures AllInRange(SKIP_FORMATS, [Some(1)]) && AllInRange(COPY_FORMATS, [Some(0)])
    ensures frame.header.Inter? ==> AllInRange(PROB_FORMATS, ProbValues(frame.header.inter.probs))
  {
    hide Shl;
    ShlTable(1);
  }

  lemma SmallHeaderOk(fixed: Fixed, frame: Frame, u: Option<UpdateSegmentation>)
    requires Small(frame, u) && Plain(u)
    ensures HeaderOk(fixed, frame.header)
  {
    hide CommonOk, AllInRange;
    SmallCommonOk(u);
    NoneInRange(TokenFormats(fixed.updates), NoTokens());
    NoneInRange(MvFormats(fixed.updates), NoVectors());
    SmallFieldsOk(frame, u);
  }

  lemma SmallModesOk(fixed: Fixed, t: Tables, frame: Frame, u: Option<UpdateSegmentation>)
    requires Small(frame, u) && Plain(u) && FrameTyped(frame, ONE_PIXEL)
    ensures ModesOk(fixed, ONE_PIXEL, t, frame)
  {
    hide FrameTyped, FrameTables, Kind, UpdateSegmentationOk;
    NoInterBelongs(fixed, frame.header, FrameTables(t, frame.header), frame.macroblocks);
  }

  lemma SmallCodable(fixed: Fixed, t: Tables, frame: Frame, u: Option<UpdateSegmentation>)
    requires Small(frame, u) && Plain(u)
    ensures Codable(fixed, ONE_PIXEL, t, frame)
  {
    hide FrameTyped, Serializable, LengthsFit, HeaderOk, ModesOk, ResidueOk;
    SmallTyped(frame, u);
    var b := BaseTables(fixed, t, frame.header);
    SmallLengths(fixed, b, frame, u);
    SmallSerializable(b, frame, u);
    SmallHeaderOk(fixed, frame, u);
    SmallModesOk(fixed, b, frame, u);
  }

  // ----- Where they part -----

  const HERE: SegmentIds := [[0]]

  /** The encoder keeps the segmentation of a key frame, the decoder forgets it. */
  lemma SegmentationParts<R, S>(w: World<R, S>, e: Encoder<R, S>, key: FrameObject, inter: FrameObject)
    requires RunTyped(w.dims, [key, inter]) && StateSized(e.state, w.dims)
    requires RunCodable(w.fixed, w.dims, e.state, [key, inter])
    requires key.frame.header.Key? && key.frame.header.key.common.updateSegmentation.Some?
    requires inter.frame.header.Inter? && inter.frame.header.inter.common.updateSegmentation.None?
    ensures !InStep(w, e, [key, inter])
  {
    hide ObjectTyped, RunCodable, EncoderAfter, DecoderAfter, Outputs, KeptTables, AdjustmentsAfter, NewSegmentation;
    TablesNeverPart(w, e, [key, inter]);
    assert [key, inter][..1] == [key] && [key][..0] == [];
    assert StateAfter(w.fixed, w.dims, e.state, [key]).segmentation.Some?;
    assert StateAfter(w.fixed, w.dims, e.state, [key, inter]).segmentation.Some?;
  }

  lemma SmallRun(fixed: Fixed, s: DecoderState, key: FrameObject, inter: FrameObject,
                 u: Option<UpdateSegmentation>, v: Option<UpdateSegmentation>)
    requires Plain(u) && key.frame == SmallKey(u) && GridSized(key.segmentIds, ONE_PIXEL)
    requires Plain(v) && inter.frame == SmallInter(v) && GridSized(inter.segmentIds, ONE_PIXEL)
    ensures RunTyped(ONE_PIXEL, [key, inter]) && RunCodable(fixed, ONE_PIXEL, s, [key, inter])
  {
    hide FrameTyped, Codable, EncoderState, UpdateSegmentationOk, SmallKey, SmallInter;
    SmallTyped(key.frame, u);
    SmallTyped(inter.frame, v);
    var run := [key, inter];
    assert run[..1] == [key] && [key][..0] == [];
    SmallCodable(fixed, s.tables, key.frame, u);
    assert RunCodable(fixed, ONE_PIXEL, s, [key]);
    SmallCodable(fixed, StateAfter(fixed, ONE_PIXEL, s, [key]).tables, inter.frame, v);
  }

  /** Segmentation without features, and none. */
  lemma SmallFramesPart<R, S>(w: World<R, S>, e: Encoder<R, S>)
    requires w.dims == ONE_PIXEL && StateSized(e.state, w.dims)
    ensures var u := Some(UpdateSegmentation(false, None, None));
            var run := [FrameObject(SmallKey(u), HERE), FrameObject(SmallInter(None), HERE)];
            && RunTyped(w.dims, run) && RunCodable(w.fixed, w.dims, e.state, run)
            && !InStep(w, e, run)
  {
    hide InStep, RunTyped, RunCodable;
    var u := Some(UpdateSegmentation(false, None, None));
    SmallRun(w.fixed, e.state, FrameObject(SmallKey(u), HERE), FrameObject(SmallInter(None), HERE), u, None);
    SegmentationParts(w, e, FrameObject(SmallKey(u), HERE), FrameObject(SmallInter(None), HERE));
  }

  const FEATURES: SegmentFeatureData := SegmentFeatureData(true, [Some(1), None, None, Some(2)], [None, None, None, None])

  /** Cached segments can make the references part although the states agree: segment 3, which a new map gives
      every macroblock, has another quantizer than segment 0, which a new macroblock has cached. The key frame is
      one that has been parsed, whose macroblocks have cached segment 3; the inter frame has been made anew. */
  lemma CachedSegmentsPart<R(!new), S>(w: World<R, S>, e: Encoder<R, S>, one: R, other: R)
    requires w.dims == ONE_PIXEL && StateSized(e.state, w.dims) && one != other
    ensures var u, v := Some(UpdateSegmentation(false, Some(FEATURES), None)), Some(UpdateSegmentation(false, None, None));
            var key, inter := FrameObject(SmallKey(u), [[3]]), FrameObject(SmallInter(v), HERE);
            && RunTyped(w.dims, [key, inter]) && RunCodable(w.fixed, w.dims, e.state, [key, inter])
            && RunKept(w.fixed, w.dims, e.state, [key])
            && StateKept(StateAfter(w.fixed, w.dims, e.state, [key]).segmentation, w.dims, inter.frame)
            && !InStepHoweverPainted(w, e, [key, inter])
  {
    hide RunTyped, RunCodable, InStepHoweverPainted, RunKept, SmallKey, SmallInter;
    var u, v := Some(UpdateSegmentation(false, Some(FEATURES), None)), Some(UpdateSegmentation(false, None, None));
    var key, inter := FrameObject(SmallKey(u), [[3]]), FrameObject(SmallInter(v), HERE);
    FeaturesFit();
    SmallRun(w.fixed, e.state, key, inter, u, v);
    CachedKept(w.fixed, e.state, key, inter, u, v);
    L.Lockstep(w, e, [key, inter], one, other);
  }

  lemma FeaturesFit()
    ensures Plain(Some(UpdateSegmentation(false, Some(FEATURES), None)))
  {
    hide Limit;
    Widths();
  }

  /** The state after the key frame. */
  lemma AfterKey(fixed: Fixed, s: DecoderState, key: Frame)
    requires key == SmallKey(Some(UpdateSegmentation(false, Some(FEATURES), None))) && HeaderTyped(key.header)
    ensures EncoderState(fixed, ONE_PIXEL, s, key.header).segmentation
            == Some(Segmentation(true, [1, 0, 0, 2], [0, 0, 0, 0], SegmentMap(1, [[3]])))
  {
    hide KeptTables, AdjustmentsAfter;
    var rows := NewMap(ONE_PIXEL).rows;
    assert rows[0] == [3];
    assert rows == [[3]];
  }

  lemma CachedKept(fixed: Fixed, s: DecoderState, key: FrameObject, inter: FrameObject,
                   u: Option<UpdateSegmentation>, v: Option<UpdateSegmentation>)
    requires u == Some(UpdateSegmentation(false, Some(FEATURES), None)) && v == Some(UpdateSegmentation(false, None, None))
    requires key == FrameObject(SmallKey(u), [[3]]) && inter == FrameObject(SmallInter(v), HERE)
    requires RunTyped(ONE_PIXEL, [key, inter]) && StateSized(s, ONE_PIXEL)
    ensures RunTyped(ONE_PIXEL, [key]) && RunKept(fixed, ONE_PIXEL, s, [key])
    ensures StateKept(StateAfter(fixed, ONE_PIXEL, s, [key]).segmentation, ONE_PIXEL, inter.frame)
    ensures !RunKept(fixed, ONE_PIXEL, s, [key, inter])
  {
    hide SmallKey, SmallInter, Kept, StateKept, EncoderState, RunKept, StateAfter, NoNews;
    assert ObjectTyped([key, inter][0], ONE_PIXEL) && ObjectTyped([key, inter][1], ONE_PIXEL);
    hide RunTyped, ObjectTyped;
    TwoFrames(fixed, s, key, inter);
    AfterKey(fixed, s, key.frame);
    KeyKept(fixed, s, key);
    InterNotKept(fixed, EncoderState(fixed, ONE_PIXEL, s, key.frame.header), inter);
  }

  lemma TwoFrames(fixed: Fixed, s: DecoderState, key: FrameObject, inter: FrameObject)
    requires RunTyped(ONE_PIXEL, [key, inter]) && StateSized(s, ONE_PIXEL)
    ensures RunTyped(ONE_PIXEL, [key]) && HeaderTyped(key.frame.header)
    ensures var t := EncoderState(fixed, ONE_PIXEL, s, key.frame.header);
            && StateAfter(fixed, ONE_PIXEL, s, [key]) == t && StateSized(t, ONE_PIXEL)
            && ObjectTyped(key, ONE_PIXEL) && ObjectTyped(inter, ONE_PIXEL)
            && RunKept(fixed, ONE_PIXEL, s, [key]) == Kept(fixed, s, ONE_PIXEL, key)
            && RunKept(fixed, ONE_PIXEL, s, [key, inter])
               == (Kept(fixed, s, ONE_PIXEL, key) && Kept(fixed, t, ONE_PIXEL, inter))
  {
    hide FrameTyped, GridSized, Kept, EncoderState, StateSized, HeaderTyped;
    assert [key, inter][..1] == [key] && [key][..0] == [];
    assert ObjectTyped([key, inter][0], ONE_PIXEL) && ObjectTyped([key, inter][1], ONE_PIXEL);
    HeaderIsTyped(key.frame, ONE_PIXEL);
  }

  lemma KeyKept(fixed: Fixed, s: DecoderState, key: FrameObject)
    requires key == FrameObject(SmallKey(Some(UpdateSegmentation(false, Some(FEATURES), None))), [[3]])
    requires ObjectTyped(key, ONE_PIXEL) && StateSized(s, ONE_PIXEL)
    ensures Kept(fixed, s, ONE_PIXEL, key)
  {
    HeaderIsTyped(key.frame, ONE_PIXEL);
    AfterKey(fixed, s, key.frame);
    hide FrameTyped, EncoderState;
  }

  lemma InterNotKept(fixed: Fixed, t: DecoderState, inter: FrameObject)
    requires inter == FrameObject(SmallInter(Some(UpdateSegmentation(false, None, None))), HERE)
    requires ObjectTyped(inter, ONE_PIXEL) && StateSized(t, ONE_PIXEL)
    requires t.segmentation == Some(Segmentation(true, [1, 0, 0, 2], [0, 0, 0, 0], SegmentMap(1, [[3]])))
    ensures StateKept(t.segmentation, ONE_PIXEL, inter.frame) && !Kept(fixed, t, ONE_PIXEL, inter)
  {
    HeaderIsTyped(inter.frame, ONE_PIXEL);
    assert EncoderState(fixed, ONE_PIXEL, t, inter.frame.header).segmentation == t.segmentation;
    hide FrameTyped, EncoderState;
    assert EntryOf(t.segmentation.value, 0) != EntryOf(t.segmentation.value, 3);
    assert !SettingsKept(t.segmentation, ONE_PIXEL, inter.segmentIds) by {
      assert inter.segmentIds[0][0] == 0 && t.segmentation.value.segmentMap.rows[0][0] == 3;
    }
  }
}
