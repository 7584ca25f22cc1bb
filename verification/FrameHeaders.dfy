/** Frame headers (sections 9.2 to 9.11 and 19.2 of RFC 6386; src/decoder/frame_header.hh and the
    corresponding printers in src/encoder/serializer.cc). */
module FrameHeaders {
  import opened Wrappers
  import opened BoolCoding
  import opened BoolEncoding
  import opened BoolDecoding
  import opened HeaderFields

  /** The number of token probabilities: block types, bands, contexts, entropy nodes. */
  const TOKEN_PROB_COUNT: nat := 1056  // 4 * 8 * 3 * 11
  const MV_PROB_COUNT: nat := 38  // 2 * 19

  type Three = s: seq<Value> | |s| == 3 witness [None, None, None]
  type Four = s: seq<Value> | |s| == 4 witness [None, None, None, None]

  datatype QuantIndices = QuantIndices(yAcQi: int, yDc: Value, y2Dc: Value, y2Ac: Value, uvDc: Value, uvAc: Value)
  datatype ModeRefLFDeltaUpdate = ModeRefLFDeltaUpdate(refUpdate: Four, modeUpdate: Four)
  datatype SegmentFeatureData = SegmentFeatureData(segmentFeatureMode: bool, quantizerUpdate: Four, loopFilterUpdate: Four)
  datatype UpdateSegmentation = UpdateSegmentation(
    updateMbSegmentationMap: bool, segmentFeatureData: Option<SegmentFeatureData>, mbSegmentationMap: Option<Three>)

  // ----- Segmentation -----

  const FEATURE_FORMATS: seq<Format> := [
    FLAG,
    FlaggedSigned(7), FlaggedSigned(7), FlaggedSigned(7), FlaggedSigned(7),
    FlaggedSigned(6), FlaggedSigned(6), FlaggedSigned(6), FlaggedSigned(6)
  ]

  const MAP_FORMATS: seq<Format> := [FlaggedUnsigned(8, 128), FlaggedUnsigned(8, 128), FlaggedUnsigned(8, 128)]

  function FeatureValues(h: SegmentFeatureData): (vs: seq<Value>)
    ensures AllTyped(FEATURE_FORMATS, vs)
  {
    [OfFlag(h.segmentFeatureMode)]
    + [h.quantizerUpdate[0], h.quantizerUpdate[1], h.quantizerUpdate[2], h.quantizerUpdate[3]]
    + [h.loopFilterUpdate[0], h.loopFilterUpdate[1], h.loopFilterUpdate[2], h.loopFilterUpdate[3]]
  }

  function FeatureFrom(vs: seq<Value>): SegmentFeatureData
    requires |vs| == 9 && vs[0].Some?
  {
    SegmentFeatureData(vs[0].value == 1, vs[1..5], vs[5..9])
  }

  /** Reading the values into the structure is the inverse of listing them. */
  lemma FeatureInverse(h: SegmentFeatureData, vs: seq<Value>)
    requires AllTyped(FEATURE_FORMATS, vs) && AllInRange(FEATURE_FORMATS, vs)
    ensures vs[0].Some? && (FeatureFrom(vs) == h <==> vs == FeatureValues(h))
  {
    FlagIsBit(vs[0]);
    var ws := FeatureValues(h);
    assert vs == [vs[0]] + vs[1..5] + vs[5..9];
    assert ws[1..5] == h.quantizerUpdate && ws[5..9] == h.loopFilterUpdate;
  }

  lemma FlagIsBit(v: Value)
    requires Typed(FLAG, v) && InRange(FLAG, v)
    ensures v == Some(0) || v == Some(1)
  {
    ShlTable(1);
  }

  function FeatureList(h: Option<SegmentFeatureData>): (vs: Option<seq<Value>>)
    ensures OptionalTyped(FEATURE_FORMATS, vs) && h.Some? == vs.Some?
  {
    if h.Some? then Some(FeatureValues(h.value)) else None
  }

  function FlagSymbols(b: bool): seq<Symbol> {
    [Symbol(b, 128)]
  }

  function SegmentationSymbols(h: UpdateSegmentation): seq<Symbol> {
    FlagSymbols(h.updateMbSegmentationMap) + FlaggedSymbols(FEATURE_FORMATS, FeatureList(h.segmentFeatureData))
    + OptionalSymbols(MAP_FORMATS, h.mbSegmentationMap)
  }

  /** Every value fits, and the segmentation map is there exactly if the flag says so. */
  predicate SegmentationOk(h: UpdateSegmentation) {
    && OptionalInRange(FEATURE_FORMATS, FeatureList(h.segmentFeatureData))
    && (h.mbSegmentationMap.Some? <==> h.updateMbSegmentationMap)
    && OptionalInRange(MAP_FORMATS, h.mbSegmentationMap)
  }

  function ReadFeatures(c: Core): (Option<SegmentFeatureData>, Core) {
    ReadFlaggedTyped(c, FEATURE_FORMATS);
    var (vs, c1) := ReadFlagged(c, FEATURE_FORMATS);
    (if vs.Some? then Some(FeatureFrom(vs.value)) else None, c1)
  }

  function ReadMap(c: Core, present: bool): (Option<Three>, Core) {
    ReadOptionalTyped(c, MAP_FORMATS, present);
    ReadOptional(c, MAP_FORMATS, present)
  }

  function ReadSegmentation(c: Core): (UpdateSegmentation, Core) {
    var (updateMap, c1) := Next(c, 128);
    var (features, c2) := ReadFeatures(c1);
    var (segmentMap, c3) := ReadMap(c2, updateMap);
    (UpdateSegmentation(updateMap, features, segmentMap), c3)
  }

  lemma FeaturesRoundTrip(c: Core, h: Option<SegmentFeatureData>)
    requires Serves(c, FlaggedSymbols(FEATURE_FORMATS, FeatureList(h)))
    ensures ReadFeatures(c).0 == h <==> OptionalInRange(FEATURE_FORMATS, FeatureList(h))
    ensures OptionalInRange(FEATURE_FORMATS, FeatureList(h)) ==>
              ReadFeatures(c).1 == After(c, FlaggedSymbols(FEATURE_FORMATS, FeatureList(h)))
  {
    hide Next, Serves, After, FlaggedSymbols, ReadFlagged, FeatureValues, FeatureFrom, AllInRange;
    FlaggedRoundTrip(c, FEATURE_FORMATS, FeatureList(h));
    ReadFlaggedTyped(c, FEATURE_FORMATS);
    var vs := ReadFlagged(c, FEATURE_FORMATS).0;
    if h.Some? && vs.Some? { FeatureInverse(h.value, vs.value); }
  }

  lemma SegmentationRoundTrip(c: Core, h: UpdateSegmentation)
    requires Serves(c, SegmentationSymbols(h))
    ensures ReadSegmentation(c).0 == h <==> SegmentationOk(h)
    ensures SegmentationOk(h) ==> ReadSegmentation(c).1 == After(c, SegmentationSymbols(h))
  {
    hide Next, Serves, After, FlaggedSymbols, OptionalSymbols, ReadOptional, ReadFeatures, FeatureList, OptionalInRange, Typed;
    var flag := Symbol(h.updateMbSegmentationMap, 128);
    var features := FlaggedSymbols(FEATURE_FORMATS, FeatureList(h.segmentFeatureData));
    ServesAppend(c, [flag] + features, OptionalSymbols(MAP_FORMATS, h.mbSegmentationMap));
    ServesAppend(c, [flag], features);
    ServesOne(c, flag);
    FeaturesRoundTrip(After(c, [flag]), h.segmentFeatureData);
    if OptionalInRange(FEATURE_FORMATS, FeatureList(h.segmentFeatureData)) {
      MapTyped(h.mbSegmentationMap);
      OptionalRoundTrip(After(c, [flag] + features), MAP_FORMATS, h.mbSegmentationMap, h.updateMbSegmentationMap);
    }
  }

  lemma MapTyped(m: Option<Three>)
    ensures OptionalTyped(MAP_FORMATS, m)
  {}

  /** A segmentation update behind a flag. */
  function UpdateSegmentationSymbols(h: Option<UpdateSegmentation>): seq<Symbol> {
    FlagSymbols(h.Some?) + if h.Some? then SegmentationSymbols(h.value) else []
  }

  function ReadUpdateSegmentation(c: Core): (Option<UpdateSegmentation>, Core) {
    var (present, c1) := Next(c, 128);
    if present then
      var (h, c2) := ReadSegmentation(c1);
      (Some(h), c2)
    else (None, c1)
  }

  predicate UpdateSegmentationOk(h: Option<UpdateSegmentation>) {
    h.Some? ==> SegmentationOk(h.value)
  }

  lemma UpdateSegmentationRoundTrip(c: Core, h: Option<UpdateSegmentation>)
    requires Serves(c, UpdateSegmentationSymbols(h))
    ensures ReadUpdateSegmentation(c).0 == h <==> UpdateSegmentationOk(h)
    ensures UpdateSegmentationOk(h) ==> ReadUpdateSegmentation(c).1 == After(c, UpdateSegmentationSymbols(h))
  {
    hide Next, Serves, After, SegmentationSymbols, ReadSegmentation, SegmentationOk;
    var flag := Symbol(h.Some?, 128);
    var rest := if h.Some? then SegmentationSymbols(h.value) else [];
    ServesAppend(c, [flag], rest);
    ServesOne(c, flag);
    if h.Some? { SegmentationRoundTrip(After(c, [flag]), h.value); } else { ServesNone(After(c, [flag])); }
  }

  // ----- Loop filter adjustments -----

  const LF_FORMATS: seq<Format> := [
    FlaggedSigned(6), FlaggedSigned(6), FlaggedSigned(6), FlaggedSigned(6),
    FlaggedSigned(6), FlaggedSigned(6), FlaggedSigned(6), FlaggedSigned(6)
  ]

  function DeltaList(h: Option<ModeRefLFDeltaUpdate>): (vs: Option<seq<Value>>)
    ensures OptionalTyped(LF_FORMATS, vs) && h.Some? == vs.Some?
  {
    if h.Some? then Some(h.value.refUpdate + h.value.modeUpdate) else None
  }

  function DeltaFrom(vs: Option<seq<Value>>): Option<ModeRefLFDeltaUpdate>
    requires vs.Some? ==> |vs.value| == 8
  {
    if vs.Some? then Some(ModeRefLFDeltaUpdate(vs.value[..4], vs.value[4..])) else None
  }

  lemma DeltaInverse(h: Option<ModeRefLFDeltaUpdate>, vs: Option<seq<Value>>)
    requires vs.Some? ==> |vs.value| == 8
    ensures DeltaFrom(vs) == h <==> vs == DeltaList(h)
  {
    if vs.Some? && h.Some? {
      assert vs.value == vs.value[..4] + vs.value[4..];
      var ws := h.value.refUpdate + h.value.modeUpdate;
      assert ws[..4] == h.value.refUpdate && ws[4..] == h.value.modeUpdate;
    }
  }

  /** Two flags: are adjustments in force, and are they updated? */
  function AdjustmentSymbols(h: Option<Option<ModeRefLFDeltaUpdate>>): seq<Symbol> {
    FlagSymbols(h.Some?) + if h.Some? then FlaggedSymbols(LF_FORMATS, DeltaList(h.value)) else []
  }

  function ReadAdjustments(c: Core): (Option<Option<ModeRefLFDeltaUpdate>>, Core) {
    var (present, c1) := Next(c, 128);
    if present then
      ReadFlaggedTyped(c1, LF_FORMATS);
      var (vs, c2) := ReadFlagged(c1, LF_FORMATS);
      (Some(DeltaFrom(vs)), c2)
    else (None, c1)
  }

  predicate AdjustmentsOk(h: Option<Option<ModeRefLFDeltaUpdate>>) {
    h.Some? ==> OptionalInRange(LF_FORMATS, DeltaList(h.value))
  }

  lemma AdjustmentsRoundTrip(c: Core, h: Option<Option<ModeRefLFDeltaUpdate>>)
    requires Serves(c, AdjustmentSymbols(h))
    ensures ReadAdjustments(c).0 == h <==> AdjustmentsOk(h)
    ensures AdjustmentsOk(h) ==> ReadAdjustments(c).1 == After(c, AdjustmentSymbols(h))
  {
    hide Next, Serves, After, FlaggedSymbols, ReadFlagged, Typed, AllInRange, DeltaFrom, DeltaList;
    var flag := Symbol(h.Some?, 128);
    var rest := if h.Some? then FlaggedSymbols(LF_FORMATS, DeltaList(h.value)) else [];
    ServesAppend(c, [flag], rest);
    ServesOne(c, flag);
    if h.Some? {
      ReadFlaggedTyped(After(c, [flag]), LF_FORMATS);
      FlaggedRoundTrip(After(c, [flag]), LF_FORMATS, DeltaList(h.value));
      DeltasHaveEight(ReadFlagged(After(c, [flag]), LF_FORMATS).0);
      DeltaInverse(h.value, ReadFlagged(After(c, [flag]), LF_FORMATS).0);
    } else {
      ServesNone(After(c, [flag]));
    }
  }

  lemma DeltasHaveEight(vs: Option<seq<Value>>)
    requires OptionalTyped(LF_FORMATS, vs)
    ensures vs.Some? ==> |vs.value| == 8
  {}

  // ----- The fields that both kinds of frame begin with -----

  datatype CommonHeader = CommonHeader(
    updateSegmentation: Option<UpdateSegmentation>,
    filterType: bool,
    loopFilterLevel: int,
    sharpnessLevel: int,
    modeLfAdjustments: Option<Option<ModeRefLFDeltaUpdate>>,
    log2NumberOfDctPartitions: int,
    quantIndices: QuantIndices)

  const FILTER_FORMATS: seq<Format> := [FLAG, Unsigned(6), Unsigned(3)]
  const QUANT_FORMATS: seq<Format> := [
    Unsigned(2),
    Unsigned(7), FlaggedSigned(4), FlaggedSigned(4), FlaggedSigned(4), FlaggedSigned(4), FlaggedSigned(4)
  ]

  function FilterValues(h: CommonHeader): (vs: seq<Value>)
    ensures AllTyped(FILTER_FORMATS, vs)
  {
    [OfFlag(h.filterType), Some(h.loopFilterLevel), Some(h.sharpnessLevel)]
  }

  function QuantValues(h: CommonHeader): (vs: seq<Value>)
    ensures AllTyped(QUANT_FORMATS, vs)
  {
    var q := h.quantIndices;
    [Some(h.log2NumberOfDctPartitions), Some(q.yAcQi), q.yDc, q.y2Dc, q.y2Ac, q.uvDc, q.uvAc]
  }

  function CommonFrom(
      segmentation: Option<UpdateSegmentation>, f: seq<Value>, lf: Option<Option<ModeRefLFDeltaUpdate>>, q: seq<Value>)
    : CommonHeader
    requires AllTyped(FILTER_FORMATS, f) && AllTyped(QUANT_FORMATS, q)
  {
    CommonHeader(
      segmentation, f[0].value == 1, f[1].value, f[2].value, lf, q[0].value,
      QuantIndices(q[1].value, q[2], q[3], q[4], q[5], q[6]))
  }

  lemma CommonInverse(
      h: CommonHeader, segmentation: Option<UpdateSegmentation>, f: seq<Value>,
      lf: Option<Option<ModeRefLFDeltaUpdate>>, q: seq<Value>)
    requires AllTyped(FILTER_FORMATS, f) && AllInRange(FILTER_FORMATS, f) && AllTyped(QUANT_FORMATS, q)
    ensures CommonFrom(segmentation, f, lf, q) == h
            <==> segmentation == h.updateSegmentation && f == FilterValues(h) && lf == h.modeLfAdjustments && q == QuantValues(h)
  {
    FlagIsBit(f[0]);
  }

  function CommonSymbols(h: CommonHeader): seq<Symbol> {
    UpdateSegmentationSymbols(h.updateSegmentation) + ListSymbols(FILTER_FORMATS, FilterValues(h))
    + AdjustmentSymbols(h.modeLfAdjustments) + ListSymbols(QUANT_FORMATS, QuantValues(h))
  }

  function ReadCommon(c: Core): (CommonHeader, Core) {
    var (segmentation, c1) := ReadUpdateSegmentation(c);
    var (f, c2) := ReadList(c1, FILTER_FORMATS);
    var (lf, c3) := ReadAdjustments(c2);
    var (q, c4) := ReadList(c3, QUANT_FORMATS);
    (CommonFrom(segmentation, f, lf, q), c4)
  }

  predicate CommonOk(h: CommonHeader) {
    && UpdateSegmentationOk(h.updateSegmentation) && AllInRange(FILTER_FORMATS, FilterValues(h))
    && AdjustmentsOk(h.modeLfAdjustments) && AllInRange(QUANT_FORMATS, QuantValues(h))
  }

  // ----- The ranges, in numbers -----

  lemma Widths()
    ensures Limit(1) == 2 && Limit(2) == 4 && Limit(3) == 8 && Limit(4) == 16 && Limit(6) == 64
    ensures Limit(7) == 128 && Limit(8) == 256
  {
    hide Shl;
    ShlTable(1);
  }

  predicate Within(v: Value, low: int, high: int) {
    v.Some? ==> low <= v.value <= high
  }

  /** Which quantizer indices and loop filter levels fit. */
  lemma CommonRanges(h: CommonHeader)
    ensures var q := h.quantIndices;
            AllInRange(QUANT_FORMATS, QuantValues(h)) <==>
            && 0 <= h.log2NumberOfDctPartitions <= 3 && 0 <= q.yAcQi <= 127
            && Within(q.yDc, -15, 15) && Within(q.y2Dc, -15, 15) && Within(q.y2Ac, -15, 15)
            && Within(q.uvDc, -15, 15) && Within(q.uvAc, -15, 15)
    ensures AllInRange(FILTER_FORMATS, FilterValues(h)) <==> 0 <= h.loopFilterLevel <= 63 && 0 <= h.sharpnessLevel <= 7
  {
    hide Limit, AllInRange;
    Widths();
    QuantRanges(h);
    FilterRanges(h);
  }

  lemma FilterRanges(h: CommonHeader)
    ensures AllInRange(FILTER_FORMATS, FilterValues(h)) <==> 0 <= h.loopFilterLevel <= 63 && 0 <= h.sharpnessLevel <= 7
  {
    hide Limit;
    Widths();
    var vs := FilterValues(h);
    if AllInRange(FILTER_FORMATS, vs) {
      assert InRange(FILTER_FORMATS[1], vs[1]) && InRange(FILTER_FORMATS[2], vs[2]);
    }
  }

  lemma QuantRanges(h: CommonHeader)
    ensures var q := h.quantIndices;
            AllInRange(QUANT_FORMATS, QuantValues(h)) <==>
            && InRange(Unsigned(2), Some(h.log2NumberOfDctPartitions)) && InRange(Unsigned(7), Some(q.yAcQi))
            && InRange(FlaggedSigned(4), q.yDc) && InRange(FlaggedSigned(4), q.y2Dc) && InRange(FlaggedSigned(4), q.y2Ac)
            && InRange(FlaggedSigned(4), q.uvDc) && InRange(FlaggedSigned(4), q.uvAc)
  {
    hide InRange;
    var vs := QuantValues(h);
    assert vs[0] == Some(h.log2NumberOfDctPartitions) && vs[1] == Some(h.quantIndices.yAcQi);
    if AllInRange(QUANT_FORMATS, vs) {
      assert InRange(QUANT_FORMATS[0], vs[0]) && InRange(QUANT_FORMATS[1], vs[1]) && InRange(QUANT_FORMATS[2], vs[2]);
      assert InRange(QUANT_FORMATS[3], vs[3]) && InRange(QUANT_FORMATS[4], vs[4]) && InRange(QUANT_FORMATS[5], vs[5]);
      assert InRange(QUANT_FORMATS[6], vs[6]);
    }
  }

  /** Which segment features fit. */
  lemma FeatureRanges(h: SegmentFeatureData)
    ensures AllInRange(FEATURE_FORMATS, FeatureValues(h)) <==>
            forall i :: 0 <= i < 4 ==> Within(h.quantizerUpdate[i], -127, 127) && Within(h.loopFilterUpdate[i], -63, 63)
  {
    hide Limit;
    Widths();
    var vs := FeatureValues(h);
    if AllInRange(FEATURE_FORMATS, vs) {
      forall i | 0 <= i < 4 ensures Within(h.quantizerUpdate[i], -127, 127) && Within(h.loopFilterUpdate[i], -63, 63) {
        assert InRange(FEATURE_FORMATS[1 + i], vs[1 + i]) && InRange(FEATURE_FORMATS[5 + i], vs[5 + i]);
      }
    }
    if forall i :: 0 <= i < 4 ==> Within(h.quantizerUpdate[i], -127, 127) && Within(h.loopFilterUpdate[i], -63, 63) {
      forall i | 0 <= i < 9 ensures InRange(FEATURE_FORMATS[i], vs[i]) {
        if 1 <= i < 5 { assert vs[i] == h.quantizerUpdate[i - 1]; }
        if i >= 5 { assert vs[i] == h.loopFilterUpdate[i - 5]; }
      }
    }
  }

  /** Which adjustments of the loop filter fit. */
  lemma DeltaRanges(h: ModeRefLFDeltaUpdate)
    ensures AllInRange(LF_FORMATS, h.refUpdate + h.modeUpdate) <==>
            forall i :: 0 <= i < 4 ==> Within(h.refUpdate[i], -63, 63) && Within(h.modeUpdate[i], -63, 63)
  {
    hide Limit;
    Widths();
    var vs := h.refUpdate + h.modeUpdate;
    if AllInRange(LF_FORMATS, vs) {
      forall i | 0 <= i < 4 ensures Within(h.refUpdate[i], -63, 63) && Within(h.modeUpdate[i], -63, 63) {
        assert InRange(LF_FORMATS[i], vs[i]) && InRange(LF_FORMATS[4 + i], vs[4 + i]);
      }
    }
    if forall i :: 0 <= i < 4 ==> Within(h.refUpdate[i], -63, 63) && Within(h.modeUpdate[i], -63, 63) {
      forall i | 0 <= i < 8 ensures InRange(LF_FORMATS[i], vs[i]) {
        if i >= 4 { assert vs[i] == h.modeUpdate[i - 4]; }
      }
    }
  }

  lemma CommonRoundTrip(c: Core, h: CommonHeader)
    requires Serves(c, CommonSymbols(h))
    ensures ReadCommon(c).0 == h <==> CommonOk(h)
    ensures CommonOk(h) ==> ReadCommon(c).1 == After(c, CommonSymbols(h))
  {
    hide Next, Serves, After, UpdateSegmentationSymbols, ReadUpdateSegmentation, UpdateSegmentationOk, ListSymbols, ReadList,
      AdjustmentSymbols, ReadAdjustments, AdjustmentsOk, AllInRange, Typed, FilterValues, QuantValues, CommonFrom;
    var a, b := UpdateSegmentationSymbols(h.updateSegmentation), ListSymbols(FILTER_FORMATS, FilterValues(h));
    var d, e := AdjustmentSymbols(h.modeLfAdjustments), ListSymbols(QUANT_FORMATS, QuantValues(h));
    ServesAppend(c, a + b + d, e);
    ServesAppend(c, a + b, d);
    ServesAppend(c, a, b);
    UpdateSegmentationRoundTrip(c, h.updateSegmentation);
    var (segmentation, c1) := ReadUpdateSegmentation(c);
    var (f, c2) := ReadList(c1, FILTER_FORMATS);
    var (lf, c3) := ReadAdjustments(c2);
    var (q, _) := ReadList(c3, QUANT_FORMATS);
    CommonInverse(h, segmentation, f, lf, q);
    if UpdateSegmentationOk(h.updateSegmentation) {
      ListRoundTrip(c1, FILTER_FORMATS, FilterValues(h));
      if AllInRange(FILTER_FORMATS, FilterValues(h)) {
        AdjustmentsRoundTrip(c2, h.modeLfAdjustments);
        if AdjustmentsOk(h.modeLfAdjustments) {
          ListRoundTrip(c3, QUANT_FORMATS, QuantValues(h));
        }
      }
    }
  }

  // ----- Updates of probabilities -----

  type TokenUpdates = s: seq<Value> | |s| == TOKEN_PROB_COUNT witness seq(TOKEN_PROB_COUNT, _ => None)
  type MvUpdates = s: seq<Value> | |s| == MV_PROB_COUNT witness seq(MV_PROB_COUNT, _ => None)
  type TokenUpdateProbs = s: seq<Prob> | |s| == TOKEN_PROB_COUNT witness seq(TOKEN_PROB_COUNT, _ => 255)
  type MvUpdateProbs = s: seq<Prob> | |s| == MV_PROB_COUNT witness seq(MV_PROB_COUNT, _ => 255)

  /** The fixed probabilities of the flags in front of the updates, in the order of the nested loops. */
  datatype UpdateTables = UpdateTables(token: TokenUpdateProbs, mv: MvUpdateProbs)

  function FlaggedFormats(probs: seq<Prob>, width: nat): (fs: seq<Format>)
    requires 1 <= width <= 8
    ensures |fs| == |probs|
    ensures forall vs: seq<Value> :: |vs| == |probs| ==> AllTyped(fs, vs)
  {
    seq(|probs|, i requires 0 <= i < |probs| => FlaggedUnsigned(width, probs[i]))
  }

  function TokenFormats(t: UpdateTables): (fs: seq<Format>)
    ensures |fs| == TOKEN_PROB_COUNT && forall vs: TokenUpdates :: AllTyped(fs, vs)
  {
    FlaggedFormats(t.token, 8)
  }

  function MvFormats(t: UpdateTables): (fs: seq<Format>)
    ensures |fs| == MV_PROB_COUNT && forall vs: MvUpdates :: AllTyped(fs, vs)
  {
    FlaggedFormats(t.mv, 7)
  }

  // ----- Key frames -----

  datatype KeyFrameHeader = KeyFrameHeader(
    colorSpace: bool,
    clampingType: bool,
    common: CommonHeader,
    refreshEntropyProbs: bool,
    tokenProbUpdate: TokenUpdates,
    probSkipFalse: Value)

  const SKIP_FORMATS: seq<Format> := [FlaggedUnsigned(8, 128)]

  function KeyHeaderSymbols(t: UpdateTables, h: KeyFrameHeader): seq<Symbol> {
    FlagSymbols(h.colorSpace) + FlagSymbols(h.clampingType) + CommonSymbols(h.common)
    + FlagSymbols(h.refreshEntropyProbs) + ListSymbols(TokenFormats(t), h.tokenProbUpdate)
    + ListSymbols(SKIP_FORMATS, [h.probSkipFalse])
  }

  /** The header as it stands in the data, before any of it is found to be unsupported. */
  function ReadKeyFields(c: Core, t: UpdateTables): (KeyFrameHeader, Core) {
    var (colorSpace, c1) := Next(c, 128);
    var (clampingType, c2) := Next(c1, 128);
    var (common, c3) := ReadCommon(c2);
    var (refreshEntropyProbs, c4) := Next(c3, 128);
    var (tokens, c5) := ReadList(c4, TokenFormats(t));
    var (skip, c6) := ReadList(c5, SKIP_FORMATS);
    (KeyFrameHeader(colorSpace, clampingType, common, refreshEntropyProbs, tokens, skip[0]), c6)
  }

  predicate KeySupported(h: KeyFrameHeader) {
    !h.colorSpace && !h.clampingType && !h.common.filterType
  }

  /** The parser fails on color spaces, clamping types and loop filters it does not support. */
  function ReadKeyHeader(c: Core, t: UpdateTables): (Option<KeyFrameHeader>, Core) {
    var (h, c1) := ReadKeyFields(c, t);
    (if KeySupported(h) then Some(h) else None, c1)
  }

  predicate KeyOk(t: UpdateTables, h: KeyFrameHeader) {
    && CommonOk(h.common) && AllInRange(TokenFormats(t), h.tokenProbUpdate)
    && AllInRange(SKIP_FORMATS, [h.probSkipFalse])
  }

  lemma KeyFieldsRoundTrip(c: Core, t: UpdateTables, h: KeyFrameHeader)
    requires Serves(c, KeyHeaderSymbols(t, h))
    ensures ReadKeyFields(c, t).0 == h <==> KeyOk(t, h)
    ensures KeyOk(t, h) ==> ReadKeyFields(c, t).1 == After(c, KeyHeaderSymbols(t, h))
  {
    hide Next, Serves, After, CommonSymbols, ReadCommon, CommonOk, ListSymbols, ReadList, AllInRange, TokenFormats;
    var f, g, k := Symbol(h.colorSpace, 128), Symbol(h.clampingType, 128), Symbol(h.refreshEntropyProbs, 128);
    var b, e, z := CommonSymbols(h.common), ListSymbols(TokenFormats(t), h.tokenProbUpdate), ListSymbols(SKIP_FORMATS, [h.probSkipFalse]);
    ServesAppend(c, [f] + [g] + b + [k] + e, z);
    ServesAppend(c, [f] + [g] + b + [k], e);
    ServesSnoc(c, [f] + [g] + b, k);
    ServesAppend(c, [f] + [g], b);
    ServesSnoc(c, [f], g);
    ServesOne(c, f);
    var c2 := After(c, [f] + [g]);
    CommonRoundTrip(c2, h.common);
    if CommonOk(h.common) {
      var c4 := After(c, [f] + [g] + b + [k]);
      ListRoundTrip(c4, TokenFormats(t), h.tokenProbUpdate);
      if AllInRange(TokenFormats(t), h.tokenProbUpdate) {
        var c5 := After(c, [f] + [g] + b + [k] + e);
        ListRoundTrip(c5, SKIP_FORMATS, [h.probSkipFalse]);
        var s := ReadList(c5, SKIP_FORMATS).0;
        assert s == [s[0]];
      }
    }
  }

  /** Key frame header round trip, exactly: the parser returns the header that was printed if and only if
      it is supported, its numbers fit, and its segmentation map is there when its flag says so. */
  lemma KeyHeaderRoundTrip(c: Core, t: UpdateTables, h: KeyFrameHeader)
    requires Serves(c, KeyHeaderSymbols(t, h))
    ensures ReadKeyHeader(c, t).0 == Some(h) <==> KeySupported(h) && KeyOk(t, h)
    ensures KeyOk(t, h) ==> ReadKeyHeader(c, t).1 == After(c, KeyHeaderSymbols(t, h))
  {
    hide Next, Serves, After, KeyHeaderSymbols, ReadKeyFields, KeyOk;
    KeyFieldsRoundTrip(c, t, h);
  }

  // ----- Inter frames: references -----

  datatype ReferenceUpdates = ReferenceUpdates(
    refreshGoldenFrame: bool, refreshAlternateFrame: bool,
    copyBufferToGolden: Value, copyBufferToAlternate: Value,
    signBiasGolden: bool, signBiasAlternate: bool)

  const COPY_FORMATS: seq<Format> := [Unsigned(2)]

  function CopySymbols(v: Value): seq<Symbol> {
    OptionalSymbols(COPY_FORMATS, CopyList(v))
  }

  function CopyList(v: Value): (vs: Option<seq<Value>>)
    ensures OptionalTyped(COPY_FORMATS, vs) && vs.Some? == v.Some?
  {
    if v.Some? then Some([v]) else None
  }

  function ReadCopy(c: Core, present: bool): (Value, Core) {
    ReadOptionalTyped(c, COPY_FORMATS, present);
    var (vs, c1) := ReadOptional(c, COPY_FORMATS, present);
    (if vs.Some? then vs.value[0] else None, c1)
  }

  predicate CopyOk(v: Value, present: bool) {
    (v.Some? <==> present) && OptionalInRange(COPY_FORMATS, CopyList(v))
  }

  lemma CopyRoundTrip(c: Core, v: Value, present: bool)
    requires Serves(c, CopySymbols(v))
    ensures ReadCopy(c, present).0 == v <==> CopyOk(v, present)
    ensures CopyOk(v, present) ==> ReadCopy(c, present).1 == After(c, CopySymbols(v))
  {
    hide Next, Serves, After, OptionalSymbols, ReadOptional, AllInRange;
    OptionalRoundTrip(c, COPY_FORMATS, CopyList(v), present);
    ReadOptionalTyped(c, COPY_FORMATS, present);
    var vs := ReadOptional(c, COPY_FORMATS, present).0;
    if vs.Some? { assert vs.value == [vs.value[0]]; }
  }

  function ReferenceUpdateSymbols(h: ReferenceUpdates): seq<Symbol> {
    FlagSymbols(h.refreshGoldenFrame) + FlagSymbols(h.refreshAlternateFrame)
    + CopySymbols(h.copyBufferToGolden) + CopySymbols(h.copyBufferToAlternate)
    + FlagSymbols(h.signBiasGolden) + FlagSymbols(h.signBiasAlternate)
  }

  function ReadReferences(c: Core): (ReferenceUpdates, Core) {
    var (refreshGolden, c1) := Next(c, 128);
    var (refreshAlternate, c2) := Next(c1, 128);
    var (copyToGolden, c3) := ReadCopy(c2, !refreshGolden);
    var (copyToAlternate, c4) := ReadCopy(c3, !refreshAlternate);
    var (biasGolden, c5) := Next(c4, 128);
    var (biasAlternate, c6) := Next(c5, 128);
    (ReferenceUpdates(refreshGolden, refreshAlternate, copyToGolden, copyToAlternate, biasGolden, biasAlternate), c6)
  }

  /** A copy is specified exactly if the buffer is not refreshed. */
  predicate ReferencesOk(h: ReferenceUpdates) {
    CopyOk(h.copyBufferToGolden, !h.refreshGoldenFrame) && CopyOk(h.copyBufferToAlternate, !h.refreshAlternateFrame)
  }

  lemma ReferencesRoundTrip(c: Core, h: ReferenceUpdates)
    requires Serves(c, ReferenceUpdateSymbols(h))
    ensures ReadReferences(c).0 == h <==> ReferencesOk(h)
    ensures ReferencesOk(h) ==> ReadReferences(c).1 == After(c, ReferenceUpdateSymbols(h))
  {
    hide Next, Serves, After, CopySymbols, ReadCopy, CopyOk;
    var f, g := Symbol(h.refreshGoldenFrame, 128), Symbol(h.refreshAlternateFrame, 128);
    var a, b := CopySymbols(h.copyBufferToGolden), CopySymbols(h.copyBufferToAlternate);
    var k, l := Symbol(h.signBiasGolden, 128), Symbol(h.signBiasAlternate, 128);
    ServesSnoc(c, [f] + [g] + a + b + [k], l);
    ServesSnoc(c, [f] + [g] + a + b, k);
    ServesAppend(c, [f] + [g] + a, b);
    ServesAppend(c, [f] + [g], a);
    ServesSnoc(c, [f], g);
    ServesOne(c, f);
    CopyRoundTrip(After(c, [f] + [g]), h.copyBufferToGolden, !h.refreshGoldenFrame);
    if CopyOk(h.copyBufferToGolden, !h.refreshGoldenFrame) {
      CopyRoundTrip(After(c, [f] + [g] + a), h.copyBufferToAlternate, !h.refreshAlternateFrame);
    }
  }

  // ----- Inter frames: probabilities -----

  datatype InterProbs = InterProbs(
    probInter: int, probReferencesLast: int, probReferencesGolden: int,
    intra16x16Prob: Option<seq<Value>>, intraChromaProb: Option<seq<Value>>,
    mvProbUpdate: MvUpdates)

  const PROB_FORMATS: seq<Format> := [Unsigned(8), Unsigned(8), Unsigned(8)]
  const Y_MODE_FORMATS: seq<Format> := [Unsigned(8), Unsigned(8), Unsigned(8), Unsigned(8)]
  const UV_MODE_FORMATS: seq<Format> := [Unsigned(8), Unsigned(8), Unsigned(8)]

  /** What the types guarantee: the new mode probabilities come in fours and threes. */
  predicate ProbsTyped(h: InterProbs) {
    OptionalTyped(Y_MODE_FORMATS, h.intra16x16Prob) && OptionalTyped(UV_MODE_FORMATS, h.intraChromaProb)
  }

  function ProbValues(h: InterProbs): (vs: seq<Value>)
    ensures AllTyped(PROB_FORMATS, vs)
  {
    [Some(h.probInter), Some(h.probReferencesLast), Some(h.probReferencesGolden)]
  }

  function ProbSymbols(t: UpdateTables, h: InterProbs): seq<Symbol>
    requires ProbsTyped(h)
  {
    ListSymbols(PROB_FORMATS, ProbValues(h)) + FlaggedSymbols(Y_MODE_FORMATS, h.intra16x16Prob)
    + FlaggedSymbols(UV_MODE_FORMATS, h.intraChromaProb) + ListSymbols(MvFormats(t), h.mvProbUpdate)
  }

  function ProbsFrom(p: seq<Value>, y: Option<seq<Value>>, uv: Option<seq<Value>>, mv: MvUpdates): InterProbs
    requires AllTyped(PROB_FORMATS, p)
  {
    InterProbs(p[0].value, p[1].value, p[2].value, y, uv, mv)
  }

  lemma ProbsInverse(h: InterProbs, p: seq<Value>)
    requires AllTyped(PROB_FORMATS, p)
    ensures p == ProbValues(h) <==>
            p[0].value == h.probInter && p[1].value == h.probReferencesLast && p[2].value == h.probReferencesGolden
  {}

  function ReadProbs(c: Core, t: UpdateTables): (r: (InterProbs, Core))
    ensures ProbsTyped(r.0)
  {
    var (p, c1) := ReadList(c, PROB_FORMATS);
    ReadFlaggedTyped(c1, Y_MODE_FORMATS);
    var (y, c2) := ReadFlagged(c1, Y_MODE_FORMATS);
    ReadFlaggedTyped(c2, UV_MODE_FORMATS);
    var (uv, c3) := ReadFlagged(c2, UV_MODE_FORMATS);
    var (mv, c4) := ReadList(c3, MvFormats(t));
    (ProbsFrom(p, y, uv, mv), c4)
  }

  predicate ProbsOk(t: UpdateTables, h: InterProbs) {
    && AllInRange(PROB_FORMATS, ProbValues(h)) && OptionalInRange(Y_MODE_FORMATS, h.intra16x16Prob)
    && OptionalInRange(UV_MODE_FORMATS, h.intraChromaProb) && AllInRange(MvFormats(t), h.mvProbUpdate)
  }

  lemma ProbsRoundTrip(c: Core, t: UpdateTables, h: InterProbs)
    requires ProbsTyped(h) && Serves(c, ProbSymbols(t, h))
    ensures ReadProbs(c, t).0 == h <==> ProbsOk(t, h)
    ensures ProbsOk(t, h) ==> ReadProbs(c, t).1 == After(c, ProbSymbols(t, h))
  {
    hide Next, Serves, After, ListSymbols, ReadList, FlaggedSymbols, ReadFlagged, AllInRange, MvFormats, ProbValues, Typed;
    var a, b := ListSymbols(PROB_FORMATS, ProbValues(h)), FlaggedSymbols(Y_MODE_FORMATS, h.intra16x16Prob);
    var d, e := FlaggedSymbols(UV_MODE_FORMATS, h.intraChromaProb), ListSymbols(MvFormats(t), h.mvProbUpdate);
    ServesAppend(c, a + b + d, e);
    ServesAppend(c, a + b, d);
    ServesAppend(c, a, b);
    ListRoundTrip(c, PROB_FORMATS, ProbValues(h));
    ProbsInverse(h, ReadList(c, PROB_FORMATS).0);
    if AllInRange(PROB_FORMATS, ProbValues(h)) {
      FlaggedRoundTrip(After(c, a), Y_MODE_FORMATS, h.intra16x16Prob);
      if OptionalInRange(Y_MODE_FORMATS, h.intra16x16Prob) {
        FlaggedRoundTrip(After(c, a + b), UV_MODE_FORMATS, h.intraChromaProb);
        if OptionalInRange(UV_MODE_FORMATS, h.intraChromaProb) {
          ListRoundTrip(After(c, a + b + d), MvFormats(t), h.mvProbUpdate);
        }
      }
    }
  }

  // ----- Inter frames -----

  datatype InterFrameHeader = InterFrameHeader(
    common: CommonHeader,
    references: ReferenceUpdates,
    refreshEntropyProbs: bool,
    refreshLast: bool,
    tokenProbUpdate: TokenUpdates,
    probSkipFalse: Value,
    probs: InterProbs)

  function UpdateSymbols(t: UpdateTables, h: InterFrameHeader): seq<Symbol> {
    FlagSymbols(h.refreshEntropyProbs) + FlagSymbols(h.refreshLast)
    + ListSymbols(TokenFormats(t), h.tokenProbUpdate) + ListSymbols(SKIP_FORMATS, [h.probSkipFalse])
  }

  function InterHeaderSymbols(t: UpdateTables, h: InterFrameHeader): seq<Symbol>
    requires ProbsTyped(h.probs)
  {
    CommonSymbols(h.common) + ReferenceUpdateSymbols(h.references) + UpdateSymbols(t, h) + ProbSymbols(t, h.probs)
  }

  function ReadUpdates(c: Core, t: UpdateTables): ((bool, bool, TokenUpdates, Value), Core) {
    var (refreshEntropyProbs, c1) := Next(c, 128);
    var (refreshLast, c2) := Next(c1, 128);
    var (tokens, c3) := ReadList(c2, TokenFormats(t));
    var (skip, c4) := ReadList(c3, SKIP_FORMATS);
    ((refreshEntropyProbs, refreshLast, tokens, skip[0]), c4)
  }

  function ReadInterFields(c: Core, t: UpdateTables): (r: (InterFrameHeader, Core))
    ensures ProbsTyped(r.0.probs)
  {
    var (common, c1) := ReadCommon(c);
    var (references, c2) := ReadReferences(c1);
    var (u, c3) := ReadUpdates(c2, t);
    var (probs, c4) := ReadProbs(c3, t);
    (InterFrameHeader(common, references, u.0, u.1, u.2, u.3, probs), c4)
  }

  /** The parser fails on a loop filter it does not support. */
  function ReadInterHeader(c: Core, t: UpdateTables): (Option<InterFrameHeader>, Core) {
    var (h, c1) := ReadInterFields(c, t);
    (if h.common.filterType then None else Some(h), c1)
  }

  predicate UpdatesOk(t: UpdateTables, h: InterFrameHeader) {
    AllInRange(TokenFormats(t), h.tokenProbUpdate) && AllInRange(SKIP_FORMATS, [h.probSkipFalse])
  }

  predicate InterOk(t: UpdateTables, h: InterFrameHeader) {
    CommonOk(h.common) && ReferencesOk(h.references) && UpdatesOk(t, h) && ProbsOk(t, h.probs)
  }

  lemma UpdatesRoundTrip(c: Core, t: UpdateTables, h: InterFrameHeader)
    requires Serves(c, UpdateSymbols(t, h))
    ensures ReadUpdates(c, t).0 == (h.refreshEntropyProbs, h.refreshLast, h.tokenProbUpdate, h.probSkipFalse)
            <==> UpdatesOk(t, h)
    ensures UpdatesOk(t, h) ==> ReadUpdates(c, t).1 == After(c, UpdateSymbols(t, h))
  {
    hide Next, Serves, After, ListSymbols, ReadList, AllInRange, TokenFormats;
    var f, g := Symbol(h.refreshEntropyProbs, 128), Symbol(h.refreshLast, 128);
    var d, e := ListSymbols(TokenFormats(t), h.tokenProbUpdate), ListSymbols(SKIP_FORMATS, [h.probSkipFalse]);
    ServesAppend(c, [f] + [g] + d, e);
    ServesAppend(c, [f] + [g], d);
    ServesSnoc(c, [f], g);
    ServesOne(c, f);
    ListRoundTrip(After(c, [f] + [g]), TokenFormats(t), h.tokenProbUpdate);
    if AllInRange(TokenFormats(t), h.tokenProbUpdate) {
      var c3 := After(c, [f] + [g] + d);
      ListRoundTrip(c3, SKIP_FORMATS, [h.probSkipFalse]);
      var s := ReadList(c3, SKIP_FORMATS).0;
      assert s == [s[0]];
    }
  }

  /** Inter frame header round trip, exactly: the parser returns the header that was printed if and only
      if it is supported, its numbers fit, its segmentation map is there when its flag says so, and a
      buffer copy is specified exactly when the buffer is not refreshed. */
  lemma InterHeaderRoundTrip(c: Core, t: UpdateTables, h: InterFrameHeader)
    requires ProbsTyped(h.probs) && Serves(c, InterHeaderSymbols(t, h))
    ensures ReadInterHeader(c, t).0 == Some(h) <==> !h.common.filterType && InterOk(t, h)
    ensures InterOk(t, h) ==> ReadInterHeader(c, t).1 == After(c, InterHeaderSymbols(t, h))
  {
    hide Next, Serves, After, CommonSymbols, ReadCommon, CommonOk, ReferenceUpdateSymbols, ReadReferences, ReferencesOk,
      UpdateSymbols, ReadUpdates, UpdatesOk, ProbSymbols, ReadProbs, ProbsOk, ProbsTyped;
    var a, b, d, e := CommonSymbols(h.common), ReferenceUpdateSymbols(h.references), UpdateSymbols(t, h), ProbSymbols(t, h.probs);
    ServesAppend(c, a + b + d, e);
    ServesAppend(c, a + b, d);
    ServesAppend(c, a, b);
    CommonRoundTrip(c, h.common);
    if CommonOk(h.common) {
      ReferencesRoundTrip(After(c, a), h.references);
      if ReferencesOk(h.references) {
        UpdatesRoundTrip(After(c, a + b), t, h);
        if UpdatesOk(t, h) {
          ProbsRoundTrip(After(c, a + b + d), t, h.probs);
        }
      }
    }
  }
}
