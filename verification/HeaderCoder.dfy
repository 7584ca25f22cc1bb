/** The printers and the parsers of frame headers, field by field
    (src/encoder/serializer.cc, src/decoder/frame_header.hh). */
module HeaderCoder {
  import opened Wrappers
  import opened BoolCoding
  import opened BoolEncoding
  import opened BoolDecoding
  import opened HeaderFields
  import opened FrameHeaders

  method EncodeSegmentation(encoder: BoolEncoder, h: UpdateSegmentation)
    requires encoder.Valid()
    modifies encoder
    ensures encoder.Valid() && encoder.log == old(encoder.log) + SegmentationSymbols(h)
  {
    hide Holds, Encoded, ListSymbols, FlaggedSymbols, Typed;
    encoder.Put(h.updateMbSegmentationMap, 128);
    EncodeFlagged(encoder, FEATURE_FORMATS, FeatureList(h.segmentFeatureData));
    if h.mbSegmentationMap.Some? {
      MapTyped(h.mbSegmentationMap);
      EncodeList(encoder, MAP_FORMATS, h.mbSegmentationMap.value);
    }
  }

  method DecodeSegmentation(decoder: BoolDecoder) returns (h: UpdateSegmentation)
    requires decoder.Valid()
    modifies decoder
    ensures decoder.Valid() && (h, decoder.State()) == ReadSegmentation(old(decoder.State()))
  {
    hide Next, WellFormed, ReadList, ReadFlagged, FeatureFrom;
    var updateMap := decoder.Get(128);
    ReadFlaggedTyped(decoder.State(), FEATURE_FORMATS);
    var vs := DecodeFlagged(decoder, FEATURE_FORMATS);
    ReadOptionalTyped(decoder.State(), MAP_FORMATS, updateMap);
    var segmentMap: Option<Three> := None;
    if updateMap {
      var m := DecodeList(decoder, MAP_FORMATS);
      segmentMap := Some(m);
    }
    h := UpdateSegmentation(updateMap, if vs.Some? then Some(FeatureFrom(vs.value)) else None, segmentMap);
  }

  method EncodeAdjustments(encoder: BoolEncoder, h: Option<Option<ModeRefLFDeltaUpdate>>)
    requires encoder.Valid()
    modifies encoder
    ensures encoder.Valid() && encoder.log == old(encoder.log) + AdjustmentSymbols(h)
  {
    hide Holds, Encoded, FlaggedSymbols, DeltaList;
    encoder.Put(h.Some?, 128);
    if h.Some? {
      EncodeFlagged(encoder, LF_FORMATS, DeltaList(h.value));
    }
  }

  method DecodeAdjustments(decoder: BoolDecoder) returns (h: Option<Option<ModeRefLFDeltaUpdate>>)
    requires decoder.Valid()
    modifies decoder
    ensures decoder.Valid() && (h, decoder.State()) == ReadAdjustments(old(decoder.State()))
  {
    hide Next, WellFormed, ReadFlagged, DeltaFrom;
    h := None;
    var present := decoder.Get(128);
    if present {
      ReadFlaggedTyped(decoder.State(), LF_FORMATS);
      var vs := DecodeFlagged(decoder, LF_FORMATS);
      h := Some(DeltaFrom(vs));
    }
  }

  method EncodeCommon(encoder: BoolEncoder, h: CommonHeader)
    requires encoder.Valid()
    modifies encoder
    ensures encoder.Valid() && encoder.log == old(encoder.log) + CommonSymbols(h)
  {
    hide Holds, Encoded, ListSymbols, SegmentationSymbols, AdjustmentSymbols, FilterValues, QuantValues, Typed;
    encoder.Put(h.updateSegmentation.Some?, 128);
    if h.updateSegmentation.Some? {
      EncodeSegmentation(encoder, h.updateSegmentation.value);
    }
    EncodeList(encoder, FILTER_FORMATS, FilterValues(h));
    EncodeAdjustments(encoder, h.modeLfAdjustments);
    EncodeList(encoder, QUANT_FORMATS, QuantValues(h));
  }

  method DecodeCommon(decoder: BoolDecoder) returns (h: CommonHeader)
    requires decoder.Valid()
    modifies decoder
    ensures decoder.Valid() && (h, decoder.State()) == ReadCommon(old(decoder.State()))
  {
    hide Next, WellFormed, ReadSegmentation, ReadList, ReadAdjustments, CommonFrom, Typed, AllInRange;
    var segmentation: Option<UpdateSegmentation> := None;
    var present := decoder.Get(128);
    if present {
      var s := DecodeSegmentation(decoder);
      segmentation := Some(s);
    }
    var f := DecodeList(decoder, FILTER_FORMATS);
    var lf := DecodeAdjustments(decoder);
    var q := DecodeList(decoder, QUANT_FORMATS);
    h := CommonFrom(segmentation, f, lf, q);
  }

  method EncodeKeyHeader(encoder: BoolEncoder, t: UpdateTables, h: KeyFrameHeader)
    requires encoder.Valid()
    modifies encoder
    ensures encoder.Valid() && encoder.log == old(encoder.log) + KeyHeaderSymbols(t, h)
  {
    hide Holds, Encoded, ListSymbols, CommonSymbols, TokenFormats, Typed;
    encoder.Put(h.colorSpace, 128);
    encoder.Put(h.clampingType, 128);
    EncodeCommon(encoder, h.common);
    encoder.Put(h.refreshEntropyProbs, 128);
    EncodeList(encoder, TokenFormats(t), h.tokenProbUpdate);
    SkipTyped(h.probSkipFalse);
    EncodeList(encoder, SKIP_FORMATS, [h.probSkipFalse]);
  }

  method DecodeKeyHeader(decoder: BoolDecoder, t: UpdateTables) returns (h: Option<KeyFrameHeader>)
    requires decoder.Valid()
    modifies decoder
    ensures decoder.Valid() && (h, decoder.State()) == ReadKeyHeader(old(decoder.State()), t)
  {
    hide Next, WellFormed, ReadList, ReadCommon, TokenFormats, Typed, AllInRange;
    var colorSpace := decoder.Get(128);
    var clampingType := decoder.Get(128);
    var common := DecodeCommon(decoder);
    var refreshEntropyProbs := decoder.Get(128);
    var tokens := DecodeList(decoder, TokenFormats(t));
    var skip := DecodeList(decoder, SKIP_FORMATS);
    if colorSpace || clampingType {
      return None;
    }
    if common.filterType {
      return None;
    }
    h := Some(KeyFrameHeader(colorSpace, clampingType, common, refreshEntropyProbs, tokens, skip[0]));
  }

  lemma SkipTyped(v: Value)
    ensures AllTyped(SKIP_FORMATS, [v])
  {}

  method EncodeCopy(encoder: BoolEncoder, v: Value)
    requires encoder.Valid()
    modifies encoder
    ensures encoder.Valid() && encoder.log == old(encoder.log) + CopySymbols(v)
  {
    hide Holds, Encoded, ListSymbols;
    if v.Some? {
      EncodeList(encoder, COPY_FORMATS, [v]);
    }
  }

  method EncodeReferences(encoder: BoolEncoder, h: ReferenceUpdates)
    requires encoder.Valid()
    modifies encoder
    ensures encoder.Valid() && encoder.log == old(encoder.log) + ReferenceUpdateSymbols(h)
  {
    hide Holds, Encoded, CopySymbols;
    encoder.Put(h.refreshGoldenFrame, 128);
    encoder.Put(h.refreshAlternateFrame, 128);
    EncodeCopy(encoder, h.copyBufferToGolden);
    EncodeCopy(encoder, h.copyBufferToAlternate);
    encoder.Put(h.signBiasGolden, 128);
    encoder.Put(h.signBiasAlternate, 128);
  }

  method DecodeReferences(decoder: BoolDecoder) returns (h: ReferenceUpdates)
    requires decoder.Valid()
    modifies decoder
    ensures decoder.Valid() && (h, decoder.State()) == ReadReferences(old(decoder.State()))
  {
    hide Next, WellFormed, ReadCopy;
    var refreshGolden := decoder.Get(128);
    var refreshAlternate := decoder.Get(128);
    var copyToGolden := DecodeCopy(decoder, !refreshGolden);
    var copyToAlternate := DecodeCopy(decoder, !refreshAlternate);
    var biasGolden := decoder.Get(128);
    var biasAlternate := decoder.Get(128);
    h := ReferenceUpdates(refreshGolden, refreshAlternate, copyToGolden, copyToAlternate, biasGolden, biasAlternate);
  }

  method DecodeCopy(decoder: BoolDecoder, present: bool) returns (v: Value)
    requires decoder.Valid()
    modifies decoder
    ensures decoder.Valid() && (v, decoder.State()) == ReadCopy(old(decoder.State()), present)
  {
    hide Next, WellFormed, ReadList;
    v := None;
    if present {
      var vs := DecodeList(decoder, COPY_FORMATS);
      v := vs[0];
    }
  }

  method EncodeInterHeader(encoder: BoolEncoder, t: UpdateTables, h: InterFrameHeader)
    requires encoder.Valid() && ProbsTyped(h.probs)
    modifies encoder
    ensures encoder.Valid() && encoder.log == old(encoder.log) + InterHeaderSymbols(t, h)
  {
    hide Holds, Encoded, CommonSymbols, ReferenceUpdateSymbols, UpdateSymbols, ProbSymbols, ProbsTyped;
    EncodeCommon(encoder, h.common);
    EncodeReferences(encoder, h.references);
    EncodeUpdates(encoder, t, h);
    EncodeProbs(encoder, t, h.probs);
  }

  method EncodeUpdates(encoder: BoolEncoder, t: UpdateTables, h: InterFrameHeader)
    requires encoder.Valid()
    modifies encoder
    ensures encoder.Valid() && encoder.log == old(encoder.log) + UpdateSymbols(t, h)
  {
    hide Holds, Encoded, ListSymbols, TokenFormats, Typed;
    encoder.Put(h.refreshEntropyProbs, 128);
    encoder.Put(h.refreshLast, 128);
    EncodeList(encoder, TokenFormats(t), h.tokenProbUpdate);
    SkipTyped(h.probSkipFalse);
    EncodeList(encoder, SKIP_FORMATS, [h.probSkipFalse]);
  }

  method EncodeProbs(encoder: BoolEncoder, t: UpdateTables, h: InterProbs)
    requires encoder.Valid() && ProbsTyped(h)
    modifies encoder
    ensures encoder.Valid() && encoder.log == old(encoder.log) + ProbSymbols(t, h)
  {
    hide Holds, Encoded, ListSymbols, FlaggedSymbols, MvFormats, ProbValues, Typed;
    EncodeList(encoder, PROB_FORMATS, ProbValues(h));
    EncodeFlagged(encoder, Y_MODE_FORMATS, h.intra16x16Prob);
    EncodeFlagged(encoder, UV_MODE_FORMATS, h.intraChromaProb);
    EncodeList(encoder, MvFormats(t), h.mvProbUpdate);
  }

  method DecodeInterHeader(decoder: BoolDecoder, t: UpdateTables) returns (h: Option<InterFrameHeader>)
    requires decoder.Valid()
    modifies decoder
    ensures decoder.Valid() && (h, decoder.State()) == ReadInterHeader(old(decoder.State()), t)
  {
    hide Next, WellFormed, ReadCommon, ReadReferences, ReadList, ReadProbs, TokenFormats, Typed, AllInRange, ProbsTyped;
    var common := DecodeCommon(decoder);
    var references := DecodeReferences(decoder);
    var refreshEntropyProbs := decoder.Get(128);
    var refreshLast := decoder.Get(128);
    var tokens := DecodeList(decoder, TokenFormats(t));
    var skip := DecodeList(decoder, SKIP_FORMATS);
    var probs := DecodeProbs(decoder, t);
    if common.filterType {
      return None;
    }
    h := Some(InterFrameHeader(common, references, refreshEntropyProbs, refreshLast, tokens, skip[0], probs));
  }

  method DecodeProbs(decoder: BoolDecoder, t: UpdateTables) returns (h: InterProbs)
    requires decoder.Valid()
    modifies decoder
    ensures decoder.Valid() && (h, decoder.State()) == ReadProbs(old(decoder.State()), t)
  {
    hide Next, WellFormed, ReadList, ReadFlagged, MvFormats, Typed, AllInRange;
    var p := DecodeList(decoder, PROB_FORMATS);
    var y := DecodeFlagged(decoder, Y_MODE_FORMATS);
    var uv := DecodeFlagged(decoder, UV_MODE_FORMATS);
    var mv := DecodeList(decoder, MvFormats(t));
    h := ProbsFrom(p, y, uv, mv);
  }
}
