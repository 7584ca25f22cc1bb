/** Encoder and decoder in lockstep: two state machines that must agree after every frame
    (src/encoder/encoder.cc, src/encoder/encode_intra.cc, src/encoder/encode_inter.cc,
    src/decoder/decoder_state.hh, src/decoder/decoder.cc). */
module Lockstep {
  import opened Wrappers
  import opened Grids
  import opened BoolCoding
  import BoolDecoding
  import opened BoolEncoding
  import FrameTokens
  import opened HeaderFields
  import opened FrameHeaders
  import opened ProbabilityTables
  import opened Container
  import opened FrameCodec
  import FrameCoder
  import opened DecoderStates
  import Modes
  import MH = MacroblockHeaders

  // ----- Reconstruction -----

  /** The segment that each macroblock of a frame has cached. */
  type SegmentIds = seq<seq<Octet>>

  /** A frame object: what the bitstream determines, and the segment cached by each macroblock. A parsed frame
      has cached what the segmentation map says; a frame that the encoder has made or changed need not. */
  datatype FrameObject = FrameObject(frame: Frame, segmentIds: SegmentIds)

  /** One entry for each macroblock. */
  predicate GridSized<T>(grid: seq<seq<T>>, d: Dims) {
    |grid| == MacroblockDimension(d.height) && IsGrid(grid, MacroblockDimension(d.width))
  }

  predicate ObjectTyped(x: FrameObject, d: Dims) {
    FrameTyped(x.frame, d) && GridSized(x.segmentIds, d)
  }

  /** A segment's entries in the tables of quantizers and of loop filter levels; there are four. */
  function EntryOf(s: Segmentation, id: Octet): Option<(Int8, Int8)> {
    if id < 4 then Some((s.quantizer[id], s.filter[id])) else None
  }

  /** Two segments have the same entries if and only if they share both quantizer and filter level. */
  lemma EntryDecides(s: Segmentation, a: Octet, b: Octet)
    requires a < 4 && b < 4
    ensures EntryOf(s, a) == EntryOf(s, b) <==> s.quantizer[a] == s.quantizer[b] && s.filter[a] == s.filter[b]
  {}

  /** What the macroblocks of a frame look up: whether entries are absolute, and each one's entries. */
  datatype Settings = Settings(absolute: bool, entries: seq<seq<Option<(Int8, Int8)>>>)

  function SettingsOf(s: Option<Segmentation>, ids: SegmentIds): Option<Settings> {
    if s.Some? then
      var entries := seq(|ids|, r requires 0 <= r < |ids| =>
        seq(|ids[r]|, i requires 0 <= i < |ids[r]| => EntryOf(s.value, ids[r][i])));
      Some(Settings(s.value.absolute, entries))
    else None
  }

  /** Reconstruction of pixels (prediction, residue and loop filter): any function of the frame, the settings
      looked up by its macroblocks, the filter adjustments and, for inter frames, the references. */
  type KeyPainter<!R> = (Frame, Option<Settings>, Option<FilterAdjustments>) -> R
  type InterPainter<!R> = (Frame, Option<Settings>, Option<FilterAdjustments>, References<R>) -> R

  /** What both sides have in common; loading adds margins to a raster. */
  datatype World<!R, !S> = World(
    fixed: Fixed, dims: Dims, paintKey: KeyPainter<R>, paintInter: InterPainter<R>, blank: R, load: R -> S)
  {
    function Painting(key: KeyPainter<R>, inter: InterPainter<R>): World<R, S> {
      this.(paintKey := key, paintInter := inter)
    }
  }

  function Reconstructed<R, S>(w: World<R, S>, x: FrameObject, s: DecoderState, refs: References<R>): R {
    var settings := SettingsOf(s.segmentation, x.segmentIds);
    if x.frame.header.Key? then w.paintKey(x.frame, settings, s.filterAdjustments)
    else w.paintInter(x.frame, settings, s.filterAdjustments, refs)
  }

  /** The segmentation map has the dimensions of the frame. */
  predicate StateSized(s: DecoderState, d: Dims) {
    s.segmentation.Some? ==>
      s.segmentation.value.segmentMap.width == d.width && |s.segmentation.value.segmentMap.rows| == d.height
  }

  // ----- The encoder -----

  datatype Encoder<R, S> = Encoder(state: DecoderState, references: References<R>, safeReferences: References<S>)

  function Loaded<R, S>(w: World<R, S>, refs: References<R>): References<S> {
    References(w.load(refs.last), w.load(refs.golden), w.load(refs.alternative))
  }

  /** update_decoder_state: the segmentation is only set by key frames. */
  function EncoderState(fixed: Fixed, d: Dims, s: DecoderState, h: Header): (t: DecoderState)
    requires HeaderTyped(h)
    ensures StateSized(s, d) ==> StateSized(t, d)
  {
    match h
    case Key(k) =>
      var started := FreshState(fixed, d, k);
      started.(tables := KeptTables(started.tables, h))
    case Inter(i) =>
      s.(tables := KeptTables(s.tables, h),
         filterAdjustments := AdjustmentsAfter(s.filterAdjustments, i.common.modeLfAdjustments))
  }

  function Advanced<R, S>(w: World<R, S>, e: Encoder<R, S>, x: FrameObject): Encoder<R, S>
    requires HeaderTyped(x.frame.header)
  {
    var h := x.frame.header;
    var state := EncoderState(w.fixed, w.dims, e.state, h);
    var refs := if h.Key? then References(w.blank, w.blank, w.blank) else e.references;
    var raster := Reconstructed(w, x, state, refs);
    var refs' := CopyTo(h, raster, refs);
    Encoder(state, refs', Loaded(w, refs'))
  }

  /** The octets are produced last, with the tables as they are by then. */
  function Output(fixed: Fixed, d: Dims, s: DecoderState, frame: Frame): Data
    requires FrameTyped(frame, d)
  {
    Serialized(fixed, d, EncoderState(fixed, d, s, frame.header).tables, frame)
  }

  // ----- The decoder -----

  datatype Decoder<R> = Decoder(state: DecoderState, references: References<R>)

  function SegmentationAfter(d: Dims, s: Option<Segmentation>, h: Option<UpdateSegmentation>): Option<Segmentation> {
    if h.None? then None
    else if s.Some? then Some(s.value.Updated(h.value))
    else Some(NewSegmentation(d, h.value))
  }

  function MappedIfAny(s: Option<Segmentation>, grid: MH.Grid): Option<Segmentation> {
    if s.Some? then Some(s.value.Mapped(grid)) else None
  }

  function DecoderStateAfter(fixed: Fixed, d: Dims, s: DecoderState, frame: Frame): (t: DecoderState)
    requires HeaderTyped(frame.header)
    ensures StateSized(s, d) ==> StateSized(t, d)
  {
    match frame.header
    case Key(k) =>
      var started := FreshState(fixed, d, k);
      DecoderState(
        KeptTables(started.tables, frame.header), MappedIfAny(started.segmentation, frame.macroblocks),
        started.filterAdjustments)
    case Inter(i) =>
      DecoderState(
        KeptTables(s.tables, frame.header),
        MappedIfAny(SegmentationAfter(d, s.segmentation, i.common.updateSegmentation), frame.macroblocks),
        AdjustmentsAfter(s.filterAdjustments, i.common.modeLfAdjustments))
  }

  /** Each macroblock caches its entry of the map. */
  function Cached(s: Option<Segmentation>, d: Dims): (ids: SegmentIds)
    requires s.Some? ==> s.value.segmentMap.width == d.width && |s.value.segmentMap.rows| == d.height
    ensures GridSized(ids, d)
  {
    seq(MacroblockDimension(d.height), r requires 0 <= r < MacroblockDimension(d.height) =>
      seq<Octet>(MacroblockDimension(d.width), i requires 0 <= i < MacroblockDimension(d.width) =>
        if s.Some? then s.value.segmentMap.rows[r][i] else 0))
  }

  /** What the decoder makes of a frame it has parsed. */
  function Decoded<R, S>(w: World<R, S>, dec: Decoder<R>, frame: Frame): (after: Decoder<R>)
    requires HeaderTyped(frame.header) && StateSized(dec.state, w.dims)
    ensures StateSized(after.state, w.dims)
  {
    var state := DecoderStateAfter(w.fixed, w.dims, dec.state, frame);
    var raster := Reconstructed(w, FrameObject(frame, Cached(state.segmentation, w.dims)), state, dec.references);
    Decoder(state, CopyTo(frame.header, raster, dec.references))
  }

  lemma ReadFrameTyped(data: Data, fixed: Fixed, d: Dims, t: Tables)
    ensures var f := ReadFrame(data, fixed, d, t);
            f.Ok? ==> HeaderTyped(f.value.header) && GridSized(f.value.macroblocks, d)
  {
    hide ParseFrame, HeaderTyped, ReadHeader, ReadBody, GridSized;
    var chunk := ParseFrame(data, d.width, d.height);
    if chunk.Ok? && !chunk.value.experimental {
      var (h, c) := ReadHeader(BoolDecoding.Opened(chunk.value.first), fixed, chunk.value.keyFrame);
      if h.Some? {
        BodyHeader(c, fixed, d, if h.value.Key? then fixed.initial else t, chunk.value.showFrame, h.value, chunk.value.rest);
      }
    }
  }

  lemma BodyHeader(c: BoolDecoding.Core, fixed: Fixed, d: Dims, t: Tables, show: bool, h: Header, rest: Data)
    requires HeaderTyped(h)
    ensures var f := ReadBody(c, fixed, d, t, show, h, rest); f.Ok? ==> f.value.header == h && GridSized(f.value.macroblocks, d)
  {}

  function Received<R, S>(w: World<R, S>, dec: Decoder<R>, data: Data): (after: Result<Decoder<R>>)
    requires StateSized(dec.state, w.dims)
    ensures after.Ok? ==> StateSized(after.value.state, w.dims)
  {
    ReadFrameTyped(data, w.fixed, w.dims, dec.state.tables);
    var frame := ReadFrame(data, w.fixed, w.dims, dec.state.tables);
    if frame.Err? then Err(frame.failure) else Ok(Decoded(w, dec, frame.value))
  }

  // ----- One step -----

  /** A frame that can be coded faithfully with these tables. */
  predicate Codable(fixed: Fixed, d: Dims, t: Tables, frame: Frame) {
    FrameTyped(frame, d) &&
    var b := BaseTables(fixed, t, frame.header);
    Serializable(d, b, frame) && LengthsFit(fixed, d, b, frame) && FrameOk(fixed, d, b, frame)
  }

  lemma TablesSettled(t: Tables, h: Header)
    requires HeaderTyped(h)
    ensures FrameTables(KeptTables(t, h), h) == FrameTables(t, h)
  {
    match h
    case Key(k) => CoeffProbUpdateIdempotent(t, k.tokenProbUpdate);
    case Inter(i) => UpdateIdempotent(t, i);
  }

  /** The serialization only depends on the tables the frame is coded with. */
  lemma SameTablesSameOutput(fixed: Fixed, d: Dims, t: Tables, u: Tables, frame: Frame)
    requires FrameTyped(frame, d) && FrameTables(t, frame.header) == FrameTables(u, frame.header)
    ensures Serialized(fixed, d, t, frame) == Serialized(fixed, d, u, frame)
  {
    hide FrameTyped, FrameTables, MH.GridSymbols, FrameTokens.PartitionTokens, Finished, Framed, HeaderSymbols, Params;
    assert FirstPartition(fixed, d, t, frame) == FirstPartition(fixed, d, u, frame);
    assert TokenPartitions(d, t, frame) == TokenPartitions(d, u, frame);
  }

  /** Although the encoder has already updated its tables when it serializes, its output is what the
      tables before the frame call for: updating twice is harmless. */
  lemma OutputIsSerialized(fixed: Fixed, d: Dims, s: DecoderState, frame: Frame)
    requires FrameTyped(frame, d)
    ensures Output(fixed, d, s, frame) == Serialized(fixed, d, BaseTables(fixed, s.tables, frame.header), frame)
  {
    hide FrameTyped, FrameTables, Serialized;
    HeaderIsTyped(frame, d);
    var b := BaseTables(fixed, s.tables, frame.header);
    assert EncoderState(fixed, d, s, frame.header).tables == KeptTables(b, frame.header);
    TablesSettled(b, frame.header);
    SameTablesSameOutput(fixed, d, KeptTables(b, frame.header), b, frame);
  }

  lemma HeaderIsTyped(frame: Frame, d: Dims)
    requires FrameTyped(frame, d)
    ensures HeaderTyped(frame.header)
  {}

  /** A decoder with the encoder's tables that is given the encoder's output decodes the very frame. */
  lemma ReceivesFrame<R, S>(w: World<R, S>, s: DecoderState, dec: Decoder<R>, frame: Frame)
    requires Codable(w.fixed, w.dims, s.tables, frame) && StateSized(dec.state, w.dims) && dec.state.tables == s.tables
    ensures HeaderTyped(frame.header)
    ensures Received(w, dec, Output(w.fixed, w.dims, s, frame)) == Ok(Decoded(w, dec, frame))
  {
    hide FrameTyped, Serialized, Serializable, LengthsFit, FrameOk, ReadFrame, Output, Decoded, HeaderTyped;
    HeaderIsTyped(frame, w.dims);
    OutputIsSerialized(w.fixed, w.dims, s, frame);
    WholeFrameRoundTrip(w.fixed, w.dims, s.tables, frame);
  }

  // ----- When the two sides agree after a frame -----

  /** A macroblock's update, if any, tells it the segment it has already. */
  predicate NoNews(update: Option<Modes.SegmentId>, id: Octet) {
    update.Some? ==> update.value == id
  }

  predicate NoNewFeatures(s: Segmentation, f: Option<SegmentFeatureData>) {
    f.Some? ==>
      && f.value.segmentFeatureMode == s.absolute
      && FourOr0(f.value.quantizerUpdate) == s.quantizer && FourOr0(f.value.loopFilterUpdate) == s.filter
  }

  /** The frame tells the decoder nothing about segments that the encoder does not follow. The encoder follows
      none of a frame's changes to the segmentation, except that a key frame starts a new one, and it never
      records segments in the map. */
  predicate StateKept(s: Option<Segmentation>, d: Dims, frame: Frame)
    requires FrameTyped(frame, d)
    requires s.Some? ==> s.value.segmentMap.width == d.width && |s.value.segmentMap.rows| == d.height
  {
    var g, u := frame.macroblocks, Common(frame.header).updateSegmentation;
    match frame.header
    case Key(_) =>
      u.Some? ==> forall r, i :: 0 <= r < |g| && 0 <= i < |g[r]| ==> NoNews(g[r][i].segmentIdUpdate, 3)
    case Inter(_) =>
      && (s.Some? <==> u.Some?)
      && (s.Some? ==>
            && NoNewFeatures(s.value, u.value.segmentFeatureData)
            && forall r, i :: 0 <= r < |g| && 0 <= i < |g[r]| ==>
                 NoNews(g[r][i].segmentIdUpdate, s.value.segmentMap.rows[r][i]))
  }

  /** Each macroblock has cached a segment with the same entries as the one that the map gives it. */
  predicate SettingsKept(s: Option<Segmentation>, d: Dims, ids: SegmentIds)
    requires GridSized(ids, d)
    requires s.Some? ==> s.value.segmentMap.width == d.width && |s.value.segmentMap.rows| == d.height
  {
    s.Some? ==>
      forall r, i :: 0 <= r < |ids| && 0 <= i < |ids[r]| ==>
        EntryOf(s.value, ids[r][i]) == EntryOf(s.value, s.value.segmentMap.rows[r][i])
  }

  /** The reconstructed frame becomes a reference. */
  predicate Stored(h: Header) {
    h.Key? || h.inter.refreshLast || h.inter.references.refreshGoldenFrame || h.inter.references.refreshAlternateFrame
  }

  /** What must hold of a frame for the two sides to agree after it. */
  predicate Kept(fixed: Fixed, s: DecoderState, d: Dims, x: FrameObject)
    requires ObjectTyped(x, d) && StateSized(s, d)
  {
    HeaderIsTyped(x.frame, d);
    && StateKept(s.segmentation, d, x.frame)
    && (Stored(x.frame.header) ==> SettingsKept(EncoderState(fixed, d, s, x.frame.header).segmentation, d, x.segmentIds))
  }

  lemma FewerMacroblocks(n: nat)
    requires n > 0
    ensures MacroblockDimension(n) <= n
  {}

  /** Recording a frame's segments changes nothing exactly if there is no news among them. */
  lemma MappedSame(s: Segmentation, d: Dims, g: MH.Grid)
    requires s.segmentMap.width == d.width && |s.segmentMap.rows| == d.height
    requires GridSized(g, d)
    ensures s.Mapped(g) == s <==>
            forall r, i :: 0 <= r < |g| && 0 <= i < |g[r]| ==> NoNews(g[r][i].segmentIdUpdate, s.segmentMap.rows[r][i])
  {
    hide MacroblockDimension;
    FewerMacroblocks(d.width);
    FewerMacroblocks(d.height);
    var m, after := s.segmentMap, MappedTo(s.segmentMap, g);
    if after == m {
      forall r, i | 0 <= r < |g| && 0 <= i < |g[r]| ensures NoNews(g[r][i].segmentIdUpdate, m.rows[r][i]) {
        assert after.rows[r][i] == UpdatedId(g[r][i], m.rows[r][i]);
      }
    }
    if forall r, i :: 0 <= r < |g| && 0 <= i < |g[r]| ==> NoNews(g[r][i].segmentIdUpdate, m.rows[r][i]) {
      forall r | 0 <= r < |m.rows| ensures after.rows[r] == m.rows[r] {}
      assert after.rows == m.rows;
    }
  }

  /** After one frame both sides have the same state if and only if it tells nothing new about segments;
      tables and filter adjustments agree in any case. */
  lemma SameState(fixed: Fixed, d: Dims, s: DecoderState, frame: Frame)
    requires FrameTyped(frame, d) && StateSized(s, d)
    ensures HeaderTyped(frame.header)
    ensures var t, u := EncoderState(fixed, d, s, frame.header), DecoderStateAfter(fixed, d, s, frame);
            && (t == u <==> StateKept(s.segmentation, d, frame))
            && t.tables == u.tables && t.filterAdjustments == u.filterAdjustments
  {
    HeaderIsTyped(frame, d);
    hide FrameTables, AdjustmentsAfter, HeaderTyped, NoNews, MappedTo;
    match frame.header
    case Key(k) =>
      var h := k.common.updateSegmentation;
      if h.Some? {
        NewMapSame(d, h.value, frame.macroblocks);
      }
    case Inter(i) =>
      var h := i.common.updateSegmentation;
      if s.segmentation.Some? && h.Some? {
        UpdatedSame(s.segmentation.value, d, h.value, frame.macroblocks);
      }
  }

  lemma NewMapSame(d: Dims, h: UpdateSegmentation, g: MH.Grid)
    requires GridSized(g, d)
    ensures var n := NewSegmentation(d, h);
            n.Mapped(g) == n <==>
            forall r, i :: 0 <= r < |g| && 0 <= i < |g[r]| ==> NoNews(g[r][i].segmentIdUpdate, 3)
  {
    hide NoNews, MappedTo, MacroblockDimension;
    FewerMacroblocks(d.width);
    FewerMacroblocks(d.height);
    MappedSame(NewSegmentation(d, h), d, g);
  }

  lemma UpdatedSame(s: Segmentation, d: Dims, h: UpdateSegmentation, g: MH.Grid)
    requires s.segmentMap.width == d.width && |s.segmentMap.rows| == d.height
    requires GridSized(g, d)
    ensures s.Updated(h).Mapped(g) == s <==>
            NoNewFeatures(s, h.segmentFeatureData)
            && forall r, i :: 0 <= r < |g| && 0 <= i < |g[r]| ==> NoNews(g[r][i].segmentIdUpdate, s.segmentMap.rows[r][i])
  {
    hide NoNews, MappedTo, FourOr0;
    MappedSame(s.Updated(h), d, g);
  }

  /** The macroblocks look up the same settings on both sides if and only if the segments they have cached
      have the entries of those in the map. */
  lemma SameSettings(s: Option<Segmentation>, d: Dims, ids: SegmentIds)
    requires GridSized(ids, d)
    requires s.Some? ==> s.value.segmentMap.width == d.width && |s.value.segmentMap.rows| == d.height
    ensures SettingsOf(s, ids) == SettingsOf(s, Cached(s, d)) <==> SettingsKept(s, d, ids)
  {
    hide EntryOf, MacroblockDimension;
    FewerMacroblocks(d.width);
    FewerMacroblocks(d.height);
    if s.Some? {
      var a, b := SettingsOf(s, ids).value.entries, SettingsOf(s, Cached(s, d)).value.entries;
      if a == b {
        forall r, i | 0 <= r < |ids| && 0 <= i < |ids[r]|
          ensures EntryOf(s.value, ids[r][i]) == EntryOf(s.value, s.value.segmentMap.rows[r][i])
        {
          assert a[r][i] == b[r][i];
        }
      }
      if SettingsKept(s, d, ids) {
        forall r | 0 <= r < |ids| ensures a[r] == b[r] {}
      }
    }
  }

  /** After this frame the decoder, given the output, is in the encoder's state. */
  predicate Agree<R(==), S>(w: World<R, S>, e: Encoder<R, S>, x: FrameObject)
    requires HeaderTyped(x.frame.header) && StateSized(e.state, w.dims)
  {
    var e' := Advanced(w, e, x);
    Decoded(w, Decoder(e.state, e.references), x.frame) == Decoder(e'.state, e'.references)
  }

  lemma KeptAgree<R, S>(w: World<R, S>, e: Encoder<R, S>, x: FrameObject)
    requires ObjectTyped(x, w.dims) && StateSized(e.state, w.dims) && Kept(w.fixed, e.state, w.dims, x)
    ensures HeaderTyped(x.frame.header) && Agree(w, e, x)
  {
    HeaderIsTyped(x.frame, w.dims);
    SameState(w.fixed, w.dims, e.state, x.frame);
    var t := EncoderState(w.fixed, w.dims, e.state, x.frame.header);
    SameSettings(t.segmentation, w.dims, x.segmentIds);
    hide FrameTyped, EncoderState, DecoderStateAfter, SettingsOf, StateKept, SettingsKept, HeaderTyped, GridSized, Cached;
  }

  /** A reconstruction that tells these settings from all others. */
  function Telling<R, S>(w: World<R, S>, settings: Option<Settings>, one: R, other: R): World<R, S> {
    w.Painting((f, s, a) => if s == settings then one else other, (f, s, a, refs) => if s == settings then one else other)
  }

  lemma AgreeKept<R, S>(w: World<R, S>, e: Encoder<R, S>, x: FrameObject, one: R, other: R)
    requires ObjectTyped(x, w.dims) && StateSized(e.state, w.dims) && one != other
    requires HeaderTyped(x.frame.header)
    requires var t := EncoderState(w.fixed, w.dims, e.state, x.frame.header);
             Agree(Telling(w, SettingsOf(t.segmentation, x.segmentIds), one, other), e, x)
    ensures Kept(w.fixed, e.state, w.dims, x)
  {
    SameState(w.fixed, w.dims, e.state, x.frame);
    var t := EncoderState(w.fixed, w.dims, e.state, x.frame.header);
    SameSettings(t.segmentation, w.dims, x.segmentIds);
    hide FrameTyped, EncoderState, DecoderStateAfter, SettingsOf, StateKept, SettingsKept, HeaderTyped, GridSized, Cached;
  }

  // ----- Runs -----

  predicate RunTyped(d: Dims, run: seq<FrameObject>) {
    forall i :: 0 <= i < |run| ==> ObjectTyped(run[i], d)
  }

  /** The state does not depend on how pixels are reconstructed. */
  function StateAfter(fixed: Fixed, d: Dims, s: DecoderState, run: seq<FrameObject>): (t: DecoderState)
    requires RunTyped(d, run)
    ensures StateSized(s, d) ==> StateSized(t, d)
  {
    if run == [] then s
    else
      var n := |run| - 1;
      HeaderIsTyped(run[n].frame, d);
      EncoderState(fixed, d, StateAfter(fixed, d, s, run[..n]), run[n].frame.header)
  }

  function EncoderAfter<R, S>(w: World<R, S>, e: Encoder<R, S>, run: seq<FrameObject>): (e': Encoder<R, S>)
    requires RunTyped(w.dims, run)
    ensures e'.state == StateAfter(w.fixed, w.dims, e.state, run)
  {
    if run == [] then e
    else
      var n := |run| - 1;
      HeaderIsTyped(run[n].frame, w.dims);
      Advanced(w, EncoderAfter(w, e, run[..n]), run[n])
  }

  function Outputs(fixed: Fixed, d: Dims, s: DecoderState, run: seq<FrameObject>): (data: seq<Data>)
    requires RunTyped(d, run)
    ensures |data| == |run|
  {
    if run == [] then []
    else
      var n := |run| - 1;
      Outputs(fixed, d, s, run[..n]) + [Output(fixed, d, StateAfter(fixed, d, s, run[..n]), run[n].frame)]
  }

  function DecoderAfter<R, S>(w: World<R, S>, dec: Decoder<R>, data: seq<Data>): (after: Result<Decoder<R>>)
    requires StateSized(dec.state, w.dims)
    ensures after.Ok? ==> StateSized(after.value.state, w.dims)
  {
    if data == [] then Ok(dec)
    else
      var n := |data| - 1;
      var d := DecoderAfter(w, dec, data[..n]);
      if d.Err? then d else Received(w, d.value, data[n])
  }

  /** Every frame can be coded with the tables the encoder has by then. */
  predicate RunCodable(fixed: Fixed, d: Dims, s: DecoderState, run: seq<FrameObject>)
    requires RunTyped(d, run)
  {
    run == [] ||
    var n := |run| - 1;
    RunCodable(fixed, d, s, run[..n]) && Codable(fixed, d, StateAfter(fixed, d, s, run[..n]).tables, run[n].frame)
  }

  predicate RunKept(fixed: Fixed, d: Dims, s: DecoderState, run: seq<FrameObject>)
    requires RunTyped(d, run) && StateSized(s, d)
  {
    run == [] ||
    var n := |run| - 1;
    RunKept(fixed, d, s, run[..n]) && Kept(fixed, StateAfter(fixed, d, s, run[..n]), d, run[n])
  }

  /** After these frames the decoder that was given the output is in the encoder's state. */
  ghost predicate InStep<R, S>(w: World<R, S>, e: Encoder<R, S>, run: seq<FrameObject>)
    requires RunTyped(w.dims, run) && StateSized(e.state, w.dims)
  {
    var e' := EncoderAfter(w, e, run);
    DecoderAfter(w, Decoder(e.state, e.references), Outputs(w.fixed, w.dims, e.state, run))
      == Ok(Decoder(e'.state, e'.references))
  }

  /** The decoder has been in the encoder's state after every frame. */
  ghost predicate AlwaysInStep<R, S>(w: World<R, S>, e: Encoder<R, S>, run: seq<FrameObject>)
    requires RunTyped(w.dims, run) && StateSized(e.state, w.dims)
  {
    run == [] || (AlwaysInStep(w, e, run[..|run| - 1]) && InStep(w, e, run))
  }

  lemma AlwaysMeansNow<R, S>(w: World<R, S>, e: Encoder<R, S>, run: seq<FrameObject>)
    requires RunTyped(w.dims, run) && StateSized(e.state, w.dims)
    ensures AlwaysInStep(w, e, run) ==> InStep(w, e, run)
  {
    hide ObjectTyped, Output, Received, Advanced;
  }

  /** The last step of a run. */
  lemma Unfolded<R, S>(w: World<R, S>, e: Encoder<R, S>, run: seq<FrameObject>)
    requires run != [] && RunTyped(w.dims, run) && StateSized(e.state, w.dims)
    ensures var n, data := |run| - 1, Outputs(w.fixed, w.dims, e.state, run);
            var before, dec := EncoderAfter(w, e, run[..n]), Decoder(e.state, e.references);
            && ObjectTyped(run[n], w.dims) && HeaderTyped(run[n].frame.header)
            && EncoderAfter(w, e, run) == Advanced(w, before, run[n])
            && before.state == StateAfter(w.fixed, w.dims, e.state, run[..n]) && StateSized(before.state, w.dims)
            && data[n] == Output(w.fixed, w.dims, before.state, run[n].frame)
            && DecoderAfter(w, dec, data)
               == var d := DecoderAfter(w, dec, Outputs(w.fixed, w.dims, e.state, run[..n]));
                  if d.Err? then d else Received(w, d.value, data[n])
  {
    hide FrameTyped, GridSized, Output, Received, Advanced, HeaderTyped, EncoderState, StateSized;
    var n := |run| - 1;
    HeaderIsTyped(run[n].frame, w.dims);
    assert Outputs(w.fixed, w.dims, e.state, run)[..n] == Outputs(w.fixed, w.dims, e.state, run[..n]);
  }

  lemma RunStep<R, S>(w: World<R, S>, e: Encoder<R, S>, run: seq<FrameObject>)
    requires run != [] && RunTyped(w.dims, run) && StateSized(e.state, w.dims)
    requires RunCodable(w.fixed, w.dims, e.state, run) && InStep(w, e, run[..|run| - 1])
    ensures HeaderTyped(run[|run| - 1].frame.header)
    ensures InStep(w, e, run) <==> Agree(w, EncoderAfter(w, e, run[..|run| - 1]), run[|run| - 1])
  {
    hide ObjectTyped, Codable, Output, Received, Advanced, Decoded, HeaderTyped, EncoderAfter, DecoderAfter, Outputs, StateAfter,
      StateSized;
    Unfolded(w, e, run);
    var n := |run| - 1;
    var before := EncoderAfter(w, e, run[..n]);
    ReceivesFrame(w, before.state, Decoder(before.state, before.references), run[n].frame);
  }

  /** If every frame satisfies the condition, the two sides never part, however pixels are reconstructed. */
  lemma {:induction false} KeptInStep<R, S>(w: World<R, S>, e: Encoder<R, S>, run: seq<FrameObject>)
    requires RunTyped(w.dims, run) && StateSized(e.state, w.dims)
    requires RunCodable(w.fixed, w.dims, e.state, run) && RunKept(w.fixed, w.dims, e.state, run)
    ensures AlwaysInStep(w, e, run)
    decreases |run|
  {
    hide ObjectTyped, Codable, Kept, InStep, Agree, HeaderTyped;
    if run != [] {
      var n := |run| - 1;
      KeptInStep(w, e, run[..n]);
      AlwaysMeansNow(w, e, run[..n]);
      RunStep(w, e, run);
      KeptAgree(w, EncoderAfter(w, e, run[..n]), run[n]);
    }
  }

  /** The two sides never part, however pixels are reconstructed. */
  ghost predicate InStepHoweverPainted<R(!new), S>(w: World<R, S>, e: Encoder<R, S>, run: seq<FrameObject>)
    requires RunTyped(w.dims, run) && StateSized(e.state, w.dims)
  {
    forall key: KeyPainter<R>, inter: InterPainter<R> :: AlwaysInStep(w.Painting(key, inter), e, run)
  }

  lemma {:induction false} InStepKept<R(!new), S>(w: World<R, S>, e: Encoder<R, S>, run: seq<FrameObject>, one: R, other: R)
    requires RunTyped(w.dims, run) && StateSized(e.state, w.dims) && one != other
    requires RunCodable(w.fixed, w.dims, e.state, run) && InStepHoweverPainted(w, e, run)
    ensures RunKept(w.fixed, w.dims, e.state, run)
    decreases |run|
  {
    hide FrameTyped, GridSized, Codable, Kept, InStep, Agree, HeaderTyped, SettingsOf;
    if run != [] {
      var n := |run| - 1;
      InStepKept(w, e, run[..n], one, other);
      HeaderIsTyped(run[n].frame, w.dims);
      var t := EncoderState(w.fixed, w.dims, StateAfter(w.fixed, w.dims, e.state, run[..n]), run[n].frame.header);
      var v := Telling(w, SettingsOf(t.segmentation, run[n].segmentIds), one, other);
      AlwaysMeansNow(v, e, run);
      AlwaysMeansNow(v, e, run[..n]);
      RunStep(v, e, run);
      AgreeKept(w, EncoderAfter(v, e, run[..n]), run[n], one, other);
    }
  }

  /** Lockstep, exactly: over every run of codable frames, a decoder started in the encoder's state and given
      the encoder's output agrees with it after every frame (tables, adjustments, segmentation and all three
      references), however pixels are reconstructed, if and only if no frame tells the decoder anything about
      segments that the encoder does not follow, and in every frame that becomes a reference the segments
      cached by the macroblocks have the entries of those in the map. */
  lemma Lockstep<R(!new), S>(w: World<R, S>, e: Encoder<R, S>, run: seq<FrameObject>, one: R, other: R)
    requires RunTyped(w.dims, run) && StateSized(e.state, w.dims) && one != other
    requires RunCodable(w.fixed, w.dims, e.state, run)
    ensures InStepHoweverPainted(w, e, run) <==> RunKept(w.fixed, w.dims, e.state, run)
  {
    hide RunTyped, RunCodable, RunKept, AlwaysInStep, StateSized;
    if InStepHoweverPainted(w, e, run) { InStepKept(w, e, run, one, other); }
    if RunKept(w.fixed, w.dims, e.state, run) {
      forall key: KeyPainter<R>, inter: InterPainter<R> ensures AlwaysInStep(w.Painting(key, inter), e, run) {
        KeptInStep(w.Painting(key, inter), e, run);
      }
    }
  }

  lemma SameTables(fixed: Fixed, d: Dims, s: DecoderState, t: DecoderState, frame: Frame)
    requires HeaderTyped(frame.header) && s.tables == t.tables && s.filterAdjustments == t.filterAdjustments
    ensures var u, v := EncoderState(fixed, d, s, frame.header), DecoderStateAfter(fixed, d, t, frame);
            u.tables == v.tables && u.filterAdjustments == v.filterAdjustments
  {
    hide KeptTables, AdjustmentsAfter, NewSegmentation, HeaderTyped;
  }

  /** Whatever becomes of segmentation and references, the decoder can parse every frame, and its tables and
      filter adjustments are the encoder's. */
  lemma {:induction false} TablesNeverPart<R, S>(w: World<R, S>, e: Encoder<R, S>, run: seq<FrameObject>)
    requires RunTyped(w.dims, run) && StateSized(e.state, w.dims) && RunCodable(w.fixed, w.dims, e.state, run)
    ensures var t := StateAfter(w.fixed, w.dims, e.state, run);
            var dec := DecoderAfter(w, Decoder(e.state, e.references), Outputs(w.fixed, w.dims, e.state, run));
            && dec.Ok? && dec.value.state.tables == t.tables && dec.value.state.filterAdjustments == t.filterAdjustments
            && (run != [] ==>
                  var n := |run| - 1;
                  HeaderTyped(run[n].frame.header)
                  && dec.value.state.segmentation.Some? == Common(run[n].frame.header).updateSegmentation.Some?)
    decreases |run|
  {
    hide FrameTyped, Codable, Output, Received, Decoded, HeaderTyped, EncoderState, GridSized, DecoderStateAfter;
    if run != [] {
      var n := |run| - 1;
      TablesNeverPart(w, e, run[..n]);
      var data := Outputs(w.fixed, w.dims, e.state, run);
      assert data[..n] == Outputs(w.fixed, w.dims, e.state, run[..n]);
      var dec := DecoderAfter(w, Decoder(e.state, e.references), data[..n]).value;
      var t := StateAfter(w.fixed, w.dims, e.state, run[..n]);
      ReceivesFrame(w, t, dec, run[n].frame);
      SameTables(w.fixed, w.dims, t, dec.state, run[n].frame);
      SegmentedAsTold(w, dec, run[n].frame);
    }
  }

  /** After a frame the decoder has a segmentation exactly if the frame's header has one. */
  lemma SegmentedAsTold<R, S>(w: World<R, S>, dec: Decoder<R>, frame: Frame)
    requires HeaderTyped(frame.header) && StateSized(dec.state, w.dims)
    ensures Decoded(w, dec, frame).state == DecoderStateAfter(w.fixed, w.dims, dec.state, frame)
    ensures Decoded(w, dec, frame).state.segmentation.Some? == Common(frame.header).updateSegmentation.Some?
  {
    hide KeptTables, AdjustmentsAfter, NewSegmentation, HeaderTyped, CopyTo, Reconstructed;
  }

  // ----- What becomes of the tables -----

  /** What a frame's updates leave of the tables they are applied to. */
  predicate UpdatedAsTold(t: Tables, u: Tables, h: Header) {
    var updates := if h.Key? then h.key.tokenProbUpdate else h.inter.tokenProbUpdate;
    && (forall i :: 0 <= i < TOKEN_PROB_COUNT ==>
          u.coeff[i] == if updates[i].Some? then AsProb(updates[i].value) else t.coeff[i])
    && (h.Key? ==> u.yMode == t.yMode && u.uvMode == t.uvMode && u.mv == t.mv)
    && (h.Inter? ==>
          && (forall i :: 0 <= i < MV_PROB_COUNT ==>
                u.mv[i] == var v := h.inter.probs.mvProbUpdate[i]; if v.Some? then ReadHalfProb(AsProb(v.value)) else t.mv[i])
          && (h.inter.probs.intra16x16Prob.None? ==> u.yMode == t.yMode)
          && (h.inter.probs.intraChromaProb.None? ==> u.uvMode == t.uvMode)
          && (h.inter.probs.intra16x16Prob.Some? ==>
                var y := h.inter.probs.intra16x16Prob.value;
                |y| == 4 && forall i :: 0 <= i < 4 ==> u.yMode[i] == AsProb(y[i].GetOr(0)))
          && (h.inter.probs.intraChromaProb.Some? ==>
                var uv := h.inter.probs.intraChromaProb.value;
                |uv| == 3 && forall i :: 0 <= i < 3 ==> u.uvMode[i] == AsProb(uv[i].GetOr(0))))
  }

  /** After a run, a frame that does not refresh the probabilities leaves no trace in the tables, whatever updates it
      was itself coded with; one that does leaves exactly its updates. Key frames start from the initial tables. */
  lemma TablesKept(fixed: Fixed, d: Dims, s: DecoderState, run: seq<FrameObject>, x: FrameObject)
    requires RunTyped(d, run) && ObjectTyped(x, d)
    ensures RunTyped(d, run + [x])
    ensures var h := x.frame.header;
            var t, u := StateAfter(fixed, d, s, run).tables, StateAfter(fixed, d, s, run + [x]).tables;
            var refresh := if h.Key? then h.key.refreshEntropyProbs else h.inter.refreshEntropyProbs;
            && (!refresh ==> u == if h.Key? then fixed.initial else t)
            && (refresh ==> UpdatedAsTold(if h.Key? then fixed.initial else t, u, h))
  {
    hide FrameTyped, GridSized, NewSegmentation, AdjustmentsAfter, UpdatedAsTold, FrameTables;
    HeaderIsTyped(x.frame, d);
    assert (run + [x])[..|run|] == run;
    var h, s1 := x.frame.header, StateAfter(fixed, d, s, run);
    assert StateAfter(fixed, d, s, run + [x]) == EncoderState(fixed, d, s1, h);
    FrameTablesAsTold(if h.Key? then fixed.initial else s1.tables, h);
  }

  lemma FrameTablesAsTold(t: Tables, h: Header)
    requires HeaderTyped(h)
    ensures UpdatedAsTold(t, FrameTables(t, h), h)
  {}

  /** After a frame there are filter adjustments if and only if its header says so. Entries that the header updates
      are replaced, all eight of them; otherwise they stay what they were, or zero if there were none. A key frame
      starts from none. */
  lemma AdjustmentsKept(fixed: Fixed, d: Dims, s: DecoderState, h: Header, i: nat)
    requires HeaderTyped(h) && i < 4
    ensures var u, t := Common(h).modeLfAdjustments, EncoderState(fixed, d, s, h).filterAdjustments;
            && (t.Some? <==> u.Some?)
            && (u == Some(None) ==>
                  t.value.reference[i] == (if h.Inter? && s.filterAdjustments.Some? then s.filterAdjustments.value.reference[i] else 0)
                  && t.value.mode[i] == (if h.Inter? && s.filterAdjustments.Some? then s.filterAdjustments.value.mode[i] else 0))
            && (u.Some? && u.value.Some? ==>
                  t.value.reference[i] == AsInt8(u.value.value.refUpdate[i].GetOr(0))
                  && t.value.mode[i] == AsInt8(u.value.value.modeUpdate[i].GetOr(0)))
  {
    hide KeptTables, NewSegmentation, HeaderTyped, AsInt8;
  }

  predicate NoSegmentation(run: seq<FrameObject>) {
    forall i :: 0 <= i < |run| ==> Common(run[i].frame.header).updateSegmentation.None?
  }

  lemma {:induction false} NoSegmentationKept(fixed: Fixed, d: Dims, s: DecoderState, run: seq<FrameObject>)
    requires RunTyped(d, run) && NoSegmentation(run) && s.segmentation.None?
    ensures RunKept(fixed, d, s, run) && StateAfter(fixed, d, s, run).segmentation.None?
    decreases |run|
  {
    hide ObjectTyped, KeptTables, AdjustmentsAfter;
    if run != [] {
      NoSegmentationKept(fixed, d, s, run[..|run| - 1]);
    }
  }

  /** Without segmentation the two sides never part. */
  lemma LockstepWithoutSegmentation<R, S>(w: World<R, S>, e: Encoder<R, S>, run: seq<FrameObject>)
    requires RunTyped(w.dims, run) && RunCodable(w.fixed, w.dims, e.state, run)
    requires NoSegmentation(run) && e.state.segmentation.None?
    ensures AlwaysInStep(w, e, run)
  {
    hide AlwaysInStep, RunCodable, RunKept, NoSegmentation, RunTyped;
    NoSegmentationKept(w.fixed, w.dims, e.state, run);
    KeptInStep(w, e, run);
  }

  /** The references with margins always mirror the references. */
  lemma {:induction false} SafeReferencesMirror<R, S>(w: World<R, S>, e: Encoder<R, S>, run: seq<FrameObject>)
    requires RunTyped(w.dims, run) && e.safeReferences == Loaded(w, e.references)
    ensures var e' := EncoderAfter(w, e, run); e'.safeReferences == Loaded(w, e'.references)
    decreases |run|
  {
    hide ObjectTyped, KeptTables, AdjustmentsAfter, CopyTo, Reconstructed, EncoderState;
    if run != [] {
      SafeReferencesMirror(w, e, run[..|run| - 1]);
    }
  }
}
