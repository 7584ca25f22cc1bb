/** The state that persists from frame to frame on both sides: probability tables, filter adjustments,
    segmentation and reference frames (src/decoder/decoder.hh, src/decoder/decoder_state.hh,
    src/decoder/decoder.cc, src/decoder/frame.cc). */
module DecoderStates {
  import opened Wrappers
  import opened Grids
  import opened BoolCoding
  import opened HeaderFields
  import opened FrameHeaders
  import opened ProbabilityTables
  import opened FrameCodec
  import opened Packets
  import Modes
  import MH = MacroblockHeaders

  type FourBytes = s: seq<Int8> | |s| == 4 witness [0, 0, 0, 0]

  /** The conversion of a number that is stored in eight bits with a sign. */
  function AsInt8(x: int): Int8 {
    (x + 128) % 256 - 128
  }

  /** Numbers that fit are stored as they are; others lose what does not fit. */
  lemma StoredInEightBits(x: int)
    ensures -128 <= x < 128 ==> AsInt8(x) == x
    ensures AsInt8(x + 256) == AsInt8(x)
  {}

  /** Missing updates count as zero. */
  function FourOr0(vs: Four): FourBytes {
    [AsInt8(vs[0].GetOr(0)), AsInt8(vs[1].GetOr(0)), AsInt8(vs[2].GetOr(0)), AsInt8(vs[3].GetOr(0))]
  }

  datatype FilterAdjustments = FilterAdjustments(reference: FourBytes, mode: FourBytes) {
    function Updated(h: Option<ModeRefLFDeltaUpdate>): FilterAdjustments {
      if h.Some? then FilterAdjustments(FourOr0(h.value.refUpdate), FourOr0(h.value.modeUpdate)) else this
    }
  }

  /** An update replaces all entries, missing ones by zero; those that a header can hold fit eight bits. */
  lemma UpdateReplaces(a: FilterAdjustments, h: ModeRefLFDeltaUpdate, i: nat)
    requires i < 4
    requires -128 <= h.refUpdate[i].GetOr(0) < 128 && -128 <= h.modeUpdate[i].GetOr(0) < 128
    ensures a.Updated(Some(h)).reference[i] == h.refUpdate[i].GetOr(0)
    ensures a.Updated(Some(h)).mode[i] == h.modeUpdate[i].GetOr(0)
  {}

  const NO_ADJUSTMENTS: FilterAdjustments := FilterAdjustments([0, 0, 0, 0], [0, 0, 0, 0])

  /** Kept while frames have adjustments, forgotten when one does not. */
  function AdjustmentsAfter(
      fa: Option<FilterAdjustments>, h: Option<Option<ModeRefLFDeltaUpdate>>): Option<FilterAdjustments> {
    if h.Some? then Some(fa.GetOr(NO_ADJUSTMENTS).Updated(h.value)) else None
  }

  /** The segment of each macroblock. The map has an entry for every pixel, of which only as many in each row
      and column are used as there are macroblocks. */
  datatype RawSegmentMap = SegmentMap(width: UInt16, rows: seq<seq<Octet>>)
  type SegmentMap = m: RawSegmentMap | |m.rows| < 0x1_0000 && IsGrid(m.rows, m.width) witness SegmentMap(0, [])

  datatype Segmentation = Segmentation(absolute: bool, quantizer: FourBytes, filter: FourBytes, segmentMap: SegmentMap) {
    function Updated(h: UpdateSegmentation): Segmentation {
      if h.segmentFeatureData.Some? then
        var f := h.segmentFeatureData.value;
        Segmentation(f.segmentFeatureMode, FourOr0(f.quantizerUpdate), FourOr0(f.loopFilterUpdate), segmentMap)
      else this
    }

    /** The segments of a frame's macroblocks are recorded. */
    function Mapped(grid: MH.Grid): Segmentation {
      this.(segmentMap := MappedTo(segmentMap, grid))
    }
  }

  function MappedTo(m: SegmentMap, grid: MH.Grid): SegmentMap {
    var rows := seq(|m.rows|, r requires 0 <= r < |m.rows| =>
      seq<Octet>(m.width, i requires 0 <= i < m.width =>
        if r < |grid| && i < |grid[r]| then UpdatedId(grid[r][i], m.rows[r][i]) else m.rows[r][i]));
    SegmentMap(m.width, rows)
  }

  function UpdatedId(mb: Modes.Macroblock, id: Octet): Octet {
    if mb.segmentIdUpdate.Some? then mb.segmentIdUpdate.value else id
  }

  function NewMap(d: Dims): SegmentMap {
    SegmentMap(d.width, seq(d.height, _ => seq<Octet>(d.width, _ => 3)))
  }

  function NewSegmentation(d: Dims, h: UpdateSegmentation): Segmentation {
    Segmentation(false, [0, 0, 0, 0], [0, 0, 0, 0], NewMap(d)).Updated(h)
  }

  /** A new segmentation puts every macroblock into segment 3; its entries are those of the header, or relative and zero
      if the header has none. An update without entries changes nothing. */
  lemma SegmentationAsTold(d: Dims, h: UpdateSegmentation, was: Segmentation, i: nat)
    requires i < 4
    ensures var n, u := NewSegmentation(d, h), was.Updated(h);
            && n.segmentMap.width == d.width && |n.segmentMap.rows| == d.height && u.segmentMap == was.segmentMap
            && (forall r, k :: 0 <= r < d.height && 0 <= k < d.width ==> n.segmentMap.rows[r][k] == 3)
            && (h.segmentFeatureData.None? ==> u == was && !n.absolute && n.quantizer[i] == 0 && n.filter[i] == 0)
            && (h.segmentFeatureData.Some? ==>
                  var f := h.segmentFeatureData.value;
                  && n.absolute == u.absolute == f.segmentFeatureMode
                  && n.quantizer[i] == u.quantizer[i] == AsInt8(f.quantizerUpdate[i].GetOr(0))
                  && n.filter[i] == u.filter[i] == AsInt8(f.loopFilterUpdate[i].GetOr(0)))
  {
    hide AsInt8;
  }

  datatype DecoderState = DecoderState(
    tables: Tables, segmentation: Option<Segmentation>, filterAdjustments: Option<FilterAdjustments>)

  /** The state that a key frame starts from. */
  function FreshState(fixed: Fixed, d: Dims, h: KeyFrameHeader): DecoderState {
    var s := h.common.updateSegmentation;
    DecoderState(
      fixed.initial,
      if s.Some? then Some(NewSegmentation(d, s.value)) else None,
      AdjustmentsAfter(None, h.common.modeLfAdjustments))
  }

  /** The tables that stay, given those the frame is coded with. */
  function KeptTables(t: Tables, h: Header): Tables
    requires HeaderTyped(h)
  {
    if (if h.Key? then h.key.refreshEntropyProbs else h.inter.refreshEntropyProbs) then FrameTables(t, h) else t
  }

  // ----- Reference frames -----

  datatype References<R> = References(last: R, golden: R, alternative: R)

  /** Which reference a copy takes: 1 stands for the last frame, 2 for the other buffer. */
  function Copied<R>(v: Value, current: R, last: R, other: R): R {
    if v == Some(1) then last else if v == Some(2) then other else current
  }

  /** Where a reconstructed frame goes. The alternative buffer is copied first. */
  function CopyTo<R>(h: Header, raster: R, refs: References<R>): References<R> {
    match h
    case Key(_) => References(raster, raster, raster)
    case Inter(i) =>
      var u := i.references;
      var alternative := Copied(u.copyBufferToAlternate, refs.alternative, refs.last, refs.golden);
      var golden := Copied(u.copyBufferToGolden, refs.golden, refs.last, alternative);
      References(
        if i.refreshLast then raster else refs.last,
        if u.refreshGoldenFrame then raster else golden,
        if u.refreshAlternateFrame then raster else alternative)
  }

  /** Where things must end up, buffer by buffer. A key frame replaces all three. In an inter frame the last buffer
      only changes if it is refreshed; a refreshed buffer holds the new raster; otherwise flag 1 brings in the
      previous last frame, flag 2 the other buffer, and any other flag, or none, keeps what was there. What flag 2
      brings into golden is the alternative as its own copy has left it, so two flags 2 do not swap the buffers. */
  ghost predicate Placed<R>(h: Header, raster: R, was: References<R>, now: References<R>) {
    match h
    case Key(_) => now.last == raster && now.golden == raster && now.alternative == raster
    case Inter(i) =>
      var u := i.references;
      var toGolden, toAlternative := u.copyBufferToGolden, u.copyBufferToAlternate;
      && now.last == (if i.refreshLast then raster else was.last)
      && (u.refreshAlternateFrame ==> now.alternative == raster)
      && (!u.refreshAlternateFrame ==>
            && (toAlternative == Some(1) ==> now.alternative == was.last)
            && (toAlternative == Some(2) ==> now.alternative == was.golden)
            && (toAlternative !in {Some(1), Some(2)} ==> now.alternative == was.alternative))
      && (u.refreshGoldenFrame ==> now.golden == raster)
      && (!u.refreshGoldenFrame ==>
            && (toGolden == Some(1) ==> now.golden == was.last)
            && (toGolden == Some(2) && toAlternative == Some(1) ==> now.golden == was.last)
            && (toGolden == Some(2) && toAlternative == Some(2) ==> now.golden == was.golden)
            && (toGolden == Some(2) && toAlternative !in {Some(1), Some(2)} ==> now.golden == was.alternative)
            && (toGolden !in {Some(1), Some(2)} ==> now.golden == was.golden))
  }

  /** The order of the copies and refreshes puts everything there, and nothing else is right. */
  lemma CopyToPlaces<R>(h: Header, raster: R, was: References<R>, now: References<R>)
    ensures Placed(h, raster, was, now) <==> now == CopyTo(h, raster, was)
  {}

  /** Both flags 2 and no refresh: golden and alternative both end as the old golden. */
  lemma FlagsTwoDoNotSwap<R>(h: Header, raster: R, was: References<R>)
    requires h.Inter?
    requires var u := h.inter.references;
             && !u.refreshGoldenFrame && !u.refreshAlternateFrame
             && u.copyBufferToGolden == Some(2) && u.copyBufferToAlternate == Some(2)
    ensures CopyTo(h, raster, was).golden == CopyTo(h, raster, was).alternative == was.golden
  {}

  class ReferenceBuffers<R(0)> {
    var last: R
    var golden: R
    var alternative: R

    function Contents(): References<R>
      reads this
    {
      References(last, golden, alternative)
    }

    constructor (refs: References<R>)
      ensures Contents() == refs
    {
      last, golden, alternative := refs.last, refs.golden, refs.alternative;
    }

    method Receive(h: Header, raster: R)
      modifies this
      ensures Contents() == CopyTo(h, raster, old(Contents()))
      ensures Placed(h, raster, old(Contents()), Contents())
    {
      ghost var was := Contents();
      CopyToPlaces(h, raster, was, CopyTo(h, raster, was));
      if h.Key? {
        last, golden, alternative := raster, raster, raster;
        return;
      }
      var u := h.inter.references;
      if u.copyBufferToAlternate.Some? {
        if u.copyBufferToAlternate.value == 1 {
          alternative := last;
        } else if u.copyBufferToAlternate.value == 2 {
          alternative := golden;
        }
      }
      if u.copyBufferToGolden.Some? {
        if u.copyBufferToGolden.value == 1 {
          golden := last;
        } else if u.copyBufferToGolden.value == 2 {
          golden := alternative;
        }
      }
      if u.refreshGoldenFrame {
        golden := raster;
      }
      if u.refreshAlternateFrame {
        alternative := raster;
      }
      if h.inter.refreshLast {
        last := raster;
      }
    }
  }
}
