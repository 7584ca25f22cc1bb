/** The encoder and the decoder as objects that update their state
    (src/encoder/encoder.cc, src/decoder/decoder_state.hh, src/decoder/decoder.cc). */
module Machines {
  import opened Wrappers
  import opened Grids
  import opened BoolCoding
  import opened FrameHeaders
  import opened ProbabilityTables
  import opened Container
  import opened FrameCodec
  import opened FrameCoder
  import opened DecoderStates
  import L = Lockstep
  import MH = MacroblockHeaders

  class VideoEncoder<R(!new, 0), S(!new, 0)> {
    const world: L.World<R, S>
    var state: DecoderState
    var references: References<R>
    var safeReferences: References<S>

    function Contents(): L.Encoder<R, S>
      reads this
    {
      L.Encoder(state, references, safeReferences)
    }

    /** Continues from a decoder's state. */
    constructor (w: L.World<R, S>, decoder: L.Decoder<R>)
      ensures world == w
      ensures Contents() == L.Encoder(decoder.state, decoder.references, L.Loaded(w, decoder.references))
    {
      world := w;
      state, references := decoder.state, decoder.references;
      safeReferences := L.Loaded(w, decoder.references);
    }

    method UpdateTables(h: Header)
      requires HeaderTyped(h)
      modifies this`state
      ensures state == old(state).(tables := KeptTables(old(state).tables, h))
    {
      hide FrameTables;
      if (if h.Key? then h.key.refreshEntropyProbs else h.inter.refreshEntropyProbs) {
        var t := UpdatedTables(state.tables, h);
        state := state.(tables := t);
      }
    }

    method UpdateDecoderState(h: Header)
      requires HeaderTyped(h)
      modifies this`state, this`references
      ensures state == L.EncoderState(world.fixed, world.dims, old(state), h)
      ensures references == if h.Key? then References(world.blank, world.blank, world.blank) else old(references)
    {
      hide FrameTables, KeptTables, NewSegmentation, HeaderTyped;
      if h.Key? {
        // this is a keyframe! reset the decoder state
        state := FreshState(world.fixed, world.dims, h.key);
        references := References(world.blank, world.blank, world.blank);
        UpdateTables(h);
      } else {
        UpdateTables(h);
        if h.inter.common.modeLfAdjustments.Some? {
          var u := h.inter.common.modeLfAdjustments.value;
          if state.filterAdjustments.Some? {
            state := state.(filterAdjustments := Some(state.filterAdjustments.value.Updated(u)));
          } else {
            state := state.(filterAdjustments := Some(NO_ADJUSTMENTS.Updated(u)));
          }
        } else {
          state := state.(filterAdjustments := None);
        }
      }
    }

    /** The state is updated before the frame is serialized, which may still fail. The macroblocks are
        reconstructed with the segments they have cached; the map is left as it is. */
    method WriteFrame(x: L.FrameObject) returns (data: Option<Data>)
      requires L.ObjectTyped(x, world.dims)
      modifies this
      ensures Contents() == L.Advanced(world, old(Contents()), x)
      ensures data.Some? <==> Serializable(world.dims, state.tables, x.frame)
      ensures data.Some? ==> data.value == L.Output(world.fixed, world.dims, old(state), x.frame)
    {
      hide FrameTyped, Serializable, Serialized, L.EncoderState, L.GridSized;
      L.HeaderIsTyped(x.frame, world.dims);
      hide HeaderTyped;
      // update the state
      UpdateDecoderState(x.frame.header);

      // update the references
      var raster := L.Reconstructed(world, x, state, references);
      var buffers := new ReferenceBuffers(references);
      buffers.Receive(x.frame.header, raster);
      references := buffers.Contents();

      safeReferences := References(world.load(references.last), world.load(references.golden), world.load(references.alternative));

      data := SerializeFrame(world.fixed, world.dims, state.tables, x.frame);
    }
  }

  class VideoDecoder<R(!new, 0), S(!new, 0)> {
    const world: L.World<R, S>
    var state: DecoderState
    var references: References<R>

    function Contents(): L.Decoder<R>
      reads this
    {
      L.Decoder(state, references)
    }

    constructor (w: L.World<R, S>, decoder: L.Decoder<R>)
      requires L.StateSized(decoder.state, w.dims)
      ensures world == w && Contents() == decoder
    {
      world := w;
      state, references := decoder.state, decoder.references;
    }

    /** One row of macroblocks records its segments in the map, or caches what the map says. */
    method RecordRow(line: MH.Row, was: seq<Octet>) returns (now: seq<Octet>, ids: seq<Octet>)
      requires |line| <= |was|
      ensures |now| == |was| && |ids| == |line|
      ensures forall i :: 0 <= i < |line| ==> ids[i] == now[i] == UpdatedId(line[i], was[i])
      ensures forall i :: |line| <= i < |was| ==> now[i] == was[i]
    {
      now, ids := was, [];
      for i := 0 to |line|
        invariant |now| == |was| && |ids| == i
        invariant forall k :: 0 <= k < i ==> ids[k] == now[k] == UpdatedId(line[k], was[k])
        invariant forall k :: i <= k < |was| ==> now[k] == was[k]
      {
        if line[i].segmentIdUpdate.Some? {
          now := now[i := line[i].segmentIdUpdate.value];
        }
        ids := ids + [now[i]];
      }
    }

    /** Every macroblock does so. */
    method RecordSegments(grid: MH.Grid) returns (ids: L.SegmentIds)
      requires L.StateSized(state, world.dims) && state.segmentation.Some?
      requires L.GridSized(grid, world.dims)
      modifies this`state
      ensures state == old(state).(segmentation := Some(old(state).segmentation.value.Mapped(grid)))
      ensures L.StateSized(state, world.dims) && ids == L.Cached(state.segmentation, world.dims)
    {
      hide MacroblockDimension, UpdatedId;
      L.FewerMacroblocks(world.dims.width);
      L.FewerMacroblocks(world.dims.height);
      var m := state.segmentation.value.segmentMap;
      ghost var done := MappedTo(m, grid);
      var rows := m.rows;
      ids := [];
      for r := 0 to |grid|
        invariant state == old(state) && |rows| == |m.rows| && |ids| == r
        invariant forall k :: 0 <= k < r ==> rows[k] == done.rows[k] && ids[k] == done.rows[k][..|grid[k]|]
        invariant forall k :: r <= k < |rows| ==> rows[k] == m.rows[k]
      {
        var now, line := RecordRow(grid[r], rows[r]);
        assert now == done.rows[r];
        assert line == now[..|line|];
        rows := rows[r := now];
        ids := ids + [line];
      }
      forall k | |grid| <= k < |rows| ensures rows[k] == done.rows[k] {}
      assert rows == done.rows;
      state := state.(segmentation := Some(state.segmentation.value.(segmentMap := SegmentMap(m.width, rows))));
      ghost var cached := L.Cached(state.segmentation, world.dims);
      forall k | 0 <= k < |ids| ensures ids[k] == cached[k] {}
    }

    /** The persistent state, updated from a parsed frame, whose macroblocks cache their segments. */
    method Apply(frame: Frame) returns (x: L.FrameObject)
      requires HeaderTyped(frame.header) && L.GridSized(frame.macroblocks, world.dims) && L.StateSized(state, world.dims)
      modifies this`state
      ensures state == L.DecoderStateAfter(world.fixed, world.dims, old(state), frame) && L.StateSized(state, world.dims)
      ensures x == L.FrameObject(frame, L.Cached(state.segmentation, world.dims))
    {
      hide FrameTables, HeaderTyped, MappedTo, L.GridSized;
      var h := frame.header;
      if h.Key? {
        state := FreshState(world.fixed, world.dims, h.key);
      }
      if (if h.Key? then h.key.refreshEntropyProbs else h.inter.refreshEntropyProbs) {
        var t := UpdatedTables(state.tables, h);
        state := state.(tables := t);
      }
      if h.Inter? {
        var c := h.inter.common;
        state := state.(filterAdjustments := AdjustmentsAfter(state.filterAdjustments, c.modeLfAdjustments));
        state := state.(segmentation := L.SegmentationAfter(world.dims, state.segmentation, c.updateSegmentation));
      }
      x := L.FrameObject(frame, L.Cached(None, world.dims));
      if state.segmentation.Some? {
        var ids := RecordSegments(frame.macroblocks);
        x := L.FrameObject(frame, ids);
      }
    }

    /** Whether the frame is to be shown, or why it could not be parsed. */
    method ParseAndDecode(data: Data) returns (shown: Result<bool>)
      requires L.StateSized(state, world.dims)
      modifies this
      ensures L.StateSized(state, world.dims)
      ensures var r := L.Received(world, old(Contents()), data);
              if r.Err? then shown == Err(r.failure) else shown.Ok? && Contents() == r.value
    {
      hide ReadFrame, L.DecoderStateAfter, HeaderTyped;
      L.ReadFrameTyped(data, world.fixed, world.dims, state.tables);
      var frame := ParseFrameData(data, world.fixed, world.dims, state.tables);
      if frame.Err? {
        return Err(frame.failure);
      }
      var x := Apply(frame.value);
      var raster := L.Reconstructed(world, x, state, references);
      var buffers := new ReferenceBuffers(references);
      buffers.Receive(frame.value.header, raster);
      references := buffers.Contents();
      shown := Ok(frame.value.show);
    }
  }
}
