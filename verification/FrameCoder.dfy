/** The printer and the parser of whole frames, statement by statement (src/encoder/serializer.cc,
    src/decoder/decoder_state.hh, src/decoder/frame.cc). */
module FrameCoder {
  import opened Wrappers
  import opened Grids
  import opened BoolCoding
  import opened BoolEncoding
  import opened BoolDecoding
  import opened FrameHeaders
  import opened HeaderCoder
  import opened ProbabilityTables
  import opened Container
  import opened MacroblockTokens
  import opened FrameCodec
  import MH = MacroblockHeaders
  import FT = FrameTokens
  import opened FrameTokenCoder

  /** A copy of the tables with the frame's updates applied. */
  method UpdatedTables(t: Tables, h: Header) returns (ft: Tables)
    requires HeaderTyped(h)
    ensures ft == FrameTables(t, h)
  {
    var store := new TableStore(t);
    match h {
      case Key(k) => store.UpdateCoeffProbs(k.tokenProbUpdate);
      case Inter(i) => store.UpdateFrom(i);
    }
    ft := store.Contents();
  }

  method SerializeFirstPartition(fixed: Fixed, d: Dims, ghost t: Tables, ft: Tables, frame: Frame)
    returns (first: Option<Data>)
    requires FrameTyped(frame, d) && ft == FrameTables(t, frame.header)
    ensures first.Some? <==> SkipsCoded(frame.macroblocks, SkipProb(frame.header))
    ensures first.Some? ==> first.value == FirstPartition(fixed, d, t, frame)
  {
    hide Holds, Encoded, MH.GridSymbols, KeyHeaderSymbols, InterHeaderSymbols, Finished, FrameTables, Kind,
      GridMatches, ShapesOf, ProbsTyped, MacroblockDimension;
    NoInterBelongs(fixed, frame.header, ft, frame.macroblocks);
    hide NoInter;
    var encoder := new BoolEncoder();
    match frame.header {
      case Key(k) => EncodeKeyHeader(encoder, fixed.updates, k);
      case Inter(i) => EncodeInterHeader(encoder, fixed.updates, i);
    }
    assert encoder.log == HeaderSymbols(fixed, frame.header);
    var p := Params(fixed, frame.header, ft);
    var ok := MH.SerializeGrid(encoder, p, frame.macroblocks, MacroblockDimension(d.width));
    if !ok {
      return None;
    }
    assert encoder.log == FirstSymbols(fixed, d, t, frame);
    var data := encoder.Finish();
    first := Some(data);
  }

  method NewEncoders(n: nat) returns (encoders: seq<BoolEncoder>)
    ensures |encoders| == n && fresh(set e | e in encoders) && Separate(encoders)
    ensures forall p :: 0 <= p < n ==> encoders[p].Valid() && encoders[p].log == []
  {
    hide Holds, Encoded;
    encoders := [];
    for i := 0 to n
      invariant |encoders| == i && fresh(set e | e in encoders) && Separate(encoders)
      invariant forall p :: 0 <= p < i ==> encoders[p].Valid() && encoders[p].log == []
    {
      var encoder := new BoolEncoder();
      encoders := encoders + [encoder];
    }
  }

  /** Finishes the encoders one after another. */
  method FinishAll(encoders: seq<BoolEncoder>) returns (parts: seq<Data>)
    requires Separate(encoders) && forall p :: 0 <= p < |encoders| ==> encoders[p].Valid()
    modifies set e | e in encoders
    ensures |parts| == |encoders| && forall p :: 0 <= p < |parts| ==> parts[p] == Finished(old(encoders[p].log))
  {
    hide Holds, Encoded, Finished;
    parts := [];
    for i := 0 to |encoders|
      invariant |parts| == i && forall p :: 0 <= p < i ==> parts[p] == Finished(old(encoders[p].log))
      invariant forall p :: i <= p < |encoders| ==> encoders[p].Valid() && encoders[p].log == old(encoders[p].log)
    {
      var data := encoders[i].Finish();
      parts := parts + [data];
    }
  }

  method SerializeTokenPartitions(d: Dims, ghost t: Tables, ft: Tables, frame: Frame) returns (parts: Option<seq<Data>>)
    requires FrameTyped(frame, d) && ft == FrameTables(t, frame.header)
    ensures parts.Some? <==> ResidueSerializable(d, t, frame)
    ensures parts.Some? ==> parts.value == TokenPartitions(d, t, frame)
  {
    hide Holds, Encoded, FT.PartitionTokens, FT.GridCodable, FrameTables, Finished, CoeffProbsOf, ShapesOf, NoInter, GridMatches,
      HeaderTyped, DctPartitionCount, MacroblockDimension;
    var w := MacroblockDimension(d.width);
    var encoders := NewEncoders(DctPartitionCount(frame.header));
    var ok := SerializeTokens(encoders, CoeffProbsOf(ft.coeff), ShapesOf(frame.macroblocks, w), frame.residue, w);
    if !ok {
      return None;
    }
    var list := FinishAll(encoders);
    assert list == TokenPartitions(d, t, frame);
    parts := Some(list);
  }

  /** Fails on a skip flag or a coefficient that cannot be coded, and on frames that are too large. */
  method SerializeFrame(fixed: Fixed, d: Dims, t: Tables, frame: Frame) returns (data: Option<Data>)
    requires FrameTyped(frame, d)
    ensures data.Some? <==> Serializable(d, t, frame)
    ensures data.Some? ==> data.value == Serialized(fixed, d, t, frame)
  {
    hide FirstPartition, TokenPartitions, Framed, SkipsCoded, ResidueSerializable, FrameTables, IsGrid, NoInter,
      GridMatches, ShapesOf, MacroblockDimension, DctPartitionCount;
    var ft := UpdatedTables(t, frame.header);
    var first := SerializeFirstPartition(fixed, d, t, ft, frame);
    if first.None? {
      return None;
    }
    var parts := SerializeTokenPartitions(d, t, ft, frame);
    if parts.None? {
      return None;
    }
    data := MakeFrame(TagOf(frame), d.width, d.height, first.value, parts.value);
  }

  method NewDecoders(parts: seq<Data>) returns (decoders: seq<BoolDecoder>)
    ensures fresh(set e | e in decoders) && Separate(decoders) && InStates(decoders, Decoders(parts))
  {
    hide WellFormed, Opened;
    decoders := [];
    for i := 0 to |parts|
      invariant fresh(set e | e in decoders) && Separate(decoders) && |decoders| == i
      invariant forall p :: 0 <= p < i ==> decoders[p].Valid() && decoders[p].State() == Opened(parts[p])
    {
      var decoder := new BoolDecoder(parts[i]);
      decoders := decoders + [decoder];
    }
  }

  method ParseBody(decoder: BoolDecoder, fixed: Fixed, d: Dims, t: Tables, show: bool, h: Header, rest: Data)
    returns (frame: Result<Frame>)
    requires decoder.Valid() && HeaderTyped(h)
    modifies decoder
    ensures frame == ReadBody(old(decoder.State()), fixed, d, t, show, h, rest)
  {
    hide Next, WellFormed, MH.ReadGrid, FT.ReadTokenGrid, DctPartitions, FrameTables, Params, CoeffProbsOf, ShapesOf,
      MacroblockDimension, DctPartitionCount, HeaderTyped, InStates, Decoders;
    var w, height := MacroblockDimension(d.width), MacroblockDimension(d.height);
    var ft := UpdatedTables(t, h);
    var grid := MH.ParseGrid(decoder, Params(fixed, h, ft), w, height);
    var parts := ExtractPartitions(rest, DctPartitionCount(h));
    if parts.None? {
      return Err(OutOfRange);
    }
    PartitionCountIs(rest, DctPartitionCount(h));
    var decoders := NewDecoders(parts.value);
    SameLength(decoders, Decoders(parts.value));
    var residue := ParseTokens(decoders, Decoders(parts.value), CoeffProbsOf(ft.coeff), ShapesOf(grid, w), w);
    frame := Ok(Frame(show, h, grid, residue));
  }

  lemma PartitionCountIs(rest: Data, num: nat)
    requires num > 0
    ensures DctPartitions(rest, num).Some? ==> |DctPartitions(rest, num).value| == num
  {
    hide EnoughData;
  }

  lemma SameLength(decoders: seq<BoolDecoder>, cores: seq<Core>)
    requires InStates(decoders, cores)
    ensures |decoders| == |cores|
  {}

  /** Parses a frame in the given state of the tables. */
  method ParseFrameData(data: Data, fixed: Fixed, d: Dims, t: Tables) returns (frame: Result<Frame>)
    ensures frame == ReadFrame(data, fixed, d, t)
  {
    hide Next, WellFormed, Opened, ReadBody, ReadKeyHeader, ReadInterHeader, ProbsTyped;
    var chunk := ParseFrame(data, d.width, d.height);
    if chunk.Err? {
      return Err(chunk.failure);
    }
    if chunk.value.experimental {
      return Err(if chunk.value.keyFrame then Invalid else Unsupported);
    }
    var decoder := new BoolDecoder(chunk.value.first);
    var header: Option<Header> := None;
    if chunk.value.keyFrame {
      var h := DecodeKeyHeader(decoder, fixed.updates);
      if h.Some? { header := Some(Key(h.value)); }
    } else {
      var h := DecodeInterHeader(decoder, fixed.updates);
      HeaderFieldsTyped(Opened(chunk.value.first), fixed);
      if h.Some? { header := Some(Inter(h.value)); }
    }
    if header.None? {
      return Err(Unsupported);
    }
    var base := if header.value.Key? then fixed.initial else t;
    frame := ParseBody(decoder, fixed, d, base, chunk.value.showFrame, header.value, chunk.value.rest);
  }

  lemma HeaderFieldsTyped(c: Core, fixed: Fixed)
    ensures var h := ReadInterHeader(c, fixed.updates).0; h.Some? ==> ProbsTyped(h.value.probs)
  {
    hide ReadInterFields, ProbsTyped;
  }
}
