/** The growing buffer that a decoder is saved into: lengths are written as placeholders and patched once
    what follows has been written (src/decoder/enc_state_serializer.hh, src/decoder/decoder.cc). */
module StateWriting {
  import opened Wrappers
  import opened BoolCoding
  import opened Packets
  import opened ProbabilityTables
  import opened DecoderStates
  import opened StateSerialization

  /** Four octets of the data replaced. */
  function Patched(data: Data, at: nat, n: UInt32): Data
    requires at + 4 <= |data|
  {
    data[..at] + Put32(n) + data[at + 4..]
  }

  class StateWriter {
    var data: Data

    constructor ()
      ensures data == []
    {
      data := [];
    }

    method Put(x: Octet)
      modifies this
      ensures data == old(data) + [x]
    {
      data := data + [x];
    }

    method PutAll(s: seq<Octet>)
      modifies this
      ensures data == old(data) + s
    {
      for i := 0 to |s|
        invariant data == old(data) + s[..i]
      {
        Put(s[i]);
        assert s[..i + 1] == s[..i] + [s[i]];
      }
      assert s[..|s|] == s;
    }

    /** Returns the position of the number. */
    method PutLength(n: UInt32) returns (posn: nat)
      modifies this
      ensures data == old(data) + Put32(n) && posn == |old(data)|
    {
      posn := |data|;
      PutAll(Put32(n));
    }

    method Patch(n: UInt32, offset: nat)
      requires offset + 4 <= |data|
      modifies this
      ensures data == Patched(old(data), offset, n)
    {
      hide Put32;
      var d := Put32(n);
      for i := 0 to 4
        invariant |data| == |old(data)|
        invariant data == old(data)[..offset] + d[..i] + old(data)[offset + i..]
      {
        ghost var was := data;
        data := data[offset + i := d[i]];
        PatchOne(old(data), was, d, offset, i);
      }
      assert d[..4] == d;
    }

    // ----- Records without nested ones -----

    method PutRecord(tag: Octet, body: Data) returns (len: nat)
      requires |body| < WORD_LIMIT
      modifies this
      ensures data == old(data) + Record(tag, body) && len == |Record(tag, body)|
    {
      hide Put32;
      SmallMod(|body|, WORD_LIMIT);
      Put(tag);
      var _ := PutLength(|body|);
      PutAll(body);
      len := |body| + 5;
    }

    method SerializeTables(t: Tables) returns (len: nat)
      modifies this
      ensures data == old(data) + TablesBytes(t) && len == |TablesBytes(t)|
    {
      hide Record;
      len := PutRecord(PROB_TABLE, t.coeff + t.yMode + t.uvMode + t.mv);
    }

    method FlatRows(rows: seq<seq<Octet>>) returns (bytes: Data)
      ensures bytes == RowsBytes(rows, |rows|)
    {
      bytes := [];
      for row := 0 to |rows|
        invariant bytes == RowsBytes(rows, row)
      {
        bytes := bytes + rows[row];
      }
    }

    /** The tag says whether there is a segmentation, and the segmentation's own tag whether it is absolute. */
    method SerializeSegments(s: Option<Segmentation>) returns (len: nat)
      requires |SegmentsOption(s)| < WORD_LIMIT
      modifies this
      ensures data == old(data) + SegmentsOption(s) && len == |SegmentsOption(s)|
    {
      hide Record, Put16, SignedOctets, RowsBytes;
      if s.Some? {
        var g, m := s.value, s.value.segmentMap;
        var tag := if g.absolute then SEGM_ABS else SEGM_REL;
        RecordLength(tag, SegmentsBody(g));
        Put(OPT_FULL);
        var rows := FlatRows(m.rows);
        len := PutRecord(tag, Put16(m.width) + Put16(|m.rows|) + SignedOctets(g.quantizer) + SignedOctets(g.filter) + rows);
      } else {
        Put(OPT_EMPTY);
        len := 0;
      }
      len := len + 1;
    }

    method SerializeAdjustments(a: Option<FilterAdjustments>) returns (len: nat)
      modifies this
      ensures data == old(data) + AdjustmentsOption(a) && len == |AdjustmentsOption(a)|
    {
      hide Record, SignedOctets;
      if a.Some? {
        Put(OPT_FULL);
        len := PutRecord(FILT_ADJ, SignedOctets(a.value.reference) + SignedOctets(a.value.mode));
      } else {
        Put(OPT_EMPTY);
        len := 0;
      }
      len := len + 1;
    }

    // ----- Records with nested ones: the length is patched in afterwards -----

    method SerializeState(s: SizedState) returns (len: nat)
      requires |StateBytes(s)| < WORD_LIMIT
      modifies this
      ensures data == old(data) + StateBytes(s) && len == |StateBytes(s)|
    {
      hide Record, Put16, Put32, TablesBytes, SegmentsOption, AdjustmentsOption, Patched;
      RecordLength(DECODER_STATE, StateBody(s));
      Put(DECODER_STATE);
      len := 4;
      var placeholder := PutLength(len);
      ghost var head := data;
      PutAll(Put16(s.width));
      PutAll(Put16(s.height));
      var n := SerializeTables(s.state.tables);
      len := len + n;
      n := SerializeSegments(s.state.segmentation);
      len := len + n;
      n := SerializeAdjustments(s.state.filterAdjustments);
      len := len + n;
      assert data == head + StateBody(s);
      assert len == |StateBody(s)|;
      PatchHead(old(data), DECODER_STATE, 4, StateBody(s));
      Patch(len, placeholder);
      len := len + 5;
    }

    method SerializeRaster(r: Raster) returns (len: nat)
      requires |RasterBytes(r)| < WORD_LIMIT
      modifies this
      ensures data == old(data) + RasterBytes(r) && len == |RasterBytes(r)|
    {
      hide Record, LumaSize, ChromaSize;
      RecordLength(REF_LAST, r.y + r.u + r.v);
      len := PutRecord(REF_LAST, r.y + r.u + r.v);
    }

    method SerializeReferences(r: References<Raster>) returns (len: nat)
      requires |ReferencesBytes(r)| < WORD_LIMIT
      modifies this
      ensures data == old(data) + ReferencesBytes(r) && len == |ReferencesBytes(r)|
    {
      hide Record, Put16, Put32, RasterBytes, Patched;
      ghost var body := Put16(r.last.displayWidth) + Put16(r.last.displayHeight) + RasterBytes(r.last);
      RecordLength(REFERENCES, body);
      Put(REFERENCES);
      len := 4;
      var placeholder := PutLength(len);
      ghost var head := data;
      PutAll(Put16(r.last.displayWidth));
      PutAll(Put16(r.last.displayHeight));
      var n := SerializeRaster(r.last);
      len := len + n;
      assert data == head + body;
      assert len == |body|;
      PatchHead(old(data), REFERENCES, 4, body);
      Patch(len, placeholder);
      len := len + 5;
    }

    method SerializeDecoder(d: Decoder) returns (len: nat)
      requires |DecoderBytes(d)| < WORD_LIMIT
      modifies this
      ensures data == old(data) + DecoderBytes(d) && len == |DecoderBytes(d)|
    {
      hide Record, Put32, Patched, StateBytes, ReferencesBytes;
      RecordLength(DECODER, StateBytes(d.state) + ReferencesBytes(d.references));
      Put(DECODER);
      len := 0;
      var placeholder := PutLength(len);
      ghost var head := data;
      var n := SerializeState(d.state);
      len := len + n;
      n := SerializeReferences(d.references);
      len := len + n;
      ghost var body := StateBytes(d.state) + ReferencesBytes(d.references);
      assert data == head + body;
      PatchHead(old(data), DECODER, 0, body);
      Patch(len, placeholder);
      len := len + 5;
    }
  }

  lemma PatchOne(before: Data, was: Data, d: Data, offset: nat, i: nat)
    requires i < 4 && |d| == 4 && offset + 4 <= |before|
    requires was == before[..offset] + d[..i] + before[offset + i..]
    ensures |was| == |before|
    ensures was[offset + i := d[i]] == before[..offset] + d[..i + 1] + before[offset + i + 1..]
  {}

  /** Patching the placeholder of a record completes it. */
  lemma PatchHead(before: Data, tag: Octet, placeholder: UInt32, body: Data)
    requires |body| < WORD_LIMIT
    ensures var d := before + [tag] + Put32(placeholder) + body;
            |before| + 5 <= |d| && Patched(d, |before| + 1, |body|) == before + Record(tag, body)
  {
    hide Put32;
    SmallMod(|body|, WORD_LIMIT);
    var d := before + [tag] + Put32(placeholder) + body;
    assert d[..|before| + 1] == before + [tag];
    assert d[|before| + 5..] == body;
  }
}
