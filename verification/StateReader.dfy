/** Restoring a decoder: a pointer advances through the saved data
    (src/decoder/enc_state_serializer.hh, src/decoder/decoder.cc, src/decoder/probability_tables.cc). */
module StateReading {
  import opened Wrappers
  import opened Grids
  import opened BoolCoding
  import opened Packets
  import opened ProbabilityTables
  import opened DecoderStates
  import opened StateSerialization

  class StateReader {
    const data: Data
    var ptr: nat

    predicate Valid()
      reads this
    {
      ptr <= |data|
    }

    /** What has not been read yet. */
    function Rest(): Data
      requires Valid()
      reads this
    {
      data[ptr..]
    }

    constructor (d: Data)
      ensures Valid() && data == d && Rest() == d
    {
      data := d;
      ptr := 0;
    }

    /** The outcome of a read: the value, with the pointer behind it, or a failed assertion. */
    twostate predicate Outcome<T>(new result: Option<T>, new expected: Read<T>)
      reads this
    {
      Valid() && result.Some? == expected.Some?
      && (expected.Some? ==> (result.value, Rest()) == expected.value)
    }

    method GetRecord(tag: Octet) returns (length: Option<nat>)
      requires Valid()
      modifies this`ptr
      ensures Outcome(length, ReadRecord(old(Rest()), tag))
    {
      hide Get32;
      if |data| - ptr < 5 || data[ptr] != tag {
        return None;
      }
      assert data[ptr..][5..] == data[ptr + 5..];
      length := Some(Get32(data[ptr..], 1));
      ptr := ptr + 5;
    }

    method GetOctets(n: nat) returns (s: Option<Data>)
      requires Valid()
      modifies this`ptr
      ensures Outcome(s, ReadOctets(old(Rest()), n))
    {
      if |data| - ptr < n {
        return None;
      }
      var start := ptr;
      var list: Data := [];
      for i := 0 to n
        invariant ptr == start + i <= |data| && list == data[start..start + i]
      {
        list := list + [data[ptr]];
        ptr := ptr + 1;
      }
      assert data[start..][..n] == data[start..start + n] && data[start..][n..] == data[start + n..];
      s := Some(list);
    }

    method GetWord() returns (n: Option<UInt16>)
      requires Valid()
      modifies this`ptr
      ensures Outcome(n, ReadWord(old(Rest())))
    {
      hide Get16;
      if |data| - ptr < 2 {
        return None;
      }
      assert data[ptr..][2..] == data[ptr + 2..];
      n := Some(Get16(data[ptr..], 0));
      ptr := ptr + 2;
    }

    method GetFour() returns (s: Option<FourBytes>)
      requires Valid()
      modifies this`ptr
      ensures Outcome(s, ReadFour(old(Rest())))
    {
      hide FromOctet;
      if |data| - ptr < 4 {
        return None;
      }
      assert data[ptr..][4..] == data[ptr + 4..];
      s := Some([FromOctet(data[ptr]), FromOctet(data[ptr + 1]), FromOctet(data[ptr + 2]), FromOctet(data[ptr + 3])]);
      ptr := ptr + 4;
    }

    method GetTables() returns (t: Option<Tables>)
      requires Valid()
      modifies this`ptr
      ensures Outcome(t, ReadTables(old(Rest())))
    {
      hide ReadRecord;
      var length := GetRecord(PROB_TABLE);
      if length.None? || length.value != TABLES_LENGTH {
        return None;
      }
      ghost var b := Rest();
      if |data| - ptr < TABLES_LENGTH {
        return None;
      }
      var all := GetOctets(TABLES_LENGTH);
      var s := all.value;
      TablePieces(b, s);
      t := Some(Tables(s[..1056], s[1056..1060], s[1060..1063], s[1063..1101]));
    }

    method GetAdjustments() returns (a: Option<FilterAdjustments>)
      requires Valid()
      modifies this`ptr
      ensures Outcome(a, ReadAdjustments(old(Rest())))
    {
      hide ReadRecord, ReadFour;
      var length := GetRecord(FILT_ADJ);
      if length.None? || length.value != 8 {
        return None;
      }
      var reference := GetFour();
      if reference.None? {
        return None;
      }
      var mode := GetFour();
      if mode.None? {
        return None;
      }
      a := Some(FilterAdjustments(reference.value, mode.value));
    }

    method GetRows(width: nat, height: nat) returns (rows: Option<seq<seq<Octet>>>)
      requires Valid()
      modifies this`ptr
      ensures Outcome(rows, ReadRows(old(Rest()), width, height))
    {
      hide ReadOctets;
      ghost var d := Rest();
      var list: seq<seq<Octet>> := [];
      for row := 0 to height
        invariant Valid() && ReadRows(d, width, row) == Some((list, Rest()))
      {
        var line := GetOctets(width);
        if line.None? {
          NoMoreRows(d, width, row + 1, height);
          return None;
        }
        list := list + [line.value];
      }
      rows := Some(list);
    }

    method GetSegmentsBody(absolute: bool, length: nat) returns (s: Option<Segmentation>)
      requires Valid()
      modifies this`ptr
      ensures Outcome(s, ReadSegmentsBody(old(Rest()), absolute, length))
    {
      hide ReadWord, ReadFour, ReadRows, MapSize;
      var width := GetWord();
      if width.None? {
        return None;
      }
      var height := GetWord();
      if height.None? || length != 12 + MapSize(width.value, height.value) {
        return None;
      }
      var quantizer := GetFour();
      if quantizer.None? {
        return None;
      }
      var filter := GetFour();
      if filter.None? {
        return None;
      }
      var rows := GetRows(width.value, height.value);
      if rows.None? {
        return None;
      }
      s := Some(Segmentation(absolute, quantizer.value, filter.value, SegmentMap(width.value, rows.value)));
    }

    /** Whether the adjustments are absolute is told by the tag. */
    method GetSegments() returns (s: Option<Segmentation>)
      requires Valid()
      modifies this`ptr
      ensures Outcome(s, ReadSegments(old(Rest())))
    {
      hide ReadRecord, ReadSegmentsBody;
      var absolute := ptr < |data| && data[ptr] == SEGM_ABS;
      var length := GetRecord(if absolute then SEGM_ABS else SEGM_REL);
      if length.None? {
        return None;
      }
      s := GetSegmentsBody(absolute, length.value);
    }

    method GetTag() returns (tag: Option<Octet>)
      requires Valid()
      modifies this`ptr
      ensures Valid() && tag.Some? == (old(Rest()) != [])
      ensures tag.Some? ==> tag.value == old(Rest())[0] && Rest() == old(Rest())[1..]
    {
      if ptr == |data| {
        return None;
      }
      assert data[ptr..][1..] == data[ptr + 1..];
      tag := Some(data[ptr]);
      ptr := ptr + 1;
    }

    method GetState() returns (s: Option<SizedState>)
      requires Valid()
      modifies this`ptr
      ensures Outcome(s, ReadState(old(Rest())))
    {
      hide ReadRecord, ReadWord, ReadTables, ReadSegments, ReadAdjustments;
      var length := GetRecord(DECODER_STATE);
      if length.None? || length.value > |data| - ptr {
        return None;
      }
      s := GetStateBody();
    }

    method GetStateBody() returns (s: Option<SizedState>)
      requires Valid()
      modifies this`ptr
      ensures Outcome(s, ReadStateBody(old(Rest())))
    {
      hide ReadWord, ReadTables, ReadSegments, ReadAdjustments;
      var width := GetWord();
      if width.None? { return None; }
      var height := GetWord();
      if height.None? { return None; }
      var tables := GetTables();
      if tables.None? { return None; }
      var segmentation: Option<Segmentation> := None;
      var tag := GetTag();
      if tag.None? { return None; }
      if tag.value == OPT_FULL {
        segmentation := GetSegments();
        if segmentation.None? { return None; }
      }
      var adjustments: Option<FilterAdjustments> := None;
      tag := GetTag();
      if tag.None? { return None; }
      if tag.value == OPT_FULL {
        adjustments := GetAdjustments();
        if adjustments.None? { return None; }
      }
      s := Some(SizedState(width.value, height.value, DecoderState(tables.value, segmentation, adjustments)));
    }

    /** The raster is filled only if a record of the right kind is next. */
    method GetRaster(width: UInt16, height: UInt16, blank: Blank) returns (r: Option<Raster>)
      requires Valid()
      modifies this`ptr
      ensures Outcome(r, ReadRaster(old(Rest()), width, height, blank))
    {
      hide ReadRecord, ReadOctets, LumaSize, ChromaSize;
      if ptr == |data| { return None; }
      if data[ptr] != REF_LAST { return Some(blank(width, height)); }
      var length := GetRecord(REF_LAST);
      if length.None? || length.value != RasterLength(width, height) { return None; }
      var y := GetOctets(LumaSize(width, height));
      if y.None? { return None; }
      var u := GetOctets(ChromaSize(width, height));
      if u.None? { return None; }
      var v := GetOctets(ChromaSize(width, height));
      if v.None? { return None; }
      r := Some(Raster(width, height, y.value, u.value, v.value));
    }

    method GetReferences(blank: Blank) returns (r: Option<References<Raster>>)
      requires Valid()
      modifies this`ptr
      ensures Outcome(r, ReadReferences(old(Rest()), blank))
    {
      hide ReadRecord, ReadWord, ReadRaster;
      var length := GetRecord(REFERENCES);
      if length.None? || length.value > |data| - ptr { return None; }
      var width := GetWord();
      if width.None? { return None; }
      var height := GetWord();
      if height.None? { return None; }
      var last := GetRaster(width.value, height.value, blank);
      if last.None? { return None; }
      r := Some(References(last.value, last.value, last.value));
    }

    method GetDecoder(blank: Blank) returns (d: Option<Decoder>)
      requires Valid()
      modifies this`ptr
      ensures d == ReadDecoder(old(Rest()), blank)
    {
      hide ReadRecord, ReadState, ReadReferences;
      var length := GetRecord(DECODER);
      if length.None? || length.value != |data| - ptr { return None; }
      var state := GetState();
      if state.None? { return None; }
      var references := GetReferences(blank);
      if references.None? || ptr != |data| { return None; }
      d := Some(Decoder(state.value, references.value));
    }
  }

  /** Once a row is missing, the rows are not there. */
  lemma {:induction false} NoMoreRows(d: Data, width: nat, n: nat, height: nat)
    requires n <= height && ReadRows(d, width, n).None?
    ensures ReadRows(d, width, height).None?
  {
    if n < height { NoMoreRows(d, width, n, height - 1); }
  }

  lemma TablePieces(b: Data, s: Data)
    requires |b| >= TABLES_LENGTH && s == b[..TABLES_LENGTH]
    ensures s[..1056] == b[..1056] && s[1056..1060] == b[1056..1060] && s[1060..1063] == b[1060..1063]
            && s[1063..1101] == b[1063..1101]
  {}
}
