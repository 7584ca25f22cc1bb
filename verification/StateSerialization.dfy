/** Saving and restoring a decoder: tagged records whose lengths are patched in afterwards
    (src/decoder/enc_state_serializer.hh, src/decoder/decoder.cc, src/decoder/probability_tables.cc). */
module StateSerialization {
  import opened Wrappers
  import opened Grids
  import opened BoolCoding
  import opened Packets
  import opened HeaderFields
  import opened IntraModes
  import opened FrameHeaders
  import opened ProbabilityTables
  import opened DecoderStates
  import Container
  import FrameCodec
  import L = Lockstep

  // tags
  const PROB_TABLE: Octet := 0
  const FILT_ADJ: Octet := 1
  const SEGM_ABS: Octet := 2
  const SEGM_REL: Octet := 3
  const DECODER_STATE: Octet := 4
  const OPT_EMPTY: Octet := 5
  const OPT_FULL: Octet := 6
  const REFERENCES: Octet := 7
  const REF_LAST: Octet := 8
  const DECODER: Octet := 11

  const WORD_LIMIT: nat := 0x1_0000_0000

  function MapSize(width: nat, height: nat): nat {
    width * height
  }

  /** A state together with the dimensions it belongs to. */
  datatype SizedState = SizedState(width: UInt16, height: UInt16, state: DecoderState)

  /** Dimensions in whole macroblocks. */
  function Padded(n: nat): nat {
    (n + 15) / 16 * 16
  }

  function LumaSize(width: nat, height: nat): nat {
    Padded(width) * Padded(height)
  }

  function ChromaSize(width: nat, height: nat): nat {
    (Padded(width) / 2) * (Padded(height) / 2)
  }

  datatype RawRaster = Raster(displayWidth: UInt16, displayHeight: UInt16, y: Data, u: Data, v: Data)
  type Raster = r: RawRaster
    | |r.y| == LumaSize(r.displayWidth, r.displayHeight)
      && |r.u| == |r.v| == ChromaSize(r.displayWidth, r.displayHeight)
    witness Raster(0, 0, [], [], [])

  datatype Decoder = Decoder(state: SizedState, references: References<Raster>)

  // ----- What is written -----

  /** A tag, the number of octets that follow, and those octets. */
  function Record(tag: Octet, body: Data): Data {
    [tag] + Put32(|body| % WORD_LIMIT) + body
  }

  function SignedOctets(s: FourBytes): (d: Data)
    ensures |d| == 4
  {
    [ToOctet(s[0]), ToOctet(s[1]), ToOctet(s[2]), ToOctet(s[3])]
  }

  function ToOctet(x: Int8): Octet {
    if x < 0 then x + 256 else x
  }

  function TablesBytes(t: Tables): Data {
    Record(PROB_TABLE, t.coeff + t.yMode + t.uvMode + t.mv)
  }

  function AdjustmentsBytes(a: FilterAdjustments): Data {
    Record(FILT_ADJ, SignedOctets(a.reference) + SignedOctets(a.mode))
  }

  /** The first n rows, one after the other. */
  function RowsBytes(rows: seq<seq<Octet>>, n: nat): Data
    requires n <= |rows|
  {
    if n == 0 then [] else RowsBytes(rows, n - 1) + rows[n - 1]
  }

  function SegmentsBody(s: Segmentation): Data {
    var m := s.segmentMap;
    Put16(m.width) + Put16(|m.rows|) + SignedOctets(s.quantizer) + SignedOctets(s.filter) + RowsBytes(m.rows, |m.rows|)
  }

  function SegmentsBytes(s: Segmentation): Data {
    Record(if s.absolute then SEGM_ABS else SEGM_REL, SegmentsBody(s))
  }

  function OptionalBytes(present: bool, bytes: Data): Data {
    if present then [OPT_FULL] + bytes else [OPT_EMPTY]
  }

  function SegmentsOption(s: Option<Segmentation>): Data {
    OptionalBytes(s.Some?, if s.Some? then SegmentsBytes(s.value) else [])
  }

  function AdjustmentsOption(a: Option<FilterAdjustments>): Data {
    OptionalBytes(a.Some?, if a.Some? then AdjustmentsBytes(a.value) else [])
  }

  function StateBody(s: SizedState): Data {
    Put16(s.width) + Put16(s.height) + TablesBytes(s.state.tables) + SegmentsOption(s.state.segmentation)
    + AdjustmentsOption(s.state.filterAdjustments)
  }

  function StateBytes(s: SizedState): Data {
    Record(DECODER_STATE, StateBody(s))
  }

  function RasterBytes(r: Raster): Data {
    Record(REF_LAST, r.y + r.u + r.v)
  }

  /** Only the last reference is written. */
  function ReferencesBytes(r: References<Raster>): Data {
    Record(REFERENCES, Put16(r.last.displayWidth) + Put16(r.last.displayHeight) + RasterBytes(r.last))
  }

  function DecoderBytes(d: Decoder): Data {
    Record(DECODER, StateBytes(d.state) + ReferencesBytes(d.references))
  }

  // ----- What is read -----

  /** A value and what is left of the data; None where an assertion of the reader fails or data runs out. */
  type Read<T> = Option<(T, Data)>

  function ReadRecord(d: Data, tag: Octet): Read<nat> {
    if |d| < 5 || d[0] != tag then None else Some((Get32(d, 1), d[5..]))
  }

  function ReadOctets(d: Data, n: nat): (r: Read<Data>)
    ensures r.Some? ==> |r.value.0| == n
  {
    if |d| < n then None else Some((d[..n], d[n..]))
  }

  function ReadWord(d: Data): Read<UInt16> {
    if |d| < 2 then None else Some((Get16(d, 0), d[2..]))
  }

  function FromOctet(x: Octet): Int8 {
    if x < 128 then x else x - 256
  }

  function ReadFour(d: Data): Read<FourBytes> {
    if |d| < 4 then None
    else Some(([FromOctet(d[0]), FromOctet(d[1]), FromOctet(d[2]), FromOctet(d[3])], d[4..]))
  }

  const TABLES_LENGTH: nat := TOKEN_PROB_COUNT + 4 + 3 + MV_PROB_COUNT

  function ReadTables(d: Data): Read<Tables> {
    var h := ReadRecord(d, PROB_TABLE);
    if h.None? || h.value.0 != TABLES_LENGTH || |h.value.1| < TABLES_LENGTH then None
    else
      var b := h.value.1;
      Some((Tables(b[..1056], b[1056..1060], b[1060..1063], b[1063..1101]), b[TABLES_LENGTH..]))
  }

  function ReadAdjustments(d: Data): Read<FilterAdjustments> {
    var h := ReadRecord(d, FILT_ADJ);
    if h.None? || h.value.0 != 8 then None
    else
      var r := ReadFour(h.value.1);
      if r.None? then None
      else
        var m := ReadFour(r.value.1);
        if m.None? then None else Some((FilterAdjustments(r.value.0, m.value.0), m.value.1))
  }

  function ReadRows(d: Data, width: nat, n: nat): (r: Read<seq<seq<Octet>>>)
    ensures r.Some? ==> |r.value.0| == n && IsGrid(r.value.0, width)
  {
    if n == 0 then Some(([], d))
    else
      var init := ReadRows(d, width, n - 1);
      if init.None? then None
      else
        var row := ReadOctets(init.value.1, width);
        if row.None? then None else Some((init.value.0 + [row.value.0], row.value.1))
  }

  function ReadSegmentsBody(d: Data, absolute: bool, length: nat): Read<Segmentation> {
    var w := ReadWord(d);
    if w.None? then None
    else
      var h := ReadWord(w.value.1);
      if h.None? || length != 12 + MapSize(w.value.0, h.value.0) then None
      else
        var q := ReadFour(h.value.1);
        if q.None? then None
        else
          var f := ReadFour(q.value.1);
          if f.None? then None
          else
            var m := ReadRows(f.value.1, w.value.0, h.value.0);
            if m.None? then None
            else Some((Segmentation(absolute, q.value.0, f.value.0, SegmentMap(w.value.0, m.value.0)), m.value.1))
  }

  function ReadSegments(d: Data): Read<Segmentation> {
    var absolute := d != [] && d[0] == SEGM_ABS;
    var h := ReadRecord(d, if absolute then SEGM_ABS else SEGM_REL);
    if h.None? then None else ReadSegmentsBody(h.value.1, absolute, h.value.0)
  }

  /** Anything but OPT_FULL counts as empty. */
  function ReadSegmentsOption(d: Data): Read<Option<Segmentation>> {
    if d == [] then None
    else if d[0] == OPT_FULL then
      var s := ReadSegments(d[1..]);
      if s.None? then None else Some((Some(s.value.0), s.value.1))
    else Some((None, d[1..]))
  }

  function ReadAdjustmentsOption(d: Data): Read<Option<FilterAdjustments>> {
    if d == [] then None
    else if d[0] == OPT_FULL then
      var a := ReadAdjustments(d[1..]);
      if a.None? then None else Some((Some(a.value.0), a.value.1))
    else Some((None, d[1..]))
  }

  function ReadStateBody(d: Data): Read<SizedState> {
    var w := ReadWord(d);
    if w.None? then None
    else
      var h := ReadWord(w.value.1);
      if h.None? then None
      else
        var t := ReadTables(h.value.1);
        if t.None? then None
        else
          var s := ReadSegmentsOption(t.value.1);
          if s.None? then None
          else
            var a := ReadAdjustmentsOption(s.value.1);
            if a.None? then None
            else Some((SizedState(w.value.0, h.value.0, DecoderState(t.value.0, s.value.0, a.value.0)), a.value.1))
  }

  function ReadState(d: Data): Read<SizedState> {
    var h := ReadRecord(d, DECODER_STATE);
    if h.None? || h.value.0 > |h.value.1| then None else ReadStateBody(h.value.1)
  }

  function ReadPlanes(d: Data, width: UInt16, height: UInt16): Read<Raster> {
    var y := ReadOctets(d, LumaSize(width, height));
    if y.None? then None
    else
      var u := ReadOctets(y.value.1, ChromaSize(width, height));
      if u.None? then None
      else
        var v := ReadOctets(u.value.1, ChromaSize(width, height));
        if v.None? then None
        else Some((Raster(width, height, y.value.0, u.value.0, v.value.0), v.value.1))
  }

  function RasterLength(width: nat, height: nat): nat {
    LumaSize(width, height) + 2 * ChromaSize(width, height)
  }

  /** What a raster that nothing has been written to holds. */
  type Blank = (UInt16, UInt16) -> Raster

  /** The raster is only filled if a record of the right kind is next. */
  function ReadRaster(d: Data, width: UInt16, height: UInt16, blank: Blank): Read<Raster> {
    if d == [] then None
    else if d[0] != REF_LAST then Some((blank(width, height), d))
    else
      var h := ReadRecord(d, REF_LAST);
      if h.None? || h.value.0 != RasterLength(width, height) then None else ReadPlanes(h.value.1, width, height)
  }

  /** All three references are restored from the last one. */
  function ReadReferences(d: Data, blank: Blank): Read<References<Raster>> {
    var h := ReadRecord(d, REFERENCES);
    if h.None? || h.value.0 > |h.value.1| then None
    else
      var w := ReadWord(h.value.1);
      if w.None? then None
      else
        var ht := ReadWord(w.value.1);
        if ht.None? then None
        else
          var r := ReadRaster(ht.value.1, w.value.0, ht.value.0, blank);
          if r.None? then None else Some((References(r.value.0, r.value.0, r.value.0), r.value.1))
  }

  /** Everything must have been read in the end. */
  function ReadDecoder(d: Data, blank: Blank): Option<Decoder> {
    var h := ReadRecord(d, DECODER);
    if h.None? || h.value.0 != |h.value.1| then None
    else
      var s := ReadState(h.value.1);
      if s.None? then None
      else
        var r := ReadReferences(s.value.1, blank);
        if r.None? || r.value.1 != [] then None else Some(Decoder(s.value.0, r.value.0))
  }

  // ----- Round trip -----

  /** A record's length is that of what follows. */
  lemma RecordRead(tag: Octet, body: Data, rest: Data)
    requires |body| < WORD_LIMIT
    ensures ReadRecord(Record(tag, body) + rest, tag) == Some((|body|, body + rest))
  {
    hide Put32, Get32;
    var d, head := Record(tag, body) + rest, Put32(|body| % WORD_LIMIT);
    assert d[1..5] == head;
    Field32(d, 1, |body| % WORD_LIMIT);
    SmallMod(|body|, WORD_LIMIT);
    assert d[5..] == body + rest;
  }

  lemma RecordLength(tag: Octet, body: Data)
    ensures |Record(tag, body)| == |body| + 5
  {}

  lemma WordRead(n: UInt16, rest: Data)
    ensures ReadWord(Put16(n) + rest) == Some((n, rest))
  {
    hide Put16, Get16;
    var d := Put16(n) + rest;
    assert d[0..2] == Put16(n);
    Field16(d, 0, n);
    assert d[2..] == rest;
  }

  lemma OctetsRead(s: Data, rest: Data)
    ensures ReadOctets(s + rest, |s|) == Some((s, rest))
  {
    assert (s + rest)[..|s|] == s && (s + rest)[|s|..] == rest;
  }

  lemma FourRead(s: FourBytes, rest: Data)
    ensures ReadFour(SignedOctets(s) + rest) == Some((s, rest))
  {
    var d := SignedOctets(s) + rest;
    assert d[4..] == rest;
    assert [FromOctet(d[0]), FromOctet(d[1]), FromOctet(d[2]), FromOctet(d[3])] == s;
  }

  lemma TablesRead(t: Tables, rest: Data)
    ensures ReadTables(TablesBytes(t) + rest) == Some((t, rest))
  {
    hide Record, ReadRecord;
    var body := t.coeff + t.yMode + t.uvMode + t.mv;
    RecordRead(PROB_TABLE, body, rest);
    var b := body + rest;
    assert b[..1056] == t.coeff && b[1056..1060] == t.yMode && b[1060..1063] == t.uvMode && b[1063..1101] == t.mv;
    assert b[TABLES_LENGTH..] == rest;
  }

  lemma AdjustmentsRead(a: FilterAdjustments, rest: Data)
    ensures ReadAdjustments(AdjustmentsBytes(a) + rest) == Some((a, rest))
  {
    hide Record, ReadRecord, ReadFour, SignedOctets;
    var b, c := SignedOctets(a.reference), SignedOctets(a.mode);
    RecordRead(FILT_ADJ, b + c, rest);
    assert b + c + rest == b + (c + rest);
    FourRead(a.reference, c + rest);
    FourRead(a.mode, rest);
  }

  lemma {:induction false} RowsRead(rows: seq<seq<Octet>>, width: nat, n: nat, rest: Data)
    requires n <= |rows| && IsGrid(rows, width)
    ensures ReadRows(RowsBytes(rows, n) + rest, width, n) == Some((rows[..n], rest))
    ensures |RowsBytes(rows, n)| == MapSize(width, n)
  {
    hide MapSize, ReadOctets;
    MapSizeStep(width, n);
    if n == 0 {
      assert RowsBytes(rows, 0) + rest == rest && rows[..0] == [];
    } else {
      assert RowsBytes(rows, n) + rest == RowsBytes(rows, n - 1) + (rows[n - 1] + rest);
      RowsRead(rows, width, n - 1, rows[n - 1] + rest);
      OctetsRead(rows[n - 1], rest);
      assert rows[..n - 1] + [rows[n - 1]] == rows[..n];
    }
  }

  lemma MapSizeStep(width: nat, n: nat)
    ensures MapSize(width, 0) == 0 && (n > 0 ==> MapSize(width, n) == MapSize(width, n - 1) + width)
  {}

  lemma SegmentsRead(s: Segmentation, rest: Data)
    requires |SegmentsBytes(s)| < WORD_LIMIT
    ensures ReadSegments(SegmentsBytes(s) + rest) == Some((s, rest))
  {
    hide Record, ReadRecord, SegmentsBody, ReadSegmentsBody;
    var tag := if s.absolute then SEGM_ABS else SEGM_REL;
    RecordLength(tag, SegmentsBody(s));
    RecordRead(tag, SegmentsBody(s), rest);
    RecordTag(tag, SegmentsBody(s), rest);
    SegmentsBodyRead(s, rest);
  }

  lemma SegmentsBodyRead(s: Segmentation, rest: Data)
    ensures ReadSegmentsBody(SegmentsBody(s) + rest, s.absolute, |SegmentsBody(s)|) == Some((s, rest))
  {
    hide ReadFour, SignedOctets, Put16, ReadWord, MapSize, ReadRows, RowsBytes;
    var m := s.segmentMap;
    var a, b, c, e := Put16(m.width), Put16(|m.rows|), SignedOctets(s.quantizer), SignedOctets(s.filter);
    var z := RowsBytes(m.rows, |m.rows|);
    assert SegmentsBody(s) + rest == a + (b + (c + (e + (z + rest))));
    WordRead(m.width, b + (c + (e + (z + rest))));
    WordRead(|m.rows|, c + (e + (z + rest)));
    FourRead(s.quantizer, e + (z + rest));
    FourRead(s.filter, z + rest);
    RowsRead(m.rows, m.width, |m.rows|, rest);
    assert m.rows[..|m.rows|] == m.rows;
  }

  lemma RecordTag(tag: Octet, body: Data, rest: Data)
    ensures Record(tag, body) + rest != [] && (Record(tag, body) + rest)[0] == tag
  {}

  lemma OptionRead(present: bool, bytes: Data, rest: Data)
    ensures var d := OptionalBytes(present, bytes) + rest;
            d != [] && (d[0] == OPT_FULL <==> present) && d[1..] == (if present then bytes + rest else rest)
  {}

  lemma StateRead(s: SizedState, rest: Data)
    requires |StateBytes(s)| < WORD_LIMIT
    ensures ReadState(StateBytes(s) + rest) == Some((s, rest))
  {
    hide Record, ReadRecord, StateBody, ReadStateBody;
    RecordLength(DECODER_STATE, StateBody(s));
    RecordRead(DECODER_STATE, StateBody(s), rest);
    StateBodyRead(s, rest);
  }

  lemma StateBodyRead(s: SizedState, rest: Data)
    requires |StateBody(s)| < WORD_LIMIT
    ensures ReadStateBody(StateBody(s) + rest) == Some((s, rest))
  {
    hide Put16, ReadWord, TablesBytes, ReadTables, SegmentsBytes, ReadSegments, AdjustmentsBytes, ReadAdjustments, OptionalBytes;
    var t := s.state;
    var a, b, c := Put16(s.width), Put16(s.height), TablesBytes(t.tables);
    var e, f := SegmentsOption(t.segmentation), AdjustmentsOption(t.filterAdjustments);
    assert StateBody(s) + rest == a + (b + (c + (e + (f + rest))));
    WordRead(s.width, b + (c + (e + (f + rest))));
    WordRead(s.height, c + (e + (f + rest)));
    TablesRead(t.tables, e + (f + rest));
    OptionRead(t.segmentation.Some?, if t.segmentation.Some? then SegmentsBytes(t.segmentation.value) else [], f + rest);
    if t.segmentation.Some? {
      OptionLength(SegmentsBytes(t.segmentation.value));
      SegmentsRead(t.segmentation.value, f + rest);
    }
    OptionRead(t.filterAdjustments.Some?, if t.filterAdjustments.Some? then AdjustmentsBytes(t.filterAdjustments.value) else [], rest);
    if t.filterAdjustments.Some? { AdjustmentsRead(t.filterAdjustments.value, rest); }
  }

  lemma OptionLength(bytes: Data)
    ensures |OptionalBytes(true, bytes)| == |bytes| + 1
  {}

  lemma RasterRead(r: Raster, rest: Data, blank: Blank)
    requires |RasterBytes(r)| < WORD_LIMIT
    ensures ReadRaster(RasterBytes(r) + rest, r.displayWidth, r.displayHeight, blank) == Some((r, rest))
  {
    hide Record, ReadRecord, LumaSize, ChromaSize, ReadOctets;
    var body := r.y + r.u + r.v;
    RecordLength(REF_LAST, body);
    RecordRead(REF_LAST, body, rest);
    RecordTag(REF_LAST, body, rest);
    assert body + rest == r.y + (r.u + (r.v + rest));
    OctetsRead(r.y, r.u + (r.v + rest));
    OctetsRead(r.u, r.v + rest);
    OctetsRead(r.v, rest);
  }

  lemma ReferencesRead(r: References<Raster>, rest: Data, blank: Blank)
    requires |ReferencesBytes(r)| < WORD_LIMIT
    ensures ReadReferences(ReferencesBytes(r) + rest, blank) == Some((References(r.last, r.last, r.last), rest))
  {
    hide Record, ReadRecord, Put16, ReadWord, RasterBytes, ReadRaster;
    var a, b, c := Put16(r.last.displayWidth), Put16(r.last.displayHeight), RasterBytes(r.last);
    RecordLength(REFERENCES, a + b + c);
    RecordRead(REFERENCES, a + b + c, rest);
    assert a + b + c + rest == a + (b + (c + rest));
    WordRead(r.last.displayWidth, b + (c + rest));
    WordRead(r.last.displayHeight, c + rest);
    RasterRead(r.last, rest, blank);
  }

  /** What a restored decoder has for references. */
  function Collapsed(r: References<Raster>): References<Raster> {
    References(r.last, r.last, r.last)
  }

  /** Every length written equals the number of octets that follow, so no assertion of the reader fails;
      the same state comes back, with all three references equal to the last one. */
  lemma DecoderRead(d: Decoder, blank: Blank)
    requires |DecoderBytes(d)| < WORD_LIMIT
    ensures ReadDecoder(DecoderBytes(d), blank) == Some(Decoder(d.state, Collapsed(d.references)))
  {
    hide Record, ReadRecord, StateBytes, ReadState, ReferencesBytes, ReadReferences;
    var a, b := StateBytes(d.state), ReferencesBytes(d.references);
    RecordLength(DECODER, a + b);
    RecordRead(DECODER, a + b, []);
    assert Record(DECODER, a + b) + [] == Record(DECODER, a + b);
    assert a + b + [] == a + b && b + [] == b;
    StateRead(d.state, b);
    ReferencesRead(d.references, [], blank);
  }

  /** Saving and restoring is the identity exactly if the three references coincide. */
  lemma RestoredIffCoinciding(d: Decoder, blank: Blank)
    requires |DecoderBytes(d)| < WORD_LIMIT
    ensures ReadDecoder(DecoderBytes(d), blank) == Some(d)
            <==> d.references.golden == d.references.last && d.references.alternative == d.references.last
  {
    hide DecoderBytes, ReadDecoder;
    DecoderRead(d, blank);
  }

  /** The contents of an unwritten raster are never seen: if one is returned, something is left unread. */
  lemma BlankIsNeverSeen(d: Data, one: Blank, other: Blank)
    ensures ReadDecoder(d, one) == ReadDecoder(d, other)
  {
    hide ReadRecord, ReadState, ReadPlanes, RasterLength;
  }

  // ----- Which decoders can be saved -----

  lemma ProductFits(a: nat, b: nat, limit: nat)
    requires a <= limit && b <= limit
    ensures a * b <= limit * limit
  {
    assert a * b <= limit * b <= limit * limit;
  }

  lemma RasterFits(r: Raster)
    requires r.displayWidth <= Container.MAXIMUM_DIMENSION && r.displayHeight <= Container.MAXIMUM_DIMENSION
    ensures |RasterBytes(r)| <= 0x2000_0000
  {
    var w, h := Padded(r.displayWidth), Padded(r.displayHeight);
    hide Padded;
    PaddedFits(r.displayWidth);
    PaddedFits(r.displayHeight);
    ProductFits(w, h, 0x4000);
    ProductFits(w / 2, h / 2, 0x2000);
    RecordLength(REF_LAST, r.y + r.u + r.v);
  }

  lemma PaddedFits(n: nat)
    requires n <= Container.MAXIMUM_DIMENSION
    ensures Padded(n) <= 0x4000
  {}

  lemma SegmentsFit(s: Segmentation)
    requires s.segmentMap.width <= Container.MAXIMUM_DIMENSION && |s.segmentMap.rows| <= Container.MAXIMUM_DIMENSION
    ensures |SegmentsBytes(s)| <= 0x1000_0100
  {
    hide Put16, SignedOctets, RowsBytes;
    var m := s.segmentMap;
    RowsRead(m.rows, m.width, |m.rows|, []);
    ProductFits(m.width, |m.rows|, 0x4000);
    RecordLength(if s.absolute then SEGM_ABS else SEGM_REL, SegmentsBody(s));
  }

  lemma StateFits(s: SizedState)
    requires s.state.segmentation.Some? ==>
               var m := s.state.segmentation.value.segmentMap;
               m.width <= Container.MAXIMUM_DIMENSION && |m.rows| <= Container.MAXIMUM_DIMENSION
    ensures |StateBytes(s)| <= 0x1000_1000
  {
    hide Put16, SignedOctets, SegmentsBytes, Record;
    var t := s.state;
    RecordLength(PROB_TABLE, t.tables.coeff + t.tables.yMode + t.tables.uvMode + t.tables.mv);
    if t.segmentation.Some? { SegmentsFit(t.segmentation.value); }
    if t.filterAdjustments.Some? {
      RecordLength(FILT_ADJ, SignedOctets(t.filterAdjustments.value.reference) + SignedOctets(t.filterAdjustments.value.mode));
    }
    RecordLength(DECODER_STATE, StateBody(s));
  }

  /** Every decoder whose raster and segmentation map have the dimensions that a frame can carry. */
  lemma DecoderFits(d: Decoder)
    requires d.references.last.displayWidth <= Container.MAXIMUM_DIMENSION
    requires d.references.last.displayHeight <= Container.MAXIMUM_DIMENSION
    requires d.state.state.segmentation.Some? ==>
               var m := d.state.state.segmentation.value.segmentMap;
               m.width <= Container.MAXIMUM_DIMENSION && |m.rows| <= Container.MAXIMUM_DIMENSION
    ensures |DecoderBytes(d)| < WORD_LIMIT
  {
    hide Put16, StateBytes, RasterBytes, Record;
    StateFits(d.state);
    RasterFits(d.references.last);
    var r := d.references.last;
    RecordLength(REFERENCES, Put16(r.displayWidth) + Put16(r.displayHeight) + RasterBytes(r));
    RecordLength(DECODER, StateBytes(d.state) + ReferencesBytes(d.references));
  }

  /** The state that is saved is the one that Lockstep is about: a decoder that has just decoded a key frame, whose
      references therefore coincide, is restored exactly as it was and so stays in step with the encoder. */
  lemma RestoredAfterKeyFrame<S>(w: L.World<Raster, S>, dec: L.Decoder<Raster>, frame: FrameCodec.Frame, blank: Blank)
    requires FrameCodec.HeaderTyped(frame.header) && frame.header.Key? && L.StateSized(dec.state, w.dims)
    requires w.dims.width <= Container.MAXIMUM_DIMENSION && w.dims.height <= Container.MAXIMUM_DIMENSION
    requires var r := L.Decoded(w, dec, frame).references.last;
             r.displayWidth == w.dims.width && r.displayHeight == w.dims.height
    ensures var after := L.Decoded(w, dec, frame);
            var d := Decoder(SizedState(w.dims.width, w.dims.height, after.state), after.references);
            ReadDecoder(DecoderBytes(d), blank) == Some(d)
  {
    hide DecoderBytes, ReadDecoder, L.DecoderStateAfter, L.Reconstructed, L.Cached, FrameCodec.HeaderTyped;
    var after := L.Decoded(w, dec, frame);
    var d := Decoder(SizedState(w.dims.width, w.dims.height, after.state), after.references);
    DecoderFits(d);
    RestoredIffCoinciding(d, blank);
  }
}
