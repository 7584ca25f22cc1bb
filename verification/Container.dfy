/** The frame container: frame tag, key frame start code and dimensions, partitions (sections 9.1 and 9.5
    of RFC 6386; src/encoder/serializer.cc, src/decoder/uncompressed_chunk.cc, src/util/chunk.hh). */
module Container {
  import opened Wrappers
  import opened BoolCoding

  type Data = seq<Octet>

  const MAXIMUM_DIMENSION: nat := 16383
  const FIRST_LIMIT: nat := 0x8_0000  // lengths of first partitions have 19 bits
  const PARTITION_LIMIT: nat := 0x100_0000  // lengths of DCT partitions have 24 bits

  // ----- Little-endian numbers -----

  function Le24(x: nat): (d: Data)
    ensures |d| == 3
  {
    [x % 256, x / 256 % 256, x / 0x1_0000 % 256]
  }

  function FromLe24(d: Data, at: nat): (x: nat)
    requires at + 3 <= |d|
    ensures x < PARTITION_LIMIT
  {
    var low: nat, middle: nat, high: nat := d[at], d[at + 1], d[at + 2];
    low + 256 * middle + 0x1_0000 * high
  }

  lemma Le24Value(x: nat)
    ensures x % 256 + 256 * (x / 256 % 256) + 0x1_0000 * (x / 0x1_0000 % 256) == x % PARTITION_LIMIT
  {
    assert x / 0x1_0000 == x / 256 / 256;
    assert x / PARTITION_LIMIT == x / 0x1_0000 / 256;
  }

  function Le16(x: nat): (d: Data)
    ensures |d| == 2
  {
    [x % 256, x / 256 % 64]  // two bits are left to the scale
  }

  // ----- Writing -----

  datatype Tag = Tag(keyFrame: bool, showFrame: bool, experimental: bool, referenceUpdate: bool)

  function Bit(b: bool): nat {
    if b then 1 else 0
  }

  function TagOctets(t: Tag, length: nat): (d: Data)
    ensures |d| == 3
  {
    [Bit(!t.keyFrame) + 4 * Bit(t.referenceUpdate) + 8 * Bit(t.experimental) + 16 * Bit(t.showFrame) + 32 * (length % 8),
     length / 8 % 256, length / 2048 % 256]
  }

  /** The tag is one number of 24 bits, low octet first: a bit that is clear in key frames, three bits of version, the
      show flag, and nineteen bits of length. */
  lemma TagIsNumber(t: Tag, length: nat)
    ensures var d := TagOctets(t, length);
            FromLe24(d, 0)
            == (if t.keyFrame then 0 else 1)
               + 2 * ((if t.referenceUpdate then 2 else 0) + (if t.experimental then 4 else 0))
               + 16 * (if t.showFrame then 1 else 0) + 32 * (length % FIRST_LIMIT)
  {
    var a, b, c := length % 8, length / 8 % 256, length / 2048 % 256;
    assert length / 2048 == length / 8 / 256;
    assert length / FIRST_LIMIT == length / 2048 / 256;
    assert length % FIRST_LIMIT == a + 8 * b + 2048 * c;
  }

  const START_CODE: Data := [0x9d, 0x01, 0x2a]

  function DimensionOctets(width: nat, height: nat): (d: Data)
    ensures |d| == 4
  {
    Le16(width) + Le16(height)
  }

  function Preamble(t: Tag, width: nat, height: nat, length: nat): (d: Data)
    ensures |d| == Offset(t.keyFrame)
  {
    TagOctets(t, length) + if t.keyFrame then START_CODE + DimensionOctets(width, height) else []
  }

  function Offset(keyFrame: bool): nat {
    if keyFrame then 10 else 3
  }

  /** The lengths of the first n partitions. */
  function LengthTable(parts: seq<Data>, n: nat): (d: Data)
    requires n <= |parts|
    ensures |d| == 3 * n
  {
    if n == 0 then [] else LengthTable(parts, n - 1) + Le24(|parts[n - 1]|)
  }

  function Joined(parts: seq<Data>, n: nat): Data
    requires n <= |parts|
  {
    if n == 0 then [] else Joined(parts, n - 1) + parts[n - 1]
  }

  /** The length table of all partitions but the last, and the partitions. */
  function Partitions(parts: seq<Data>): Data
    requires |parts| > 0
  {
    LengthTable(parts, |parts| - 1) + Joined(parts, |parts|)
  }

  predicate Makeable(width: nat, height: nat, parts: seq<Data>) {
    width <= MAXIMUM_DIMENSION && height <= MAXIMUM_DIMENSION && parts != []
  }

  function Framed(t: Tag, width: nat, height: nat, first: Data, parts: seq<Data>): Data
    requires |parts| > 0
  {
    Preamble(t, width, height, |first|) + first + Partitions(parts)
  }

  method MakeFrame(t: Tag, width: nat, height: nat, first: Data, parts: seq<Data>) returns (frame: Option<Data>)
    ensures frame == if Makeable(width, height, parts) then Some(Framed(t, width, height, first, parts)) else None
  {
    if width > MAXIMUM_DIMENSION || height > MAXIMUM_DIMENSION {
      return None;
    }
    if parts == [] {
      return None;
    }
    var ret := TagOctets(t, |first|);
    if t.keyFrame {
      ret := ret + START_CODE;
      ret := ret + Le16(width);
      ret := ret + Le16(height);
    }
    assert ret == Preamble(t, width, height, |first|);
    hide Preamble, TagOctets, Le16, Le24;
    ret := ret + first;
    ghost var head := ret;
    for i := 0 to |parts| - 1
      invariant ret == head + LengthTable(parts, i)
    {
      ret := ret + Le24(|parts[i]|);
    }
    head := ret;
    for i := 0 to |parts|
      invariant ret == head + Joined(parts, i)
    {
      ret := ret + parts[i];
    }
    frame := Some(ret);
    assert Framed(t, width, height, first, parts)
           == Preamble(t, width, height, |first|) + first + LengthTable(parts, |parts| - 1) + Joined(parts, |parts|);
  }

  // ----- Reading -----

  datatype Failure = Invalid | Unsupported | OutOfRange
  datatype Result<+T> = Ok(value: T) | Err(failure: Failure)

  datatype Chunk = Chunk(keyFrame: bool, showFrame: bool, experimental: bool, loopFilter: bool, first: Data, rest: Data)

  function VersionBits(d: Data): nat
    requires |d| > 0
  {
    d[0] / 2 % 8
  }

  /** Nineteen bits from bit five of the frame. */
  function FirstLength(d: Data): (n: nat)
    requires |d| >= 3
    ensures n < FIRST_LIMIT
  {
    FromLe24(d, 0) / 32 % FIRST_LIMIT
  }

  function Word(low: nat, high: nat): nat {
    low + 256 * high
  }

  predicate DimensionsMatch(d: Data, width: nat, height: nat)
    requires |d| >= 10
  {
    && Word(d[6], d[7]) % 0x4000 == width && d[7] / 64 == 0
    && Word(d[8], d[9]) % 0x4000 == height && d[9] / 64 == 0
  }

  function ParseFrame(frame: Data, width: nat, height: nat): Result<Chunk> {
    if |frame| < 1 then Err(Invalid)
    else
      var keyFrame, showFrame, version := frame[0] % 2 == 0, frame[0] / 16 % 2 == 1, VersionBits(frame);
      if version != 0 && version != 4 && version != 6 then Err(Unsupported)
      else if |frame| < 3 then Err(Invalid)
      else
        var length, offset := FirstLength(frame), Offset(keyFrame);
        if |frame| <= offset + length then Err(Invalid)
        else
          var chunk := Chunk(keyFrame, showFrame, version != 0, version != 6,
                             frame[offset..offset + length], frame[offset + length..]);
          if keyFrame && frame[3..6] != START_CODE then Err(Invalid)
          else if keyFrame && !DimensionsMatch(frame, width, height) then Err(Unsupported)
          else Ok(chunk)
  }

  function LengthAt(rest: Data, i: nat): nat
    requires 3 * i + 3 <= |rest|
  {
    FromLe24(rest, 3 * i)
  }

  /** Where partition i starts, the table for k partitions being in front. */
  function PartitionStart(rest: Data, k: nat, i: nat): (n: nat)
    requires i <= k && 3 * k <= |rest|
    ensures n >= 3 * k
  {
    if i == 0 then 3 * k else PartitionStart(rest, k, i - 1) + LengthAt(rest, i - 1)
  }

  lemma {:induction false} StartsGrow(rest: Data, k: nat, i: nat, j: nat)
    requires i <= j <= k && 3 * k <= |rest|
    ensures PartitionStart(rest, k, i) <= PartitionStart(rest, k, j)
  {
    if i < j { StartsGrow(rest, k, i, j - 1); }
  }

  predicate EnoughData(rest: Data, k: nat) {
    3 * k <= |rest| && PartitionStart(rest, k, k) <= |rest|
  }

  function PartitionAt(rest: Data, k: nat, i: nat): Data
    requires EnoughData(rest, k) && i <= k
  {
    StartsGrow(rest, k, i, k);
    if i == k then rest[PartitionStart(rest, k, k)..]
    else
      StartsGrow(rest, k, i + 1, k);
      rest[PartitionStart(rest, k, i)..PartitionStart(rest, k, i + 1)]
  }

  /** The partitions, all but the last of which have their length in the table. */
  function DctPartitions(rest: Data, num: nat): Option<seq<Data>>
    requires num > 0
  {
    if EnoughData(rest, num - 1) then Some(seq(num, i requires 0 <= i < num => PartitionAt(rest, num - 1, i)))
    else None
  }

  method ExtractLengths(rest: Data, k: nat) returns (lengths: seq<nat>, enough: bool)
    ensures enough == (3 * k <= |rest|)
    ensures enough ==> |lengths| == k && forall j :: 0 <= j < k ==> lengths[j] == LengthAt(rest, j)
  {
    hide FromLe24;
    lengths := [];
    var restOfFrame := rest;
    for i := 0 to k
      invariant 3 * i <= |rest| && restOfFrame == rest[3 * i..]
      invariant |lengths| == i && forall j :: 0 <= j < i ==> lengths[j] == LengthAt(rest, j)
    {
      if |restOfFrame| < 3 {
        return lengths, false;
      }
      LengthInRest(rest, i);
      lengths := lengths + [FromLe24(restOfFrame, 0)];
      restOfFrame := restOfFrame[3..];
    }
    enough := true;
  }

  /** Extracts the lengths, then the partitions. */
  method ExtractPartitions(rest: Data, num: nat) returns (parts: Option<seq<Data>>)
    requires num > 0
    ensures parts == DctPartitions(rest, num)
  {
    hide FromLe24, PartitionStart, LengthAt;
    ghost var k := num - 1;
    var lengths, enough := ExtractLengths(rest, num - 1);
    if !enough {
      return None;
    }
    var restOfFrame := rest[3 * |lengths|..];
    FirstStart(rest, k);
    var list: seq<Data> := [];
    for i := 0 to |lengths|
      invariant PartitionStart(rest, k, i) <= |rest| && restOfFrame == rest[PartitionStart(rest, k, i)..]
      invariant |list| == i && forall j :: 0 <= j < i ==> Section(rest, k, j, list[j])
    {
      StartsGrow(rest, k, i + 1, k);
      StartStep(rest, k, i);
      if |restOfFrame| < lengths[i] {
        return None;
      }
      list := list + [restOfFrame[..lengths[i]]];
      restOfFrame := restOfFrame[lengths[i]..];
    }
    list := list + [restOfFrame];
    parts := Some(list);
    forall i | 0 <= i < num ensures list[i] == PartitionAt(rest, k, i) {
      PartitionIs(rest, k, i);
    }
    assert list == DctPartitions(rest, num).value;
  }

  /** The part of the data that partition j occupies. */
  predicate Section(rest: Data, k: nat, j: nat, part: Data)
    requires j < k && 3 * k <= |rest|
  {
    PartitionStart(rest, k, j) <= PartitionStart(rest, k, j + 1) <= |rest|
    && part == rest[PartitionStart(rest, k, j)..PartitionStart(rest, k, j + 1)]
  }

  lemma FirstStart(rest: Data, k: nat)
    requires 3 * k <= |rest|
    ensures PartitionStart(rest, k, 0) == 3 * k
  {}

  lemma LengthInRest(rest: Data, i: nat)
    requires 3 * i + 3 <= |rest|
    ensures FromLe24(rest[3 * i..], 0) == LengthAt(rest, i)
  {}

  lemma PartitionIs(rest: Data, k: nat, i: nat)
    requires EnoughData(rest, k) && i <= k
    ensures i == k ==> PartitionAt(rest, k, i) == rest[PartitionStart(rest, k, k)..]
    ensures i < k ==> PartitionStart(rest, k, i) <= PartitionStart(rest, k, i + 1) <= |rest|
                      && PartitionAt(rest, k, i) == rest[PartitionStart(rest, k, i)..PartitionStart(rest, k, i + 1)]
  {
    StartsGrow(rest, k, i, k);
    if i < k { StartsGrow(rest, k, i + 1, k); }
  }

  // ----- Round trip of the partitions -----

  lemma {:induction false} TableEntry(parts: seq<Data>, n: nat, i: nat)
    requires i < n <= |parts|
    ensures LengthTable(parts, n)[3 * i..3 * i + 3] == Le24(|parts[i]|)
  {
    hide Le24;
    if i < n - 1 {
      TableEntry(parts, n - 1, i);
      assert LengthTable(parts, n)[3 * i..3 * i + 3] == LengthTable(parts, n - 1)[3 * i..3 * i + 3];
    }
  }

  /** What the parser finds in the table: the length, as far as 24 bits can hold it. */
  lemma LengthRead(parts: seq<Data>, i: nat)
    requires i < |parts| - 1
    ensures 3 * i + 3 <= |Partitions(parts)| && LengthAt(Partitions(parts), i) == |parts[i]| % PARTITION_LIMIT
  {
    hide LengthTable;
    var rest, x := Partitions(parts), |parts[i]|;
    TableEntry(parts, |parts| - 1, i);
    var entry := Le24(x);
    assert rest[3 * i..3 * i + 3] == entry;
    assert rest[3 * i] == entry[0] && rest[3 * i + 1] == entry[1] && rest[3 * i + 2] == entry[2];
    Le24Value(x);
  }

  lemma {:induction false} JoinedSlice(parts: seq<Data>, n: nat, i: nat)
    requires i < n <= |parts|
    ensures |Joined(parts, i)| <= |Joined(parts, i + 1)| <= |Joined(parts, n)|
    ensures |Joined(parts, i + 1)| == |Joined(parts, i)| + |parts[i]|
    ensures Joined(parts, n)[|Joined(parts, i)|..|Joined(parts, i + 1)|] == parts[i]
  {
    if i < n - 1 { JoinedSlice(parts, n - 1, i); }
  }

  predicate PartitionsFit(parts: seq<Data>) {
    forall i :: 0 <= i < |parts| - 1 ==> |parts[i]| < PARTITION_LIMIT
  }

  lemma {:induction false} StartRead(parts: seq<Data>, i: nat)
    requires i < |parts| && PartitionsFit(parts)
    ensures var k := |parts| - 1;
            PartitionStart(Partitions(parts), k, i) == 3 * k + |Joined(parts, i)|
  {
    hide Partitions, FromLe24;
    PartitionsLength(parts);
    if i > 0 {
      StartRead(parts, i - 1);
      LengthRead(parts, i - 1);
      SmallMod(|parts[i - 1]|, PARTITION_LIMIT);
      JoinedSlice(parts, i, i - 1);
    }
  }

  lemma PartitionsLength(parts: seq<Data>)
    requires |parts| > 0
    ensures |Partitions(parts)| == 3 * (|parts| - 1) + |Joined(parts, |parts|)|
  {
    hide LengthTable, Joined;
  }

  lemma PartitionRead(parts: seq<Data>, i: nat)
    requires i < |parts| && PartitionsFit(parts) && EnoughData(Partitions(parts), |parts| - 1)
    ensures PartitionAt(Partitions(parts), |parts| - 1, i) == parts[i]
  {
    hide PartitionStart, EnoughData, Joined, LengthTable, PartitionAt;
    var k, rest := |parts| - 1, Partitions(parts);
    PartitionIs(rest, k, i);
    StartRead(parts, i);
    JoinedSlice(parts, |parts|, i);
    if i < k { StartRead(parts, i + 1); }
    var a, b := |Joined(parts, i)|, |Joined(parts, i + 1)|;
    assert rest[3 * k + a..3 * k + b] == Joined(parts, |parts|)[a..b];
    PartitionsLength(parts);
  }

  /** Partition round trip, exactly: the parser finds the partitions again if and only if the length of
      each but the last fits 24 bits. */
  lemma PartitionsRoundTrip(parts: seq<Data>)
    requires |parts| > 0
    ensures DctPartitions(Partitions(parts), |parts|) == Some(parts) <==> PartitionsFit(parts)
  {
    hide PartitionAt, Partitions, PartitionStart;
    var k, rest := |parts| - 1, Partitions(parts);
    if PartitionsFit(parts) {
      PartitionsLength(parts);
      StartRead(parts, k);
      JoinedSlice(parts, |parts|, k);
      forall i | 0 <= i < |parts| ensures PartitionAt(rest, k, i) == parts[i] {
        PartitionRead(parts, i);
      }
      assert DctPartitions(rest, |parts|).value == parts;
    }
    if DctPartitions(rest, |parts|) == Some(parts) {
      forall i | 0 <= i < k ensures |parts[i]| < PARTITION_LIMIT {
        assert parts[i] == PartitionAt(rest, k, i);
        PartitionIs(rest, k, i);
        StartStep(rest, k, i);
      }
    }
  }

  lemma StartStep(rest: Data, k: nat, i: nat)
    requires 3 * k <= |rest| && i < k
    ensures PartitionStart(rest, k, i + 1) == PartitionStart(rest, k, i) + LengthAt(rest, i)
  {}

  // ----- Round trip of the frame -----

  lemma TagRead(t: Tag, length: nat)
    ensures var d := TagOctets(t, length);
            && (d[0] % 2 == 0) == t.keyFrame && (d[0] / 16 % 2 == 1) == t.showFrame
            && VersionBits(d) == 2 * Bit(t.referenceUpdate) + 4 * Bit(t.experimental)
            && FirstLength(d) == length % FIRST_LIMIT
  {
    var d := TagOctets(t, length);
    var low := Bit(!t.keyFrame) + 4 * Bit(t.referenceUpdate) + 8 * Bit(t.experimental) + 16 * Bit(t.showFrame);
    assert low < 32;
    LowBits(low, length % 8, t);
    NineteenBits(low, length);
  }

  lemma LowBits(low: nat, x: nat, t: Tag)
    requires x < 8
    requires low == Bit(!t.keyFrame) + 4 * Bit(t.referenceUpdate) + 8 * Bit(t.experimental) + 16 * Bit(t.showFrame)
    ensures var v := low + 32 * x;
            (v % 2 == 0) == t.keyFrame && (v / 16 % 2 == 1) == t.showFrame
            && v / 2 % 8 == 2 * Bit(t.referenceUpdate) + 4 * Bit(t.experimental)
  {}

  lemma NineteenBits(low: nat, length: nat)
    requires low < 32
    ensures (low + 32 * (length % 8) + 256 * (length / 8 % 256) + 0x1_0000 * (length / 2048 % 256)) / 32 % FIRST_LIMIT
            == length % FIRST_LIMIT
  {
    var a, b, c := length % 8, length / 8 % 256, length / 2048 % 256;
    assert length / 2048 == length / 8 / 256;
    assert length / FIRST_LIMIT == length / 2048 / 256;
    assert length % FIRST_LIMIT == a + 8 * b + 2048 * c;
    assert low + 32 * a + 256 * b + 0x1_0000 * c == low + 32 * (a + 8 * b + 2048 * c);
    assert (low + 32 * (a + 8 * b + 2048 * c)) / 32 == a + 8 * b + 2048 * c;
  }

  lemma DimensionRead(width: nat)
    requires width <= MAXIMUM_DIMENSION
    ensures Word(Le16(width)[0], Le16(width)[1]) % 0x4000 == width && Le16(width)[1] / 64 == 0
  {}

  /** What the parser sees of a frame that was made. */
  lemma FrameLayout(t: Tag, width: nat, height: nat, first: Data, parts: seq<Data>)
    requires |parts| > 0
    ensures var f, o := Framed(t, width, height, first, parts), Offset(t.keyFrame);
            && |f| == o + |first| + |Partitions(parts)|
            && f[..3] == TagOctets(t, |first|)
            && (t.keyFrame ==> f[3..6] == START_CODE && f[6..8] == Le16(width) && f[8..10] == Le16(height))
            && f[o..o + |first|] == first && f[o + |first|..] == Partitions(parts)
  {
    hide TagOctets, Le16, Partitions;
  }

  lemma FrameTag(t: Tag, width: nat, height: nat, first: Data, parts: seq<Data>)
    requires |parts| > 0
    ensures var f := Framed(t, width, height, first, parts);
            && |f| >= 3 && (f[0] % 2 == 0) == t.keyFrame && (f[0] / 16 % 2 == 1) == t.showFrame
            && VersionBits(f) == 2 * Bit(t.referenceUpdate) + 4 * Bit(t.experimental)
            && FirstLength(f) == |first| % FIRST_LIMIT
  {
    hide TagOctets, Partitions, Framed;
    FrameLayout(t, width, height, first, parts);
    TagRead(t, |first|);
    var f, d := Framed(t, width, height, first, parts), TagOctets(t, |first|);
    assert f[0] == f[..3][0] == d[0] && f[1] == f[..3][1] == d[1] && f[2] == f[..3][2] == d[2];
  }

  lemma FrameDimensions(t: Tag, width: nat, height: nat, first: Data, parts: seq<Data>, w: nat, h: nat)
    requires Makeable(width, height, parts) && t.keyFrame
    ensures var f := Framed(t, width, height, first, parts);
            |f| >= 10 && f[3..6] == START_CODE && (DimensionsMatch(f, w, h) <==> width == w && height == h)
  {
    hide TagOctets, Partitions, Framed, Le16;
    FrameLayout(t, width, height, first, parts);
    DimensionRead(width);
    DimensionRead(height);
    var f := Framed(t, width, height, first, parts);
    assert f[6] == f[6..8][0] && f[7] == f[6..8][1] && f[8] == f[8..10][0] && f[9] == f[8..10][1];
  }

  /** What a chunk should say about a frame. */
  function Expected(t: Tag, first: Data, parts: seq<Data>): Chunk
    requires |parts| > 0
  {
    Chunk(t.keyFrame, t.showFrame, t.experimental, !t.referenceUpdate, first, Partitions(parts))
  }

  /** Container round trip, exactly: the parser gets the flags, the first partition and the rest back if
      and only if the first partition's length fits 19 bits, something follows it, the version is one that
      is supported, and a key frame has the dimensions the decoder expects. */
  lemma FrameRoundTrip(t: Tag, width: nat, height: nat, first: Data, parts: seq<Data>, w: nat, h: nat)
    requires Makeable(width, height, parts)
    ensures ParseFrame(Framed(t, width, height, first, parts), w, h) == Ok(Expected(t, first, parts))
            <==> |first| < FIRST_LIMIT && (|parts| > 1 || parts[0] != []) && (t.referenceUpdate ==> t.experimental)
                 && (t.keyFrame ==> width == w && height == h)
  {
    hide TagOctets, Partitions, Framed, Le16, DimensionsMatch, FirstLength, VersionBits;
    var f, o := Framed(t, width, height, first, parts), Offset(t.keyFrame);
    FrameLayout(t, width, height, first, parts);
    FrameTag(t, width, height, first, parts);
    if t.keyFrame { FrameDimensions(t, width, height, first, parts, w, h); }
    SomethingFollows(parts);
    if |first| < FIRST_LIMIT {
      SmallMod(|first|, FIRST_LIMIT);
    }
  }

  lemma SomethingFollows(parts: seq<Data>)
    requires |parts| > 0
    ensures |Partitions(parts)| > 0 <==> |parts| > 1 || parts[0] != []
  {
    PartitionsLength(parts);
    if |parts| == 1 {
      assert Joined(parts, 1) == Joined(parts, 0) + parts[0];
    }
  }
}
