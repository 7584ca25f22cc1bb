/** Packets, acknowledgements, and the fragmentation and reassembly of frames
    (src/net/packet.hh, src/net/packet.cc). */
module Packets {
  import opened Wrappers
  import opened BoolCoding

  type UInt16 = x: int | 0 <= x < 0x1_0000
  type UInt32 = x: int | 0 <= x < 0x1_0000_0000
  type Data = seq<Octet>

  // ----- Little-endian fields -----

  function Put16(n: UInt16): (d: Data)
    ensures |d| == 2
  {
    [n % 256, n / 256]
  }

  function Put32(n: UInt32): (d: Data)
    ensures |d| == 4
  {
    [n % 256, n / 256 % 256, n / 0x1_0000 % 256, n / 0x100_0000]
  }

  function Number16(a: int, b: int): int {
    a + 256 * b
  }

  function Number32(a: int, b: int, c: int, d: int): int {
    a + 256 * b + 0x1_0000 * c + 0x100_0000 * d
  }

  function Get16(d: Data, at: nat): UInt16
    requires at + 2 <= |d|
  {
    Number16(d[at], d[at + 1])
  }

  function Get32(d: Data, at: nat): UInt32
    requires at + 4 <= |d|
  {
    Number32(d[at], d[at + 1], d[at + 2], d[at + 3])
  }

  lemma Digits16(n: UInt16)
    ensures Number16(n % 256, n / 256) == n
  {}

  lemma Octets16(a: Octet, b: Octet)
    ensures var n := Number16(a, b); 0 <= n < 0x1_0000 && n % 256 == a && n / 256 == b
  {}

  lemma Digits32(n: UInt32)
    ensures Number32(n % 256, n / 256 % 256, n / 0x1_0000 % 256, n / 0x100_0000) == n
  {
    assert n / 0x1_0000 == n / 256 / 256;
    assert n / 0x100_0000 == n / 0x1_0000 / 256;
  }

  lemma Octets32(a: Octet, b: Octet, c: Octet, d: Octet)
    ensures var n := Number32(a, b, c, d);
            0 <= n < 0x1_0000_0000 && n % 256 == a && n / 256 % 256 == b && n / 0x1_0000 % 256 == c && n / 0x100_0000 == d
  {
    var n: int := Number32(a, b, c, d);
    assert n / 256 == b + 256 * c + 0x1_0000 * d;
    assert n / 0x1_0000 == c + 256 * d;
  }

  /** A field stands at a place in the data exactly if reading there gives its value. */
  lemma Field16(d: Data, at: nat, n: UInt16)
    requires at + 2 <= |d|
    ensures d[at..at + 2] == Put16(n) <==> Get16(d, at) == n
  {
    hide Number16;
    var w := d[at..at + 2];
    assert w[0] == d[at] && w[1] == d[at + 1];
    Digits16(n);
    Octets16(w[0], w[1]);
    if Get16(d, at) == n {
      assert w == Put16(n);
    }
  }

  lemma Field32(d: Data, at: nat, n: UInt32)
    requires at + 4 <= |d|
    ensures d[at..at + 4] == Put32(n) <==> Get32(d, at) == n
  {
    hide Number32;
    var w := d[at..at + 4];
    assert w[0] == d[at] && w[1] == d[at + 1] && w[2] == d[at + 2] && w[3] == d[at + 3];
    Digits32(n);
    Octets32(w[0], w[1], w[2], w[3]);
    if Get32(d, at) == n {
      assert w == Put32(n);
    }
  }

  // ----- Packets -----

  datatype Packet = Packet(
    connectionId: UInt16, sourceState: UInt32, targetState: UInt32, frameNo: UInt32,
    fragmentNo: UInt16, fragmentsInThisFrame: UInt16,
    timeSinceLast: UInt32, packetSendTimestamp: UInt32, framePushTimestamp: UInt32,
    rttAverage: UInt16, throughput: UInt16, payload: Data)

  const HEADER_LENGTH: nat := 34

  function Header(p: Packet): (d: Data)
    ensures |d| == HEADER_LENGTH
  {
    Put16(p.connectionId) + Put32(p.sourceState) + Put32(p.targetState) + Put32(p.frameNo)
    + Put16(p.fragmentNo) + Put16(p.fragmentsInThisFrame)
    + Put32(p.timeSinceLast) + Put32(p.packetSendTimestamp) + Put32(p.framePushTimestamp)
    + Put16(p.rttAverage) + Put16(p.throughput)
  }

  function ToString(p: Packet): Data {
    Header(p) + p.payload
  }

  function Fields(d: Data): Packet
    requires |d| >= HEADER_LENGTH
  {
    Packet(Get16(d, 0), Get32(d, 2), Get32(d, 6), Get32(d, 10), Get16(d, 14), Get16(d, 16),
           Get32(d, 18), Get32(d, 22), Get32(d, 26), Get16(d, 30), Get16(d, 32), d[HEADER_LENGTH..])
  }

  /** What the parser insists on. */
  predicate WellFormed(p: Packet) {
    p.fragmentNo < p.fragmentsInThisFrame && p.payload != []
  }

  function FromString(d: Data): Option<Packet> {
    if |d| < HEADER_LENGTH then None
    else if WellFormed(Fields(d)) then Some(Fields(d))
    else None
  }

  /** The header, cut up. */
  lemma HeaderLayout(p: Packet)
    ensures var d := Header(p);
            && d[0..2] == Put16(p.connectionId) && d[2..6] == Put32(p.sourceState) && d[6..10] == Put32(p.targetState)
            && d[10..14] == Put32(p.frameNo) && d[14..16] == Put16(p.fragmentNo)
            && d[16..18] == Put16(p.fragmentsInThisFrame) && d[18..22] == Put32(p.timeSinceLast)
            && d[22..26] == Put32(p.packetSendTimestamp) && d[26..30] == Put32(p.framePushTimestamp)
            && d[30..32] == Put16(p.rttAverage) && d[32..34] == Put16(p.throughput)
  {
    hide Put16, Put32;
  }

  /** Data that begins with a packet's header has its fields, and the other way round. */
  lemma FieldsDecide(d: Data, p: Packet)
    requires |d| >= HEADER_LENGTH
    ensures Fields(d) == p <==> d == ToString(p)
  {
    hide Put16, Put32, Get16, Get32, Header;
    HeaderLayout(p);
    var h := Header(p);
    Field16(d, 0, p.connectionId);
    Field32(d, 2, p.sourceState);
    Field32(d, 6, p.targetState);
    Field32(d, 10, p.frameNo);
    Field16(d, 14, p.fragmentNo);
    Field16(d, 16, p.fragmentsInThisFrame);
    Field32(d, 18, p.timeSinceLast);
    Field32(d, 22, p.packetSendTimestamp);
    Field32(d, 26, p.framePushTimestamp);
    Field16(d, 30, p.rttAverage);
    Field16(d, 32, p.throughput);
    HeaderDecides(d, h);
    if d == ToString(p) {
      assert d[..34] == h && d[34..] == p.payload;
    }
    if d[..34] == h && d[34..] == p.payload {
      assert d == d[..34] + d[34..];
    }
  }

  lemma HeaderDecides(d: Data, h: Data)
    requires |d| >= HEADER_LENGTH && |h| == HEADER_LENGTH
    ensures d[..34] == h <==>
              && d[0..2] == h[0..2] && d[2..6] == h[2..6] && d[6..10] == h[6..10] && d[10..14] == h[10..14]
              && d[14..16] == h[14..16] && d[16..18] == h[16..18] && d[18..22] == h[18..22] && d[22..26] == h[22..26]
              && d[26..30] == h[26..30] && d[30..32] == h[30..32] && d[32..34] == h[32..34]
  {
    if d[..34] == h {
      SameSlices(d, h, 0, 2); SameSlices(d, h, 2, 6); SameSlices(d, h, 6, 10); SameSlices(d, h, 10, 14);
      SameSlices(d, h, 14, 16); SameSlices(d, h, 16, 18); SameSlices(d, h, 18, 22); SameSlices(d, h, 22, 26);
      SameSlices(d, h, 26, 30); SameSlices(d, h, 30, 32); SameSlices(d, h, 32, 34);
    }
    if d[0..2] == h[0..2] && d[2..6] == h[2..6] && d[6..10] == h[6..10] && d[10..14] == h[10..14]
              && d[14..16] == h[14..16] && d[16..18] == h[16..18] && d[18..22] == h[18..22] && d[22..26] == h[22..26]
              && d[26..30] == h[26..30] && d[30..32] == h[30..32] && d[32..34] == h[32..34] {
      Eleven(d);
      Eleven(h);
      assert d[..34] == h;
    }
  }

  lemma SameSlices(d: Data, h: Data, i: nat, j: nat)
    requires i <= j <= |h| <= |d| && d[..|h|] == h
    ensures d[i..j] == h[i..j]
  {
    forall k | i <= k < j ensures d[k] == h[k] {
      assert d[k] == d[..|h|][k];
    }
  }

  lemma Eleven(d: Data)
    requires |d| >= HEADER_LENGTH
    ensures d[..34] == d[0..2] + d[2..6] + d[6..10] + d[10..14] + d[14..16] + d[16..18] + d[18..22] + d[22..26] + d[26..30]
                       + d[30..32] + d[32..34]
  {}

  /** Print and parse are inverse: parsing what was printed gives the packet back if and only if it is well
      formed, and whatever can be parsed is what printing the result gives. */
  lemma PacketRoundTrip(p: Packet, d: Data)
    ensures FromString(ToString(p)) == Some(p) <==> WellFormed(p)
    ensures FromString(d).Some? ==> ToString(FromString(d).value) == d
  {
    hide Header, Fields, WellFormed;
    FieldsDecide(ToString(p), p);
    if |d| >= HEADER_LENGTH { FieldsDecide(d, Fields(d)); }
  }

  // ----- Acknowledgements -----

  datatype Ack = Ack(
    connectionId: UInt16, frameNo: UInt32, fragmentNo: UInt16, avgDelay: UInt32, currentState: UInt32,
    packetSendTimestamp: UInt32, ackDelay: UInt32, frameOneWayDelay: UInt32, frameFinishState: UInt16,
    completeStates: seq<UInt32>)

  const ACK_LENGTH: nat := 34

  function AckHeader(a: Ack): (d: Data)
    ensures |d| == ACK_LENGTH
  {
    Put16(a.connectionId) + Put32(a.frameNo) + Put16(a.fragmentNo) + Put32(a.avgDelay) + Put32(a.currentState)
    + Put32(a.packetSendTimestamp) + Put32(a.ackDelay) + Put32(a.frameOneWayDelay) + Put16(a.frameFinishState)
    + Put32(|a.completeStates| % 0x1_0000_0000)
  }

  function States(s: seq<UInt32>, n: nat): (d: Data)
    requires n <= |s|
    ensures |d| == 4 * n
  {
    if n == 0 then [] else States(s, n - 1) + Put32(s[n - 1])
  }

  function AckToString(a: Ack): Data {
    AckHeader(a) + States(a.completeStates, |a.completeStates|)
  }

  function ReadStates(d: Data, at: nat, n: nat): (s: seq<UInt32>)
    requires at + 4 * n <= |d|
    ensures |s| == n
  {
    if n == 0 then [] else ReadStates(d, at, n - 1) + [Get32(d, at + 4 * n - 4)]
  }

  function AckFromString(d: Data): Option<Ack> {
    if |d| < ACK_LENGTH then None
    else
      var n := Get32(d, 30);
      if |d| < ACK_LENGTH + 4 * n then None
      else Some(Ack(Get16(d, 0), Get32(d, 2), Get16(d, 6), Get32(d, 8), Get32(d, 12), Get32(d, 16), Get32(d, 20),
                    Get32(d, 24), Get16(d, 28), ReadStates(d, ACK_LENGTH, n)))
  }

  lemma AckHeaderLayout(a: Ack)
    ensures var d := AckHeader(a);
            && d[0..2] == Put16(a.connectionId) && d[2..6] == Put32(a.frameNo) && d[6..8] == Put16(a.fragmentNo)
            && d[8..12] == Put32(a.avgDelay) && d[12..16] == Put32(a.currentState)
            && d[16..20] == Put32(a.packetSendTimestamp) && d[20..24] == Put32(a.ackDelay)
            && d[24..28] == Put32(a.frameOneWayDelay) && d[28..30] == Put16(a.frameFinishState)
            && d[30..34] == Put32(|a.completeStates| % 0x1_0000_0000)
  {
    hide Put16, Put32;
  }

  lemma AckFields(a: Ack)
    ensures var d := AckToString(a);
            && Get16(d, 0) == a.connectionId && Get32(d, 2) == a.frameNo && Get16(d, 6) == a.fragmentNo
            && Get32(d, 8) == a.avgDelay && Get32(d, 12) == a.currentState && Get32(d, 16) == a.packetSendTimestamp
            && Get32(d, 20) == a.ackDelay && Get32(d, 24) == a.frameOneWayDelay && Get16(d, 28) == a.frameFinishState
            && Get32(d, 30) == |a.completeStates| % 0x1_0000_0000
  {
    hide Put16, Put32, Get16, Get32, AckHeader, States;
    AckHeaderLayout(a);
    var d, h := AckToString(a), AckHeader(a);
    assert d[..|h|] == h;
    SameSlices(d, h, 0, 2); SameSlices(d, h, 2, 6); SameSlices(d, h, 6, 8); SameSlices(d, h, 8, 12);
    SameSlices(d, h, 12, 16); SameSlices(d, h, 16, 20); SameSlices(d, h, 20, 24); SameSlices(d, h, 24, 28);
    SameSlices(d, h, 28, 30); SameSlices(d, h, 30, 34);
    Field16(d, 0, a.connectionId);
    Field32(d, 2, a.frameNo);
    Field16(d, 6, a.fragmentNo);
    Field32(d, 8, a.avgDelay);
    Field32(d, 12, a.currentState);
    Field32(d, 16, a.packetSendTimestamp);
    Field32(d, 20, a.ackDelay);
    Field32(d, 24, a.frameOneWayDelay);
    Field16(d, 28, a.frameFinishState);
    Field32(d, 30, |a.completeStates| % 0x1_0000_0000);
  }

  lemma {:induction false} StateAt(s: seq<UInt32>, n: nat, i: nat)
    requires i < n <= |s|
    ensures States(s, n)[4 * i..4 * i + 4] == Put32(s[i])
  {
    hide Put32;
    if i < n - 1 {
      StateAt(s, n - 1, i);
      assert States(s, n)[4 * i..4 * i + 4] == States(s, n - 1)[4 * i..4 * i + 4];
    }
  }

  lemma FieldBehind(h: Data, t: Data, i: nat, n: UInt32)
    requires i + 4 <= |t| && t[i..i + 4] == Put32(n)
    ensures Get32(h + t, |h| + i) == n
  {
    hide Put32, Get32;
    assert (h + t)[|h| + i..|h| + i + 4] == t[i..i + 4];
    Field32(h + t, |h| + i, n);
  }

  lemma {:induction false} StatesRead(h: Data, t: Data, s: seq<UInt32>, n: nat)
    requires n <= |s| && t == States(s, |s|)
    ensures ReadStates(h + t, |h|, n) == s[..n]
  {
    hide Get32, States, Put32;
    if n > 0 {
      StatesRead(h, t, s, n - 1);
      StateAt(s, |s|, n - 1);
      FieldBehind(h, t, 4 * n - 4, s[n - 1]);
      assert s[..n] == s[..n - 1] + [s[n - 1]];
    }
  }

  /** Acknowledgements come back exactly if their states can be counted in 32 bits. */
  lemma AckRoundTrip(a: Ack)
    ensures AckFromString(AckToString(a)) == Some(a) <==> |a.completeStates| < 0x1_0000_0000
  {
    hide Put16, Put32, Get16, Get32, AckHeader, States;
    AckFields(a);
    var n := |a.completeStates|;
    if n < 0x1_0000_0000 {
      SmallMod(n, 0x1_0000_0000);
      StatesRead(AckHeader(a), States(a.completeStates, n), a.completeStates, n);
      assert a.completeStates[..n] == a.completeStates;
    }
  }
}
