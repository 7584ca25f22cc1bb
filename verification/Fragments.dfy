/** Cutting a frame into packets and putting it together again, in whatever order they arrive
    (src/net/packet.cc, src/net/packet.hh). */
module Fragments {
  import opened Wrappers
  import opened BoolCoding
  import opened Packets

  const MAXIMUM_PAYLOAD: nat := 1400

  // ----- Fragmentation -----

  /** How many fragments it takes. */
  function FragmentCount(length: nat): nat {
    (length + (MAXIMUM_PAYLOAD - 1)) / MAXIMUM_PAYLOAD
  }

  /** Where fragment k starts, or the end of the frame. */
  function StartOf(length: nat, k: nat): (n: nat)
    ensures n <= length
  {
    if k * MAXIMUM_PAYLOAD <= length then k * MAXIMUM_PAYLOAD else length
  }

  function Fragment(frame: Data, k: nat): Data {
    StartsGrow(|frame|, k);
    frame[StartOf(|frame|, k)..StartOf(|frame|, k + 1)]
  }

  lemma StartsGrow(length: nat, k: nat)
    ensures StartOf(length, k) <= StartOf(length, k + 1)
  {}

  /** What all packets of a frame share. */
  datatype FrameInfo = FrameInfo(
    connectionId: UInt16, sourceState: UInt32, targetState: UInt32, frameNo: UInt32,
    framePushTimestamp: UInt32, rttAverage: UInt16, throughput: UInt16)

  function PacketOf(info: FrameInfo, timeSinceLast: UInt32, clock: seq<UInt32>, frame: Data, count: UInt16, k: UInt16): Packet
    requires k < |clock|
  {
    Packet(info.connectionId, info.sourceState, info.targetState, info.frameNo, k, count,
           if k == 0 then timeSinceLast else 0, clock[k], info.framePushTimestamp, info.rttAverage, info.throughput,
           Fragment(frame, k))
  }

  /** Frames that can be sent: not empty, and with at most 65535 fragments. */
  predicate Sendable(frame: Data) {
    frame != [] && FragmentCount(|frame|) < 0x1_0000
  }

  function PacketsOf(info: FrameInfo, timeSinceLast: UInt32, clock: seq<UInt32>, frame: Data): (ps: seq<Packet>)
    requires Sendable(frame) && |clock| == FragmentCount(|frame|)
    ensures |ps| == FragmentCount(|frame|)
  {
    seq(|clock|, k requires 0 <= k < |clock| => PacketOf(info, timeSinceLast, clock, frame, |clock|, k))
  }

  /** Each fragment has something in it, and there is none after the last. */
  lemma FragmentSizes(length: nat, k: nat)
    ensures k < FragmentCount(length) <==> StartOf(length, k) < length
    ensures StartOf(length, k) < length ==>
              StartOf(length, k) < StartOf(length, k + 1) && StartOf(length, k) == k * MAXIMUM_PAYLOAD
  {}

  /** All fragments but the last are full. */
  lemma FragmentLength(frame: Data, k: nat)
    requires k < FragmentCount(|frame|)
    ensures k + 1 < FragmentCount(|frame|) ==> |Fragment(frame, k)| == 1400
    ensures 1 <= |Fragment(frame, k)| <= 1400
  {
    hide FragmentCount;
    FragmentSizes(|frame|, k);
    FragmentSizes(|frame|, k + 1);
  }

  lemma PacketsWellFormed(info: FrameInfo, timeSinceLast: UInt32, clock: seq<UInt32>, frame: Data, k: nat)
    requires Sendable(frame) && |clock| == FragmentCount(|frame|) && k < |clock|
    ensures WellFormed(PacketsOf(info, timeSinceLast, clock, frame)[k])
  {
    hide FragmentCount, StartOf;
    FragmentSizes(|frame|, k);
  }

  /** The fragments in order, joined. */
  function JoinedFragments(frame: Data, n: nat): Data {
    if n == 0 then [] else JoinedFragments(frame, n - 1) + Fragment(frame, n - 1)
  }

  lemma {:induction false} JoinedIsPrefix(frame: Data, n: nat)
    ensures JoinedFragments(frame, n) == frame[..StartOf(|frame|, n)]
  {
    hide StartOf;
    if n == 0 {
      StartsAtZero(|frame|);
    } else {
      StartsGrow(|frame|, n - 1);
      JoinedIsPrefix(frame, n - 1);
    }
  }

  lemma StartsAtZero(length: nat)
    ensures StartOf(length, 0) == 0
  {}

  lemma AllFragments(frame: Data)
    ensures JoinedFragments(frame, FragmentCount(|frame|)) == frame
  {
    hide StartOf, FragmentCount;
    var n := FragmentCount(|frame|);
    JoinedIsPrefix(frame, n);
    FragmentSizes(|frame|, n);
    assert frame[..|frame|] == frame;
  }

  /** The loop that cuts up a frame: the counter has sixteen bits. */
  method SplitFrame(info: FrameInfo, timeSinceLast: UInt32, clock: seq<UInt32>, frame: Data) returns (packets: seq<Packet>)
    requires Sendable(frame) && |clock| == FragmentCount(|frame|)
    ensures packets == PacketsOf(info, timeSinceLast, clock, frame)
  {
    hide FragmentCount, StartOf;
    ghost var count := FragmentCount(|frame|);
    var fragments: seq<Packet> := [];
    var nextFragmentStart: nat := 0;
    var fragmentNo: UInt16 := 0;
    StartsAtZero(|frame|);
    while nextFragmentStart < |frame|
      invariant |fragments| == fragmentNo && nextFragmentStart == StartOf(|frame|, fragmentNo)
      invariant fragmentNo <= count
      invariant forall k :: 0 <= k < fragmentNo ==> fragments[k] == PacketOf(info, 0, clock, frame, 0, k)
      decreases |frame| - nextFragmentStart
    {
      FragmentSizes(|frame|, fragmentNo);
      var firstByte := MAXIMUM_PAYLOAD * fragmentNo;
      var length := if |frame| - firstByte < MAXIMUM_PAYLOAD then |frame| - firstByte else MAXIMUM_PAYLOAD;
      NextStart(|frame|, fragmentNo);
      fragments := fragments + [
        Packet(info.connectionId, info.sourceState, info.targetState, info.frameNo, fragmentNo, 0, 0, clock[fragmentNo],
               info.framePushTimestamp, info.rttAverage, info.throughput, frame[firstByte..firstByte + length])];
      nextFragmentStart := firstByte + length;
      fragmentNo := fragmentNo + 1;
    }
    FragmentSizes(|frame|, fragmentNo);
    FragmentSizes(|frame|, 0);
    fragments := fragments[0 := fragments[0].(timeSinceLast := timeSinceLast)];
    packets := [];
    for k := 0 to |fragments|
      invariant packets == PacketsOf(info, timeSinceLast, clock, frame)[..k]
    {
      packets := packets + [fragments[k].(fragmentsInThisFrame := |fragments|)];
    }
  }

  lemma NextStart(length: nat, k: nat)
    requires StartOf(length, k) < length
    ensures var first := MAXIMUM_PAYLOAD * k;
            first < length && StartOf(length, k) == first
            && StartOf(length, k + 1) == first + if length - first < MAXIMUM_PAYLOAD then length - first else MAXIMUM_PAYLOAD
  {}
}
