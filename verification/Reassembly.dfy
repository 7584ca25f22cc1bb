/** The receiving side: fragments are collected in any order, with losses and duplicates
    (src/net/packet.cc, src/net/packet.hh). */
module Reassembly {
  import opened Wrappers
  import opened BoolCoding
  import opened Packets
  import opened Fragments

  type Slots = seq<Option<Packet>>

  /** The state of an incoming frame; a slot is empty until its fragment arrives. */
  datatype Assembly = Assembly(
    connectionId: UInt16, sourceState: UInt32, targetState: UInt32, frameNo: UInt32,
    fragmentsInThisFrame: UInt16, fragments: Slots, remainingFragments: int)

  function Opened(connectionId: UInt16, p: Packet): Assembly {
    Assembly(connectionId, p.sourceState, p.targetState, p.frameNo, p.fragmentsInThisFrame,
             seq(p.fragmentsInThisFrame, _ => None), p.fragmentsInThisFrame)
  }

  predicate Sane(a: Assembly, p: Packet) {
    && p.connectionId == a.connectionId && p.sourceState == a.sourceState && p.targetState == a.targetState
    && p.fragmentsInThisFrame == a.fragmentsInThisFrame && p.frameNo == a.frameNo
    && p.fragmentNo < a.fragmentsInThisFrame
  }

  predicate Shaped(a: Assembly) {
    |a.fragments| == a.fragmentsInThisFrame
  }

  /** Fails on a packet of another frame; ignores a fragment that is there already. */
  function Added(a: Assembly, p: Packet): (r: Option<Assembly>)
    requires Shaped(a)
    ensures r.Some? ==> Shaped(r.value)
  {
    if !Sane(a, p) then None
    else if a.fragments[p.fragmentNo].Some? then Some(a)
    else Some(a.(fragments := a.fragments[p.fragmentNo := Some(p)], remainingFragments := a.remainingFragments - 1))
  }

  predicate Complete(a: Assembly) {
    a.remainingFragments == 0
  }

  function Payload(slot: Option<Packet>): Data {
    if slot.Some? then slot.value.payload else []
  }

  function Payloads(s: Slots, n: nat): Data
    requires n <= |s|
  {
    if n == 0 then [] else Payloads(s, n - 1) + Payload(s[n - 1])
  }

  /** How many fragments at the beginning are there. */
  function LeadingCount(s: Slots, n: nat): (m: nat)
    requires n <= |s|
    ensures m <= n
    ensures forall k :: 0 <= k < m ==> s[k].Some?
    ensures m < n ==> s[m].None?
  {
    if n == 0 then 0
    else if LeadingCount(s, n - 1) == n - 1 && s[n - 1].Some? then n
    else LeadingCount(s, n - 1)
  }

  function EmptySlots(s: Slots, n: nat): (m: nat)
    requires n <= |s|
    ensures m <= n
  {
    if n == 0 then 0 else EmptySlots(s, n - 1) + if s[n - 1].None? then 1 else 0
  }

  lemma {:induction false} FillSlot(s: Slots, n: nat, i: nat, p: Packet)
    requires n <= |s| && i < |s| && s[i].None?
    ensures EmptySlots(s[i := Some(p)], n) == EmptySlots(s, n) - if i < n then 1 else 0
  {
    if n > 0 { FillSlot(s, n - 1, i, p); }
  }

  lemma {:induction false} NoEmptySlot(s: Slots, n: nat)
    requires n <= |s|
    ensures EmptySlots(s, n) == 0 <==> forall k :: 0 <= k < n ==> s[k].Some?
  {
    if n > 0 { NoEmptySlot(s, n - 1); }
  }

  lemma {:induction false} AllEmpty(s: Slots, n: nat)
    requires n <= |s| && forall k :: 0 <= k < |s| ==> s[k].None?
    ensures EmptySlots(s, n) == n
  {
    if n > 0 { AllEmpty(s, n - 1); }
  }

  // ----- Delivery -----

  /** What the receiver makes of a string of octets. */
  function Received(a: Assembly, d: Data): (r: Option<Assembly>)
    requires Shaped(a)
    ensures r.Some? ==> Shaped(r.value)
  {
    var p := FromString(d);
    if p.None? then None else Added(a, p.value)
  }

  function ReceivedAll(a: Assembly, ds: seq<Data>): (r: Option<Assembly>)
    requires Shaped(a)
    ensures r.Some? ==> Shaped(r.value)
  {
    if ds == [] then Some(a)
    else
      var before := ReceivedAll(a, ds[..|ds| - 1]);
      if before.None? then None else Received(before.value, ds[|ds| - 1])
  }

  /** A frame's packets as they are sent, and the order in which they arrive: any packet may be late, lost
      or repeated. */
  function Arriving(packets: seq<Packet>, order: seq<nat>): (ds: seq<Data>)
    requires forall i :: 0 <= i < |order| ==> order[i] < |packets|
    ensures |ds| == |order|
  {
    seq(|order|, i requires 0 <= i < |order| => ToString(packets[order[i]]))
  }

  /** Exactly the fragments that have arrived are there, and the counter says how many are not. */
  predicate Holds(a: Assembly, packets: seq<Packet>, order: seq<nat>) {
    && Shaped(a) && |a.fragments| == |packets|
    && (forall k :: 0 <= k < |packets| ==> a.fragments[k] == if k in order then Some(packets[k]) else None)
    && a.remainingFragments == EmptySlots(a.fragments, |a.fragments|)
  }

  predicate SamePackets(a: Assembly, packets: seq<Packet>) {
    forall k :: 0 <= k < |packets| ==> packets[k].fragmentNo == k && Sane(a, packets[k]) && WellFormed(packets[k])
  }

  lemma NextArrival(a: Assembly, packets: seq<Packet>, order: seq<nat>, k: nat)
    requires Holds(a, packets, order) && SamePackets(a, packets) && k < |packets|
    ensures var r := Received(a, ToString(packets[k]));
            r.Some? && Holds(r.value, packets, order + [k]) && SamePackets(r.value, packets)
  {
    hide FromString, ToString, WellFormed, EmptySlots;
    PacketRoundTrip(packets[k], []);
    if a.fragments[k].None? {
      FillSlot(a.fragments, |a.fragments|, k, packets[k]);
    }
  }

  lemma {:induction false} Arrivals(a: Assembly, packets: seq<Packet>, before: seq<nat>, order: seq<nat>)
    requires Holds(a, packets, before) && SamePackets(a, packets)
    requires forall i :: 0 <= i < |order| ==> order[i] < |packets|
    ensures var r := ReceivedAll(a, Arriving(packets, order));
            r.Some? && Holds(r.value, packets, before + order) && SamePackets(r.value, packets)
    decreases |order|
  {
    assert Shaped(a);
    hide Holds, SamePackets, Received;
    if order == [] {
      assert before + order == before;
    } else {
      var n := |order| - 1;
      Arrivals(a, packets, before, order[..n]);
      assert Arriving(packets, order)[..n] == Arriving(packets, order[..n]);
      var r := ReceivedAll(a, Arriving(packets, order[..n])).value;
      NextArrival(r, packets, before + order[..n], order[n]);
      assert before + order == before + order[..n] + [order[n]];
    }
  }

  /** What a receiver has after the first packet, which opens the frame, and all the others. */
  function Delivered(connectionId: UInt16, packets: seq<Packet>, order: seq<nat>): Option<Assembly>
    requires order != [] && forall i :: 0 <= i < |order| ==> order[i] < |packets|
  {
    ReceivedAll(Opened(connectionId, packets[order[0]]), Arriving(packets, order))
  }

  lemma OpenedHolds(info: FrameInfo, timeSinceLast: UInt32, clock: seq<UInt32>, frame: Data, k: nat)
    requires Sendable(frame) && |clock| == FragmentCount(|frame|) && k < |clock|
    ensures var packets := PacketsOf(info, timeSinceLast, clock, frame);
            var a := Opened(info.connectionId, packets[k]);
            Holds(a, packets, []) && SamePackets(a, packets)
  {
    hide FragmentCount, Fragment, WellFormed, EmptySlots;
    var packets := PacketsOf(info, timeSinceLast, clock, frame);
    var a := Opened(info.connectionId, packets[k]);
    AllEmpty(a.fragments, |a.fragments|);
    forall i | 0 <= i < |packets| ensures WellFormed(packets[i]) {
      PacketsWellFormed(info, timeSinceLast, clock, frame, i);
    }
  }

  function PartialFrame(a: Assembly): Data
    requires Shaped(a)
  {
    Payloads(a.fragments, LeadingCount(a.fragments, |a.fragments|))
  }

  function WholeFrame(a: Assembly): Option<Data> {
    if Complete(a) then Some(Payloads(a.fragments, |a.fragments|)) else None
  }

  lemma {:induction false} PayloadsAreFragments(
      s: Slots, info: FrameInfo, timeSinceLast: UInt32, clock: seq<UInt32>, frame: Data, n: nat)
    requires Sendable(frame) && |clock| == FragmentCount(|frame|) == |s| && n <= |s|
    requires forall k :: 0 <= k < n ==> s[k] == Some(PacketsOf(info, timeSinceLast, clock, frame)[k])
    ensures Payloads(s, n) == JoinedFragments(frame, n)
  {
    hide FragmentCount, Fragment;
    if n > 0 {
      PayloadsAreFragments(s, info, timeSinceLast, clock, frame, n - 1);
    }
  }

  /** Reassembly under any arrival order: the counter equals the number of empty slots, what there is at the
      beginning is a prefix of the frame, the frame is complete exactly when every fragment has arrived at
      least once, and then it is the original, octet for octet. */
  lemma ReassemblyInAnyOrder(
      info: FrameInfo, timeSinceLast: UInt32, clock: seq<UInt32>, frame: Data, order: seq<nat>)
    requires Sendable(frame) && |clock| == FragmentCount(|frame|)
    requires order != [] && forall i :: 0 <= i < |order| ==> order[i] < |clock|
    ensures var a := Delivered(info.connectionId, PacketsOf(info, timeSinceLast, clock, frame), order);
            && a.Some?
            && a.value.remainingFragments == EmptySlots(a.value.fragments, |a.value.fragments|)
            && PartialFrame(a.value) <= frame
            && (Complete(a.value) <==> forall k :: 0 <= k < |clock| ==> k in order)
            && (Complete(a.value) ==> WholeFrame(a.value) == Some(frame))
  {
    hide FragmentCount, PacketOf, EmptySlots, LeadingCount, JoinedFragments, Sane, Payloads, Received, StartOf, Arriving;
    var packets := PacketsOf(info, timeSinceLast, clock, frame);
    OpenedHolds(info, timeSinceLast, clock, frame, order[0]);
    hide PacketsOf, SamePackets, Opened;
    Arrivals(Opened(info.connectionId, packets[order[0]]), packets, [], order);
    assert [] + order == order;
    var a := Delivered(info.connectionId, packets, order).value;
    NoEmptySlot(a.fragments, |a.fragments|);
    var m := LeadingCount(a.fragments, |a.fragments|);
    PayloadsAreFragments(a.fragments, info, timeSinceLast, clock, frame, m);
    JoinedIsPrefix(frame, m);
    if Complete(a) {
      PayloadsAreFragments(a.fragments, info, timeSinceLast, clock, frame, |a.fragments|);
      AllFragments(frame);
    }
  }

  // ----- The incoming frame as an object -----

  class FragmentedFrame {
    const connectionId: UInt16
    const sourceState: UInt32
    const targetState: UInt32
    const frameNo: UInt32
    const fragmentsInThisFrame: UInt16
    var fragments: Slots
    var remainingFragments: int

    function Contents(): Assembly
      reads this
    {
      Assembly(connectionId, sourceState, targetState, frameNo, fragmentsInThisFrame, fragments, remainingFragments)
    }

    /** The counter equals the number of empty slots. */
    predicate Valid()
      reads this
    {
      Shaped(Contents()) && remainingFragments == EmptySlots(fragments, |fragments|)
    }

    /** All slots empty. */
    constructor (connection: UInt16, p: Packet)
      ensures Valid() && Contents() == Opened(connection, p)
    {
      connectionId := connection;
      sourceState, targetState, frameNo := p.sourceState, p.targetState, p.frameNo;
      fragmentsInThisFrame := p.fragmentsInThisFrame;
      fragments := seq(p.fragmentsInThisFrame, _ => None);
      remainingFragments := p.fragmentsInThisFrame;
      new;
      AllEmpty(fragments, |fragments|);
    }

    /** The first packet of a frame is checked like any other, and stored. */
    static method FromPacket(connection: UInt16, p: Packet) returns (frame: Option<FragmentedFrame>)
      ensures frame.Some? <==> p.connectionId == connection && p.fragmentNo < p.fragmentsInThisFrame
      ensures frame.Some? ==>
                && fresh(frame.value) && frame.value.Valid()
                && Added(Opened(connection, p), p) == Some(frame.value.Contents())
    {
      var f := new FragmentedFrame(connection, p);
      var ok := f.AddPacket(p);
      frame := if ok then Some(f) else None;
    }

    method AddPacket(p: Packet) returns (ok: bool)
      requires Valid()
      modifies this
      ensures Valid() && ok == Added(old(Contents()), p).Some?
      ensures Contents() == if ok then Added(old(Contents()), p).value else old(Contents())
    {
      hide EmptySlots;
      if !Sane(Contents(), p) {
        return false;
      }
      if fragments[p.fragmentNo].None? {
        FillSlot(fragments, |fragments|, p.fragmentNo, p);
        remainingFragments := remainingFragments - 1;
        fragments := fragments[p.fragmentNo := Some(p)];
      }
      ok := true;
    }

    method Frame() returns (ret: Option<Data>)
      requires Valid()
      ensures ret == WholeFrame(Contents())
    {
      if remainingFragments != 0 {
        return None;
      }
      var data: Data := [];
      for i := 0 to |fragments|
        invariant data == Payloads(fragments, i)
      {
        data := data + Payload(fragments[i]);
      }
      ret := Some(data);
    }

    method GetPartialFrame() returns (ret: Data)
      requires Valid()
      ensures ret == PartialFrame(Contents())
    {
      ret := [];
      for i := 0 to |fragments|
        invariant LeadingCount(fragments, i) == i && ret == Payloads(fragments, i)
      {
        if fragments[i].None? {
          LeadingStops(fragments, i, |fragments|);
          return;
        }
        ret := ret + Payload(fragments[i]);
      }
    }
  }

  /** Nothing counts after the first empty slot. */
  lemma {:induction false} LeadingStops(s: Slots, i: nat, n: nat)
    requires i < n <= |s| && s[i].None? && LeadingCount(s, i) == i
    ensures LeadingCount(s, n) == i
  {
    if n > i + 1 { LeadingStops(s, i, n - 1); }
  }
}
