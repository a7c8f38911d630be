/** The user-space TCP path once a flow is tracked: client data out, destination data back. */
module TcpPath {
  import opened Common
  import opened Packets

  datatype FlowKey = FlowKey(srcIp: Ipv4, srcPort: Word16, dstIp: Ipv4, dstPort: Word16)

  datatype TcpState = TcpState(clientIsn: Word32, serverIsn: Word32, clientNextSeq: Word32, serverNextSeq: Word32)

  /** A tracked flow: its numbers, and the bytes its connection has been given. */
  datatype Tracked = Tracked(state: TcpState, written: seq<Byte>)

  function FreshState(clientIsn: Word32, serverIsn: Word32): TcpState {
    TcpState(clientIsn, serverIsn, WrappingAdd(clientIsn, 1), WrappingAdd(serverIsn, 1))
  }

  function KeyOf(ip: IpHeader, tcp: TcpHeader): FlowKey {
    FlowKey(ip.source, tcp.sourcePort, ip.destination, tcp.destinationPort)
  }

  /** What one non-blocking read of the destination gives. */
  datatype ReadOutcome = Data(bytes: seq<Byte>) | EndOfFile | WouldBlock | ReadError

  /** The packet that carries bytes back to the client: PSH and ACK. */
  function DataPacket(key: FlowKey, state: TcpState, bytes: seq<Byte>): seq<Byte> {
    TcpPacket(key.dstIp, key.srcIp, 0, key.dstPort, key.srcPort, state.serverNextSeq, state.clientNextSeq, 0x18, bytes)
  }

  function AfterRead(t: Tracked, bytes: seq<Byte>): Tracked {
    t.(state := t.state.(serverNextSeq := WrappingAdd(t.state.serverNextSeq, |bytes|)))
  }

  /** Client data is written through as it comes, and acknowledged up to its own end. */
  function AfterData(t: Tracked, seqNo: Word32, payload: seq<Byte>): Tracked {
    if payload == [] then t
    else Tracked(t.state.(clientNextSeq := WrappingAdd(seqNo, |payload|)), t.written + payload)
  }

  class Router {
    var tracker: map<FlowKey, Tracked>
    var bytesOut: nat
    var bytesIn: nat

    constructor ()
      ensures tracker == map[] && bytesOut == 0 && bytesIn == 0
    {
      tracker, bytesOut, bytesIn := map[], 0, 0;
    }

    /** Forward a packet's payload through its flow; a failed write or a FIN or RST forgets the flow. */
    method HandleData(packet: ParsedPacket, writeFails: bool)
      modifies this`tracker, this`bytesOut
      ensures packet.tcp.None? ==> tracker == old(tracker) && bytesOut == old(bytesOut)
      ensures packet.tcp.Some? ==>
                var key, tcp := FlowKey(packet.ip.source, packet.tcp.value.sourcePort, packet.ip.destination,
                                        packet.tcp.value.destinationPort), packet.tcp.value;
                if key !in old(tracker) then tracker == old(tracker)
                else if tcp.flags.fin || tcp.flags.rst || (packet.payload != [] && writeFails) then
                  tracker == old(tracker) - {key}
                else if packet.payload == [] then tracker == old(tracker)
                else
                  var flow := old(tracker)[key];
                  tracker == old(tracker)[key := Tracked(
                    flow.state.(clientNextSeq := WrappingAdd(tcp.sequenceNumber, |packet.payload|)),
                    flow.written + packet.payload)]
      ensures packet.tcp.Some? ==>
                bytesOut == old(bytesOut)
                            + (if KeyOf(packet.ip, packet.tcp.value) in old(tracker) then |packet.payload| else 0)
    {
      if packet.tcp.None? {
        return;
      }
      var tcp := packet.tcp.value;
      var key := KeyOf(packet.ip, tcp);
      if key in tracker {
        var flow := tracker[key];
        if packet.payload != [] {
          bytesOut := bytesOut + |packet.payload|;
          if writeFails {
            tracker := tracker - {key};
            return;
          }
          flow := flow.(written := flow.written + packet.payload);
          flow := flow.(state := flow.state.(clientNextSeq := WrappingAdd(tcp.sequenceNumber, |packet.payload|)));
          tracker := tracker[key := flow];
        }
      }
      if packet.IsTcpFin() {
        tracker := tracker - {key};
      }
    }

    /** One flow's turn in the pump. */
    method PumpFlow(key: FlowKey, read: ReadOutcome) returns (packets: seq<seq<Byte>>)
      modifies this`tracker, this`bytesIn
      ensures key !in old(tracker) || read.WouldBlock? ==> tracker == old(tracker) && packets == []
      ensures key in old(tracker) && read.Data? && read.bytes != [] ==>
                var state := old(tracker)[key].state;
                && packets == [TcpPacket(key.dstIp, key.srcIp, 0, key.dstPort, key.srcPort, state.serverNextSeq,
                                         state.clientNextSeq, 0x18, read.bytes)]
                && tracker == old(tracker)[key := old(tracker)[key].(
                     state := state.(serverNextSeq := WrappingAdd(state.serverNextSeq, |read.bytes|)))]
      ensures key in old(tracker) && (read.EndOfFile? || read.ReadError? || read == Data([])) ==>
                tracker == old(tracker) - {key} && packets == []
      ensures bytesIn == old(bytesIn) + if key in old(tracker) && read.Data? then |read.bytes| else 0
    {
      packets := [];
      if key !in tracker {
        return;
      }
      var flow := tracker[key];
      match read {
        case Data(bytes) =>
          if bytes == [] {
            tracker := tracker - {key};
          } else {
            bytesIn := bytesIn + |bytes|;
            var pkt := BuildTcpPacket(key.dstIp, key.srcIp, 0, key.dstPort, key.srcPort,
                                      flow.state.serverNextSeq, flow.state.clientNextSeq, 0x18, bytes);
            flow := flow.(state := flow.state.(serverNextSeq := WrappingAdd(flow.state.serverNextSeq, |bytes|)));
            tracker := tracker[key := flow];
            packets := [pkt];
          }
        case EndOfFile => tracker := tracker - {key};
        case WouldBlock =>
        case ReadError => tracker := tracker - {key};
      }
    }
  }

  // ----- whole runs of one flow -----

  /** What happens to one flow between its handshake and its end. */
  datatype FlowEvent = Read(bytes: seq<Byte>) | ClientData(seqNo: Word32, payload: seq<Byte>)

  function AfterEvent(t: Tracked, e: FlowEvent): Tracked {
    match e
    case Read(bytes) => AfterRead(t, bytes)
    case ClientData(seqNo, payload) => AfterData(t, seqNo, payload)
  }

  function FlowAfter(t: Tracked, events: seq<FlowEvent>): Tracked
    decreases |events|
  {
    if events == [] then t
    else FlowAfter(AfterEvent(t, events[0]), events[1..])
  }

  /** The packets the client is sent over the run. */
  function Sent(key: FlowKey, t: Tracked, events: seq<FlowEvent>): seq<seq<Byte>>
    decreases |events|
  {
    if events == [] then []
    else if events[0].Read? then
      [DataPacket(key, t.state, events[0].bytes)] + Sent(key, AfterRead(t, events[0].bytes), events[1..])
    else Sent(key, AfterData(t, events[0].seqNo, events[0].payload), events[1..])
  }

  function BytesRead(events: seq<FlowEvent>): seq<Byte> {
    if events == [] then []
    else (if events[0].Read? then events[0].bytes else []) + BytesRead(events[1..])
  }

  function BytesFromClient(events: seq<FlowEvent>): seq<Byte> {
    if events == [] then []
    else (if events[0].ClientData? then events[0].payload else []) + BytesFromClient(events[1..])
  }

  /**
   * The packets parse as segments of the flow, each one numbered where the one before it ended, and
   * carry `stream` between them.
   */
  ghost predicate CarriesStream(key: FlowKey, packets: seq<seq<Byte>>, start: Word32, stream: seq<Byte>)
    decreases |packets|
  {
    if packets == [] then stream == []
    else
      var p := Parse(packets[0]);
      && p.Parsed? && p.value.tcp.Some?
      && KeyOf(p.value.ip, p.value.tcp.value) == FlowKey(key.dstIp, key.dstPort, key.srcIp, key.srcPort)
      && p.value.tcp.value.flags == TcpFlags(false, false, false, true, true, false)
      && p.value.tcp.value.sequenceNumber == start
      && p.value.payload <= stream
      && CarriesStream(key, packets[1..], WrappingAdd(start, |p.value.payload|), stream[|p.value.payload|..])
  }

  /**
   * Whatever the order of reads and client data, and however often the numbers wrap, parsing what is
   * sent gives contiguous segments from the server's first sequence number whose payloads are exactly
   * the bytes read.
   */
  lemma {:induction false} StreamIsCarried(key: FlowKey, t: Tracked, events: seq<FlowEvent>)
    ensures CarriesStream(key, Sent(key, t, events), t.state.serverNextSeq, BytesRead(events))
    decreases |events|
  {
    hide DataPacket, CarriesStream;
    if events == [] {
      NothingIsCarried(key, t.state.serverNextSeq);
    } else {
      if events[0].Read? {
        var bytes := events[0].bytes;
        StreamIsCarried(key, AfterRead(t, bytes), events[1..]);
        OneSegmentMore(key, t.state, bytes, Sent(key, AfterRead(t, bytes), events[1..]), BytesRead(events[1..]));
      } else {
        StreamIsCarried(key, AfterData(t, events[0].seqNo, events[0].payload), events[1..]);
        assert BytesRead(events) == BytesRead(events[1..]);
      }
    }
  }

  lemma NothingIsCarried(key: FlowKey, start: Word32)
    ensures CarriesStream(key, [], start, [])
  {
  }

  lemma OneSegmentMore(key: FlowKey, state: TcpState, bytes: seq<Byte>, rest: seq<seq<Byte>>, stream: seq<Byte>)
    requires CarriesStream(key, rest, WrappingAdd(state.serverNextSeq, |bytes|), stream)
    ensures CarriesStream(key, [DataPacket(key, state, bytes)] + rest, state.serverNextSeq, bytes + stream)
  {
    hide DataPacket, IsSegment;
    SegmentParses(key, state, bytes);
    var packets, whole := [DataPacket(key, state, bytes)] + rest, bytes + stream;
    assert packets[0] == DataPacket(key, state, bytes) && packets[1..] == rest;
    assert whole[..|bytes|] == bytes && whole[|bytes|..] == stream;
    SegmentHeads(key, packets, state.serverNextSeq, bytes, whole);
  }

  /** The packet parses as a segment of the flow with this number and these bytes. */
  ghost predicate IsSegment(packet: seq<Byte>, key: FlowKey, start: Word32, bytes: seq<Byte>) {
    var p := Parse(packet);
    && p.Parsed? && p.value.tcp.Some?
    && KeyOf(p.value.ip, p.value.tcp.value) == FlowKey(key.dstIp, key.dstPort, key.srcIp, key.srcPort)
    && p.value.tcp.value.flags == TcpFlags(false, false, false, true, true, false)
    && p.value.tcp.value.sequenceNumber == start && p.value.payload == bytes
  }

  lemma PushAndAck()
    ensures FlagsOf(0x18) == TcpFlags(false, false, false, true, true, false)
  {
  }

  lemma SegmentParses(key: FlowKey, state: TcpState, bytes: seq<Byte>)
    ensures IsSegment(DataPacket(key, state, bytes), key, state.serverNextSeq, bytes)
  {
    hide TcpPacket, Parse, FlagsOf, IpHeadSum, TcpSum;
    PushAndAck();
    ParseUndoesBuild(key.dstIp, key.srcIp, 0, key.dstPort, key.srcPort, state.serverNextSeq, state.clientNextSeq, 0x18,
                     bytes);
  }

  lemma SegmentHeads(key: FlowKey, packets: seq<seq<Byte>>, start: Word32, bytes: seq<Byte>, stream: seq<Byte>)
    requires packets != [] && IsSegment(packets[0], key, start, bytes) && bytes <= stream
    requires CarriesStream(key, packets[1..], WrappingAdd(start, |bytes|), stream[|bytes|..])
    ensures CarriesStream(key, packets, start, stream)
  {
    hide Parse, WrappingAdd, KeyOf;
  }

  /** From the handshake on: the first data byte is numbered one past the server's initial number. */
  lemma StreamStartsAfterSyn(key: FlowKey, clientIsn: Word32, serverIsn: Word32, events: seq<FlowEvent>)
    ensures FreshState(clientIsn, serverIsn)
            == TcpState(clientIsn, serverIsn, WrappingAdd(clientIsn, 1), WrappingAdd(serverIsn, 1))
    ensures CarriesStream(key, Sent(key, Tracked(FreshState(clientIsn, serverIsn), []), events),
                          WrappingAdd(serverIsn, 1), BytesRead(events))
  {
    StreamIsCarried(key, Tracked(FreshState(clientIsn, serverIsn), []), events);
  }

  // ----- the client's side -----

  /** The acknowledged number is where the bytes forwarded so far end. */
  predicate InStep(t: Tracked) {
    t.state.clientNextSeq == WrappingAdd(t.state.clientIsn, 1 + |t.written|)
  }

  ghost predicate AlwaysInStep(t: Tracked, events: seq<FlowEvent>)
    decreases |events|
  {
    InStep(t) && (events != [] ==> AlwaysInStep(AfterEvent(t, events[0]), events[1..]))
  }

  /** Every segment that carries data starts where the one before it ended. */
  ghost predicate InOrder(t: Tracked, events: seq<FlowEvent>)
    decreases |events|
  {
    events == []
    || ((events[0].ClientData? && events[0].payload != [] ==> events[0].seqNo == t.state.clientNextSeq)
        && InOrder(AfterEvent(t, events[0]), events[1..]))
  }

  lemma ReducedAdd(a: Word32, n: nat)
    ensures WrappingAdd(a, n) == WrappingAdd(a, n % 0x1_0000_0000)
  {
  }

  lemma SameEnd(a: Word32, b: Word32, n: nat)
    ensures WrappingAdd(a, n) == WrappingAdd(b, n) <==> a == b
  {
    var m := n % 0x1_0000_0000;
    ReducedAdd(a, n);
    ReducedAdd(b, n);
    assert WrappingAdd(a, m) == if a + m < 0x1_0000_0000 then a + m else a + m - 0x1_0000_0000;
    assert WrappingAdd(b, m) == if b + m < 0x1_0000_0000 then b + m else b + m - 0x1_0000_0000;
  }

  lemma AddTwice(a: Word32, m: nat, n: nat)
    ensures WrappingAdd(WrappingAdd(a, m), n) == WrappingAdd(a, m + n)
  {
  }

  /**
   * What the flow acknowledges is the end of what it forwarded, at every moment of the run, exactly
   * when the client's data came in order.
   */
  lemma {:induction false} InStepIffInOrder(t: Tracked, events: seq<FlowEvent>)
    requires InStep(t)
    ensures AlwaysInStep(t, events) <==> InOrder(t, events)
    decreases |events|
  {
    if events != [] {
      var e := events[0];
      var u := AfterEvent(t, e);
      if e.ClientData? && e.payload != [] {
        AddTwice(t.state.clientIsn, 1 + |t.written|, |e.payload|);
        SameEnd(e.seqNo, t.state.clientNextSeq, |e.payload|);
      }
      if InStep(u) {
        InStepIffInOrder(u, events[1..]);
      }
    }
  }

  /** The end of the client's data as it last came. */
  function NextAck(end: Word32, e: FlowEvent): Word32 {
    if e.ClientData? && e.payload != [] then WrappingAdd(e.seqNo, |e.payload|) else end
  }

  function Carried(e: FlowEvent): nat {
    if e.ClientData? then |e.payload| else 0
  }

  /** What each packet sent has to acknowledge, from a moment on: the end of the data so far. */
  function DueAcks(end: Word32, events: seq<FlowEvent>): seq<Word32>
    decreases |events|
  {
    if events == [] then []
    else (if events[0].Read? then [end] else []) + DueAcks(NextAck(end, events[0]), events[1..])
  }

  /** The packets parse, and these are their acknowledgment numbers. */
  ghost predicate Acknowledge(packets: seq<seq<Byte>>, acks: seq<Word32>) {
    |packets| == |acks| && forall k :: 0 <= k < |packets| ==> AcksUpTo(packets[k], acks[k])
  }

  ghost predicate AcksUpTo(packet: seq<Byte>, ack: Word32) {
    var p := Parse(packet);
    p.Parsed? && p.value.tcp.Some? && p.value.tcp.value.acknowledgmentNumber == ack && p.value.tcp.value.flags.ack
  }

  lemma PacketAcknowledges(key: FlowKey, state: TcpState, bytes: seq<Byte>)
    ensures AcksUpTo(DataPacket(key, state, bytes), state.clientNextSeq)
  {
    hide TcpPacket, Parse, FlagsOf, IpHeadSum, TcpSum;
    PushAndAck();
    ParseUndoesBuild(key.dstIp, key.srcIp, 0, key.dstPort, key.srcPort, state.serverNextSeq, state.clientNextSeq, 0x18,
                     bytes);
  }

  lemma {:induction false} SentAcknowledgesWhatIsDue(key: FlowKey, t: Tracked, events: seq<FlowEvent>)
    ensures Acknowledge(Sent(key, t, events), DueAcks(t.state.clientNextSeq, events))
    decreases |events|
  {
    hide DataPacket, AcksUpTo;
    if events != [] {
      var u := AfterEvent(t, events[0]);
      SentAcknowledgesWhatIsDue(key, u, events[1..]);
      if events[0].Read? {
        PacketAcknowledges(key, t.state, events[0].bytes);
      }
    }
  }

  /** The client's data comes in order from the start: each segment is numbered by the bytes before it. */
  ghost predicate InOrderFrom(clientIsn: Word32, received: nat, events: seq<FlowEvent>)
    decreases |events|
  {
    events == []
    || ((events[0].ClientData? && events[0].payload != [] ==> events[0].seqNo == WrappingAdd(clientIsn, 1 + received))
        && InOrderFrom(clientIsn, received + Carried(events[0]), events[1..]))
  }

  /** How many bytes the client had sent by the time of each packet. */
  function ReceivedBy(received: nat, events: seq<FlowEvent>): seq<nat>
    decreases |events|
  {
    if events == [] then []
    else
      (if events[0].Read? then [received] else [])
      + ReceivedBy(received + Carried(events[0]), events[1..])
  }

  /** Each number is one past the initial number and so many bytes. */
  ghost predicate Counted(clientIsn: Word32, acks: seq<Word32>, counts: seq<nat>) {
    |acks| == |counts| && forall k :: 0 <= k < |acks| ==> acks[k] == WrappingAdd(clientIsn, 1 + counts[k])
  }

  lemma InOrderMovesOn(clientIsn: Word32, received: nat, e: FlowEvent)
    requires e.ClientData? && e.payload != [] ==> e.seqNo == WrappingAdd(clientIsn, 1 + received)
    ensures NextAck(WrappingAdd(clientIsn, 1 + received), e) == WrappingAdd(clientIsn, 1 + (received + Carried(e)))
  {
    hide WrappingAdd;
    if e.ClientData? {
      AddTwice(clientIsn, 1 + received, |e.payload|);
    }
  }

  lemma CountedMore(clientIsn: Word32, received: nat, acks: seq<Word32>, counts: seq<nat>)
    requires Counted(clientIsn, acks, counts)
    ensures Counted(clientIsn, [WrappingAdd(clientIsn, 1 + received)] + acks, [received] + counts)
  {
    hide WrappingAdd;
  }

  lemma {:induction false} InOrderAcksCount(clientIsn: Word32, received: nat, events: seq<FlowEvent>)
    requires InOrderFrom(clientIsn, received, events)
    ensures Counted(clientIsn, DueAcks(WrappingAdd(clientIsn, 1 + received), events), ReceivedBy(received, events))
    decreases |events|
  {
    hide WrappingAdd, Counted, NextAck, Carried;
    if events == [] {
      NothingCounted(clientIsn);
    } else {
      var e := events[0];
      InOrderMovesOn(clientIsn, received, e);
      var more := received + Carried(e);
      InOrderAcksCount(clientIsn, more, events[1..]);
      var acks, counts := DueAcks(WrappingAdd(clientIsn, 1 + more), events[1..]), ReceivedBy(more, events[1..]);
      CountedMore(clientIsn, received, acks, counts);
      assert [] + acks == acks && [] + counts == counts;
    }
  }

  lemma NothingCounted(clientIsn: Word32)
    ensures Counted(clientIsn, [], [])
  {
  }

  /**
   * From the handshake on, every packet the client is sent acknowledges one past its initial number before
   * any data came, and the end of its last data after that; when the data came in order, that is one past
   * the initial number and every byte received so far.
   */
  lemma EveryPacketAcknowledges(key: FlowKey, clientIsn: Word32, serverIsn: Word32, events: seq<FlowEvent>)
    ensures var sent := Sent(key, Tracked(TcpState(clientIsn, serverIsn, WrappingAdd(clientIsn, 1),
                                                   WrappingAdd(serverIsn, 1)), []), events);
            && Acknowledge(sent, DueAcks(WrappingAdd(clientIsn, 1), events))
            && (InOrderFrom(clientIsn, 0, events) ==>
                  var counts := ReceivedBy(0, events);
                  |sent| == |counts|
                  && forall k :: 0 <= k < |sent| ==> AcksUpTo(sent[k], WrappingAdd(clientIsn, 1 + counts[k])))
  {
    hide AcksUpTo, Sent, DueAcks, ReceivedBy, InOrderFrom;
    var state := TcpState(clientIsn, serverIsn, WrappingAdd(clientIsn, 1), WrappingAdd(serverIsn, 1));
    SentAcknowledgesWhatIsDue(key, Tracked(state, []), events);
    if InOrderFrom(clientIsn, 0, events) {
      InOrderAcksCount(clientIsn, 0, events);
    }
  }

  /** Every payload byte is forwarded, in the order the segments arrived, in order or not. */
  lemma {:induction false} EverythingIsForwarded(t: Tracked, events: seq<FlowEvent>)
    ensures FlowAfter(t, events).written == t.written + BytesFromClient(events)
    ensures FlowAfter(t, events).state.clientIsn == t.state.clientIsn
    decreases |events|
  {
    if events != [] {
      EverythingIsForwarded(AfterEvent(t, events[0]), events[1..]);
    }
  }

  /** So a segment the client retransmits reaches the destination twice. */
  lemma RetransmissionIsForwardedAgain(t: Tracked, payload: seq<Byte>)
    requires InStep(t) && 0 < |payload| < 0x1_0000_0000
    ensures var again := [ClientData(t.state.clientNextSeq, payload), ClientData(t.state.clientNextSeq, payload)];
            && FlowAfter(t, again).written == t.written + payload + payload
            && !AlwaysInStep(t, again)
  {
    var e := ClientData(t.state.clientNextSeq, payload);
    var again := [e, e];
    EverythingIsForwarded(t, again);
    assert again[1..] == [e] && [e][1..] == [];
    assert BytesFromClient([e]) == payload + BytesFromClient([]) == payload;
    assert BytesFromClient(again) == payload + BytesFromClient([e]) == payload + payload;
    assert t.written + payload + payload == t.written + (payload + payload);
    InStepIffInOrder(t, again);
    var u := AfterEvent(t, e);
    assert InOrder(t, again) ==> InOrder(u, [e]);
    assert u.state.clientNextSeq != e.seqNo;
  }
}
