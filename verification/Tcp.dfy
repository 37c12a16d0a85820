/** Packets over an HTTP/2 stream: packets out as runs of capsules, packets back from a stream cut anywhere
    (src/transport/tcp.rs). */
module Tcp {
  import opened Common
  import opened Buffers
  import opened Varint
  import opened Capsule
  import opened HopLimit

  // ----- the receiving half -----

  datatype RecvError = CapsuleTooLong(length: nat) | Broken

  type Received = Result<Option<bytes>, RecvError>

  /** The chunks still to come, and whether the stream then ends in an error rather than closing. */
  datatype Stream = Stream(chunks: seq<bytes>, broken: bool)

  function Work(pending: bytes, s: Stream): nat {
    |pending| + |Flatten(s.chunks)| + |s.chunks|
  }

  /** One `recv`: its answer, and what is left. */
  function Recv(pending: bytes, s: Stream): (r: (Received, bytes, Stream))
    ensures r.0.Ok? && r.0.value.Some? ==> Work(r.1, r.2) < Work(pending, s)
    decreases Work(pending, s)
  {
    match FrontOf(pending)
    case TooLong(length) => (Err(CapsuleTooLong(length)), pending, s)
    case Whole(datagram, payload, total) =>
      if datagram then (Ok(Some(payload)), pending[total..], s) else Recv(pending[total..], s)
    case Incomplete =>
      if s.chunks == [] then (if s.broken then Err(Broken) else Ok(None), pending, s)
      else Recv(pending + s.chunks[0], s.(chunks := s.chunks[1..]))
  }

  class Receiver {
    var inbound: Stream
    const pending: Buffer

    constructor (inbound: Stream)
      ensures this.inbound == inbound && pending.data == [] && fresh(pending)
    {
      this.inbound := inbound;
      pending := new Buffer();
    }

    method Receive() returns (r: Received)
      requires pending as object != this
      modifies this, pending
      ensures (r, pending.data, inbound) == Recv(old(pending.data), old(inbound))
    {
      while true
        invariant Recv(pending.data, inbound) == Recv(old(pending.data), old(inbound))
        decreases Work(pending.data, inbound)
      {
        var front := TakeCapsule(pending);
        match front
        case TooLong(length) => return Err(CapsuleTooLong(length));
        case Whole(datagram, payload, _) =>
          if datagram {
            return Ok(Some(payload));
          }
        case Incomplete =>
          if inbound.chunks == [] {
            return if inbound.broken then Err(Broken) else Ok(None);
          }
          var chunk := inbound.chunks[0];
          inbound := inbound.(chunks := inbound.chunks[1..]);
          pending.Put(chunk);
      }
    }
  }

  /** Every packet repeated calls of `recv` yield, and the answer that ends them. */
  function Drain(pending: bytes, s: Stream): (seq<bytes>, Received)
    decreases Work(pending, s)
  {
    var (answer, left, rest) := Recv(pending, s);
    if answer.Ok? && answer.value.Some? then
      var (more, end) := Drain(left, rest);
      ([answer.value.value] + more, end)
    else ([], answer)
  }

  /** The one-shot reading of a whole stream: its packets, and the length it was refused for. */
  function Parse(b: bytes): (seq<bytes>, Option<nat>)
    decreases |b|
  {
    match FrontOf(b)
    case Incomplete => ([], None)
    case TooLong(length) => ([], Some(length))
    case Whole(datagram, payload, total) =>
      var (more, refused) := Parse(b[total..]);
      ((if datagram then [payload] else []) + more, refused)
  }

  function Ending(refused: Option<nat>, broken: bool): Received {
    match refused
    case Some(length) => Err(CapsuleTooLong(length))
    case None => if broken then Err(Broken) else Ok(None)
  }

  /** However the stream is cut into chunks, what is received is what a single reading of all its
      octets says. */
  lemma {:induction false} CutsDoNotMatter(pending: bytes, s: Stream)
    ensures var (packets, refused) := Parse(pending + Flatten(s.chunks));
            Drain(pending, s) == (packets, Ending(refused, s.broken))
    decreases Work(pending, s)
  {
    var all := pending + Flatten(s.chunks);
    match FrontOf(pending)
    case TooLong(length) =>
      FrontStable(pending, Flatten(s.chunks));
    case Whole(datagram, payload, total) =>
      FrontStable(pending, Flatten(s.chunks));
      CutsDoNotMatter(pending[total..], s);
      if !datagram {
        assert Recv(pending, s) == Recv(pending[total..], s);
        var rest := Parse(all[total..]).0;
        assert [] + rest == rest;
      }
    case Incomplete =>
      if s.chunks == [] {
        assert all == pending;
      } else {
        var t := s.(chunks := s.chunks[1..]);
        assert all == (pending + s.chunks[0]) + Flatten(t.chunks);
        CutsDoNotMatter(pending + s.chunks[0], t);
        assert Recv(pending, s) == Recv(pending + s.chunks[0], t);
      }
  }

  // ----- the sending half -----

  /** A packet in memory: shorter than the longest length a capsule can declare. */
  type Packet = p: bytes | |p| <= MAX witness []

  /** The packets with hops left, each with one fewer, in order. */
  function Forwardable(packets: seq<Packet>): seq<Packet>
  {
    if packets == [] then []
    else
      var rest := Forwardable(packets[1..]);
      match Forwarded(packets[0])
      case Some(q) => [q] + rest
      case None => rest
  }

  /** What a run of packets is written as. */
  function RunBytes(packets: seq<Packet>): bytes {
    if packets == [] then []
    else
      var rest := RunBytes(packets[1..]);
      match Forwarded(packets[0])
      case Some(q) => WireBytes(DatagramWire(q)) + rest
      case None => rest
  }

  /** What a packet is after the attempt to send it: in place, with its hop count lowered if it was
      forwarded. */
  function AfterSend(p: Packet): Packet {
    match Forwarded(p)
    case Some(q) => q
    case None => p
  }

  class Sender {
    const staging: Buffer
    /** The frames handed to the connection. */
    var outbound: seq<bytes>

    constructor ()
      ensures staging.data == [] && outbound == [] && fresh(staging)
    {
      staging := new Buffer();
      outbound := [];
    }

    /** Lower one packet's hop count, and stage it unless that was spent. */
    method Stage(packet: Packet) returns (after: Packet)
      modifies staging
      ensures after == AfterSend(packet)
      ensures staging.data == old(staging.data) + match Forwarded(packet)
                                                  case Some(q) => WireBytes(DatagramWire(q))
                                                  case None => []
    {
      hide WireBytes, Forwarded;
      var buffer := new u8[|packet|](k requires 0 <= k < |packet| => packet[k]);
      assert buffer[..] == packet;
      var forward := DecrementHopLimit(buffer);
      after := buffer[..];
      if forward {
        EncodeDatagramInto(staging, after);
      }
    }

    method StageAll(packets: array<Packet>)
      requires staging as object != packets
      modifies staging, packets
      ensures forall i :: 0 <= i < packets.Length ==> packets[i] == AfterSend(old(packets[i]))
      ensures staging.data == old(staging.data) + RunBytes(old(packets[..]))
    {
      hide WireBytes, Forwarded, AfterSend;
      ghost var before := packets[..];
      var i := 0;
      assert before[i..] == before;
      while i < packets.Length
        invariant 0 <= i <= packets.Length
        invariant forall k :: 0 <= k < i ==> packets[k] == AfterSend(before[k])
        invariant forall k :: i <= k < packets.Length ==> packets[k] == before[k]
        invariant staging.data + RunBytes(before[i..]) == old(staging.data) + RunBytes(before)
      {
        assert before[i..][1..] == before[i + 1..];
        var after := Stage(packets[i]);
        packets[i] := after;
        i := i + 1;
      }
      assert RunBytes(before[i..]) == [];
    }

    /** Send a run of packets as one write. `granted` says whether the stream gave the room asked
        for; a stream that closed instead ends the call with an error, the run lost. */
    method Send(packets: array<Packet>, granted: bool) returns (ok: bool)
      requires staging as object != this && staging as object != packets && packets as object != this
      requires staging.data == []
      modifies this, staging, packets
      ensures staging.data == []
      ensures forall i :: 0 <= i < packets.Length ==> packets[i] == AfterSend(old(packets[i]))
      ensures var run := RunBytes(old(packets[..]));
              && ok == (run == [] || granted)
              && outbound == if run != [] && granted then old(outbound) + [run] else old(outbound)
    {
      hide RunBytes, AfterSend;
      StageAll(packets);
      ghost var run := RunBytes(old(packets[..]));
      assert staging.data == run;
      var frame := staging.SplitTo(|staging.data|);
      assert frame == run;
      if frame == [] {
        return true;
      }
      if !granted {
        return false;
      }
      outbound := outbound + [frame];
      return true;
    }
  }

  // ----- end to end -----

  /** A piece of a stream: a run of packets this side sent, or a capsule of another type. */
  datatype Item = Run(packets: seq<Packet>) | Foreign(capsule: Wire)

  predicate Carried(item: Item) {
    item.Foreign? ==> Sound(item.capsule) && item.capsule.kind != DATAGRAM
  }

  function ItemBytes(item: Item): bytes
    requires Carried(item)
  {
    match item
    case Run(packets) => RunBytes(packets)
    case Foreign(w) => WireBytes(w)
  }

  function StreamBytes(items: seq<Item>): bytes
    requires forall i :: 0 <= i < |items| ==> Carried(items[i])
  {
    if items == [] then [] else ItemBytes(items[0]) + StreamBytes(items[1..])
  }

  function ItemPackets(item: Item): seq<bytes> {
    match item
    case Run(packets) => Forwardable(packets)
    case Foreign(_) => []
  }

  function StreamPackets(items: seq<Item>): seq<bytes> {
    if items == [] then [] else ItemPackets(items[0]) + StreamPackets(items[1..])
  }

  /** Something on the wire is longer than the receiver takes. */
  predicate OverLong(item: Item) {
    match item
    case Run(packets) => exists q :: q in Forwardable(packets) && |q| > MAX_CAPSULE
    case Foreign(w) => |w.payload| > MAX_CAPSULE
  }

  /** What arrives of a run: its packets with hops left, up to the first over the limit, and the length
      that one is refused for. */
  function RunOutcome(packets: seq<Packet>): (seq<bytes>, Option<nat>) {
    if packets == [] then ([], None)
    else
      match Forwarded(packets[0])
      case None => RunOutcome(packets[1..])
      case Some(q) =>
        if |q| > MAX_CAPSULE then ([], Some(|q|))
        else
          var (more, refused) := RunOutcome(packets[1..]);
          ([q] + more, refused)
  }

  function ItemOutcome(item: Item): (seq<bytes>, Option<nat>) {
    match item
    case Run(packets) => RunOutcome(packets)
    case Foreign(w) => ([], if |w.payload| > MAX_CAPSULE then Some(|w.payload|) else None)
  }

  /** What arrives of a stream, up to the first capsule over the limit. */
  function StreamOutcome(items: seq<Item>): (seq<bytes>, Option<nat>) {
    if items == [] then ([], None)
    else
      var (packets, refused) := ItemOutcome(items[0]);
      if refused.Some? then (packets, refused)
      else
        var (more, end) := StreamOutcome(items[1..]);
        (packets + more, end)
  }

  /** What arrives of a run is a prefix of its packets with hops left, and all of them exactly when none
      is over the limit. */
  lemma {:induction false} RunOutcomeIs(packets: seq<Packet>)
    ensures RunOutcome(packets).0 <= Forwardable(packets)
    ensures RunOutcome(packets).1.Some? <==> OverLong(Run(packets))
    ensures RunOutcome(packets).1.None? ==> RunOutcome(packets).0 == Forwardable(packets)
  {
    hide Forwarded;
    if packets != [] {
      RunOutcomeIs(packets[1..]);
      match Forwarded(packets[0])
      case None =>
      case Some(q) =>
        assert q == Forwardable(packets)[0];
        assert Forwardable(packets)[1..] == Forwardable(packets[1..]);
    }
  }

  lemma {:induction false} StreamOutcomeIs(items: seq<Item>)
    ensures StreamOutcome(items).0 <= StreamPackets(items)
    ensures StreamOutcome(items).1.Some? <==> exists i :: 0 <= i < |items| && OverLong(items[i])
    ensures StreamOutcome(items).1.None? ==> StreamOutcome(items).0 == StreamPackets(items)
  {
    hide OverLong, Forwardable, RunOutcome;
    if items != [] {
      StreamOutcomeIs(items[1..]);
      FirstOutcomeIs(items[0]);
      if exists i :: 0 <= i < |items[1..]| && OverLong(items[1..][i]) {
        var i :| 0 <= i < |items[1..]| && OverLong(items[1..][i]);
        assert OverLong(items[i + 1]);
      }
    }
  }

  lemma FirstOutcomeIs(item: Item)
    ensures ItemOutcome(item).0 <= ItemPackets(item)
    ensures ItemOutcome(item).1.Some? <==> OverLong(item)
    ensures ItemOutcome(item).1.None? ==> ItemOutcome(item).0 == ItemPackets(item)
  {
    if item.Run? {
      RunOutcomeIs(item.packets);
    }
  }

  lemma {:induction false} ParseRun(packets: seq<Packet>, rest: bytes)
    ensures var (arrived, refused) := RunOutcome(packets);
            Parse(RunBytes(packets) + rest) ==
            if refused.Some? then (arrived, refused) else (arrived + Parse(rest).0, Parse(rest).1)
  {
    hide WireBytes, Forwarded, Parse, Sound, DatagramWire;
    if packets == [] {
      assert RunBytes(packets) + rest == rest;
      assert [] + Parse(rest).0 == Parse(rest).0;
    } else {
      ParseRun(packets[1..], rest);
      match Forwarded(packets[0])
      case None =>
      case Some(q) =>
        var tail := RunBytes(packets[1..]) + rest;
        assert RunBytes(packets) + rest == WireBytes(DatagramWire(q)) + tail;
        ParsePacket(packets[0], tail);
        var more := RunOutcome(packets[1..]).0;
        assert [q] + (more + Parse(rest).0) == [q] + more + Parse(rest).0;
    }
  }

  lemma ParsePacket(p: Packet, rest: bytes)
    requires Forwarded(p).Some?
    ensures var q := Forwarded(p).value;
            Parse(WireBytes(DatagramWire(q)) + rest) ==
            if |q| > MAX_CAPSULE then ([], Some(|q|)) else ([q] + Parse(rest).0, Parse(rest).1)
  {
    hide WireBytes, FrontOf;
    PacketFront(p, rest);
  }

  lemma PacketFront(p: Packet, rest: bytes)
    requires Forwarded(p).Some?
    ensures var q := Forwarded(p).value;
            var b := WireBytes(DatagramWire(q));
            && FrontOf(b + rest) == (if |q| > MAX_CAPSULE then TooLong(|q|) else Whole(true, q, |b|))
            && (b + rest)[|b|..] == rest
  {
    hide WireBytes, FrontOf;
    FrontOfWire(DatagramWire(Forwarded(p).value), rest);
  }

  lemma {:induction false} ParseStream(items: seq<Item>)
    requires forall i :: 0 <= i < |items| ==> Carried(items[i])
    ensures Parse(StreamBytes(items)) == StreamOutcome(items)
  {
    if items != [] {
      ParseStream(items[1..]);
      var rest := StreamBytes(items[1..]);
      match items[0]
      case Run(packets) =>
        ParseRun(packets, rest);
      case Foreign(w) =>
        FrontOfWire(w, rest);
        assert [] + StreamOutcome(items[1..]).0 == StreamOutcome(items[1..]).0;
    }
  }

  /** End to end: any runs of packets, as `send` writes them, with whole capsules of other types between
      them and the stream cut anywhere, are received as exactly the packets with hops left, each with its
      hop count one lower, in order; then the stream ends as it ended. If a capsule is longer than one
      may be, what comes before the first such is received, and then that one is refused. */
  lemma EndToEnd(items: seq<Item>, s: Stream)
    requires forall i :: 0 <= i < |items| ==> Carried(items[i])
    requires Flatten(s.chunks) == StreamBytes(items)
    ensures (forall i :: 0 <= i < |items| ==> !OverLong(items[i])) ==>
              Drain([], s) == (StreamPackets(items), if s.broken then Err(Broken) else Ok(None))
    ensures var (packets, refused) := StreamOutcome(items);
            && Drain([], s) == (packets, Ending(refused, s.broken))
            && packets <= StreamPackets(items)
            && (refused.Some? <==> exists i :: 0 <= i < |items| && OverLong(items[i]))
  {
    hide OverLong, ItemBytes, ItemPackets, ItemOutcome;
    assert [] + Flatten(s.chunks) == StreamBytes(items);
    CutsDoNotMatter([], s);
    ParseStream(items);
    StreamOutcomeIs(items);
  }
}
