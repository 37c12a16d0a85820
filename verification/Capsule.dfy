/** HTTP capsules, the form packets have on an HTTP/2 stream (src/transport/capsule.rs). */
module Capsule {
  import opened Common
  import opened Buffers
  import opened Varint

  const DATAGRAM: nat := 0
  const MAX_CAPSULE: nat := 65_535

  /** A capsule on the wire. Its two integers may be written in any length that fits. */
  datatype Wire = Wire(kind: nat, kindLength: nat, payload: bytes, lengthLength: nat)

  predicate Sound(w: Wire) {
    && IsLength(w.kindLength) && w.kind < Capacity(w.kindLength)
    && IsLength(w.lengthLength) && |w.payload| < Capacity(w.lengthLength)
  }

  function WireBytes(w: Wire): bytes
    requires Sound(w)
  {
    EncodeIn(w.kind, w.kindLength) + EncodeIn(|w.payload|, w.lengthLength) + w.payload
  }

  /** The capsule this side writes for one datagram. */
  function DatagramWire(payload: bytes): (w: Wire)
    requires |payload| <= MAX
    ensures Sound(w)
  {
    Wire(DATAGRAM, 1, payload, Len(|payload|))
  }

  method EncodeDatagramInto(out: Buffer, payload: bytes)
    requires |payload| <= MAX
    modifies out
    ensures out.data == old(out.data) + WireBytes(DatagramWire(payload))
  {
    Put(out, DATAGRAM);
    Put(out, |payload|);
    out.Put(payload);
    assert out.data == old(out.data) + (Encode(DATAGRAM) + Encode(|payload|) + payload);
  }

  /** What is at the front of a buffer. */
  datatype Front =
    | Incomplete
    | TooLong(length: nat)
    | Whole(datagram: bool, payload: bytes, total: nat)

  function FrontOf(b: bytes): (r: Front)
    ensures r.Whole? ==> 2 <= r.total <= |b| && |r.payload| <= MAX_CAPSULE
  {
    var kind := Get(b);
    if kind.None? then Incomplete
    else
      var length := Get(b[kind.value.1..]);
      if length.None? then Incomplete
      else if length.value.0 > MAX_CAPSULE then TooLong(length.value.0)
      else
        var start := kind.value.1 + length.value.1;
        var total := start + length.value.0;
        if |b| < total then Incomplete
        else Whole(kind.value.0 == DATAGRAM, b[start..total], total)
  }

  /** Pull one whole capsule out of the buffer, if it has all arrived. */
  method TakeCapsule(buf: Buffer) returns (front: Front)
    modifies buf
    ensures front == FrontOf(old(buf.data))
    ensures buf.data == if front.Whole? then old(buf.data)[front.total..] else old(buf.data)
  {
    var kind := Read(buf.data);
    if kind.None? {
      return Incomplete;
    }
    var length := Read(buf.data[kind.value.1..]);
    if length.None? {
      return Incomplete;
    }
    if length.value.0 > MAX_CAPSULE {
      return TooLong(length.value.0);
    }
    var total := kind.value.1 + length.value.1 + length.value.0;
    if |buf.data| < total {
      return Incomplete;
    }
    buf.Advance(kind.value.1 + length.value.1);
    var payload := buf.SplitTo(length.value.0);
    return Whole(kind.value.0 == DATAGRAM, payload, total);
  }

  /** What is decided about the front stays decided however much more arrives. */
  lemma FrontStable(b: bytes, more: bytes)
    requires !FrontOf(b).Incomplete?
    ensures FrontOf(b + more) == FrontOf(b)
    ensures FrontOf(b).Whole? ==> (b + more)[FrontOf(b).total..] == b[FrontOf(b).total..] + more
  {
    hide DeclaredLength, Fold;
    var k := Get(b).value.1;
    GetStable(b, more);
    var rest := b[k..];
    assert (b + more)[k..] == rest + more;
    GetStable(rest, more);
    if FrontOf(b).Whole? {
      var start := k + Get(b[k..]).value.1;
      assert (b + more)[start..FrontOf(b).total] == b[start..FrontOf(b).total];
    }
  }

  /** A sound capsule within the ceiling is read back whole, and one over it is refused. */
  lemma FrontOfWire(w: Wire, rest: bytes)
    requires Sound(w)
    ensures |w.payload| <= MAX_CAPSULE ==>
              FrontOf(WireBytes(w) + rest) == Whole(w.kind == DATAGRAM, w.payload, |WireBytes(w)|)
    ensures |w.payload| > MAX_CAPSULE ==> FrontOf(WireBytes(w) + rest) == TooLong(|w.payload|)
    ensures (WireBytes(w) + rest)[|WireBytes(w)|..] == rest
  {
    var b := WireBytes(w) + rest;
    var k, n := w.kindLength, w.lengthLength;
    assert b == EncodeIn(w.kind, k) + (EncodeIn(|w.payload|, n) + (w.payload + rest));
    RoundTrip(w.kind, k, EncodeIn(|w.payload|, n) + (w.payload + rest));
    assert b[k..] == EncodeIn(|w.payload|, n) + (w.payload + rest);
    RoundTrip(|w.payload|, n, w.payload + rest);
    if |w.payload| <= MAX_CAPSULE {
      assert b[k + n..k + n + |w.payload|] == w.payload;
    }
  }

  /** A short packet goes out behind two octets: the type of a DATAGRAM, which is zero, and its length. */
  lemma ShortDatagramsAre(payload: bytes)
    requires |payload| < 64
    ensures WireBytes(DatagramWire(payload)) == [0, |payload|] + payload
  {
    hide BigEndian;
    OneOctet(0);
    OneOctet(|payload|);
  }

  lemma OneOctet(v: nat)
    requires v < 64
    ensures EncodeIn(v, 1) == [v] && Len(v) == 1
  {
    assert BigEndian(v, 1) == BigEndian(v / 256, 0) + [v % 256];
  }
}
