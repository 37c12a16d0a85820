/** What the queue reads out of a packet, the congestion mark it may write into one, and the bucket
    a packet is filed in (src/queue.rs). */
module Packets {
  import opened Common
  import opened Checksum

  /** The IP version nibble, or 0 for an empty packet. */
  function Version(p: bytes): nat {
    if |p| == 0 then 0 else p[0] / 16
  }

  function Ipv4HeaderLength(p: bytes): nat
    requires |p| > 0
  {
    p[0] % 16 * 4
  }

  /** The offset of a readable packet's transport header, and its protocol. */
  function Transport(p: bytes): (r: Option<(nat, u8)>)
    ensures r.Some? ==> (Version(p) == 4 || Version(p) == 6) && 20 <= r.value.0 <= |p|
  {
    if Version(p) == 4 && |p| >= 20 then
      var header := Ipv4HeaderLength(p);
      if header >= 20 && |p| >= header then Some((header, p[9])) else None
    else if Version(p) == 6 && |p| >= 40 then Some((40, p[6]))
    else None
  }

  function Addresses(p: bytes): bytes
    requires Transport(p).Some?
  {
    if Version(p) == 4 then p[12..20] else p[8..40]
  }

  predicate SameConnection(a: bytes, b: bytes) {
    && Transport(a).Some? && Transport(b).Some?
    && Transport(a).value.1 == Transport(b).value.1
    && Version(a) == Version(b)
    && Addresses(a) == Addresses(b)
    && |a| >= Transport(a).value.0 + 4
    && |b| >= Transport(b).value.0 + 4
    && a[Transport(a).value.0..Transport(a).value.0 + 4] == b[Transport(b).value.0..Transport(b).value.0 + 4]
  }

  const TCP: u8 := 6
  const UDP: u8 := 17
  const ACK_ONLY: u8 := 0x10
  const NO_OPTIONS: u8 := 0x50

  /** What a packet acknowledges, if it does just that and has no options. */
  function PureAck(p: bytes): (r: Option<nat>)
    ensures r.Some? ==> r.value < 0x1_0000_0000
  {
    var t := Transport(p);
    if t.None? || t.value.1 != TCP || |p| < t.value.0 + 20 then None
    else
      var tcp := p[t.value.0..];
      if tcp[12] != NO_OPTIONS || tcp[13] != ACK_ONLY || |p| != t.value.0 + 20 then None
      else Some(Word(tcp[8], tcp[9]) * 65536 + Word(tcp[10], tcp[11]))
  }

  /** Strictly ahead in 32-bit serial arithmetic: their wrapped difference is positive when signed. */
  predicate SeriallyAhead(acked: nat, older: nat) {
    0 < (acked - older) % 0x1_0000_0000 < 0x8000_0000
  }

  /** The transport header at `h` is the last twenty octets, has no options, sets the ACK flag and no
      other, and acknowledges `n`. */
  ghost predicate AcksAt(p: bytes, h: nat, n: nat) {
    && |p| == h + 20 && p[h + 12] == 0x50 && p[h + 13] == 0x10
    && n == p[h + 8] as nat * 0x100_0000 + p[h + 9] as nat * 0x1_0000 + p[h + 10] as nat * 0x100 + p[h + 11]
  }

  /** An acknowledgement of `n` and nothing else, octet by octet: TCP over IPv4 or IPv6. */
  ghost predicate BareAck(p: bytes, n: nat) {
    || (|p| >= 20 && p[0] / 16 == 4 && p[0] % 16 >= 5 && p[9] == 6 && AcksAt(p, p[0] % 16 * 4, n))
    || (|p| >= 40 && p[0] / 16 == 6 && p[6] == 6 && AcksAt(p, 40, n))
  }

  lemma PureAckIsExact(p: bytes, n: nat)
    ensures PureAck(p) == Some(n) <==> BareAck(p, n)
  {
    var t := Transport(p);
    if t.Some? && |p| == t.value.0 + 20 {
      var h := t.value.0;
      var tcp := p[h..];
      assert tcp[8] == p[h + 8] && tcp[9] == p[h + 9] && tcp[10] == p[h + 10] && tcp[11] == p[h + 11];
    }
  }

  /** Two packets of one version with whole headers, the same protocol, the same addresses and the same
      two ports, octet by octet. */
  ghost predicate OneConnection(a: bytes, b: bytes) {
    || (&& |a| >= 20 && |b| >= 20 && a[0] / 16 == 4 && b[0] / 16 == 4
        && a[9] == b[9] && a[12..20] == b[12..20]
        && var i, j := a[0] % 16 * 4, b[0] % 16 * 4;
        && i >= 20 && j >= 20 && i + 4 <= |a| && j + 4 <= |b| && a[i..i + 4] == b[j..j + 4])
    || (&& |a| >= 44 && |b| >= 44 && a[0] / 16 == 6 && b[0] / 16 == 6
        && a[6] == b[6] && a[8..40] == b[8..40] && a[40..44] == b[40..44])
  }

  lemma SameConnectionIsExact(a: bytes, b: bytes)
    ensures SameConnection(a, b) <==> OneConnection(a, b)
  {
  }

  // ----- the congestion mark -----

  /** What marking a packet makes of it: whether it was willing, and the packet afterwards. */
  function MarkOutcome(p: bytes): (r: (bool, bytes))
    ensures |r.1| == |p|
  {
    if Version(p) == 4 && |p| >= 20 then
      if p[1] % 4 == 0 then (false, p)
      else if p[1] % 4 == 3 then (true, p)
      else if Ipv4HeaderLength(p) < 20 || |p| < Ipv4HeaderLength(p) then (false, p)
      else (true, Sealed(p[1 := p[1] - p[1] % 4 + 3], Ipv4HeaderLength(p)))
    else if Version(p) == 6 && |p| >= 40 then
      if p[1] / 16 % 4 == 0 then (false, p)
      else (true, p[1 := p[1] + (3 - p[1] / 16 % 4) * 16])
    else (false, p)
  }

  method MarkCongestion(packet: array<u8>) returns (willing: bool)
    modifies packet
    ensures (willing, packet[..]) == MarkOutcome(old(packet[..]))
  {
    if packet.Length == 0 {
      return false;
    }
    var version := packet[0] / 16;
    if version == 4 && packet.Length >= 20 {
      if packet[1] % 4 == 0 {
        return false;
      }
      if packet[1] % 4 == 3 {
        return true;
      }
      var header := packet[0] % 16 * 4;
      if header < 20 || packet.Length < header {
        return false;
      }
      packet[1] := packet[1] - packet[1] % 4 + 3;
      assert packet[..] == old(packet[..])[1 := packet[1]];
      ghost var marked: bytes := packet[..];
      assert marked[..header] == packet[..header];
      var sum := Ipv4Checksum(packet[..header]);
      packet[10] := sum / 256;
      packet[11] := sum % 256;
      assert packet[..] == Sealed(marked, header);
      return true;
    } else if version == 6 && packet.Length >= 40 {
      if packet[1] / 16 % 4 == 0 {
        return false;
      }
      packet[1] := packet[1] + (3 - packet[1] / 16 % 4) * 16;
      return true;
    }
    return false;
  }

  /** The two congestion bits of a packet's header. */
  function Congestion(p: bytes): nat
    requires |p| >= 2
  {
    if Version(p) == 6 then p[1] / 16 % 4 else p[1] % 4
  }

  predicate SameExcept(p: bytes, q: bytes, changed: set<nat>) {
    |p| == |q| && forall i: nat :: i < |p| && i !in changed ==> p[i] == q[i]
  }

  /** A packet is willing exactly when it is readable as IP and its sender set either ECT codepoint
      or it already carries the mark; what is willing carries the mark afterwards and differs only
      in the congestion bits and, in IPv4, the checksum, which then verifies if anything changed. */
  lemma MarkIsExact(p: bytes)
    ensures MarkOutcome(p).0 <==>
              || (Version(p) == 4 && |p| >= 20 && Congestion(p) == 3)
              || (Version(p) == 4 && |p| >= 20 && Congestion(p) != 0 && Transport(p).Some?)
              || (Version(p) == 6 && |p| >= 40 && Congestion(p) != 0)
    ensures !MarkOutcome(p).0 ==> MarkOutcome(p).1 == p
    ensures MarkOutcome(p).0 ==> Congestion(MarkOutcome(p).1) == 3
    ensures Version(p) == 6 ==>
              SameExcept(p, MarkOutcome(p).1, {1})
    ensures MarkOutcome(p).1 != p && Version(p) == 4 ==>
              && 20 <= Ipv4HeaderLength(p) <= |p|
              && SameExcept(p, MarkOutcome(p).1, {1, 10, 11})
              && Verifies(MarkOutcome(p).1[..Ipv4HeaderLength(p)])
    ensures |p| >= 2 ==>
              var q := MarkOutcome(p).1;
              if Version(p) == 6 then q[1] / 64 == p[1] / 64 && q[1] % 16 == p[1] % 16
              else q[1] / 4 == p[1] / 4
  {
    hide MarkOutcome, Verifies, SameExcept;
    if Version(p) == 4 && |p| >= 20 {
      MarkIsExactV4(p);
    } else if Version(p) == 6 && |p| >= 40 {
      MarkIsExactV6(p);
    } else {
      NeverMarked(p);
    }
  }

  lemma NeverMarked(p: bytes)
    requires !(Version(p) == 4 && |p| >= 20) && !(Version(p) == 6 && |p| >= 40)
    ensures MarkOutcome(p) == (false, p) && SameExcept(p, p, {1})
  {
  }

  lemma MarkIsExactV4(p: bytes)
    requires Version(p) == 4 && |p| >= 20
    ensures MarkOutcome(p).0 <==> Congestion(p) == 3 || (Congestion(p) != 0 && Transport(p).Some?)
    ensures var q := MarkOutcome(p).1;
            && (!MarkOutcome(p).0 ==> q == p)
            && (MarkOutcome(p).0 ==> Congestion(q) == 3)
            && q[1] / 4 == p[1] / 4
            && (q != p ==>
                  && 20 <= Ipv4HeaderLength(p) <= |p|
                  && SameExcept(p, q, {1, 10, 11}) && Verifies(q[..Ipv4HeaderLength(p)]))
  {
    hide Sealed, Verifies;
    if 20 <= Ipv4HeaderLength(p) <= |p| {
      SealedVerifies(p[1 := p[1] - p[1] % 4 + 3], Ipv4HeaderLength(p));
    }
  }

  lemma MarkIsExactV6(p: bytes)
    requires Version(p) == 6 && |p| >= 40
    ensures MarkOutcome(p).0 <==> Congestion(p) != 0
    ensures var q := MarkOutcome(p).1;
            && (!MarkOutcome(p).0 ==> q == p)
            && (MarkOutcome(p).0 ==> Congestion(q) == 3)
            && SameExcept(p, q, {1})
            && q[1] / 64 == p[1] / 64 && q[1] % 16 == p[1] % 16
  {
  }

  /** Marking twice is marking once. */
  lemma MarkIsIdempotent(p: bytes)
    ensures MarkOutcome(p).0 ==> MarkOutcome(MarkOutcome(p).1) == MarkOutcome(p)
  {
    MarkIsExact(p);
    var q := MarkOutcome(p).1;
    if Version(p) == 6 && MarkOutcome(p).0 {
      assert q[1 := q[1] + (3 - q[1] / 16 % 4) * 16] == q;
    }
  }

  // ----- the bucket -----

  const FLOWS: nat := 64

  type Bucket = b: nat | b < FLOWS

  const FNV_OFFSET: nat := 0xcbf2_9ce4_8422_2325
  const FNV_PRIME: nat := 0x100_0000_01b3

  function Xor(a: u8, b: u8): u8 {
    ((a as bv8) ^ (b as bv8)) as u8
  }

  /** One step of the 64-bit hash: xor into the low octet, then a wrapping multiplication. */
  function Absorb(hash: nat, octet: u8): nat {
    (hash - hash % 256 + Xor(hash % 256, octet)) * FNV_PRIME % 0x1_0000_0000_0000_0000
  }

  function Eat(hash: nat, b: bytes): nat
    decreases |b|
  {
    if b == [] then hash else Eat(Absorb(hash, b[0]), b[1..])
  }

  /** The octets the bucket is computed from. */
  function FlowKey(p: bytes): bytes {
    if Version(p) == 4 && |p| >= 20 then
      var header := Ipv4HeaderLength(p);
      p[12..20] + [p[9]] +
      (if (p[9] == TCP || p[9] == UDP) && |p| >= header + 4 then p[header..header + 4] else [])
    else if Version(p) == 6 && |p| >= 40 then
      p[8..40] + [p[6]] + (if (p[6] == TCP || p[6] == UDP) && |p| >= 44 then p[40..44] else [])
    else [0]
  }

  function FlowOf(p: bytes): Bucket {
    Eat(FNV_OFFSET, FlowKey(p)) % FLOWS
  }

  /** Two packets' ports, if both have them or neither does: the first four octets of a TCP or UDP header at
      `i` in one and at `j` in the other. */
  ghost predicate SamePorts(p: bytes, i: nat, q: bytes, j: nat, protocol: u8) {
    (protocol == 6 || protocol == 17) ==>
      if i + 4 <= |p| && j + 4 <= |q| then p[i..i + 4] == q[j..j + 4] else i + 4 > |p| && j + 4 > |q|
  }

  /** Both are IPv4, or both IPv6, or neither; with the same addresses, protocol and ports in the first two
      cases, whichever octets they are at. */
  ghost predicate OneFlow(p: bytes, q: bytes) {
    if |p| >= 20 && p[0] / 16 == 4 then
      && |q| >= 20 && q[0] / 16 == 4 && p[12..20] == q[12..20] && p[9] == q[9]
      && SamePorts(p, p[0] % 16 * 4, q, q[0] % 16 * 4, p[9])
    else if |p| >= 40 && p[0] / 16 == 6 then
      && |q| >= 40 && q[0] / 16 == 6 && p[8..40] == q[8..40] && p[6] == q[6]
      && SamePorts(p, 40, q, 40, p[6])
    else !(|q| >= 20 && q[0] / 16 == 4) && !(|q| >= 40 && q[0] / 16 == 6)
  }

  lemma SamePieces(a: bytes, x: u8, c: bytes, b: bytes, y: u8, d: bytes)
    requires |a| == |b|
    ensures a + [x] + c == b + [y] + d <==> a == b && x == y && c == d
  {
    var s, t := a + [x] + c, b + [y] + d;
    assert s[..|a|] == a && s[|a|] == x && s[|a| + 1..] == c;
    assert t[..|b|] == b && t[|b|] == y && t[|b| + 1..] == d;
  }

  /** What the bucket is computed from tells exactly the flows apart. */
  lemma KeysAreExact(p: bytes, q: bytes)
    ensures FlowKey(p) == FlowKey(q) <==> OneFlow(p, q)
  {
    if |p| >= 20 && p[0] / 16 == 4 && |q| >= 20 && q[0] / 16 == 4 {
      SamePieces(p[12..20], p[9], FlowKey(p)[9..], q[12..20], q[9], FlowKey(q)[9..]);
      assert FlowKey(p) == p[12..20] + [p[9]] + FlowKey(p)[9..] && FlowKey(q) == q[12..20] + [q[9]] + FlowKey(q)[9..];
    } else if |p| >= 40 && p[0] / 16 == 6 && |q| >= 40 && q[0] / 16 == 6 {
      SamePieces(p[8..40], p[6], FlowKey(p)[33..], q[8..40], q[6], FlowKey(q)[33..]);
      assert FlowKey(p) == p[8..40] + [p[6]] + FlowKey(p)[33..] && FlowKey(q) == q[8..40] + [q[6]] + FlowKey(q)[33..];
    }
  }

  lemma {:induction false} EatAppend(hash: nat, a: bytes, b: bytes)
    ensures Eat(hash, a + b) == Eat(Eat(hash, a), b)
    decreases |a|
  {
    if a == [] {
      assert a + b == b;
    } else {
      EatAppend(Absorb(hash, a[0]), a[1..], b);
      assert (a + b)[1..] == a[1..] + b;
    }
  }

  method EatAll(hash: nat, b: bytes) returns (r: nat)
    ensures r == Eat(hash, b)
  {
    r := hash;
    var at := 0;
    assert b[0..] == b;
    while at < |b|
      invariant 0 <= at <= |b|
      invariant Eat(r, b[at..]) == Eat(hash, b)
    {
      assert b[at..][1..] == b[at + 1..];
      r := Absorb(r, b[at]);
      at := at + 1;
    }
  }

  method FindFlow(p: bytes) returns (bucket: Bucket)
    ensures bucket == FlowOf(p)
  {
    var hash := FNV_OFFSET;
    if Version(p) == 4 && |p| >= 20 {
      var header := Ipv4HeaderLength(p);
      EatAppend(FNV_OFFSET, p[12..20], [p[9]]);
      hash := EatAll(hash, p[12..20]);
      hash := EatAll(hash, [p[9]]);
      if (p[9] == TCP || p[9] == UDP) && |p| >= header + 4 {
        EatAppend(FNV_OFFSET, p[12..20] + [p[9]], p[header..header + 4]);
        hash := EatAll(hash, p[header..header + 4]);
      } else {
        assert FlowKey(p) == p[12..20] + [p[9]];
      }
    } else if Version(p) == 6 && |p| >= 40 {
      EatAppend(FNV_OFFSET, p[8..40], [p[6]]);
      hash := EatAll(hash, p[8..40]);
      hash := EatAll(hash, [p[6]]);
      if (p[6] == TCP || p[6] == UDP) && |p| >= 44 {
        EatAppend(FNV_OFFSET, p[8..40] + [p[6]], p[40..44]);
        hash := EatAll(hash, p[40..44]);
      } else {
        assert FlowKey(p) == p[8..40] + [p[6]];
      }
    } else {
      hash := EatAll(hash, [0]);
    }
    bucket := hash % FLOWS;
  }

  /** Marking never moves a packet to another bucket. A header shorter than twenty octets, whose
      port octets could overlap the checksum, is never rewritten. */
  lemma MarkKeepsFlow(p: bytes)
    ensures FlowOf(MarkOutcome(p).1) == FlowOf(p)
  {
    MarkIsExact(p);
    var q := MarkOutcome(p).1;
    assert FlowKey(q) == FlowKey(p) by {
      if q != p {
        if Version(p) == 4 {
          assert q[12..20] == p[12..20];
          var header := Ipv4HeaderLength(p);
          if |p| >= header + 4 {
            assert q[header..header + 4] == p[header..header + 4];
          }
        } else {
          assert q[8..40] == p[8..40];
          if |p| >= 44 {
            assert q[40..44] == p[40..44];
          }
        }
      }
    }
  }

  /** All packets of one connection are filed in one bucket, whatever their sizes and payloads. */
  lemma ConnectionSharesBucket(a: bytes, b: bytes)
    requires SameConnection(a, b)
    ensures FlowOf(a) == FlowOf(b)
  {
    hide SameConnection, FlowKey;
    SameConnectionIsExact(a, b);
    KeysAreExact(a, b);
  }
}
