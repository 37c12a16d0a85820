/** The hop count a forwarded packet loses (src/transport/connect_ip.rs). */
module HopLimit {
  import opened Common
  import opened Checksum
  import opened Packets

  /** The packet with its hop count one lower, or `None` when it is malformed or its count is
      spent. */
  function Forwarded(p: bytes): (r: Option<bytes>)
    ensures r.Some? ==> |r.value| == |p|
  {
    if Version(p) == 4 then
      var header := Ipv4HeaderLength(p);
      if header < 20 || |p| < header || p[8] <= 1 then None
      else Some(Sealed(p[8 := p[8] - 1], header))
    else if Version(p) == 6 then
      if |p| < 40 || p[7] <= 1 then None
      else Some(p[7 := p[7] - 1])
    else None
  }

  method DecrementHopLimit(packet: array<u8>) returns (forward: bool)
    modifies packet
    ensures forward == Forwarded(old(packet[..])).Some?
    ensures packet[..] == if forward then Forwarded(old(packet[..])).value else old(packet[..])
  {
    if packet.Length == 0 {
      return false;
    }
    var version := packet[0] / 16;
    if version == 4 {
      var header := packet[0] % 16 * 4;
      if header < 20 || packet.Length < header || packet[8] <= 1 {
        return false;
      }
      packet[8] := packet[8] - 1;
      ghost var lowered: bytes := packet[..];
      assert lowered == old(packet[..])[8 := packet[8]];
      assert lowered[..header] == packet[..header];
      var sum := Ipv4Checksum(packet[..header]);
      packet[10] := sum / 256;
      packet[11] := sum % 256;
      assert packet[..] == Sealed(lowered, header);
      return true;
    } else if version == 6 {
      if packet.Length < 40 || packet[7] <= 1 {
        return false;
      }
      packet[7] := packet[7] - 1;
      return true;
    }
    return false;
  }

  function Hops(p: bytes): nat
    requires |p| >= 9
  {
    if Version(p) == 6 then p[7] else p[8]
  }

  /** A forwarded packet is a readable IP packet with at least two hops left; it leaves with one hop
      fewer, a header that verifies, and nothing else changed. */
  lemma ForwardingIsExact(p: bytes)
    ensures Forwarded(p).Some? <==> Transport(p).Some? && Hops(p) > 1
    ensures Forwarded(p).Some? ==>
              var q := Forwarded(p).value;
              && Hops(q) == Hops(p) - 1
              && SameExcept(p, q, if Version(p) == 4 then {8, 10, 11} else {7})
              && (Version(p) == 4 ==> Verifies(q[..Ipv4HeaderLength(p)]))
  {
    if Version(p) == 4 && 20 <= Ipv4HeaderLength(p) <= |p| && p[8] > 1 {
      SealedVerifies(p[8 := p[8] - 1], Ipv4HeaderLength(p));
    }
  }
}
