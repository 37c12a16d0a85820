/** Ones'-complement arithmetic over IP headers (src/ip.rs). */
module Checksum {
  import opened Common

  /** The sum of the big-endian words of a run of octets, an odd last octet padded on the right. */
  function Words(b: bytes): nat {
    if |b| == 0 then 0
    else if |b| == 1 then Word(b[0], 0)
    else Word(b[0], b[1]) + Words(b[2..])
  }

  /** The ones'-complement reading of a sum: its residue modulo 65535, where the two
      representations of zero are told apart by whether the sum itself was zero. */
  function Residue(sum: nat): (r: nat)
    ensures r <= 65535
  {
    if sum == 0 then 0 else if sum % 65535 == 0 then 65535 else sum % 65535
  }

  function ChecksumOf(b: bytes): nat {
    65535 - Residue(Words(b))
  }

  /** The source adds up in thirty-two bits. */
  const WRAP: nat := 0x1_0000_0000

  /** The checksum as the source comes by it. */
  function WrappedChecksum(sum: nat): nat {
    65535 - Residue(sum % WRAP)
  }

  /** The whole words of a header, with the word of its checksum field read as zero. */
  function Blanked(header: bytes): bytes {
    var words := header[..|header| / 2 * 2];
    if |header| >= 12 then words[10 := 0][11 := 0] else words
  }

  function Ipv4ChecksumOf(header: bytes): (sum: nat)
    ensures sum < 65536
  {
    WrappedChecksum(Words(Blanked(header)))
  }

  /** The packet with the checksum of its first `header` octets written into its checksum field. */
  function Sealed(packet: bytes, header: nat): (r: bytes)
    requires 12 <= header <= |packet|
  {
    var sum := Ipv4ChecksumOf(packet[..header]);
    packet[10 := sum / 256][11 := sum % 256]
  }

  /** What a receiver checks: a header carrying its own checksum sums to all ones. */
  predicate Verifies(header: bytes) {
    ChecksumOf(header) == 0
  }

  // ----- the accumulator -----

  class Sum {
    /** The source's 32-bit accumulator. */
    var total: nat

    constructor ()
      ensures total == 0
    {
      total := 0;
    }

    /** Add a run of octets, wrapping around as thirty-two bits do. */
    method Add(b: bytes)
      modifies this
      ensures total % WRAP == (old(total) + Words(b)) % WRAP
      ensures old(total) < WRAP ==> total < WRAP
    {
      var at := 0;
      while at + 2 <= |b|
        invariant 0 <= at <= |b|
        invariant (total + Words(b[at..])) % WRAP == (old(total) + Words(b)) % WRAP
        invariant old(total) < WRAP ==> total < WRAP
      {
        assert b[at..][2..] == b[at + 2..];
        Wraps(total + Word(b[at], b[at + 1]), Words(b[at + 2..]));
        total := (total + Word(b[at], b[at + 1])) % WRAP;
        at := at + 2;
      }
      if at < |b| {
        total := (total + Word(b[at], 0)) % WRAP;
      }
    }

    /** Fold until no carry is left, and invert. */
    method Fold() returns (r: nat)
      ensures r == 65535 - Residue(total)
      ensures r < 65536
    {
      var sum := total;
      while sum / 65536 != 0
        invariant Residue(sum) == Residue(total)
        decreases sum
      {
        FoldKeepsResidue(sum);
        sum := sum % 65536 + sum / 65536;
      }
      r := 65535 - sum;
    }
  }

  lemma Wraps(x: nat, y: nat)
    ensures (x % WRAP + y) % WRAP == (x + y) % WRAP
  {
  }

  /** One fold, `(sum & 0xffff) + (sum >> 16)`, keeps the sum modulo 65535, and never turns a
      nonzero sum into zero. */
  lemma FoldKeepsResidue(sum: nat)
    ensures (sum % 65536 + sum / 65536) % 65535 == sum % 65535
    ensures Residue(sum % 65536 + sum / 65536) == Residue(sum)
  {
    var hi, lo := sum / 65536, sum % 65536;
    assert sum == hi * 65536 + lo;
    assert sum == (hi + lo) + hi * 65535;
    ModAddMultiple(hi + lo, hi);
  }

  lemma ModAddMultiple(a: nat, k: nat)
    ensures (a + k * 65535) % 65535 == a % 65535
  {
  }

  /** The checksum of any run of octets, in thirty-two bits. */
  method Compute(b: bytes) returns (r: nat)
    ensures r == WrappedChecksum(Words(b))
  {
    var sum := new Sum();
    sum.Add(b);
    r := sum.Fold();
  }

  /** A header of any length word by word, the checksum field left out and an odd last octet dropped. */
  method Ipv4Checksum(header: bytes) returns (r: nat)
    ensures r == Ipv4ChecksumOf(header)
  {
    hide Blanked;
    var sum := new Sum();
    var at := 0;
    ghost var blank := Blanked(header);
    BlankedIs(header);
    assert blank[0..] == blank;
    while at < |header| / 2
      invariant 0 <= at <= |header| / 2
      invariant fresh(sum) && sum.total < WRAP
      invariant (sum.total + Words(blank[2 * at..])) % WRAP == Words(blank) % WRAP
    {
      hide Words;
      var pair := header[2 * at..2 * at + 2];
      ghost var before, rest := sum.total, blank[2 * (at + 1)..];
      NextWord(blank, at);
      if at != 5 {
        assert pair == blank[2 * at..2 * at + 2];
        sum.Add(pair);
        Wraps(sum.total, Words(rest));
        Wraps(before + Words(pair), Words(rest));
      } else {
        NoWord(blank[10..12]);
      }
      at := at + 1;
    }
    NothingLeft(blank, at);
    r := sum.Fold();
  }

  lemma BlankedIs(h: bytes)
    ensures |Blanked(h)| == |h| / 2 * 2
    ensures forall k :: 0 <= k < |Blanked(h)| ==> Blanked(h)[k] == if k == 10 || k == 11 then 0 else h[k]
  {
  }

  lemma NextWord(b: bytes, at: nat)
    requires 2 * at + 2 <= |b|
    ensures Words(b[2 * at..]) == Words(b[2 * at..2 * at + 2]) + Words(b[2 * (at + 1)..])
  {
    assert b[2 * at..][2..] == b[2 * (at + 1)..] && b[2 * at..2 * at + 2][2..] == [];
  }

  lemma NoWord(b: bytes)
    requires b == [0, 0]
    ensures Words(b) == 0
  {
    assert b[2..] == [];
  }

  lemma NothingLeft(b: bytes, at: nat)
    requires 2 * at == |b|
    ensures Words(b[2 * at..]) == 0
  {
  }

  // ----- what the sums mean -----

  lemma {:induction false} WordsUpdate(b: bytes, at: nat, hi: u8, lo: u8)
    requires at % 2 == 0 && at + 1 < |b|
    ensures Words(b[at := hi][at + 1 := lo]) == Words(b) - Word(b[at], b[at + 1]) + Word(hi, lo)
    decreases at
  {
    var c := b[at := hi][at + 1 := lo];
    if at == 0 {
      assert c[2..] == b[2..];
    } else {
      WordsUpdate(b[2..], at - 2, hi, lo);
      assert c[2..] == b[2..][at - 2 := hi][at - 1 := lo];
    }
  }

  lemma ResidueComplement(s: nat)
    ensures Residue(s + (65535 - Residue(s))) == 65535
  {
    assert s == s / 65535 * 65535 + s % 65535;
    var t := s + (65535 - Residue(s));
    if s != 0 && s % 65535 != 0 {
      assert t == 0 + (s / 65535 + 1) * 65535;
      ModAddMultiple(0, s / 65535 + 1);
    }
  }

  lemma {:induction false} WordsBound(b: bytes)
    ensures Words(b) <= (|b| + 1) / 2 * 65535
  {
    if |b| >= 2 {
      WordsBound(b[2..]);
    }
  }

  lemma {:induction false} OddOctet(b: bytes)
    requires |b| % 2 == 1
    ensures Words(b) == Words(b[..|b| - 1]) + Word(b[|b| - 1], 0)
  {
    if |b| > 1 {
      OddOctet(b[2..]);
      assert b[2..][..|b| - 3] == b[..|b| - 1][2..];
    } else {
      assert b[..0] == [];
    }
  }

  /** Thirty-two bits are enough for anything shorter than 128 KiB, and beyond that they are right
      exactly when what was lost is a multiple of 65535 and did not leave zero. */
  lemma WhenWrappingIsHarmless(b: bytes)
    ensures |b| <= 0x2_0000 ==> WrappedChecksum(Words(b)) == ChecksumOf(b)
    ensures WrappedChecksum(Words(b)) == ChecksumOf(b) <==>
            Words(b) / WRAP % 65535 == 0 && (Words(b) % WRAP == 0 ==> Words(b) == 0)
  {
    var s := Words(b);
    WordsBound(b);
    assert s == s % WRAP + s / WRAP * WRAP;
    assert s == s % WRAP + s / WRAP + (s / WRAP * 65537) * 65535;
    ModAddMultiple(s % WRAP + s / WRAP, s / WRAP * 65537);
    ResiduesApart(s % WRAP, s / WRAP);
  }

  /** `2n` octets of 255. */
  function Ones(n: nat): bytes {
    seq(2 * n, _ => 255)
  }

  lemma {:induction false} WordsOfOnes(n: nat)
    ensures Words(Ones(n)) == n * 65535
  {
    if n > 0 {
      WordsOfOnes(n - 1);
      assert Ones(n)[2..] == Ones(n - 1);
      assert Word(Ones(n)[0], Ones(n)[1]) == 65535;
    }
  }

  /** A run on which wrapping does harm: 131,076 octets of 255, which sum to all ones, but not in
      thirty-two bits. */
  lemma WrappingCanHarm()
    ensures |Ones(65_538)| == 131_076
    ensures ChecksumOf(Ones(65_538)) == 0 && WrappedChecksum(Words(Ones(65_538))) == 1
  {
    hide Words;
    WordsOfOnes(65_538);
    assert 65_538 * 65535 == WRAP + 65534;
  }

  lemma ResiduesApart(a: nat, k: nat)
    ensures (a + k) % 65535 == a % 65535 <==> k % 65535 == 0
  {
  }

  /** Writing the computed checksum into a header makes it verify, whatever the field held before: a
      header of any even length whose sum fits, and one of odd length exactly when its last octet,
      which the source leaves out, is zero. Nothing else changes. */
  lemma SealedVerifies(packet: bytes, header: nat)
    requires 12 <= header <= |packet|
    ensures Words(Blanked(packet[..header])) < WRAP ==>
              (Verifies(Sealed(packet, header)[..header]) <==> header % 2 == 0 || packet[header - 1] == 0)
    ensures header <= 60 && header % 2 == 0 ==> Verifies(Sealed(packet, header)[..header])
    ensures |Sealed(packet, header)| == |packet|
    ensures forall i :: 0 <= i < |packet| && i != 10 && i != 11 ==> Sealed(packet, header)[i] == packet[i]
  {
    hide Words, Residue, Blanked, Ipv4ChecksumOf;
    var h := packet[..header];
    BlankedIs(h);
    WordsBound(Blanked(h));
    if Words(Blanked(h)) < WRAP {
      WordsSealed(packet, header);
      var sealed := Sealed(packet, header)[..header];
      var words := sealed[..header / 2 * 2];
      assert words == Sealed(packet, header)[..header / 2 * 2];
      if header % 2 == 0 {
        assert sealed == words;
      } else {
        OddOctet(sealed);
        assert sealed[..header - 1] == words;
        LastOctet(Words(words), packet[header - 1]);
      }
    }
  }

  /** The whole words of a sealed header sum to all ones. */
  lemma WordsSealed(packet: bytes, header: nat)
    requires 12 <= header <= |packet| && Words(Blanked(packet[..header])) < WRAP
    ensures Residue(Words(Sealed(packet, header)[..header / 2 * 2])) == 65535
  {
    hide Words, Residue;
    var h := packet[..header];
    var blank: bytes := Blanked(h);
    var sum := Ipv4ChecksumOf(h);
    var hi: u8, lo: u8 := sum / 256, sum % 256;
    var whole: bytes := blank[10 := hi][11 := lo];
    assert Sealed(packet, header)[..header / 2 * 2] == whole;
    WordsUpdate(blank, 10, hi, lo);
    assert Word(hi, lo) == sum && Word(blank[10], blank[11]) == 0;
    ResidueComplement(Words(blank));
  }

  /** An octet more, in the upper half of a word, leaves all ones only when it is zero. */
  lemma LastOctet(sum: nat, last: u8)
    requires Residue(sum) == 65535
    ensures Residue(sum + Word(last, 0)) == 65535 <==> last == 0
  {
  }
}
