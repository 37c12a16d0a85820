/** A growable byte buffer, as the framing code uses one. */
module Buffers {
  import opened Common

  class Buffer {
    var data: bytes

    constructor ()
      ensures data == []
    {
      data := [];
    }

    method Put(more: bytes)
      modifies this
      ensures data == old(data) + more
    {
      data := data + more;
    }

    method Advance(n: nat)
      requires n <= |data|
      modifies this
      ensures data == old(data)[n..]
    {
      data := data[n..];
    }

    method SplitTo(n: nat) returns (front: bytes)
      requires n <= |data|
      modifies this
      ensures front == old(data)[..n] && data == old(data)[n..]
    {
      front := data[..n];
      data := data[n..];
    }
  }
}

/** QUIC variable-length integers, section 16 of RFC 9000 (src/transport/varint.rs). */
module Varint {
  import opened Common
  import opened Arithmetic
  import opened Buffers

  const MAX: nat := 0x3fff_ffff_ffff_ffff

  /** A run of octets read as a big-endian number continuing `start`. */
  function Fold(start: nat, b: bytes): nat
    decreases |b|
  {
    if b == [] then start else Fold(start * 256 + b[0], b[1..])
  }

  function BigEndian(value: nat, n: nat): (b: bytes)
    ensures |b| == n
  {
    if n == 0 then [] else BigEndian(value / 256, n - 1) + [value % 256]
  }

  /** The four encodings: one, two, four or eight octets. */
  predicate IsLength(n: nat) {
    n == 1 || n == 2 || n == 4 || n == 8
  }

  /** The first value an encoding of `n` octets cannot carry. */
  function Capacity(n: nat): nat
    requires IsLength(n)
  {
    if n == 1 then 64 else if n == 2 then 16_384 else if n == 4 then 0x4000_0000 else 0x4000_0000_0000_0000
  }

  /** What the two length bits add to the encoded number. */
  function LengthBits(n: nat): nat
    requires IsLength(n)
  {
    if n == 1 then 0 else if n == 2 then 0x4000 else if n == 4 then 0x8000_0000 else 0xc000_0000_0000_0000
  }

  function EncodeIn(value: nat, n: nat): (b: bytes)
    requires IsLength(n) && value < Capacity(n)
    ensures |b| == n
  {
    BigEndian(LengthBits(n) + value, n)
  }

  /** The length this side writes: the shortest that fits. */
  function Len(value: nat): (n: nat)
    ensures IsLength(n)
  {
    if value < 64 then 1 else if value < 16_384 then 2 else if value < 0x4000_0000 then 4 else 8
  }

  function Encode(value: nat): (b: bytes)
    requires value <= MAX
    ensures |b| == Len(value)
  {
    EncodeIn(value, Len(value))
  }

  /** How long the integer at the front says it is. */
  function DeclaredLength(first: u8): (n: nat)
    ensures IsLength(n)
  {
    var class_ := first / 64;
    if class_ == 0 then 1 else if class_ == 1 then 2 else if class_ == 2 then 4 else 8
  }

  /** The integer at the front and how many octets it takes, once it is whole. */
  function Get(b: bytes): (r: Option<(nat, nat)>)
    ensures r.Some? ==> 1 <= r.value.1 <= |b| && r.value.1 <= 8
    ensures r.None? ==> |b| < 8
  {
    if b == [] then None
    else
      var n := DeclaredLength(b[0]);
      if |b| < n then None else Some((Fold(b[0] % 64, b[1..n]), n))
  }

  method Put(buf: Buffer, value: nat)
    requires value <= MAX
    modifies buf
    ensures buf.data == old(buf.data) + Encode(value)
  {
    if value < 64 {
      assert BigEndian(value, 1) == [value];
      buf.Put([value]);
    } else if value < 16_384 {
      buf.Put(BigEndian(0x4000 + value, 2));
    } else if value < 0x4000_0000 {
      buf.Put(BigEndian(0x8000_0000 + value, 4));
    } else {
      buf.Put(BigEndian(0xc000_0000_0000_0000 + value, 8));
    }
  }

  method Read(b: bytes) returns (r: Option<(nat, nat)>)
    ensures r == Get(b)
    ensures r.Some? ==> r.value.0 <= MAX
  {
    if Get(b).Some? {
      GetBound(b);
    }
    if |b| == 0 {
      return None;
    }
    var n := DeclaredLength(b[0]);
    if |b| < n {
      return None;
    }
    var value: nat := b[0] % 64;
    var at := 1;
    while at < n
      invariant 1 <= at <= n
      invariant Fold(value, b[at..n]) == Fold(b[0] % 64, b[1..n])
    {
      assert b[at..n][1..] == b[at + 1..n];
      value := value * 256 + b[at];
      at := at + 1;
    }
    return Some((value, n));
  }

  // ----- round trips -----

  function Pow256(n: nat): nat {
    if n == 0 then 1 else 256 * Pow256(n - 1)
  }

  lemma {:induction false} FoldAppend(start: nat, b: bytes, last: u8)
    ensures Fold(start, b + [last]) == Fold(start, b) * 256 + last
    decreases |b|
  {
    if b == [] {
      assert b + [last] == [last];
    } else {
      FoldAppend(start * 256 + b[0], b[1..], last);
      assert (b + [last])[1..] == b[1..] + [last];
    }
  }

  lemma {:induction false} FoldBigEndian(value: nat, n: nat)
    requires value < Pow256(n)
    ensures Fold(0, BigEndian(value, n)) == value
    decreases n
  {
    if n > 0 {
      FoldBigEndian(value / 256, n - 1);
      FoldAppend(0, BigEndian(value / 256, n - 1), value % 256);
    }
  }

  lemma {:induction false} BigEndianFold(b: bytes)
    ensures BigEndian(Fold(0, b), |b|) == b
    decreases |b|
  {
    if b != [] {
      var front, last := b[..|b| - 1], b[|b| - 1];
      assert b == front + [last];
      BigEndianFold(front);
      FoldAppend(0, front, last);
    }
  }

  /** The first octet's place value. */
  lemma {:induction false} FoldShift(start: nat, high: nat, b: bytes)
    ensures Fold(start + high, b) == Fold(start, b) + high * Pow256(|b|)
    decreases |b|
  {
    if b != [] {
      FoldShift(start * 256 + b[0], high * 256, b[1..]);
      assert (start + high) * 256 + b[0] == start * 256 + b[0] + high * 256;
      assert high * 256 * Pow256(|b| - 1) == high * (256 * Pow256(|b| - 1));
    }
  }

  lemma {:induction false} FoldRange(start: nat, b: bytes)
    ensures start * Pow256(|b|) <= Fold(start, b) < (start + 1) * Pow256(|b|)
    decreases |b|
  {
    if b != [] {
      FoldRange(start * 256 + b[0], b[1..]);
      var p := Pow256(|b| - 1);
      Scale(start * 256, start * 256 + b[0], p);
      Scale(start * 256 + b[0] + 1, (start + 1) * 256, p);
      Regroup(start, p);
      Regroup(start + 1, p);
    }
  }

  lemma Regroup(x: nat, p: nat)
    ensures x * 256 * p == x * (256 * p)
  {
  }

  lemma Powers()
    ensures Pow256(0) == 1 && Pow256(1) == 256 && Pow256(2) == 65536 && Pow256(3) == 0x100_0000
    ensures Pow256(4) == 0x1_0000_0000 && Pow256(7) == 0x100_0000_0000_0000
    ensures Pow256(8) == 0x1_0000_0000_0000_0000
  {
    assert Pow256(4) == 256 * Pow256(3);
    assert Pow256(6) == 256 * (256 * Pow256(4));
  }

  /** The front of a buffer as one number: the length bits, and the value below them. */
  lemma SplitFront(b: bytes)
    requires b != [] && DeclaredLength(b[0]) <= |b|
    ensures var n := DeclaredLength(b[0]);
            && Fold(0, b[..n]) == LengthBits(n) + Fold(b[0] % 64, b[1..n])
            && Fold(b[0] % 64, b[1..n]) < Capacity(n)
  {
    var n := DeclaredLength(b[0]);
    var tail := b[1..n];
    Powers();
    assert b[..n][1..] == tail;
    FoldShift(b[0] % 64, b[0] - b[0] % 64, tail);
    FoldRange(b[0] % 64, tail);
    assert (b[0] % 64 + 1) * Pow256(n - 1) <= 64 * Pow256(n - 1) by {
      Scale(b[0] % 64 + 1, 64, Pow256(n - 1));
    }
  }

  /** What `Get` reads is exactly what the encodings write: the value `v` in `n` octets is read if
      and only if the buffer starts with the encoding of `v` in `n` octets. */
  lemma ReadsExactlyWhatIsWritten(b: bytes, v: nat, n: nat)
    requires IsLength(n)
    ensures Get(b) == Some((v, n)) <==> v < Capacity(n) && n <= |b| && b[..n] == EncodeIn(v, n)
  {
    if Get(b) == Some((v, n)) {
      SplitFront(b);
      BigEndianFold(b[..n]);
    }
    if v < Capacity(n) && n <= |b| && b[..n] == EncodeIn(v, n) {
      FirstOctet(v, n);
      assert b[0] == EncodeIn(v, n)[0];
      SplitFront(b);
      Powers();
      FoldBigEndian(LengthBits(n) + v, n);
    }
  }

  /** The length bits of an encoding say how long it is. */
  lemma FirstOctet(v: nat, n: nat)
    requires IsLength(n) && v < Capacity(n)
    ensures DeclaredLength(EncodeIn(v, n)[0]) == n
  {
    var e := EncodeIn(v, n);
    Powers();
    FoldBigEndian(LengthBits(n) + v, n);
    assert e == [e[0]] + e[1..];
    FoldRange(e[0], e[1..]);
  }

  /** Any encoding of a value reads back as it, whatever follows. */
  lemma RoundTrip(v: nat, n: nat, rest: bytes)
    requires IsLength(n) && v < Capacity(n)
    ensures Get(EncodeIn(v, n) + rest) == Some((v, n))
  {
    assert (EncodeIn(v, n) + rest)[..n] == EncodeIn(v, n);
    ReadsExactlyWhatIsWritten(EncodeIn(v, n) + rest, v, n);
  }

  /** A whole integer stays what it is however much more arrives. */
  lemma GetStable(b: bytes, more: bytes)
    requires Get(b).Some?
    ensures Get(b + more) == Get(b)
  {
    var n := Get(b).value.1;
    assert (b + more)[1..n] == b[1..n];
  }

  /** Whatever is read at the front was an encoding. */
  lemma IntegerWasWritten(b: bytes)
    requires Get(b).Some?
    ensures var (v, n) := Get(b).value;
            IsLength(n) && v < Capacity(n) && b == EncodeIn(v, n) + b[n..]
  {
    hide EncodeIn, Fold;
    var (v, n) := Get(b).value;
    ReadsExactlyWhatIsWritten(b, v, n);
  }

  lemma GetBound(b: bytes)
    requires Get(b).Some?
    ensures Get(b).value.0 <= MAX
  {
    SplitFront(b);
  }

  /** What this side writes is the shortest encoding that carries the value. */
  lemma TheShortestIsWritten(v: nat, n: nat)
    requires v <= MAX && IsLength(n) && v < Capacity(n)
    ensures |Encode(v)| <= n
  {
  }

  lemma FoldNext(start: nat, b: bytes, i: nat, n: nat)
    requires i < n <= |b|
    ensures Fold(start, b[i..n]) == Fold(start * 256 + b[i], b[i + 1..n])
  {
    assert b[i..n][1..] == b[i + 1..n];
  }

  lemma FoldOne(start: nat, b: bytes, i: nat)
    requires i + 1 <= |b|
    ensures Fold(start, b[i..i + 1]) == start * 256 + b[i]
  {
    FoldNext(start, b, i, i + 1);
  }

  lemma FoldThree(start: nat, b: bytes, i: nat)
    requires i + 3 <= |b|
    ensures Fold(start, b[i..i + 3]) == ((start * 256 + b[i]) * 256 + b[i + 1]) * 256 + b[i + 2]
  {
    hide Fold;
    FoldNext(start, b, i, i + 3);
    FoldNext(start * 256 + b[i], b, i + 1, i + 3);
    FoldOne((start * 256 + b[i]) * 256 + b[i + 1], b, i + 2);
  }

  lemma FoldSeven(start: nat, b: bytes, i: nat)
    requires i + 7 <= |b|
    ensures var high := ((start * 256 + b[i]) * 256 + b[i + 1]) * 256 + b[i + 2];
            Fold(start, b[i..i + 7]) ==
            (((high * 256 + b[i + 3]) * 256 + b[i + 4]) * 256 + b[i + 5]) * 256 + b[i + 6]
  {
    hide Fold;
    var high := ((start * 256 + b[i]) * 256 + b[i + 1]) * 256 + b[i + 2];
    FoldNext(start, b, i, i + 7);
    FoldNext(start * 256 + b[i], b, i + 1, i + 7);
    FoldNext((start * 256 + b[i]) * 256 + b[i + 1], b, i + 2, i + 7);
    FoldNext(high, b, i + 3, i + 7);
    FoldThree(high * 256 + b[i + 3], b, i + 4);
  }

  lemma LengthOfAnInteger(b: bytes)
    requires b != []
    ensures Get(b).None? <==> |b| < if b[0] < 64 then 1 else if b[0] < 128 then 2 else if b[0] < 192 then 4 else 8
    ensures b[0] < 64 ==> Get(b) == Some((b[0], 1))
  {
  }

  lemma TwoOctets(b: bytes)
    requires |b| >= 2 && 64 <= b[0] < 128
    ensures Get(b) == Some(((b[0] - 64) as nat * 256 + b[1], 2))
  {
    hide Fold;
    FoldOne(b[0] % 64, b, 1);
  }

  lemma FourOctets(b: bytes)
    requires |b| >= 4 && 128 <= b[0] < 192
    ensures Get(b) == Some(((((b[0] - 128) as nat * 256 + b[1]) * 256 + b[2]) * 256 + b[3], 4))
  {
    hide Fold;
    FoldThree(b[0] % 64, b, 1);
  }

  lemma EightOctets(b: bytes)
    requires |b| >= 8 && b[0] >= 192
    ensures var high := (((b[0] - 192) as nat * 256 + b[1]) * 256 + b[2]) * 256 + b[3];
            Get(b) == Some(((((high * 256 + b[4]) * 256 + b[5]) * 256 + b[6]) * 256 + b[7], 8))
  {
    hide Fold;
    FoldSeven(b[0] % 64, b, 1);
  }

  /** What an integer is, octet by octet: the first two bits of the first say how many there are. */
  lemma OctetsOfAnInteger(b: bytes)
    requires b != []
    ensures Get(b).None? <==> |b| < if b[0] < 64 then 1 else if b[0] < 128 then 2 else if b[0] < 192 then 4 else 8
    ensures b[0] < 64 ==> Get(b) == Some((b[0], 1))
    ensures 64 <= b[0] < 128 && |b| >= 2 ==> Get(b) == Some(((b[0] - 64) as nat * 256 + b[1], 2))
    ensures 128 <= b[0] < 192 && |b| >= 4 ==>
              Get(b) == Some(((((b[0] - 128) as nat * 256 + b[1]) * 256 + b[2]) * 256 + b[3], 4))
    ensures b[0] >= 192 && |b| >= 8 ==>
              var high := (((b[0] - 192) as nat * 256 + b[1]) * 256 + b[2]) * 256 + b[3];
              Get(b) == Some(((((high * 256 + b[4]) * 256 + b[5]) * 256 + b[6]) * 256 + b[7], 8))
  {
    hide Get;
    LengthOfAnInteger(b);
    if 64 <= b[0] < 128 && |b| >= 2 {
      TwoOctets(b);
    } else if 128 <= b[0] < 192 && |b| >= 4 {
      FourOctets(b);
    } else if b[0] >= 192 && |b| >= 8 {
      EightOctets(b);
    }
  }
}
