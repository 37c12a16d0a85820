/** Values shared by every component: optional values, outcomes, octets and octet strings. */
module Common {
  datatype Option<+T> = None | Some(value: T)

  datatype Result<+T, +E> = Ok(value: T) | Err(error: E)

  /** An octet. Bit fields of an octet are written as quotients and remainders of powers of two. */
  type u8 = x: int | 0 <= x < 256

  type bytes = seq<u8>

  /** An unsigned number of sixty-four bits. */
  type u64 = x: int | 0 <= x < 0x1_0000_0000_0000_0000

  /** A big-endian sixteen-bit word. */
  function Word(hi: u8, lo: u8): (w: nat)
    ensures w < 65536
  {
    hi * 256 + lo
  }

  function Max(a: int, b: int): int {
    if a < b then b else a
  }

  function Min(a: int, b: int): int {
    if a < b then a else b
  }

  /** The concatenation of a sequence of sequences. */
  function Flatten<T>(parts: seq<seq<T>>): seq<T> {
    if parts == [] then [] else parts[0] + Flatten(parts[1..])
  }

  lemma {:induction false} FlattenAppend<T>(a: seq<seq<T>>, b: seq<seq<T>>)
    ensures Flatten(a + b) == Flatten(a) + Flatten(b)
  {
    if a == [] {
      assert a + b == b;
    } else {
      FlattenAppend(a[1..], b);
      assert (a + b)[0] == a[0] && (a + b)[1..] == a[1..] + b;
      assert Flatten(a + b) == a[0] + (Flatten(a[1..]) + Flatten(b));
      assert a[0] + (Flatten(a[1..]) + Flatten(b)) == (a[0] + Flatten(a[1..])) + Flatten(b);
    }
  }
}

/** Quotients and remainders by any number. */
module Arithmetic {
  lemma DivUnique(q: nat, p: nat, r: nat)
    requires r < p
    ensures (q * p + r) / p == q
  {
    var d, m := (q * p + r) / p, (q * p + r) % p;
    assert q * p + r == d * p + m;
    assert (d - q) * p == r - m;
    Apart(d - q, p);
  }

  lemma Apart(k: int, p: int)
    requires p >= 0
    ensures k >= 1 ==> k * p >= p
    ensures k <= -1 ==> k * p <= -p
  {
  }

  lemma ModUnique(q: nat, p: nat, r: nat)
    requires r < p
    ensures (q * p + r) % p == r
  {
    DivUnique(q, p, r);
    assert (q * p + r) == (q * p + r) / p * p + (q * p + r) % p;
  }

  /** A quotient and remainder make the number. */
  lemma DivMod(n: nat, p: nat)
    requires p > 0
    ensures n == n / p * p + n % p
  {
  }

  /** A product grows with its first factor. */
  lemma Scale(x: nat, y: nat, p: nat)
    requires x <= y
    ensures x * p <= y * p
  {
  }
}
