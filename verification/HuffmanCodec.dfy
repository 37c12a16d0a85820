/** The Huffman decoder and the encoder that is its other half, as loops over octets
    (src/transport/huffman.rs). */
module HuffmanCodec {
  import opened Common
  import opened Arithmetic
  import opened Huffman

  // ----- bits of octets -----

  lemma {:induction false} BitAt(value: nat, n: nat, k: nat)
    requires k < n
    ensures Bits(value, n)[k] == value / Pow2(n - 1 - k) % 2
    decreases n
  {
    if k < n - 1 {
      BitAt(value / 2, n - 1, k);
      DivTwice(value, Pow2(n - 2 - k));
    }
  }

  lemma DivTwice(value: nat, p: nat)
    requires p > 0
    ensures value / 2 / p == value / (2 * p)
  {
    var q := value / (2 * p);
    var r := value - q * (2 * p);
    assert 0 <= r < 2 * p;
    assert q * (2 * p) == 2 * (q * p);
    assert value / 2 == q * p + r / 2;
    assert 0 <= r / 2 < p;
    DivUnique(q, p, r / 2);
  }

  lemma {:induction false} OctetBitAt(b: bytes, i: nat, k: nat)
    requires i < |b| && k < 8
    ensures OctetBits(b)[8 * i + k] == b[i] / Pow2(7 - k) % 2
  {
    if i == |b| - 1 {
      BitAt(b[i], 8, k);
    } else {
      OctetBitAt(b[..|b| - 1], i, k);
    }
  }

  // ----- decoding -----

  /** The decoder's variables while it has read `part` of a code: the number so far with room for a bit,
      and where the codes one bit longer start. */
  ghost predicate Running(count: seq<nat>, part: seq<bit>, code: nat, first: nat, index: nat, length: nat,
                          allOnes: bool) {
    && Open(count, part) && length == |part| && |count| >= 2 && length + 1 <= Longest(count)
    && code == 2 * Value(part) && first == First(count, length + 1) && index == Index(count, length + 1)
    && allOnes == AllOnes(part)
  }

  /** One bit more: it completes a code, which the tables name, or the variables go on. */
  lemma ReadBit(table: seq<Entry>, count: seq<nat>, symbols: seq<nat>, part: seq<bit>, code: nat, first: nat,
                index: nat, length: nat, allOnes: bool, ahead: seq<bit>)
    requires Canonical(table, count, symbols) && Complete(count) && |symbols| == Index(count, |count|)
    requires Running(count, part, code, first, index, length, allOnes) && ahead != []
    ensures Open(count, part) && Open(count, []) && length + 1 < |count| && first <= code + ahead[0]
    ensures var b, l, here := ahead[0], length + 1, WalkFrom(count, symbols, part, ahead);
            var at := code + b - first;
            if at < count[l] then
              && index + at < |symbols| && symbols[index + at] < |table|
              && var s := symbols[index + at];
                 var w := WalkFrom(count, symbols, [], ahead[1..]);
                 here == if s == EOS then Walk([], [], true) else w.(out := [s] + w.out)
            else
              && Open(count, part + [b]) && here == WalkFrom(count, symbols, part + [b], ahead[1..])
              && Running(count, part + [b], 2 * (code + b), 2 * (first + count[l]), index + count[l], l,
                         allOnes && b == 1)
  {
    hide WalkFrom, Canonical, Open, Value, Index, First, Complete, AllOnes, Running;
    var b := ahead[0];
    RunningTells(count, part, code, first, index, length, allOnes, b);
    WalkStep(count, symbols, part, ahead);
    if code + b - first < count[length + 1] {
      CodesInTable(count, length + 1);
      SymbolAtPosition(table, count, symbols, length + 1, code + b);
    } else {
      GoesOn(count, part, code, first, index, length, allOnes, b);
    }
  }

  lemma RunningTells(count: seq<nat>, part: seq<bit>, code: nat, first: nat, index: nat, length: nat, allOnes: bool,
                     b: bit)
    requires Complete(count) && Running(count, part, code, first, index, length, allOnes)
    ensures Open(count, part) && length == |part| && length + 1 < |count| && first <= code + b
    ensures code + b == Value(part + [b]) && first == First(count, length + 1) && index == Index(count, length + 1)
  {
    hide Open, Value, Index, First, AllOnes;
    ValueAppend(part, b);
    NeverUnderflows(count, part, b);
  }

  /** A bit that completes no code leaves a longer part of one. */
  lemma GoesOn(count: seq<nat>, part: seq<bit>, code: nat, first: nat, index: nat, length: nat, allOnes: bool, b: bit)
    requires Complete(count) && Running(count, part, code, first, index, length, allOnes)
    requires length + 1 < |count| && Open(count, part + [b])
    ensures Running(count, part + [b], 2 * (code + b), 2 * (first + count[length + 1]), index + count[length + 1],
                    length + 1, allOnes && b == 1)
  {
    hide Open, Value, Index, First, Complete, AllOnes;
    ValueAppend(part, b);
    OnesAppend(part, b);
    NextLength(count, length + 1);
    OpenIsShort(count, part + [b]);
  }

  /** Decode a string bit by bit, comparing with where the codes of each length start. */
  method Decode(ghost table: seq<Entry>, count: seq<nat>, symbols: seq<nat>, input: bytes)
    returns (r: Result<seq<nat>, HuffmanError>)
    requires Canonical(table, count, symbols) && |table| == EOS + 1
    ensures r == DecodeOf(count, symbols, input)
    ensures r.Ok? ==> forall i :: 0 <= i < |r.value| ==> r.value[i] < 256
  {
    hide WalkFrom, Canonical, OctetBits, Running, Complete, Open, Index, AllOnes;
    CanonicalIsComplete(table, count, symbols);
    OpenEmpty(count);
    ghost var bits := OctetBits(input);
    ghost var whole := WalkFrom(count, symbols, [], bits);
    var out: seq<nat> := [];
    var code: nat, first: nat, index: nat, length: nat := 0, 0, 0, 0;
    var allOnes := true;
    ghost var part: seq<bit> := [];
    StartOfWalk(count);
    assert bits[0..] == bits && [] + whole.out == whole.out;
    var i := 0;
    while i < |input|
      invariant 0 <= i <= |input|
      invariant Running(count, part, code, first, index, length, allOnes) && Open(count, part)
      invariant forall k :: 0 <= k < |out| ==> out[k] < 256
      invariant Resumes(whole, out, WalkFrom(count, symbols, part, bits[8 * i..]))
    {
      var shift := 8;
      while shift > 0
        invariant 0 <= shift <= 8
        invariant Running(count, part, code, first, index, length, allOnes) && Open(count, part)
        invariant forall k :: 0 <= k < |out| ==> out[k] < 256
        invariant Resumes(whole, out, WalkFrom(count, symbols, part, bits[8 * i + 8 - shift..]))
      {
        hide Resumes;
        shift := shift - 1;
        ghost var ahead := bits[8 * i + 7 - shift..];
        OctetBitAt(input, i, 7 - shift);
        var b: bit := input[i] / Pow2(shift) % 2;
        assert ahead[0] == b && ahead[1..] == bits[8 * i + 8 - shift..];
        ReadBit(table, count, symbols, part, code, first, index, length, allOnes, ahead);
        code := code + b;
        allOnes := allOnes && b == 1;
        length := length + 1;
        if code - first < count[length] {
          var symbol := symbols[index + code - first];
          if symbol == EOS {
            EndsInEos(whole, out, WalkFrom(count, symbols, part, ahead));
            return Err(EosCoded);
          }
          ResumesAfter(whole, out, symbol, WalkFrom(count, symbols, [], ahead[1..]));
          out := out + [symbol];
          part := [];
          StartOfWalk(count);
          code, first, index, length, allOnes := 0, 0, 0, 0, true;
        } else {
          part := part + [b];
          index := index + count[length];
          first := 2 * (first + count[length]);
          code := 2 * code;
        }
      }
      i := i + 1;
    }
    assert bits[8 * i..] == [];
    EndOfWalk(count, symbols, part, code, first, index, length, allOnes);
    assert out + [] == out;
    if length > 7 || !allOnes {
      return Err(Padding);
    }
    return Ok(out);
  }

  /** What is left at the end is the part of a code that was read. */
  lemma EndOfWalk(count: seq<nat>, symbols: seq<nat>, part: seq<bit>, code: nat, first: nat, index: nat,
                  length: nat, allOnes: bool)
    requires Complete(count) && |symbols| == Index(count, |count|)
    requires Running(count, part, code, first, index, length, allOnes)
    ensures Open(count, part) && WalkFrom(count, symbols, part, []) == Walk([], part, false)
    ensures length == |part| && allOnes == AllOnes(part)
  {
    hide WalkFrom, Open, Complete;
    WalkNothing(count, symbols, part);
  }

  /** The whole walk is what was read so far, then what the walk still ahead reads. */
  ghost predicate Resumes(whole: Walk, out: seq<nat>, ahead: Walk) {
    whole == ahead.(out := out + ahead.out)
  }

  lemma ResumesAfter(whole: Walk, out: seq<nat>, symbol: nat, rest: Walk)
    requires Resumes(whole, out, rest.(out := [symbol] + rest.out))
    ensures Resumes(whole, out + [symbol], rest)
  {
    assert out + ([symbol] + rest.out) == out + [symbol] + rest.out;
  }

  lemma EndsInEos(whole: Walk, out: seq<nat>, ahead: Walk)
    requires Resumes(whole, out, ahead) && ahead.eos
    ensures whole.eos
  {
  }

  lemma StartOfWalk(count: seq<nat>)
    requires Complete(count)
    ensures Open(count, []) && Running(count, [], 0, 0, 0, 0, true)
  {
    assert First(count, 1) == 2 * (First(count, 0) + count[0]);
    assert Index(count, 1) == Index(count, 0) + count[0];
  }

  lemma NextLength(count: seq<nat>, l: nat)
    requires l < |count|
    ensures First(count, l + 1) == 2 * (First(count, l) + count[l])
    ensures Index(count, l + 1) == Index(count, l) + count[l]
  {
  }

  lemma OnesAppend(part: seq<bit>, b: bit)
    ensures AllOnes(part + [b]) <==> AllOnes(part) && b == 1
  {
    assert (part + [b])[|part|] == b;
    assert forall i :: 0 <= i < |part| ==> (part + [b])[i] == part[i];
  }

  // ----- encoding -----

  lemma Pow2Split(n: nat, m: nat)
    ensures Pow2(n + m) == Pow2(n) * Pow2(m)
    decreases m
  {
    if m == 0 {
    } else {
      Pow2Split(n, m - 1);
      assert Pow2(n + m) == 2 * Pow2(n + m - 1);
      assert Pow2(n) * (2 * Pow2(m - 1)) == 2 * (Pow2(n) * Pow2(m - 1));
    }
  }

  /** A number shifted left by `m`, with an `m`-bit number below it. */
  lemma {:induction false} BitsJoin(high: nat, n: nat, low: nat, m: nat)
    requires low < Pow2(m)
    ensures Bits(high * Pow2(m) + low, n + m) == Bits(high, n) + Bits(low, m)
    decreases m
  {
    if m == 0 {
      assert Bits(low, 0) == [];
      assert Bits(high, n) + [] == Bits(high, n);
    } else {
      var v := high * Pow2(m) + low;
      assert high * Pow2(m) == 2 * (high * Pow2(m - 1));
      assert v / 2 == high * Pow2(m - 1) + low / 2 && v % 2 == low % 2;
      BitsJoin(high, n, low / 2, m - 1);
      assert Bits(high, n) + Bits(low / 2, m - 1) + [low % 2] == Bits(high, n) + (Bits(low / 2, m - 1) + [low % 2]);
    }
  }

  /** Bits that overflow to the left do not show in the low ones. */
  lemma {:induction false} BitsWrap(v: nat, k: nat, n: nat)
    requires n <= k
    ensures Bits(v % Pow2(k), n) == Bits(v, n)
    decreases n
  {
    if n > 0 {
      var p := Pow2(k - 1);
      var q := v / (2 * p);
      var r := v % (2 * p);
      assert v == q * (2 * p) + r;
      assert q * (2 * p) == 2 * (q * p);
      assert v / 2 == q * p + r / 2 && v % 2 == r % 2;
      assert 0 <= r / 2 < p;
      ModUnique(q, p, r / 2);
      BitsWrap(v / 2, k - 1, n - 1);
    }
  }

  /** A right shift. */
  function ShiftRight(v: nat, m: nat): nat {
    if m == 0 then v else ShiftRight(v / 2, m - 1)
  }

  /** The low bits of a number: those above the lowest `m`, then those. */
  lemma {:induction false} BitsSplit(v: nat, n: nat, m: nat)
    ensures Bits(v, n + m) == Bits(ShiftRight(v, m), n) + Bits(v, m)
    decreases m
  {
    if m == 0 {
      assert Bits(v, n) + [] == Bits(v, n);
    } else {
      BitsSplit(v / 2, n, m - 1);
      var high := Bits(ShiftRight(v, m), n);
      assert high + Bits(v / 2, m - 1) + [v % 2] == high + (Bits(v / 2, m - 1) + [v % 2]);
    }
  }

  lemma OctetsAppend(out: bytes, v: nat)
    ensures OctetBits(out + [v % 256]) == OctetBits(out) + Bits(v, 8)
  {
    assert (out + [v % 256])[..|out|] == out;
    assert Pow2(8) == 256 by {
      assert Pow2(4) == 16;
      Pow2Split(4, 4);
    }
    BitsWrap(v, 8, 8);
  }

  lemma {:induction false} OnesBits(n: nat)
    ensures AllOnes(Bits(Pow2(n) - 1, n))
  {
    if n > 0 {
      OnesBits(n - 1);
      assert (Pow2(n) - 1) / 2 == Pow2(n - 1) - 1;
    }
  }

  /** The symbols of a string of octets. */
  function Symbols(input: bytes): (text: seq<nat>)
    ensures |text| == |input| && forall i :: 0 <= i < |text| ==> text[i] == input[i]
  {
    seq(|input|, i requires 0 <= i < |input| => input[i])
  }

  lemma {:induction false} EncodeAppend(table: seq<Entry>, text: seq<nat>, s: nat)
    requires s < |table| && forall i :: 0 <= i < |text| ==> text[i] < |table|
    ensures EncodeBits(table, text + [s]) == EncodeBits(table, text) + EntryBits(table[s])
    decreases |text|
  {
    hide EntryBits;
    var last := EntryBits(table[s]);
    if text == [] {
      assert text + [s] == [s] && [s][1..] == [];
      assert last + [] == [] + last;
    } else {
      EncodeAppend(table, text[1..], s);
      var first, rest := EntryBits(table[text[0]]), EncodeBits(table, text[1..]);
      assert (text + [s])[1..] == text[1..] + [s] && (text + [s])[0] == text[0];
      assert EncodeBits(table, text + [s]) == first + (rest + last);
      assert first + (rest + last) == (first + rest) + last;
    }
  }

  /** Write a string with a 64-bit accumulator, padded to a whole octet with ones. */
  method Encode(table: seq<Entry>, input: bytes) returns (out: bytes)
    requires |table| >= 256
    requires forall s :: 0 <= s < |table| ==> table[s].length <= 32 && table[s].code < Pow2(table[s].length)
    ensures exists pad :: |pad| < 8 && AllOnes(pad) && Codes(table, out, Symbols(input), pad)
  {
    hide EntryBits, Codes, EncodeBits, Bits, Pow2, OctetBits;
    out := [];
    var pending: nat, held: nat := 0, 0;
    var i := 0;
    ghost var text: seq<nat> := [];
    NothingWritten(table);
    while i < |input|
      invariant 0 <= i <= |input|
      invariant held < 8
      invariant text == Symbols(input)[..i]
      invariant OctetBits(out) + Bits(pending, held) == EncodeBits(table, text)
    {
      var e := table[input[i]];
      ghost var before := OctetBits(out) + Bits(pending, held);
      Accumulate(pending, held, e);
      EncodeAppend(table, text, input[i]);
      assert OctetBits(out) + (Bits(pending, held) + EntryBits(e)) == before + EntryBits(e);
      text := text + [input[i] as nat];
      pending := pending * Pow2(e.length) % Pow2(64) + e.code;
      held := held + e.length;
      out, held := WriteOctets(out, pending, held);
      i := i + 1;
    }
    assert Symbols(input)[..i] == Symbols(input);
    ghost var pad;
    out, pad := WriteLast(out, pending, held);
    WhatIsCoded(table, out, text, pad);
  }

  lemma NothingWritten(table: seq<Entry>)
    ensures OctetBits([]) + Bits(0, 0) == EncodeBits(table, [])
  {
  }

  lemma WhatIsCoded(table: seq<Entry>, out: bytes, text: seq<nat>, pad: seq<bit>)
    requires forall i :: 0 <= i < |text| ==> text[i] < |table| && text[i] != EOS
    requires OctetBits(out) == EncodeBits(table, text) + pad
    ensures Codes(table, out, text, pad)
  {
  }

  /** Write out whole octets of what the accumulator holds. */
  method WriteOctets(before: bytes, pending: nat, held: nat) returns (out: bytes, left: nat)
    ensures left < 8
    ensures OctetBits(out) + Bits(pending, left) == OctetBits(before) + Bits(pending, held)
  {
    hide Bits, Pow2, OctetBits;
    out, left := before, held;
    while left >= 8
      invariant OctetBits(out) + Bits(pending, left) == OctetBits(before) + Bits(pending, held)
    {
      left := left - 8;
      var octet := ShiftRight(pending, left);
      BitsSplit(pending, 8, left);
      OctetsAppend(out, octet);
      assert OctetBits(out) + (Bits(octet, 8) + Bits(pending, left))
          == OctetBits(out) + Bits(octet, 8) + Bits(pending, left);
      out := out + [octet % 256];
    }
  }

  /** The last bits, padded to a whole octet with ones. */
  method WriteLast(before: bytes, pending: nat, held: nat) returns (out: bytes, ghost pad: seq<bit>)
    requires held < 8
    ensures |pad| < 8 && AllOnes(pad)
    ensures OctetBits(out) == OctetBits(before) + Bits(pending, held) + pad
  {
    hide Pow2, OctetBits;
    out, pad := before, [];
    if held > 0 {
      var free := 8 - held;
      var octet := pending * Pow2(free) + (Pow2(free) - 1);
      BitsJoin(pending, held, Pow2(free) - 1, free);
      OctetsAppend(out, octet);
      OnesBits(free);
      pad := Bits(Pow2(free) - 1, free);
      assert OctetBits(out) + (Bits(pending, held) + pad) == OctetBits(out) + Bits(pending, held) + pad;
      out := out + [octet % 256];
    }
  }

  /** Shifting a code into the accumulator puts its bits behind those held, whatever falls off the
      top. */
  lemma Accumulate(pending: nat, held: nat, e: Entry)
    requires held < 8 && e.length <= 32 && e.code < Pow2(e.length)
    ensures Bits(pending * Pow2(e.length) % Pow2(64) + e.code, held + e.length) == Bits(pending, held) + EntryBits(e)
  {
    var shifted := pending * Pow2(e.length);
    Pow2Split(64 - e.length, e.length);
    ModFactor(pending, Pow2(64 - e.length), Pow2(e.length));
    BitsJoin(pending % Pow2(64 - e.length), held, e.code, e.length);
    BitsWrap(pending, 64 - e.length, held);
  }

  lemma ModFactor(v: nat, k: nat, p: nat)
    requires k > 0 && p > 0
    ensures k * p > 0 && v * p % (k * p) == v % k * p
  {
    var q, r := v / k, v % k;
    assert v == q * k + r;
    assert v * p == q * (k * p) + r * p;
    assert r * p < k * p;
    ModUnique(q, k * p, r * p);
  }
}
