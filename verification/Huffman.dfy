/** Huffman-coded strings: a decoder that knows a canonical code only by how many codes there are of
    each length, section 5.2 of RFC 7541 (src/transport/huffman.rs). Everything here holds of any
    complete canonical code over the octets and an end-of-string symbol. */
module Huffman {
  import opened Common

  type bit = b: nat | b < 2

  /** The code of a symbol: its bits as a number, and how many they are. */
  datatype Entry = Entry(code: nat, length: nat)

  const EOS: nat := 256

  // ----- bits -----

  function Pow2(n: nat): (p: nat)
    ensures p > 0
  {
    if n == 0 then 1 else 2 * Pow2(n - 1)
  }

  /** Bits as a number, most significant first. */
  function Value(bits: seq<bit>): nat {
    if bits == [] then 0 else 2 * Value(bits[..|bits| - 1]) + bits[|bits| - 1]
  }

  /** The low `n` bits of a number. */
  function Bits(value: nat, n: nat): (bits: seq<bit>)
    ensures |bits| == n
  {
    if n == 0 then [] else Bits(value / 2, n - 1) + [value % 2]
  }

  function OctetBits(b: bytes): (bits: seq<bit>)
    ensures |bits| == 8 * |b|
  {
    if b == [] then [] else OctetBits(b[..|b| - 1]) + Bits(b[|b| - 1], 8)
  }

  predicate AllOnes(bits: seq<bit>) {
    forall i :: 0 <= i < |bits| ==> bits[i] == 1
  }

  lemma ValueAppend(bits: seq<bit>, b: bit)
    ensures Value(bits + [b]) == 2 * Value(bits) + b
  {
    assert (bits + [b])[..|bits|] == bits;
  }

  lemma {:induction false} ValueBound(bits: seq<bit>)
    ensures Value(bits) < Pow2(|bits|)
  {
    if bits != [] {
      ValueBound(bits[..|bits| - 1]);
    }
  }

  lemma {:induction false} ValueOfBits(value: nat, n: nat)
    requires value < Pow2(n)
    ensures Value(Bits(value, n)) == value
    decreases n
  {
    if n > 0 {
      ValueOfBits(value / 2, n - 1);
      ValueAppend(Bits(value / 2, n - 1), value % 2);
    }
  }

  lemma {:induction false} BitsOfValue(bits: seq<bit>)
    ensures Bits(Value(bits), |bits|) == bits
  {
    if bits != [] {
      BitsOfValue(bits[..|bits| - 1]);
    }
  }

  lemma {:induction false} OnesValue(bits: seq<bit>)
    requires AllOnes(bits)
    ensures Value(bits) == Pow2(|bits|) - 1
  {
    if bits != [] {
      OnesValue(bits[..|bits| - 1]);
    }
  }

  // ----- canonical codes -----

  /** The first code of length `l`: where the codes of length `l - 1` end, shifted. */
  function First(count: seq<nat>, l: nat): nat
    requires l <= |count|
  {
    if l == 0 then 0 else 2 * (First(count, l - 1) + count[l - 1])
  }

  /** How many symbols have a code shorter than `l`. */
  function Index(count: seq<nat>, l: nat): nat
    requires l <= |count|
  {
    if l == 0 then 0 else Index(count, l - 1) + count[l - 1]
  }

  function Longest(count: seq<nat>): nat
    requires |count| >= 2
  {
    |count| - 1
  }

  /** The code leaves no room, in Kraft's sense: the codes of the longest length end where the numbers of
      that length do. */
  ghost predicate Complete(count: seq<nat>) {
    && |count| >= 2 && count[0] == 0 && count[Longest(count)] > 0
    && First(count, Longest(count)) + count[Longest(count)] == Pow2(Longest(count))
  }

  /** Where a symbol stands in canonical order. */
  function PositionOf(table: seq<Entry>, count: seq<nat>, s: nat): int
    requires s < |table| && table[s].length < |count|
  {
    Index(count, table[s].length) + table[s].code - First(count, table[s].length)
  }

  /** The entry of `s` is one of the codes of its length. */
  ghost predicate InRange(table: seq<Entry>, count: seq<nat>, s: nat)
    requires s < |table|
  {
    && 1 <= table[s].length < |count|
    && First(count, table[s].length) <= table[s].code
    && table[s].code < First(count, table[s].length) + count[table[s].length]
  }

  /** The table assigns its codes by length and position: `count` says how many there are of each
      length, and `symbols` lists the symbols in the order of their codes. */
  ghost predicate Canonical(table: seq<Entry>, count: seq<nat>, symbols: seq<nat>) {
    && Complete(count)
    && |symbols| == |table| == Index(count, |count|)
    && (forall s: nat :: s < |table| ==>
          InRange(table, count, s) && 0 <= PositionOf(table, count, s) < |symbols|
          && symbols[PositionOf(table, count, s)] == s)
    && (forall p :: 0 <= p < |symbols| ==>
          symbols[p] < |table| && InRange(table, count, symbols[p])
          && PositionOf(table, count, symbols[p]) == p)
  }

  function EntryBits(e: Entry): seq<bit> {
    Bits(e.code, e.length)
  }

  function EncodeBits(table: seq<Entry>, text: seq<nat>): seq<bit>
    requires forall i :: 0 <= i < |text| ==> text[i] < |table|
  {
    if text == [] then [] else EntryBits(table[text[0]]) + EncodeBits(table, text[1..])
  }

  lemma {:induction false} IndexMonotone(count: seq<nat>, l: nat, m: nat)
    requires l <= m <= |count|
    ensures Index(count, l) <= Index(count, m)
    decreases m
  {
    if l < m {
      IndexMonotone(count, l, m - 1);
    }
  }

  /** In a complete code, no length runs out of numbers before the longest. */
  lemma {:induction false} RoomLeft(count: seq<nat>, l: nat)
    requires Complete(count) && l < |count|
    ensures First(count, l) + count[l] <= Pow2(l)
    ensures l < Longest(count) ==> First(count, l) + count[l] < Pow2(l)
    decreases |count| - l
  {
    if l < Longest(count) {
      RoomLeft(count, l + 1);
      assert First(count, l + 1) == 2 * (First(count, l) + count[l]);
      assert Pow2(l + 1) == 2 * Pow2(l);
    }
  }

  // ----- the walk -----

  /** The bits read since the last symbol are the start of a longer code: they lie past every code
      of their length. */
  ghost predicate Open(count: seq<nat>, part: seq<bit>) {
    |part| < |count| && Value(part) >= First(count, |part|) + count[|part|]
  }

  lemma OpenIsShort(count: seq<nat>, part: seq<bit>)
    requires Complete(count) && Open(count, part)
    ensures |part| < Longest(count)
  {
    ValueBound(part);
    RoomLeft(count, |part|);
  }

  /** `code - first` never underflows, and the length never passes the longest code. */
  lemma NeverUnderflows(count: seq<nat>, part: seq<bit>, b: bit)
    requires Complete(count) && Open(count, part)
    ensures |part| + 1 <= Longest(count)
    ensures Value(part + [b]) >= First(count, |part| + 1)
    ensures Value(part + [b]) < Pow2(|part| + 1)
  {
    OpenIsShort(count, part);
    ValueAppend(part, b);
    ValueBound(part + [b]);
  }

  /** The walk over the bits of a string: the symbols read, what is left, and whether the
      end-of-string symbol was met. */
  datatype Walk = Walk(out: seq<nat>, rest: seq<bit>, eos: bool)

  ghost function WalkFrom(count: seq<nat>, symbols: seq<nat>, part: seq<bit>, bits: seq<bit>): Walk
    requires Complete(count) && Open(count, part) && |symbols| == Index(count, |count|)
    decreases |bits|
  {
    if bits == [] then Walk([], part, false)
    else
      NeverUnderflows(count, part, bits[0]);
      var next := part + [bits[0]];
      var l := |next|;
      if Value(next) - First(count, l) < count[l] then
        IndexMonotone(count, l + 1, |count|);
        var s := symbols[Index(count, l) + Value(next) - First(count, l)];
        if s == EOS then Walk([], [], true)
        else
          var w := WalkFrom(count, symbols, [], bits[1..]);
          w.(out := [s] + w.out)
      else WalkFrom(count, symbols, next, bits[1..])
  }

  lemma OpenEmpty(count: seq<nat>)
    requires Complete(count)
    ensures Open(count, [])
  {
  }

  /** A position inside the codes of one length holds a symbol of that length with that code. */
  lemma SymbolAtPosition(table: seq<Entry>, count: seq<nat>, symbols: seq<nat>, l: nat, v: nat)
    requires Canonical(table, count, symbols)
    requires l < |count| && First(count, l) <= v < First(count, l) + count[l]
    ensures Index(count, l) + v - First(count, l) < |symbols|
    ensures symbols[Index(count, l) + v - First(count, l)] < |table|
    ensures table[symbols[Index(count, l) + v - First(count, l)]] == Entry(v, l)
  {
    IndexMonotone(count, l + 1, |count|);
    var p := Index(count, l) + v - First(count, l);
    var s := symbols[p];
    assert PositionOf(table, count, s) == p && InRange(table, count, s);
    var m := table[s].length;
    if m < l {
      IndexMonotone(count, m + 1, l);
    } else if l < m {
      IndexMonotone(count, l + 1, m);
    }
  }

  /** The bits are the codes of what a walk read: all of them, but for the rest, when it met no
      end-of-string symbol, and otherwise up to the code of that symbol. */
  ghost predicate Explains(table: seq<Entry>, bits: seq<bit>, w: Walk, tail: seq<bit>) {
    && (forall i :: 0 <= i < |w.out| ==> w.out[i] < |table| && w.out[i] != EOS)
    && (w.eos ==> EOS < |table| && bits == EncodeBits(table, w.out) + (EntryBits(table[EOS]) + tail))
    && (!w.eos ==> bits == EncodeBits(table, w.out) + w.rest)
  }

  lemma ExplainSymbol(table: seq<Entry>, s: nat, bits: seq<bit>, w: Walk, tail: seq<bit>)
    requires s < |table| && s != EOS && Explains(table, bits, w, tail)
    ensures Explains(table, EntryBits(table[s]) + bits, w.(out := [s] + w.out), tail)
  {
    hide EntryBits;
    var code := EntryBits(table[s]);
    assert ([s] + w.out)[1..] == w.out;
    var all := code + EncodeBits(table, w.out);
    if w.eos {
      assert code + (EncodeBits(table, w.out) + (EntryBits(table[EOS]) + tail)) == all + (EntryBits(table[EOS]) + tail);
    } else {
      assert code + (EncodeBits(table, w.out) + w.rest) == all + w.rest;
    }
  }

  lemma ExplainEnd(table: seq<Entry>, part: seq<bit>, tail: seq<bit>)
    ensures Explains(table, part, Walk([], part, false), tail)
    ensures EOS < |table| ==> Explains(table, EntryBits(table[EOS]) + tail, Walk([], [], true), tail)
  {
    assert [] + part == part;
    if EOS < |table| {
      assert [] + (EntryBits(table[EOS]) + tail) == EntryBits(table[EOS]) + tail;
    }
  }

  /** Whatever the walk reads, the bits were the codes of it, and what is left is open. */
  lemma {:induction false} WalkIsSound(table: seq<Entry>, count: seq<nat>, symbols: seq<nat>, part: seq<bit>,
                                       bits: seq<bit>)
    returns (tail: seq<bit>)
    requires Canonical(table, count, symbols) && Open(count, part)
    ensures Explains(table, part + bits, WalkFrom(count, symbols, part, bits), tail)
    ensures Open(count, WalkFrom(count, symbols, part, bits).rest)
    decreases |bits|
  {
    hide Canonical, Open, Complete, EntryBits, WalkFrom, EncodeBits, Explains, Value, First, Index;
    CanonicalIsComplete(table, count, symbols);
    OpenEmpty(count);
    tail := [];
    if bits == [] {
      WalkNothing(count, symbols, part);
      assert part + bits == part;
      ExplainEnd(table, part, tail);
    } else {
      WalkStep(count, symbols, part, bits);
      var next := part + [bits[0]];
      assert part + bits == next + bits[1..];
      var l := |next|;
      if Value(next) - First(count, l) < count[l] {
        SymbolAtPosition(table, count, symbols, l, Value(next));
        var s := symbols[Index(count, l) + Value(next) - First(count, l)];
        CodeOfEntry(table[s], next);
        if s == EOS {
          tail := bits[1..];
          ExplainEnd(table, [], tail);
        } else {
          tail := WalkIsSound(table, count, symbols, [], bits[1..]);
          assert [] + bits[1..] == bits[1..];
          ExplainSymbol(table, s, bits[1..], WalkFrom(count, symbols, [], bits[1..]), tail);
        }
      } else {
        tail := WalkIsSound(table, count, symbols, next, bits[1..]);
      }
    }
  }

  lemma CodeOfEntry(e: Entry, code: seq<bit>)
    requires e == Entry(Value(code), |code|)
    ensures EntryBits(e) == code
  {
    BitsOfValue(code);
  }

  lemma WalkNothing(count: seq<nat>, symbols: seq<nat>, part: seq<bit>)
    requires Complete(count) && Open(count, part) && |symbols| == Index(count, |count|)
    ensures WalkFrom(count, symbols, part, []) == Walk([], part, false)
  {
  }

  /** One bit of the walk. */
  lemma WalkStep(count: seq<nat>, symbols: seq<nat>, part: seq<bit>, bits: seq<bit>)
    requires Complete(count) && Open(count, part) && |symbols| == Index(count, |count|)
    requires bits != []
    ensures var next := part + [bits[0]];
            var l := |next|;
            && l < |count| && Value(next) >= First(count, l) && Open(count, [])
            && (if Value(next) - First(count, l) < count[l] then
                  && Index(count, l) + Value(next) - First(count, l) < |symbols|
                  && var s := symbols[Index(count, l) + Value(next) - First(count, l)];
                     var w := WalkFrom(count, symbols, [], bits[1..]);
                     WalkFrom(count, symbols, part, bits) ==
                     if s == EOS then Walk([], [], true) else w.(out := [s] + w.out)
                else
                  && Open(count, next)
                  && WalkFrom(count, symbols, part, bits) == WalkFrom(count, symbols, next, bits[1..]))
  {
    hide Value, First, Index, Pow2, Complete;
    NeverUnderflows(count, part, bits[0]);
    StaysOpen(count, part, bits[0]);
    OpenEmpty(count);
    CodesInTable(count, |part| + 1);
  }

  lemma CodesInTable(count: seq<nat>, l: nat)
    requires l < |count|
    ensures Index(count, l) + count[l] <= Index(count, |count|)
  {
    IndexMonotone(count, l + 1, |count|);
  }

  lemma CanonicalIsComplete(table: seq<Entry>, count: seq<nat>, symbols: seq<nat>)
    requires Canonical(table, count, symbols)
    ensures Complete(count) && |symbols| == Index(count, |count|)
  {
  }

  lemma StaysOpen(count: seq<nat>, part: seq<bit>, b: bit)
    requires Complete(count) && Open(count, part)
    ensures |part| + 1 < |count|
    ensures Value(part + [b]) - First(count, |part| + 1) >= count[|part| + 1] ==> Open(count, part + [b])
  {
    NeverUnderflows(count, part, b);
  }

  // ----- the walk reads every code -----

  /** A part of an open run of bits is open. */
  lemma OpenPrefix(count: seq<nat>, part: seq<bit>, b: bit)
    requires |part| + 1 < |count| && Value(part + [b]) >= First(count, |part| + 1)
    ensures Open(count, part)
  {
    ValueAppend(part, b);
    assert First(count, |part| + 1) == 2 * (First(count, |part|) + count[|part|]);
  }

  /** Walking an open run of bits finds no symbol in it. */
  lemma {:induction false} WalkOpen(count: seq<nat>, symbols: seq<nat>, part: seq<bit>, bits: seq<bit>)
    requires Complete(count) && Open(count, part) && |symbols| == Index(count, |count|)
    ensures Open(count, [])
    ensures WalkFrom(count, symbols, [], part + bits) == WalkFrom(count, symbols, part, bits)
    decreases |part|
  {
    OpenEmpty(count);
    if part == [] {
      assert part + bits == bits;
    } else {
      var n := |part| - 1;
      var front, b := part[..n], part[n];
      assert part == front + [b];
      OpenPrefix(count, front, b);
      WalkOpen(count, symbols, front, [b] + bits);
      assert front + ([b] + bits) == part + bits;
      assert ([b] + bits)[1..] == bits;
    }
  }

  /** The code of a symbol reads as that symbol. */
  lemma WalkSymbol(table: seq<Entry>, count: seq<nat>, symbols: seq<nat>, s: nat, bits: seq<bit>)
    requires Canonical(table, count, symbols) && s < |table|
    ensures Open(count, [])
    ensures var w := WalkFrom(count, symbols, [], bits);
            WalkFrom(count, symbols, [], EntryBits(table[s]) + bits) ==
            if s == EOS then Walk([], [], true) else w.(out := [s] + w.out)
  {
    hide WalkFrom;
    var e := table[s];
    assert InRange(table, count, s);
    var code := EntryBits(e);
    var n := e.length - 1;
    var front, b := code[..n], code[n];
    assert code == front + [b];
    RoomLeft(count, e.length);
    ValueOfBits(e.code, e.length);
    OpenPrefix(count, front, b);
    WalkOpen(count, symbols, front, [b] + bits);
    assert front + ([b] + bits) == code + bits;
    assert symbols[PositionOf(table, count, s)] == s;
    WalkLast(count, symbols, front, b, bits);
  }

  lemma WalkLast(count: seq<nat>, symbols: seq<nat>, front: seq<bit>, b: bit, bits: seq<bit>)
    requires Complete(count) && Open(count, front) && |symbols| == Index(count, |count|)
    requires |front| + 1 < |count|
    requires First(count, |front| + 1) <= Value(front + [b]) < First(count, |front| + 1) + count[|front| + 1]
    ensures Open(count, [])
    ensures Index(count, |front| + 1) + Value(front + [b]) - First(count, |front| + 1) < |symbols|
    ensures var s := symbols[Index(count, |front| + 1) + Value(front + [b]) - First(count, |front| + 1)];
            var w := WalkFrom(count, symbols, [], bits);
            WalkFrom(count, symbols, front, [b] + bits) ==
            if s == EOS then Walk([], [], true) else w.(out := [s] + w.out)
  {
    IndexMonotone(count, |front| + 2, |count|);
    assert ([b] + bits)[1..] == bits;
  }

  /** Any text without the end-of-string symbol, coded, reads back; then the walk goes on. */
  lemma {:induction false} WalkText(table: seq<Entry>, count: seq<nat>, symbols: seq<nat>, text: seq<nat>,
                                    bits: seq<bit>)
    requires Canonical(table, count, symbols)
    requires forall i :: 0 <= i < |text| ==> text[i] < |table| && text[i] != EOS
    ensures Open(count, [])
    ensures var w := WalkFrom(count, symbols, [], bits);
            WalkFrom(count, symbols, [], EncodeBits(table, text) + bits) == w.(out := text + w.out)
    decreases |text|
  {
    hide WalkFrom, Canonical, Open, Complete;
    CanonicalIsComplete(table, count, symbols);
    OpenEmpty(count);
    var w := WalkFrom(count, symbols, [], bits);
    if text == [] {
      assert EncodeBits(table, text) + bits == bits;
      assert [] + w.out == w.out;
    } else {
      var tail := EncodeBits(table, text[1..]) + bits;
      assert EncodeBits(table, text) + bits == EntryBits(table[text[0]]) + tail;
      WalkSymbol(table, count, symbols, text[0], tail);
      WalkText(table, count, symbols, text[1..], bits);
      assert [text[0]] + (text[1..] + w.out) == text + w.out;
    }
  }

  /** Fewer ones than the longest code has bits start no code but a longer one. */
  lemma OnesAreOpen(count: seq<nat>, pad: seq<bit>)
    requires Complete(count) && AllOnes(pad) && |pad| < Longest(count)
    ensures Open(count, pad)
  {
    OnesValue(pad);
    RoomLeft(count, |pad|);
  }

  // ----- decoding -----

  datatype HuffmanError = EosCoded | Padding

  ghost function DecodeOf(count: seq<nat>, symbols: seq<nat>, input: bytes): Result<seq<nat>, HuffmanError>
    requires Complete(count) && |symbols| == Index(count, |count|)
  {
    OpenEmpty(count);
    var w := WalkFrom(count, symbols, [], OctetBits(input));
    if w.eos then Err(EosCoded)
    else if |w.rest| > 7 || !AllOnes(w.rest) then Err(Padding)
    else Ok(w.out)
  }

  /** A text whose symbols are all in the table and none the end of string. */
  ghost predicate Plain(table: seq<Entry>, text: seq<nat>) {
    forall i :: 0 <= i < |text| ==> text[i] < |table| && text[i] != EOS
  }

  /** `input` is the coding of `text`, padded with `pad`. */
  ghost predicate Codes(table: seq<Entry>, input: bytes, text: seq<nat>, pad: seq<bit>) {
    Plain(table, text) && OctetBits(input) == EncodeBits(table, text) + pad
  }

  /** Decoding is exact, for any complete canonical code with a code of at least eight bits: an input
      decodes to a text if and only if it is the coding of the text padded with fewer than eight
      one-bits. */
  lemma DecodingIsExact(table: seq<Entry>, count: seq<nat>, symbols: seq<nat>, input: bytes, text: seq<nat>)
    requires Canonical(table, count, symbols) && Longest(count) >= 8
    ensures DecodeOf(count, symbols, input) == Ok(text) <==>
            exists pad :: |pad| < 8 && AllOnes(pad) && Codes(table, input, text, pad)
  {
    hide WalkFrom, Canonical, Complete, Open, EncodeBits, AllOnes;
    CanonicalIsComplete(table, count, symbols);
    OpenEmpty(count);
    var bits := OctetBits(input);
    var w := WalkFrom(count, symbols, [], bits);
    var tail := WalkIsSound(table, count, symbols, [], bits);
    assert [] + bits == bits;
    if DecodeOf(count, symbols, input) == Ok(text) {
      assert Codes(table, input, text, w.rest);
    }
    if pad :| |pad| < 8 && AllOnes(pad) && Codes(table, input, text, pad) {
      OnesAreOpen(count, pad);
      WalkText(table, count, symbols, text, pad);
      WalkPad(count, symbols, pad);
      assert text + [] == text;
    }
  }

  lemma WalkPad(count: seq<nat>, symbols: seq<nat>, pad: seq<bit>)
    requires Complete(count) && Open(count, pad) && |symbols| == Index(count, |count|)
    ensures Open(count, [])
    ensures WalkFrom(count, symbols, [], pad) == Walk([], pad, false)
  {
    WalkOpen(count, symbols, pad, []);
    assert pad + [] == pad;
  }

  /** The end-of-string error is exact too: it is reported if and only if, after some plain text, the
      code of that symbol is written out in full. */
  lemma EosIsExact(table: seq<Entry>, count: seq<nat>, symbols: seq<nat>, input: bytes)
    requires Canonical(table, count, symbols) && EOS < |table|
    ensures DecodeOf(count, symbols, input) == Err(EosCoded) <==>
            exists text, tail :: Codes(table, input, text, EntryBits(table[EOS]) + tail)
  {
    hide WalkFrom, Canonical, Complete, Open, EncodeBits, EntryBits, AllOnes;
    CanonicalIsComplete(table, count, symbols);
    OpenEmpty(count);
    var bits := OctetBits(input);
    var w := WalkFrom(count, symbols, [], bits);
    var rest := WalkIsSound(table, count, symbols, [], bits);
    assert [] + bits == bits;
    if w.eos {
      assert Codes(table, input, w.out, EntryBits(table[EOS]) + rest);
    }
    if text, tail :| Codes(table, input, text, EntryBits(table[EOS]) + tail) {
      WalkText(table, count, symbols, text, EntryBits(table[EOS]) + tail);
      WalkSymbol(table, count, symbols, EOS, tail);
    }
  }
}
