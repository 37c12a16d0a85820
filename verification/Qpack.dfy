/** Field sections without a dynamic table, sections 4.1 and 4.5 of RFC 9204
    (src/transport/qpack.rs). */
module Qpack {
  import opened Common
  import opened Buffers
  import opened StaticTable
  import opened PrefixedInt
  import opened Huffman
  import opened HpackCode

  datatype QpackError =
    | Truncated
    | Dynamic
    | UnknownIndex(index: nat)
    | Overflow
    | HuffmanCoded(reason: HuffmanError)

  function Widen(e: IntError): QpackError {
    match e
    case Truncated => QpackError.Truncated
    case Overflow => QpackError.Overflow
  }

  /** The bits of a field line's first octet above its integer. */
  const INDEXED: nat := 0xc0
  const NAME_REFERENCE: nat := 0x50
  const LITERAL: nat := 0x20

  // ----- strings -----

  function Octets(text: seq<nat>): bytes {
    seq(|text|, i requires 0 <= i < |text| => text[i] % 256)
  }

  /** The octets a string literal stands for. */
  ghost function TextOf(raw: bytes, huffman: bool): Result<bytes, HuffmanError> {
    if !huffman then Ok(raw)
    else
      match HuffmanOf(raw)
      case Ok(text) => Ok(Octets(text))
      case Err(e) => Err(e)
  }

  ghost function GetString(b: bytes, prefix: Prefix): (r: Result<(bytes, nat), QpackError>)
    ensures r.Ok? ==> 1 <= r.value.1 <= |b|
  {
    match GetInt(b, prefix)
    case Err(e) => Err(Widen(e))
    case Ok((length, used)) =>
      if used + length > |b| then Err(QpackError.Truncated)
      else
        match TextOf(b[used..used + length], b[0] / Size(prefix) % 2 == 1)
        case Ok(text) => Ok((text, used + length))
        case Err(e) => Err(HuffmanCoded(e))
  }

  method ReadString(b: bytes, prefix: Prefix) returns (r: Result<(bytes, nat), QpackError>)
    ensures r == GetString(b, prefix)
  {
    hide HuffmanOf;
    var i := ReadInt(b, prefix);
    match i
    case Err(e) => return Err(Widen(e));
    case Ok((length, used)) =>
      if used + length > |b| {
        return Err(QpackError.Truncated);
      }
      var raw := b[used..used + length];
      if b[0] / Size(prefix) % 2 == 1 {
        var text := DecodeString(raw);
        match text
        case Ok(t) => return Ok((Octets(t), used + length));
        case Err(e) => return Err(HuffmanCoded(e));
      }
      return Ok((raw, used + length));
  }

  // ----- reading a section -----

  /** One field line at the front, and how many octets it takes. */
  ghost function OneLine(b: bytes): (r: Result<(Field, nat), QpackError>)
    requires b != []
    ensures r.Ok? ==> 1 <= r.value.1 <= |b|
  {
    if b[0] / 128 == 1 then
      if b[0] / 64 % 2 == 0 then Err(Dynamic)
      else
        match GetInt(b, 6)
        case Err(e) => Err(Widen(e))
        case Ok((index, used)) =>
          if index >= ENTRIES then Err(UnknownIndex(index)) else Ok((StaticEntry(index), used))
    else if b[0] / 64 % 2 == 1 then
      if b[0] / 16 % 2 == 0 then Err(Dynamic)
      else
        match GetInt(b, 4)
        case Err(e) => Err(Widen(e))
        case Ok((index, used)) =>
          if index >= ENTRIES then Err(UnknownIndex(index))
          else
            match GetString(b[used..], 7)
            case Err(e) => Err(e)
            case Ok((value, more)) => Ok(((StaticEntry(index).0, value), used + more))
    else if b[0] / 32 % 2 == 1 then
      match GetString(b, 3)
      case Err(e) => Err(e)
      case Ok((name, used)) =>
        match GetString(b[used..], 7)
        case Err(e) => Err(e)
        case Ok((value, more)) => Ok(((name, value), used + more))
    else Err(Dynamic)
  }

  method ReadLine(b: bytes) returns (r: Result<(Field, nat), QpackError>)
    requires b != []
    ensures r == OneLine(b)
  {
    hide GetString, StaticEntry, GetInt;
    var first := b[0];
    if first / 128 == 1 || first / 64 % 2 == 1 {
      var indexed := first / 128 == 1;
      if (if indexed then first / 64 % 2 == 0 else first / 16 % 2 == 0) {
        return Err(Dynamic);
      }
      var i := ReadInt(b, if indexed then 6 else 4);
      match i
      case Err(e) => return Err(Widen(e));
      case Ok((index, used)) =>
        if index >= ENTRIES {
          return Err(UnknownIndex(index));
        }
        if indexed {
          return Ok((StaticEntry(index), used));
        }
        var value := ReadString(b[used..], 7);
        match value
        case Err(e) => return Err(e);
        case Ok((text, more)) => return Ok(((StaticEntry(index).0, text), used + more));
    } else if first / 32 % 2 == 1 {
      var name := ReadString(b, 3);
      match name
      case Err(e) => return Err(e);
      case Ok((text, used)) =>
        var value := ReadString(b[used..], 7);
        match value
        case Err(e) => return Err(e);
        case Ok((rest, more)) => return Ok(((text, rest), used + more));
    }
    return Err(Dynamic);
  }

  ghost function DecodeLines(b: bytes): Result<seq<Field>, QpackError>
    decreases |b|
  {
    if b == [] then Ok([])
    else
      match OneLine(b)
      case Err(e) => Err(e)
      case Ok((field, used)) =>
        match DecodeLines(b[used..])
        case Err(e) => Err(e)
        case Ok(more) => Ok([field] + more)
  }

  ghost function DecodeOf(section: bytes): Result<seq<Field>, QpackError> {
    match GetInt(section, 8)
    case Err(e) => Err(Widen(e))
    case Ok((required, used)) =>
      if required != 0 then Err(Dynamic)
      else
        match GetInt(section[used..], 7)
        case Err(e) => Err(Widen(e))
        case Ok((_, more)) => DecodeLines(section[used + more..])
  }

  /** Decode a static-only section. */
  method Decode(section: bytes) returns (r: Result<seq<Field>, QpackError>)
    ensures r == DecodeOf(section)
  {
    hide GetInt, OneLine;
    var required := ReadInt(section, 8);
    if required.Err? {
      return Err(Widen(required.error));
    }
    var rest := section[required.value.1..];
    if required.value.0 != 0 {
      return Err(Dynamic);
    }
    var base := ReadInt(rest, 7);
    if base.Err? {
      return Err(Widen(base.error));
    }
    rest := rest[base.value.1..];
    assert rest == section[required.value.1 + base.value.1..];
    var fields: seq<Field> := [];
    ghost var whole := DecodeLines(rest);
    AheadStart(whole);
    while rest != []
      invariant Ahead(whole, fields, DecodeLines(rest))
      decreases |rest|
    {
      var line := ReadLine(rest);
      if line.Err? {
        return Err(line.error);
      }
      AheadStep(whole, fields, line.value.0, DecodeLines(rest[line.value.1..]));
      fields := fields + [line.value.0];
      rest := rest[line.value.1..];
    }
    assert fields + [] == fields;
    return Ok(fields);
  }

  /** The fields read so far, and those ahead, make the whole. */
  ghost predicate Ahead(whole: Result<seq<Field>, QpackError>, fields: seq<Field>,
                        rest: Result<seq<Field>, QpackError>) {
    match rest
    case Err(e) => whole == Err(e)
    case Ok(more) => whole == Ok(fields + more)
  }

  lemma AheadStart(whole: Result<seq<Field>, QpackError>)
    ensures Ahead(whole, [], whole)
  {
    if whole.Ok? {
      assert [] + whole.value == whole.value;
    }
  }

  lemma AheadStep(whole: Result<seq<Field>, QpackError>, fields: seq<Field>, field: Field,
                  rest: Result<seq<Field>, QpackError>)
    requires Ahead(whole, fields, match rest case Err(e) => Err(e) case Ok(more) => Ok([field] + more))
    ensures Ahead(whole, fields + [field], rest)
  {
    if rest.Ok? {
      assert fields + ([field] + rest.value) == fields + [field] + rest.value;
    }
  }

  // ----- what a section may look like -----

  /** A string literal on the wire. */
  datatype StrRep = StrRep(length: IntRep, huffman: bool, raw: bytes)

  /** A field line on the wire; `never` is its N bit. */
  datatype Line =
    | Indexed(index: IntRep)
    | NameReference(never: bool, index: IntRep, value: StrRep)
    | LiteralName(never: bool, name: StrRep, value: StrRep)

  ghost predicate SoundString(s: StrRep, prefix: Prefix) {
    && SoundInt(s.length, prefix) && IntValue(s.length, prefix) == |s.raw|
    && TextOf(s.raw, s.huffman).Ok?
  }

  ghost predicate SoundLine(line: Line) {
    match line
    case Indexed(index) => SoundInt(index, 6) && IntValue(index, 6) < ENTRIES
    case NameReference(_, index, value) =>
      SoundInt(index, 4) && IntValue(index, 4) < ENTRIES && SoundString(value, 7)
    case LiteralName(_, name, value) => SoundString(name, 3) && SoundString(value, 7)
  }

  /** Room for a Huffman bit above the prefix. */
  predicate StringFlags(flags: nat, prefix: Prefix) {
    (prefix == 7 && flags == 0) || (prefix == 3 && (flags == LITERAL || flags == LITERAL + 16))
  }

  lemma RoomForHuffman(prefix: Prefix, flags: nat)
    requires StringFlags(flags, prefix)
    ensures IsFlags(flags, prefix) && IsFlags(flags + Size(prefix), prefix)
  {
    if prefix == 7 {
    } else {
    }
  }

  ghost function StringBytes(s: StrRep, prefix: Prefix, flags: nat): bytes
    requires SoundString(s, prefix) && StringFlags(flags, prefix)
  {
    RoomForHuffman(prefix, flags);
    IntBytes(s.length, prefix, flags + if s.huffman then Size(prefix) else 0) + s.raw
  }

  ghost function LineBytes(line: Line): bytes
    requires SoundLine(line)
  {
    match line
    case Indexed(index) => IntBytes(index, 6, INDEXED)
    case NameReference(never, index, value) =>
      IntBytes(index, 4, NAME_REFERENCE + if never then 0x20 else 0) + StringBytes(value, 7, 0)
    case LiteralName(never, name, value) =>
      StringBytes(name, 3, LITERAL + if never then 0x10 else 0) + StringBytes(value, 7, 0)
  }

  /** The field a line stands for. */
  ghost function LineField(line: Line): Field
    requires SoundLine(line)
  {
    match line
    case Indexed(index) => StaticEntry(IntValue(index, 6))
    case NameReference(_, index, value) =>
      (StaticEntry(IntValue(index, 4)).0, TextOf(value.raw, value.huffman).value)
    case LiteralName(_, name, value) =>
      (TextOf(name.raw, name.huffman).value, TextOf(value.raw, value.huffman).value)
  }

  ghost predicate SoundLines(lines: seq<Line>) {
    forall i :: 0 <= i < |lines| ==> SoundLine(lines[i])
  }

  ghost function LinesBytes(lines: seq<Line>): bytes
    requires SoundLines(lines)
  {
    if lines == [] then [] else LineBytes(lines[0]) + LinesBytes(lines[1..])
  }

  ghost function LinesFields(lines: seq<Line>): seq<Field>
    requires SoundLines(lines)
  {
    if lines == [] then [] else [LineField(lines[0])] + LinesFields(lines[1..])
  }

  /** A section: a required insert count of zero, any base with either sign, and lines. */
  datatype Section = Section(base: IntRep, negative: bool, lines: seq<Line>)

  ghost predicate SoundSection(s: Section) {
    SoundInt(s.base, 7) && SoundLines(s.lines)
  }

  ghost function SectionBytes(s: Section): bytes
    requires SoundSection(s)
  {
    IntBytes(Short(0), 8, 0) + IntBytes(s.base, 7, if s.negative then 128 else 0) + LinesBytes(s.lines)
  }

  // ----- decoding inverts every section -----

  lemma StringReadsBack(s: StrRep, prefix: Prefix, flags: nat, tail: bytes)
    requires SoundString(s, prefix) && StringFlags(flags, prefix)
    ensures var b := StringBytes(s, prefix, flags);
            && b != []
            && GetString(b + tail, prefix) == Ok((TextOf(s.raw, s.huffman).value, |b|))
            && (b + tail)[0] / Size(prefix) == flags / Size(prefix) + if s.huffman then 1 else 0
  {
    hide GetInt, IntBytes, TextOf;
    var above := flags + if s.huffman then Size(prefix) else 0;
    var head := IntBytes(s.length, prefix, above);
    var b := StringBytes(s, prefix, flags);
    assert b + tail == head + (s.raw + tail);
    ReadsBack(s.length, prefix, above, s.raw + tail);
    assert (b + tail)[|head|..|head| + |s.raw|] == s.raw;
  }

  lemma LineReadsBack(line: Line, tail: bytes)
    requires SoundLine(line)
    ensures var b := LineBytes(line);
            b != [] && OneLine(b + tail) == Ok((LineField(line), |b|))
  {
    hide GetInt, GetString, IntBytes, TextOf, StaticEntry, StringBytes, SoundString;
    match line
    case Indexed(index) => ReadsBack(index, 6, INDEXED, tail);
    case NameReference(_, _, _) => NameReferenceReadsBack(line, tail);
    case LiteralName(_, _, _) => LiteralNameReadsBack(line, tail);
  }

  lemma NameReferenceReadsBack(line: Line, tail: bytes)
    requires SoundLine(line) && line.NameReference?
    ensures var b := LineBytes(line);
            b != [] && OneLine(b + tail) == Ok((LineField(line), |b|))
  {
    hide GetInt, GetString, IntBytes, TextOf, StaticEntry, StringBytes, SoundString;
    var NameReference(never, index, value) := line;
    var flags := NAME_REFERENCE + if never then 0x20 else 0;
    var head := IntBytes(index, 4, flags);
    var rest := StringBytes(value, 7, 0) + tail;
    assert LineBytes(line) + tail == head + rest;
    ReadsBack(index, 4, flags, rest);
    assert (head + rest)[|head|..] == rest;
    StringReadsBack(value, 7, 0, tail);
  }

  lemma LiteralNameReadsBack(line: Line, tail: bytes)
    requires SoundLine(line) && line.LiteralName?
    ensures var b := LineBytes(line);
            b != [] && OneLine(b + tail) == Ok((LineField(line), |b|))
  {
    hide GetInt, GetString, IntBytes, TextOf, StaticEntry, StringBytes, SoundString;
    var LiteralName(never, name, value) := line;
    var flags := LITERAL + if never then 0x10 else 0;
    var head := StringBytes(name, 3, flags);
    var rest := StringBytes(value, 7, 0) + tail;
    assert LineBytes(line) + tail == head + rest;
    StringReadsBack(name, 3, flags, rest);
    assert (head + rest)[|head|..] == rest;
    StringReadsBack(value, 7, 0, tail);
  }

  lemma {:induction false} LinesReadBack(lines: seq<Line>)
    requires SoundLines(lines)
    ensures DecodeLines(LinesBytes(lines)) == Ok(LinesFields(lines))
  {
    hide OneLine, LineBytes, LineField;
    if lines != [] {
      var head, rest := LineBytes(lines[0]), LinesBytes(lines[1..]);
      LineReadsBack(lines[0], rest);
      assert (head + rest)[|head|..] == rest;
      LinesReadBack(lines[1..]);
    }
  }

  /** Any mix of indexed, name-reference and literal lines, N bit either way, integers in as many
      groups as are read, strings plain or Huffman-coded, reads back as the same fields. */
  lemma EverySectionReadsBack(s: Section)
    requires SoundSection(s)
    ensures DecodeOf(SectionBytes(s)) == Ok(LinesFields(s.lines))
  {
    hide GetInt, IntBytes, LinesBytes, LinesFields, DecodeLines;
    var b := SectionBytes(s);
    var sign := if s.negative then 128 else 0;
    var first, second, lines := IntBytes(Short(0), 8, 0), IntBytes(s.base, 7, sign), LinesBytes(s.lines);
    assert b == first + (second + lines);
    ReadsBack(Short(0), 8, 0, second + lines);
    assert b[|first|..] == second + lines;
    ReadsBack(s.base, 7, sign, lines);
    assert b[|first| + |second|..] == lines;
    LinesReadBack(s.lines);
  }

  // ----- and nothing else is accepted -----

  lemma StringWasWritten(b: bytes, prefix: Prefix, flags: nat) returns (s: StrRep)
    requires GetString(b, prefix).Ok? && StringFlags(flags, prefix)
    requires b[0] / Size(prefix) - b[0] / Size(prefix) % 2 == flags / Size(prefix)
    ensures SoundString(s, prefix)
    ensures GetString(b, prefix).value == (TextOf(s.raw, s.huffman).value, |StringBytes(s, prefix, flags)|)
    ensures b[..GetString(b, prefix).value.1] == StringBytes(s, prefix, flags)
  {
    hide TextOf, GetInt, IntBytes;
    var rep, above := WhatWasRead(b, prefix);
    var huffman := b[0] / Size(prefix) % 2 == 1;
    var (length, used) := GetInt(b, prefix).value;
    s := StrRep(rep, huffman, b[used..used + length]);
    assert above == flags + if huffman then Size(prefix) else 0;
    assert b[..used + length] == b[..used] + s.raw;
  }

  lemma LineWasWritten(b: bytes) returns (line: Line)
    requires b != [] && OneLine(b).Ok?
    ensures SoundLine(line)
    ensures OneLine(b).value == (LineField(line), |LineBytes(line)|)
    ensures b[..OneLine(b).value.1] == LineBytes(line)
  {
    hide TextOf, GetInt, GetString, IntBytes, StringBytes, StaticEntry, SoundString;
    if b[0] / 128 == 1 {
      var rep, flags := WhatWasRead(b, 6);
      FirstOctets(b[0]);
      line := Indexed(rep);
    } else if b[0] / 64 % 2 == 1 {
      line := NameReferenceWasWritten(b);
    } else {
      line := LiteralNameWasWritten(b);
    }
  }

  /** The flags of a line's first octet. */
  lemma FirstOctets(first: u8)
    ensures first / 128 == 1 && first / 64 % 2 == 1 ==> first - first % 64 == INDEXED
    ensures first / 128 == 0 && first / 64 % 2 == 1 && first / 16 % 2 == 1 ==>
              first - first % 16 == NAME_REFERENCE + if first / 32 % 2 == 1 then 0x20 else 0
    ensures first / 128 == 0 && first / 64 % 2 == 0 && first / 32 % 2 == 1 ==>
              first / 8 - first / 8 % 2 == (LITERAL + if first / 16 % 2 == 1 then 0x10 else 0) / 8
  {
  }

  lemma NameReferenceWasWritten(b: bytes) returns (line: Line)
    requires b != [] && OneLine(b).Ok? && b[0] / 128 == 0 && b[0] / 64 % 2 == 1
    ensures SoundLine(line)
    ensures OneLine(b).value == (LineField(line), |LineBytes(line)|)
    ensures b[..OneLine(b).value.1] == LineBytes(line)
  {
    hide TextOf, GetInt, GetString, IntBytes, StringBytes, StaticEntry, SoundString;
    FirstOctets(b[0]);
    var rep, flags := WhatWasRead(b, 4);
    var used := GetInt(b, 4).value.1;
    var value := StringWasWritten(b[used..], 7, 0);
    line := NameReference(b[0] / 32 % 2 == 1, rep, value);
    assert b[..OneLine(b).value.1] == b[..used] + b[used..][..GetString(b[used..], 7).value.1];
  }

  lemma LiteralNameWasWritten(b: bytes) returns (line: Line)
    requires b != [] && OneLine(b).Ok? && b[0] / 128 == 0 && b[0] / 64 % 2 == 0
    ensures SoundLine(line)
    ensures OneLine(b).value == (LineField(line), |LineBytes(line)|)
    ensures b[..OneLine(b).value.1] == LineBytes(line)
  {
    hide TextOf, GetInt, GetString, IntBytes, StringBytes, StaticEntry, SoundString;
    FirstOctets(b[0]);
    var never := b[0] / 16 % 2 == 1;
    var name := StringWasWritten(b, 3, LITERAL + if never then 0x10 else 0);
    var used := GetString(b, 3).value.1;
    var value := StringWasWritten(b[used..], 7, 0);
    line := LiteralName(never, name, value);
    assert b[..OneLine(b).value.1] == b[..used] + b[used..][..GetString(b[used..], 7).value.1];
  }

  lemma {:induction false} LinesWereWritten(b: bytes) returns (lines: seq<Line>)
    requires DecodeLines(b).Ok?
    ensures SoundLines(lines) && LinesBytes(lines) == b && LinesFields(lines) == DecodeLines(b).value
    decreases |b|
  {
    hide OneLine, LineBytes, LineField, SoundLine;
    lines := [];
    if b != [] {
      var line := LineWasWritten(b);
      var used := OneLine(b).value.1;
      var more := LinesWereWritten(b[used..]);
      lines := [line] + more;
      assert lines[1..] == more;
      assert b == b[..used] + b[used..];
    }
  }

  /** Decoding accepts exactly the static-only sections, and reads each as its fields. */
  lemma DecodingIsExact(b: bytes, fields: seq<Field>)
    ensures DecodeOf(b) == Ok(fields) <==>
            exists s :: SoundSection(s) && SectionBytes(s) == b && LinesFields(s.lines) == fields
  {
    if DecodeOf(b) == Ok(fields) {
      var s := SectionWasWritten(b);
      assert SoundSection(s) && SectionBytes(s) == b && LinesFields(s.lines) == fields;
    }
    if s :| SoundSection(s) && SectionBytes(s) == b && LinesFields(s.lines) == fields {
      EverySectionReadsBack(s);
    }
  }

  lemma SectionWasWritten(b: bytes) returns (s: Section)
    requires DecodeOf(b).Ok?
    ensures SoundSection(s) && SectionBytes(s) == b && LinesFields(s.lines) == DecodeOf(b).value
  {
    hide GetInt, LinesBytes, LinesFields, DecodeLines;
    var zero, flags := WhatWasRead(b, 8);
    var used := GetInt(b, 8).value.1;
    assert zero == Short(0) && flags == 0;
    var base, sign := WhatWasRead(b[used..], 7);
    var more := GetInt(b[used..], 7).value.1;
    var lines := LinesWereWritten(b[used + more..]);
    s := Section(base, sign == 128, lines);
    assert sign == if s.negative then 128 else 0;
    assert b == b[..used] + b[used..][..more] + b[used + more..];
  }

  // ----- writing a section -----

  /** The first entry from `i` on that is this name and value, or has this name. */
  function FindEntry(field: Field, whole: bool, i: nat): (r: Option<nat>)
    requires i <= ENTRIES
    ensures r.Some? ==> i <= r.value < ENTRIES
    ensures r.Some? ==> StaticEntry(r.value).0 == field.0 && (whole ==> StaticEntry(r.value) == field)
    decreases ENTRIES - i
  {
    if i == ENTRIES then None
    else if (if whole then StaticEntry(i) == field else StaticEntry(i).0 == field.0) then Some(i)
    else FindEntry(field, whole, i + 1)
  }

  method Find(field: Field, whole: bool) returns (r: Option<nat>)
    ensures r == FindEntry(field, whole, 0)
  {
    hide StaticEntry;
    var i := 0;
    while i < ENTRIES
      invariant 0 <= i <= ENTRIES
      invariant FindEntry(field, whole, i) == FindEntry(field, whole, 0)
    {
      if (if whole then StaticEntry(i) == field else StaticEntry(i).0 == field.0) {
        return Some(i);
      }
      i := i + 1;
    }
    return None;
  }

  /** A string literal without Huffman coding. */
  function PlainString(value: bytes): bytes {
    PutBytes(|value|, 7, 0) + value
  }

  function IndexBytes(index: nat): bytes {
    PutBytes(index, 6, INDEXED)
  }

  function ReferenceBytes(index: nat): bytes {
    PutBytes(index, 4, NAME_REFERENCE)
  }

  function NameBytes(name: bytes): bytes {
    PutBytes(|name|, 3, LITERAL) + name
  }

  /** The form the encoder picks: a whole entry, else an entry's name, else both spelled out. */
  function FieldBytes(field: Field): bytes {
    match FindEntry(field, true, 0)
    case Some(index) => IndexBytes(index)
    case None =>
      match FindEntry(field, false, 0)
      case Some(index) => ReferenceBytes(index) + PlainString(field.1)
      case None => NameBytes(field.0) + PlainString(field.1)
  }

  function FieldsBytes(fields: seq<Field>): bytes {
    if fields == [] then [] else FieldBytes(fields[0]) + FieldsBytes(fields[1..])
  }

  method Encode(fields: seq<Field>, out: Buffer)
    modifies out
    ensures out.data == old(out.data) + ([0, 0] + FieldsBytes(fields))
  {
    hide FindEntry, PutBytes, FieldBytes;
    out.Put([0, 0]);
    var i := 0;
    assert fields[0..] == fields;
    while i < |fields|
      invariant 0 <= i <= |fields|
      invariant out.data + FieldsBytes(fields[i..]) == old(out.data) + ([0, 0] + FieldsBytes(fields))
    {
      var field := fields[i];
      assert fields[i..][1..] == fields[i + 1..];
      ghost var before := out.data;
      EncodeField(field, out);
      assert before + (FieldBytes(field) + FieldsBytes(fields[i + 1..])) == out.data + FieldsBytes(fields[i + 1..]);
      i := i + 1;
    }
    assert FieldsBytes(fields[i..]) == [];
  }

  method PutString(out: Buffer, value: bytes)
    modifies out
    ensures out.data == old(out.data) + PlainString(value)
  {
    PutInt(out, 7, 0, |value|);
    out.Put(value);
  }

  lemma FlagsInUse()
    ensures IsFlags(INDEXED, 6) && IsFlags(NAME_REFERENCE, 4) && IsFlags(LITERAL, 3)
  {
  }

  method EncodeField(field: Field, out: Buffer)
    modifies out
    ensures out.data == old(out.data) + FieldBytes(field)
  {
    hide FindEntry, PutBytes, IsFlags;
    assert IsFlags(INDEXED, 6) && IsFlags(NAME_REFERENCE, 4) && IsFlags(LITERAL, 3) by {
      FlagsInUse();
    }
    var exact := Find(field, true);
    if exact.Some? {
      PutInt(out, 6, INDEXED, exact.value);
      return;
    }
    var named := Find(field, false);
    if named.Some? {
      PutInt(out, 4, NAME_REFERENCE, named.value);
      PutString(out, field.1);
    } else {
      PutInt(out, 3, LITERAL, |field.0|);
      out.Put(field.0);
      PutString(out, field.1);
    }
  }

  /** Lengths a field held in memory can have. */
  predicate InMemory(field: Field) {
    |field.0| < 0x8000_0000_0000_0000 && |field.1| < 0x8000_0000_0000_0000
  }

  lemma PutIsSound(value: nat, prefix: Prefix, flags: nat)
    requires IsFlags(flags, prefix) && value < 0x8000_0000_0000_0000
    ensures SoundInt(IntRepOf(value, prefix), prefix) && IntValue(IntRepOf(value, prefix), prefix) == value
    ensures IntBytes(IntRepOf(value, prefix), prefix, flags) == PutBytes(value, prefix, flags)
  {
    NinePowers();
    if value >= Size(prefix) - 1 {
      GroupsOfValue(value - (Size(prefix) - 1), 9);
    }
  }

  /** The line a field is written as. */
  lemma FieldIsLine(field: Field) returns (line: Line)
    requires InMemory(field)
    ensures SoundLine(line) && LineBytes(line) == FieldBytes(field) && LineField(line) == field
  {
    hide IntBytes, PutBytes, FindEntry, StaticEntry, SoundInt, IntValue, IntRepOf;
    var value := StrRep(IntRepOf(|field.1|, 7), false, field.1);
    PutIsSound(|field.1|, 7, 0);
    match FindEntry(field, true, 0)
    case Some(index) =>
      PutIsSound(index, 6, INDEXED);
      line := Indexed(IntRepOf(index, 6));
    case None =>
      match FindEntry(field, false, 0)
      case Some(index) =>
        PutIsSound(index, 4, NAME_REFERENCE);
        line := NameReference(false, IntRepOf(index, 4), value);
      case None =>
        PutIsSound(|field.0|, 3, LITERAL);
        line := LiteralName(false, StrRep(IntRepOf(|field.0|, 3), false, field.0), value);
  }

  lemma {:induction false} FieldsAreLines(fields: seq<Field>) returns (lines: seq<Line>)
    requires forall i :: 0 <= i < |fields| ==> InMemory(fields[i])
    ensures SoundLines(lines) && LinesBytes(lines) == FieldsBytes(fields) && LinesFields(lines) == fields
    decreases |fields|
  {
    hide FieldBytes, LineBytes, LineField, SoundLine;
    lines := [];
    if fields != [] {
      var line := FieldIsLine(fields[0]);
      var more := FieldsAreLines(fields[1..]);
      lines := [line] + more;
      assert lines[1..] == more;
    }
  }

  /** What this side writes reads back as the fields it was given. */
  lemma RoundTrip(fields: seq<Field>)
    requires forall i :: 0 <= i < |fields| ==> InMemory(fields[i])
    ensures DecodeOf([0, 0] + FieldsBytes(fields)) == Ok(fields)
  {
    hide LinesBytes, LinesFields, DecodeOf, FieldsBytes;
    var lines := FieldsAreLines(fields);
    var s := Section(Short(0), false, lines);
    EverySectionReadsBack(s);
    assert SectionBytes(s) == [0, 0] + LinesBytes(lines);
  }

  /** A line that refers to the dynamic table, told by its first octet, is refused as such, and no other. */
  lemma DynamicLinesAreRefused(b: bytes)
    requires b != []
    ensures OneLine(b) == Err(Dynamic) <==>
            128 <= b[0] < 192 || 64 <= b[0] < 80 || 96 <= b[0] < 112 || b[0] < 32
  {
    hide GetInt, GetString, StaticEntry;
    NeverDynamic(b);
    forall used | 0 <= used <= |b|
      ensures GetString(b[used..], 7) != Err(Dynamic)
    {
      NeverDynamic(b[used..]);
    }
  }

  lemma NeverDynamic(b: bytes)
    ensures forall prefix: Prefix :: GetString(b, prefix) != Err(Dynamic)
  {
  }

  // ----- short lines, octet by octet -----

  lemma ShortInt(b: bytes, prefix: Prefix)
    requires b != [] && b[0] % Size(prefix) < Size(prefix) - 1
    ensures GetInt(b, prefix) == Ok((b[0] % Size(prefix), 1))
  {
  }

  /** A plain string whose length is in its first octet. */
  lemma ShortString(first: u8, prefix: Prefix, text: bytes, tail: bytes)
    requires first % Size(prefix) == |text| < Size(prefix) - 1 && first / Size(prefix) % 2 == 0
    ensures GetString([first] + text + tail, prefix) == Ok((text, 1 + |text|))
  {
    hide GetInt, HuffmanOf;
    var b := [first] + text + tail;
    ShortInt(b, prefix);
    assert b[1..1 + |text|] == text;
  }

  /** One octet refers to an entry of the static table. */
  lemma AnIndexedLine(i: nat, tail: bytes)
    requires i < 63
    ensures OneLine([0xc0 + i] + tail) == Ok((StaticEntry(i), 1))
  {
    hide GetInt, GetString, StaticEntry;
    ShortInt([0xc0 + i] + tail, 6);
  }

  /** A name out of the static table, with a value written out; the bit of 32 says whether others may index
      it. */
  lemma ALineWithItsNameByIndex(i: nat, never: bool, value: bytes, tail: bytes)
    requires i < 15 && |value| < 127
    ensures var first: u8 := (if never then 0x70 else 0x50) + i;
            OneLine([first] + ([|value|] + value + tail)) == Ok(((StaticEntry(i).0, value), 2 + |value|))
  {
    hide GetInt, GetString, StaticEntry;
    var first: u8 := (if never then 0x70 else 0x50) + i;
    var rest := [|value|] + value + tail;
    var b := [first] + rest;
    ShortInt(b, 4);
    assert b[1..] == rest;
    ShortString(|value|, 7, value, tail);
  }

  /** A name and a value both written out; the bit of 16 says whether others may index them. */
  lemma ALineWrittenOut(name: bytes, never: bool, value: bytes, tail: bytes)
    requires |name| < 7 && |value| < 127
    ensures var first: u8 := (if never then 0x30 else 0x20) + |name|;
            OneLine([first] + name + ([|value|] + value + tail)) == Ok(((name, value), 2 + |name| + |value|))
  {
    hide GetInt, GetString, StaticEntry;
    var first: u8 := (if never then 0x30 else 0x20) + |name|;
    var rest := [|value|] + value + tail;
    var b := [first] + name + rest;
    ShortString(first, 3, name, rest);
    assert b[1 + |name|..] == rest;
    ShortString(|value|, 7, value, tail);
  }

  /** A section is its lines behind two octets of zero. */
  lemma ASectionIsItsLines(lines: bytes)
    ensures DecodeOf([0, 0] + lines) == DecodeLines(lines)
  {
    hide GetInt, DecodeLines;
    var b := [0, 0] + lines;
    ShortInt(b, 8);
    ShortInt(b[1..], 7);
    assert b[1..][1..] == lines && b[2..] == lines;
  }

  // ----- the encoder is frugal -----

  lemma {:induction false} GroupsValueBound(groups: seq<nat>)
    requires forall i :: 0 <= i < |groups| ==> groups[i] < 128
    ensures GroupsValue(groups) < Pow128(|groups|)
  {
    if groups != [] {
      GroupsValueBound(groups[1..]);
      assert Pow128(|groups|) == 128 * Pow128(|groups| - 1);
    }
  }

  /** The way `put_int` writes an integer is the shortest there is. */
  lemma PutIsShortest(rep: IntRep, prefix: Prefix, flags: nat, others: nat)
    requires SoundInt(rep, prefix) && IsFlags(flags, prefix) && IsFlags(others, prefix)
    ensures |PutBytes(IntValue(rep, prefix), prefix, flags)| <= |IntBytes(rep, prefix, others)|
  {
    hide Size, IsFlags, Pow128;
    match rep
    case Short(value) =>
    case Long(groups) =>
      GroupsValueBound(groups);
      GroupsOfValue(GroupsValue(groups), |groups|);
  }

  lemma IndexLengths(i: nat)
    requires i < ENTRIES
    ensures |IndexBytes(i)| == if i < 63 then 1 else 2
    ensures |ReferenceBytes(i)| == if i < 15 then 1 else 2
  {
    if i >= 63 {
      FirstGroup(i - 63);
    }
    if i >= 15 {
      FirstGroup(i - 15);
    }
  }

  lemma {:induction false} FindIsFirst(field: Field, whole: bool, i: nat, j: nat)
    requires i <= j < ENTRIES
    requires StaticEntry(j).0 == field.0 && (whole ==> StaticEntry(j) == field)
    ensures FindEntry(field, whole, i).Some? && FindEntry(field, whole, i).value <= j
    decreases j - i
  {
    hide StaticEntry;
    if i < j {
      FindIsFirst(field, whole, i + 1, j);
    }
  }

  lemma EntriesAreNamed(i: nat)
    requires i < ENTRIES
    ensures StaticEntry(i).0 != []
  {
    hide EntryText;
  }

  /** A line without Huffman coding. */
  predicate Plain(line: Line) {
    match line
    case Indexed(_) => true
    case NameReference(_, _, value) => !value.huffman
    case LiteralName(_, name, value) => !name.huffman && !value.huffman
  }

  lemma PlainIsShortest(s: StrRep, prefix: Prefix, flags: nat)
    requires SoundString(s, prefix) && StringFlags(flags, prefix) && !s.huffman
    ensures |StringBytes(s, prefix, flags)| >= 1 + |s.raw|
    ensures prefix == 7 ==> |PlainString(s.raw)| <= |StringBytes(s, prefix, flags)|
    ensures prefix == 3 ==> |NameBytes(s.raw)| <= |StringBytes(s, prefix, flags)|
  {
    hide PutBytes, IntBytes, IsFlags;
    FlagsInUse();
    RoomForHuffman(prefix, flags);
    if prefix == 7 {
      PutIsShortest(s.length, 7, 0, flags);
    } else {
      PutIsShortest(s.length, 3, LITERAL, flags);
    }
  }

  /** The encoder writes every field in the smallest form there is without Huffman coding: no other line that
      says the same is shorter, whatever it refers to and however its integers are written. */
  lemma TheSmallestFormIsWritten(line: Line)
    requires SoundLine(line) && Plain(line)
    ensures |FieldBytes(LineField(line))| <= |LineBytes(line)|
  {
    hide PutBytes, IntBytes, IntValue, StringBytes, SoundString, SoundInt, IsFlags, StaticEntry, FindEntry;
    hide PlainString, NameBytes, IndexBytes, ReferenceBytes;
    var field := LineField(line);
    match line
    case Indexed(index) =>
      IndexedIsShortest(index, field);
    case NameReference(never, index, value) =>
      PlainIsShortest(value, 7, 0);
      ReferenceIsShortest(index, never, field);
    case LiteralName(never, name, value) =>
      PlainIsShortest(value, 7, 0);
      PlainIsShortest(name, 3, LITERAL + if never then 0x10 else 0);
      LiteralIsShortest(field);
  }

  lemma IndexedIsShortest(index: IntRep, field: Field)
    requires SoundInt(index, 6) && IntValue(index, 6) < ENTRIES && StaticEntry(IntValue(index, 6)) == field
    ensures |FieldBytes(field)| <= |IntBytes(index, 6, INDEXED)|
  {
    hide PutBytes, IntBytes, IntValue, SoundInt, IsFlags, StaticEntry, FindEntry;
    FlagsInUse();
    var i := IntValue(index, 6);
    PutIsShortest(index, 6, INDEXED, INDEXED);
    IndexLengths(i);
    FindIsFirst(field, true, 0, i);
    IndexLengths(FindEntry(field, true, 0).value);
  }

  lemma ReferenceIsShortest(index: IntRep, never: bool, field: Field)
    requires SoundInt(index, 4) && IntValue(index, 4) < ENTRIES && StaticEntry(IntValue(index, 4)).0 == field.0
    ensures var flags := NAME_REFERENCE + if never then 0x20 else 0;
            && IsFlags(flags, 4)
            && |FieldBytes(field)| <= |IntBytes(index, 4, flags)| + |PlainString(field.1)|
  {
    hide PutBytes, IntBytes, IntValue, SoundInt, StaticEntry, FindEntry;
    var i := IntValue(index, 4);
    PutIsShortest(index, 4, NAME_REFERENCE, NAME_REFERENCE + if never then 0x20 else 0);
    IndexLengths(i);
    PutNeverEmpty(|field.1|);
    FindIsFirst(field, false, 0, i);
    IndexLengths(FindEntry(field, false, 0).value);
    if FindEntry(field, true, 0).Some? {
      IndexLengths(FindEntry(field, true, 0).value);
    }
  }

  lemma LiteralIsShortest(field: Field)
    ensures |FieldBytes(field)| <= |NameBytes(field.0)| + |PlainString(field.1)|
  {
    hide PutBytes, StaticEntry, FindEntry;
    PutNeverEmpty(|field.1|);
    PutNeverEmpty(|field.0|);
    if FindEntry(field, true, 0).Some? {
      IndexLengths(FindEntry(field, true, 0).value);
    }
    if FindEntry(field, false, 0).Some? {
      IndexLengths(FindEntry(field, false, 0).value);
      EntriesAreNamed(FindEntry(field, false, 0).value);
    }
  }

  lemma PutNeverEmpty(value: nat)
    ensures |PutBytes(value, 7, 0)| >= 1
    ensures IsFlags(LITERAL, 3) && |PutBytes(value, 3, LITERAL)| >= 1
  {
  }

  /** A field takes one octet exactly when it is one of the first sixty-three entries of the static table. */
  lemma WhenAFieldIsOneOctet(field: Field)
    ensures |FieldBytes(field)| == 1 <==> exists i :: 0 <= i < 63 && StaticEntry(i) == field
  {
    hide PutBytes, StaticEntry, FindEntry;
    PutNeverEmpty(|field.1|);
    PutNeverEmpty(|field.0|);
    match FindEntry(field, true, 0)
    case Some(index) =>
      IndexLengths(index);
      forall i: nat | i < 63 && StaticEntry(i) == field
        ensures index < 63
      {
        FindIsFirst(field, true, 0, i);
      }
    case None =>
      forall i: nat | i < 63
        ensures StaticEntry(i) != field
      {
        if StaticEntry(i) == field {
          FindIsFirst(field, true, 0, i);
        }
      }
      if FindEntry(field, false, 0).Some? {
        IndexLengths(FindEntry(field, false, 0).value);
      }
  }

  /** An entry of the static table can take two octets: `user-agent` with nothing in it is entry 95. */
  lemma AWholeEntryCanTakeTwo()
    ensures StaticEntry(95) == (Ascii("user-agent"), []) && |FieldBytes(StaticEntry(95))| == 2
  {
    hide FindEntry;
    hide StaticEntry, Ascii;
    TheAgentEntry();
    var field := StaticEntry(95);
    forall i: nat | i < 63
      ensures StaticEntry(i) != field
    {
      NoEarlierAgent(i);
    }
    FindIsFirst(field, true, 0, 95);
    IndexLengths(FindEntry(field, true, 0).value);
  }

  lemma TheAgentEntry()
    ensures StaticEntry(95) == (Ascii("user-agent"), [])
    ensures StaticEntry(95).0[0] == 'u' as int
  {
    assert EntryText(95) == ("user-agent", "");
    assert Ascii("") == [];
  }

  lemma NoEarlierAgent(i: nat)
    requires i < 63
    ensures StaticEntry(i) != StaticEntry(95)
  {
    hide EntryText;
    assert StaticEntry(i).0[0] == EntryText(i).0[0] as int % 256;
    TheAgentEntry();
  }
}
