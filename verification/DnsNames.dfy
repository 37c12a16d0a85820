/** Names in DNS messages, section 4.1.4 of RFC 1035 (src/dns/message.rs). */
module DnsNames {
  import opened Common

  const MAX_LABEL: nat := 63
  const MAX_NAME: nat := 255
  const MAX_JUMPS: nat := 16
  const DOT: u8 := 46

  datatype MessageError =
    | TruncatedName
    | TruncatedPointer
    | TruncatedLabel
    | TruncatedHeader
    | TruncatedQuestionType
    | TruncatedQuestionClass
    | TruncatedRecordType
    | TruncatedRecordClass
    | TruncatedRecordTtl
    | TruncatedRecord
    | TruncatedRecordData
    | NoQuestion
    | LabelTooLong(length: nat)
    | NameTooLong
    | PointerOutOfRange
    | PointerLoop

  function Lower(b: bytes): (r: bytes)
    ensures |r| == |b|
  {
    seq(|b|, i requires 0 <= i < |b| => if 65 <= b[i] <= 90 then b[i] + 32 else b[i])
  }

  function Target(m: bytes, at: nat): nat
    requires at + 2 <= |m|
  {
    var high: nat := m[at] % 64;
    high * 256 + m[at + 1]
  }

  /** A name so far, and one label more. */
  function Join(name: bytes, part: bytes): bytes {
    if name == [] then part else name + [DOT] + part
  }

  // ----- the reader -----

  /** The reader's loop: where it is, what it has taken, and where the name ended for its caller. */
  function ReadFrom(m: bytes, at: nat, jumps: nat, seen: nat, name: bytes, after: Option<nat>)
    : Result<(bytes, nat), MessageError>
    requires jumps <= MAX_JUMPS
    decreases MAX_JUMPS - jumps, |m| - at
  {
    if at >= |m| then Err(TruncatedName)
    else if m[at] >= 192 then
      if at + 2 > |m| then Err(TruncatedPointer)
      else if Target(m, at) >= |m| then Err(PointerOutOfRange)
      else if Target(m, at) >= at then Err(PointerLoop)
      else if jumps == MAX_JUMPS then Err(PointerLoop)
      else ReadFrom(m, Target(m, at), jumps + 1, seen, name, Some(if after.Some? then after.value else at + 2))
    else if m[at] == 0 then Ok((name, if after.Some? then after.value else at + 1))
    else if m[at] > MAX_LABEL then Err(LabelTooLong(m[at]))
    else if seen + m[at] + 1 > MAX_NAME then Err(NameTooLong)
    else
      var to := at + 1 + m[at];
      if to > |m| then Err(TruncatedLabel)
      else ReadFrom(m, to, jumps, seen + m[at] + 1, Join(name, Lower(m[at + 1..to])), after)
  }

  function NameAt(m: bytes, start: nat): Result<(bytes, nat), MessageError> {
    ReadFrom(m, start, 0, 0, [], None)
  }

  method ReadName(m: bytes, start: nat) returns (r: Result<(bytes, nat), MessageError>)
    ensures r == NameAt(m, start)
  {
    hide Lower;
    hide Join;
    hide Target;
    var name: bytes := [];
    var at: nat, jumps: nat, seen: nat := start, 0, 0;
    var after: Option<nat> := None;
    while true
      invariant jumps <= MAX_JUMPS
      invariant ReadFrom(m, at, jumps, seen, name, after) == NameAt(m, start)
      decreases MAX_JUMPS - jumps, |m| - at
    {
      if at >= |m| {
        return Err(TruncatedName);
      }
      var length: nat := m[at];
      if length >= 192 {
        if at + 2 > |m| {
          return Err(TruncatedPointer);
        }
        var target := Target(m, at);
        if target >= |m| {
          return Err(PointerOutOfRange);
        }
        if target >= at {
          return Err(PointerLoop);
        }
        if jumps + 1 > MAX_JUMPS {
          return Err(PointerLoop);
        }
        jumps := jumps + 1;
        if after.None? {
          after := Some(at + 2);
        }
        at := target;
        continue;
      }
      if length == 0 {
        return Ok((name, if after.Some? then after.value else at + 1));
      }
      if length > MAX_LABEL {
        return Err(LabelTooLong(length));
      }
      seen := seen + length + 1;
      if seen > MAX_NAME {
        return Err(NameTooLong);
      }
      var from := at + 1;
      var to := from + length;
      if to > |m| {
        return Err(TruncatedLabel);
      }
      name := Join(name, Lower(m[from..to]));
      at := to;
    }
  }

  // ----- what a name is -----

  /** The octets of the label at `at`, letters in lower case. */
  ghost function LabelAt(m: bytes, at: nat): (r: bytes)
    requires at < |m| && at + 1 + m[at] <= |m|
    ensures |r| == m[at]
  {
    seq(m[at], k requires 0 <= k < m[at] =>
      var c := m[at + 1 + k];
      if 'A' as int <= c <= 'Z' as int then c + ('a' as int - 'A' as int) else c)
  }

  /** What the pointer at `at` points to: its lower fourteen bits. */
  ghost function PointsTo(m: bytes, at: nat): nat
    requires at + 2 <= |m| && m[at] >= 192
  {
    var high: nat := m[at] - 192;
    high * 256 + m[at + 1]
  }

  lemma LabelIsLower(m: bytes, at: nat)
    requires at < |m| && at + 1 + m[at] <= |m|
    ensures Lower(m[at + 1..at + 1 + m[at]]) == LabelAt(m, at)
  {
  }

  lemma SameLabel(m: bytes, c: bytes, at: nat)
    requires at < |m| && at < |c| && m[at] == c[at] && at + 1 + m[at] <= |m| && at + 1 + m[at] <= |c|
    requires m[at + 1..at + 1 + m[at]] == c[at + 1..at + 1 + m[at]]
    ensures LabelAt(m, at) == LabelAt(c, at)
  {
    forall k | 0 <= k < m[at]
      ensures LabelAt(m, at)[k] == LabelAt(c, at)[k]
    {
      assert m[at + 1..at + 1 + m[at]][k] == c[at + 1..at + 1 + m[at]][k];
    }
  }

  lemma PointsToTarget(m: bytes, at: nat)
    requires at + 2 <= |m| && m[at] >= 192
    ensures Target(m, at) == PointsTo(m, at)
  {
  }

  /** How a name is spelled: labels and pointers, to an end. */
  datatype Spelling = End | Label(rest: Spelling) | Jump(rest: Spelling)

  ghost predicate Spells(m: bytes, at: nat, sp: Spelling)
    decreases sp
  {
    match sp
    case End => at < |m| && m[at] == 0
    case Label(rest) =>
      at < |m| && 1 <= m[at] <= MAX_LABEL && at + 1 + m[at] <= |m| && Spells(m, at + 1 + m[at], rest)
    case Jump(rest) =>
      at + 2 <= |m| && m[at] >= 192 && PointsTo(m, at) < at && Spells(m, PointsTo(m, at), rest)
  }

  /** The labels of a spelling, in lower case. */
  ghost function Labels(m: bytes, at: nat, sp: Spelling): seq<bytes>
    requires Spells(m, at, sp)
    decreases sp
  {
    match sp
    case End => []
    case Label(rest) => [LabelAt(m, at)] + Labels(m, at + 1 + m[at], rest)
    case Jump(rest) => Labels(m, PointsTo(m, at), rest)
  }

  function Jumps(sp: Spelling): nat {
    match sp
    case End => 0
    case Label(rest) => Jumps(rest)
    case Jump(rest) => 1 + Jumps(rest)
  }

  /** The octets labels take with their lengths. */
  function Taken(labels: seq<bytes>): nat {
    if labels == [] then 0 else |labels[0]| + 1 + Taken(labels[1..])
  }

  /** Where the name ends as it is written at `at`: after its first pointer, if it has one. */
  ghost function EndOf(m: bytes, at: nat, sp: Spelling): nat
    requires Spells(m, at, sp)
    decreases sp
  {
    match sp
    case End => at + 1
    case Label(rest) => EndOf(m, at + 1 + m[at], rest)
    case Jump(_) => at + 2
  }

  /** Labels, joined by dots onto a name. */
  function Joined(name: bytes, labels: seq<bytes>): bytes
    decreases |labels|
  {
    if labels == [] then name else Joined(Join(name, labels[0]), labels[1..])
  }

  /** A spelling within the caps is read as its labels. */
  lemma {:induction false} SpellingIsRead(m: bytes, at: nat, sp: Spelling, jumps: nat, seen: nat,
                                          name: bytes, after: Option<nat>)
    requires Spells(m, at, sp) && jumps + Jumps(sp) <= MAX_JUMPS
    requires seen + Taken(Labels(m, at, sp)) <= MAX_NAME
    ensures ReadFrom(m, at, jumps, seen, name, after) ==
            Ok((Joined(name, Labels(m, at, sp)), if after.Some? then after.value else EndOf(m, at, sp)))
    decreases sp
  {
    hide Lower, LabelAt;
    hide Join;
    hide Target;
    match sp
    case End =>
    case Label(rest) =>
      var part := LabelAt(m, at);
      LabelIsLower(m, at);
      var more := Labels(m, at + 1 + m[at], rest);
      assert ([part] + more)[1..] == more;
      SpellingIsRead(m, at + 1 + m[at], rest, jumps, seen + m[at] + 1, Join(name, part), after);
    case Jump(rest) =>
      PointsToTarget(m, at);
      SpellingIsRead(m, PointsTo(m, at), rest, jumps + 1, seen, name,
                     Some(if after.Some? then after.value else at + 2));
  }

  /** Whatever is read was spelled, within the caps. */
  lemma {:induction false} ReadingWasSpelled(m: bytes, at: nat, jumps: nat, seen: nat, name: bytes, after: Option<nat>)
    returns (sp: Spelling)
    requires jumps <= MAX_JUMPS && seen <= MAX_NAME && ReadFrom(m, at, jumps, seen, name, after).Ok?
    ensures Spells(m, at, sp) && jumps + Jumps(sp) <= MAX_JUMPS
    ensures seen + Taken(Labels(m, at, sp)) <= MAX_NAME
    decreases MAX_JUMPS - jumps, |m| - at
  {
    hide Lower, LabelAt, Join, Target, PointsTo;
    if m[at] >= 192 {
      PointsToTarget(m, at);
      var rest := ReadingWasSpelled(m, PointsTo(m, at), jumps + 1, seen, name,
                                    Some(if after.Some? then after.value else at + 2));
      sp := Jump(rest);
    } else if m[at] == 0 {
      sp := End;
    } else {
      var to := at + 1 + m[at];
      var part := Lower(m[at + 1..to]);
      LabelIsLower(m, at);
      var rest := ReadingWasSpelled(m, to, jumps, seen + m[at] + 1, Join(name, part), after);
      sp := Label(rest);
      var more := Labels(m, to, rest);
      assert ([part] + more)[1..] == more;
    }
  }

  /** A name and its end, as a spelling within the caps says them. */
  ghost predicate Reads(m: bytes, start: nat, sp: Spelling, name: bytes, after: nat) {
    && Spells(m, start, sp) && Jumps(sp) <= MAX_JUMPS && Taken(Labels(m, start, sp)) <= MAX_NAME
    && name == Joined([], Labels(m, start, sp)) && after == EndOf(m, start, sp)
  }

  /** Reading agrees with the declarative reading of labels and pointers, for every message and
      offset. */
  lemma ReadingIsExact(m: bytes, start: nat, name: bytes, after: nat)
    ensures NameAt(m, start) == Ok((name, after)) <==> exists sp :: Reads(m, start, sp, name, after)
  {
    if NameAt(m, start).Ok? {
      var sp := ReadingWasSpelled(m, start, 0, 0, [], None);
      SpellingIsRead(m, start, sp, 0, 0, [], None);
      var (n, a) := NameAt(m, start).value;
      assert Reads(m, start, sp, n, a);
    }
    if sp :| Reads(m, start, sp, name, after) {
      SpellingIsRead(m, start, sp, 0, 0, [], None);
    }
  }

  // ----- bounds -----

  lemma {:induction false} JoinedLength(name: bytes, labels: seq<bytes>)
    requires forall i :: 0 <= i < |labels| ==> labels[i] != []
    ensures |Joined(name, labels)| ==
            if name == [] && labels != [] then Taken(labels) - 1 else |name| + Taken(labels)
    decreases |labels|
  {
    if labels != [] {
      JoinedLength(Join(name, labels[0]), labels[1..]);
    }
  }

  lemma {:induction false} SpellingBounds(m: bytes, at: nat, sp: Spelling)
    requires Spells(m, at, sp)
    ensures forall i :: 0 <= i < |Labels(m, at, sp)| ==> Labels(m, at, sp)[i] != []
    ensures at < EndOf(m, at, sp) <= |m|
    decreases sp
  {
    match sp
    case End =>
    case Label(rest) => SpellingBounds(m, at + 1 + m[at], rest);
    case Jump(rest) => SpellingBounds(m, PointsTo(m, at), rest);
  }

  /** A name read is at most 254 characters, and ends past where it starts and within the message. */
  lemma NamesAreBounded(m: bytes, start: nat)
    ensures NameAt(m, start).Ok? ==>
              |NameAt(m, start).value.0| <= 254 && start < NameAt(m, start).value.1 <= |m|
  {
    if NameAt(m, start).Ok? {
      var (name, after) := NameAt(m, start).value;
      ReadingIsExact(m, start, name, after);
      var sp :| Reads(m, start, sp, name, after);
      SpellingBounds(m, start, sp);
      JoinedLength([], Labels(m, start, sp));
    }
  }

  // ----- how a name is written out -----

  /** Labels with dots between them. */
  function Dotted(labels: seq<bytes>): bytes {
    if labels == [] then [] else if |labels| == 1 then labels[0] else labels[0] + ['.' as int] + Dotted(labels[1..])
  }

  lemma {:induction false} JoinedIsDotted(name: bytes, labels: seq<bytes>)
    requires forall i :: 0 <= i < |labels| ==> labels[i] != []
    ensures Joined(name, labels) ==
            if name == [] then Dotted(labels) else if labels == [] then name else name + ['.' as int] + Dotted(labels)
    decreases |labels|
  {
    if labels != [] {
      JoinedIsDotted(Join(name, labels[0]), labels[1..]);
      if |labels| > 1 {
        var rest := Dotted(labels[1..]);
        assert name + [DOT] + labels[0] + [DOT] + rest == name + [DOT] + (labels[0] + [DOT] + rest);
      }
    }
  }

  /** A name that is read is the labels of its spelling, in lower case, with dots between them. */
  lemma NamesAreDotted(m: bytes, start: nat, sp: Spelling)
    requires NameAt(m, start).Ok? && Spells(m, start, sp)
    ensures NameAt(m, start).value.0 == Dotted(Labels(m, start, sp))
  {
    var (name, after) := NameAt(m, start).value;
    ReadingIsExact(m, start, name, after);
    var known :| Reads(m, start, known, name, after);
    SpellingIsUnique(m, start, known, sp);
    SpellingBounds(m, start, sp);
    JoinedIsDotted([], Labels(m, start, sp));
  }

  // ----- compression -----

  /** Whole labels and nothing else lie from `at` to `to`. */
  ghost predicate Walks(m: bytes, at: nat, to: nat)
    requires to <= |m|
    decreases |m| - at
  {
    at == to || (at < to && 1 <= m[at] <= MAX_LABEL && Walks(m, at + 1 + m[at], to))
  }

  /** A name has one spelling. */
  lemma {:induction false} SpellingIsUnique(m: bytes, at: nat, one: Spelling, other: Spelling)
    requires Spells(m, at, one) && Spells(m, at, other)
    ensures one == other
    decreases one
  {
    match one
    case End =>
    case Label(rest) => SpellingIsUnique(m, at + 1 + m[at], rest, other.rest);
    case Jump(rest) => SpellingIsUnique(m, PointsTo(m, at), rest, other.rest);
  }

  /** A spelling in one message, with what stands at `p` replaced by a pointer to `q`. */
  lemma {:induction false} Compressed(m: bytes, c: bytes, at: nat, p: nat, q: nat, sp: Spelling,
                                      suffix: Spelling, earlier: Spelling) returns (short: Spelling)
    requires p <= |m| && Walks(m, at, p) && Spells(m, at, sp)
    requires p + 2 <= |c| && at <= p && m[at..p] == c[at..p]
    requires c[p] >= 192 && PointsTo(c, p) == q < p
    requires Spells(m, p, suffix) && Spells(c, q, earlier) && Labels(m, p, suffix) == Labels(c, q, earlier)
    ensures Spells(c, at, short) && Labels(c, at, short) == Labels(m, at, sp)
    ensures EndOf(c, at, short) == p + 2 && Jumps(short) == 1 + Jumps(earlier)
    decreases p - at
  {
    hide LabelAt;
    if at == p {
      SpellingIsUnique(m, p, sp, suffix);
      short := Jump(earlier);
    } else {
      var to := at + 1 + m[at];
      WalksForward(m, to, p);
      forall i | at <= i < p
        ensures m[i] == c[i]
      {
        assert m[at..p][i - at] == c[at..p][i - at];
      }
      assert m[at + 1..to] == c[at + 1..to] && m[to..p] == c[to..p];
      SameLabel(m, c, at);
      var rest := Compressed(m, c, to, p, q, sp.rest, suffix, earlier);
      short := Label(rest);
    }
  }

  lemma {:induction false} WalksForward(m: bytes, at: nat, to: nat)
    requires to <= |m| && Walks(m, at, to)
    ensures at <= to
  {
  }

  /** A spelling past the cap on jumps is refused for that. */
  lemma {:induction false} SpellingIsRefused(m: bytes, at: nat, sp: Spelling, jumps: nat, seen: nat,
                                             name: bytes, after: Option<nat>)
    requires Spells(m, at, sp) && jumps <= MAX_JUMPS < jumps + Jumps(sp)
    requires seen + Taken(Labels(m, at, sp)) <= MAX_NAME
    ensures ReadFrom(m, at, jumps, seen, name, after) == Err(PointerLoop)
    decreases sp
  {
    hide Lower, LabelAt, Join, Target;
    match sp
    case End =>
    case Label(rest) =>
      var part := LabelAt(m, at);
      LabelIsLower(m, at);
      var more := Labels(m, at + 1 + m[at], rest);
      assert ([part] + more)[1..] == more;
      SpellingIsRefused(m, at + 1 + m[at], rest, jumps, seen + m[at] + 1, Join(name, part), after);
    case Jump(rest) =>
      PointsToTarget(m, at);
      if jumps < MAX_JUMPS {
        SpellingIsRefused(m, PointsTo(m, at), rest, jumps + 1, seen, name,
                          Some(if after.Some? then after.value else at + 2));
      }
  }

  /** Replacing any suffix of a name by a pointer to an earlier spelling that reads the same gives the
      same name, and ends two octets after where the pointer stands, exactly when the pointer stays
      within the cap on jumps; one too many is refused. */
  lemma CompressionKeepsTheName(m: bytes, c: bytes, start: nat, p: nat, q: nat, suffix: Spelling, earlier: Spelling)
    requires NameAt(m, start).Ok?
    requires start <= p <= |m| && Walks(m, start, p) && Spells(m, p, suffix)
    requires p + 2 <= |c| && m[start..p] == c[start..p] && c[p] >= 192 && PointsTo(c, p) == q < p
    requires Spells(c, q, earlier) && Labels(c, q, earlier) == Labels(m, p, suffix)
    ensures NameAt(c, start) == if Jumps(earlier) < MAX_JUMPS then Ok((NameAt(m, start).value.0, p + 2))
                                else Err(PointerLoop)
  {
    hide ReadFrom, Labels, EndOf, Joined, Walks, Lower;
    var (name, after) := NameAt(m, start).value;
    ReadingIsExact(m, start, name, after);
    var sp :| Reads(m, start, sp, name, after);
    var short := Compressed(m, c, start, p, q, sp, suffix, earlier);
    if Jumps(earlier) < MAX_JUMPS {
      assert Reads(c, start, short, name, p + 2);
      ReadingIsExact(c, start, name, p + 2);
    } else {
      SpellingIsRefused(c, start, short, 0, 0, [], None);
    }
  }
}
