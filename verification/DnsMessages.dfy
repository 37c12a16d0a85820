/** Questions and answers in DNS messages, section 4.1 of RFC 1035 (src/dns/message.rs). */
module DnsMessages {
  import opened Common
  import opened Varint
  import opened Addresses
  import opened DnsNames

  const HEADER_LEN: nat := 12
  const TYPE_A: nat := 1
  const TYPE_AAAA: nat := 28
  const CLASS_IN: nat := 1

  datatype Query = Query(id: nat, name: bytes, qtype: nat, qclass: nat)

  /** An address out of a reply, with its time to live. */
  datatype Found = Found(name: bytes, address: Address, ttl: nat)

  /** A resource record, as it stands in a message. */
  datatype Row = Row(name: bytes, rtype: nat, rclass: nat, ttl: nat, data: bytes)

  function ReadU16(m: bytes, at: nat): Option<nat> {
    if at + 2 <= |m| then Some(Fold(0, m[at..at + 2])) else None
  }

  function ReadU32(m: bytes, at: nat): Option<nat> {
    if at + 4 <= |m| then Some(Fold(0, m[at..at + 4])) else None
  }

  function QueryOf(m: bytes): Result<Query, MessageError> {
    if |m| < HEADER_LEN then Err(TruncatedHeader)
    else if Fold(0, m[4..6]) == 0 then Err(NoQuestion)
    else
      match NameAt(m, HEADER_LEN)
      case Err(e) => Err(e)
      case Ok((name, after)) =>
        match (ReadU16(m, after), ReadU16(m, after + 2))
        case (None, _) => Err(TruncatedQuestionType)
        case (_, None) => Err(TruncatedQuestionClass)
        case (Some(qtype), Some(qclass)) => Ok(Query(Fold(0, m[0..2]), name, qtype, qclass))
  }

  /** The record at `at`, and where it ends. */
  function RowAt(m: bytes, at: nat): (r: Result<(Row, nat), MessageError>)
    ensures r.Ok? ==> r.value.1 <= |m|
  {
    match NameAt(m, at)
    case Err(e) => Err(e)
    case Ok((name, after)) =>
      if ReadU16(m, after).None? then Err(TruncatedRecordType)
      else if ReadU16(m, after + 2).None? then Err(TruncatedRecordClass)
      else if ReadU32(m, after + 4).None? then Err(TruncatedRecordTtl)
      else if ReadU16(m, after + 8).None? then Err(TruncatedRecord)
      else
        var data := after + 10;
        var end := data + ReadU16(m, after + 8).value;
        if end > |m| then Err(TruncatedRecordData)
        else
          Ok((Row(name, ReadU16(m, after).value, ReadU16(m, after + 2).value, ReadU32(m, after + 4).value,
                  m[data..end]), end))
  }

  /** The address a record carries, if it is one of the internet whose type and length agree. */
  function AddressIn(row: Row): Option<Address> {
    if row.rclass != CLASS_IN then None
    else if row.rtype == TYPE_A && |row.data| == 4 then Some(V4(Fold(0, row.data)))
    else if row.rtype == TYPE_AAAA && |row.data| == 16 then Some(V6(Fold(0, row.data)))
    else None
  }

  function FoundIn(row: Row): seq<Found> {
    match AddressIn(row)
    case Some(address) => [Found(row.name, address, row.ttl)]
    case None => []
  }

  /** Past `n` questions. Whether the last one's type and class are there is not looked at. */
  function PastQuestions(m: bytes, at: nat, n: nat): Result<nat, MessageError>
    decreases n
  {
    if n == 0 then Ok(at)
    else
      match NameAt(m, at)
      case Err(e) => Err(e)
      case Ok((_, after)) => PastQuestions(m, after + 4, n - 1)
  }

  function AnswersFrom(m: bytes, at: nat, n: nat): Result<seq<Found>, MessageError>
    decreases n
  {
    if n == 0 then Ok([])
    else
      match RowAt(m, at)
      case Err(e) => Err(e)
      case Ok((row, end)) =>
        match AnswersFrom(m, end, n - 1)
        case Err(e) => Err(e)
        case Ok(more) => Ok(FoundIn(row) + more)
  }

  function AnswersOf(m: bytes): Result<seq<Found>, MessageError> {
    if |m| < HEADER_LEN then Err(TruncatedHeader)
    else
      match PastQuestions(m, HEADER_LEN, Fold(0, m[4..6]))
      case Err(e) => Err(e)
      case Ok(at) => AnswersFrom(m, at, Fold(0, m[6..8]))
  }

  // ----- the readers -----

  method ReadQuery(m: bytes) returns (r: Result<Query, MessageError>)
    ensures r == QueryOf(m)
  {
    if |m| < HEADER_LEN {
      return Err(TruncatedHeader);
    }
    if Fold(0, m[4..6]) == 0 {
      return Err(NoQuestion);
    }
    var n := ReadName(m, HEADER_LEN);
    match n {
      case Err(e) => return Err(e);
      case Ok((name, after)) =>
        var qtype := ReadU16(m, after);
        if qtype.None? {
          return Err(TruncatedQuestionType);
        }
        var qclass := ReadU16(m, after + 2);
        if qclass.None? {
          return Err(TruncatedQuestionClass);
        }
        return Ok(Query(Fold(0, m[0..2]), name, qtype.value, qclass.value));
    }
  }

  method ReadRow(m: bytes, at: nat) returns (r: Result<(Row, nat), MessageError>)
    ensures r == RowAt(m, at)
  {
    hide Fold;
    var n := ReadName(m, at);
    match n {
      case Err(e) => return Err(e);
      case Ok((name, after)) =>
        var rtype := ReadU16(m, after);
        if rtype.None? {
          return Err(TruncatedRecordType);
        }
        var rclass := ReadU16(m, after + 2);
        if rclass.None? {
          return Err(TruncatedRecordClass);
        }
        var ttl := ReadU32(m, after + 4);
        if ttl.None? {
          return Err(TruncatedRecordTtl);
        }
        var length := ReadU16(m, after + 8);
        if length.None? {
          return Err(TruncatedRecord);
        }
        var data := after + 10;
        var end := data + length.value;
        if end > |m| {
          return Err(TruncatedRecordData);
        }
        return Ok((Row(name, rtype.value, rclass.value, ttl.value, m[data..end]), end));
    }
  }

  method SkipQuestions(m: bytes) returns (r: Result<nat, MessageError>)
    requires |m| >= HEADER_LEN
    ensures r == PastQuestions(m, HEADER_LEN, Fold(0, m[4..6]))
  {
    hide Fold, NameAt;
    var at, left := HEADER_LEN, Fold(0, m[4..6]);
    while left > 0
      invariant PastQuestions(m, at, left) == PastQuestions(m, HEADER_LEN, Fold(0, m[4..6]))
    {
      var n := ReadName(m, at);
      match n {
        case Err(e) => return Err(e);
        case Ok((_, after)) => at := after + 4;
      }
      left := left - 1;
    }
    return Ok(at);
  }

  /** All addresses of a reply, first to last. */
  method ReadAnswers(m: bytes) returns (r: Result<seq<Found>, MessageError>)
    ensures r == AnswersOf(m)
  {
    hide Fold, RowAt, FoundIn, PastQuestions;
    if |m| < HEADER_LEN {
      return Err(TruncatedHeader);
    }
    var start := SkipQuestions(m);
    if start.Err? {
      return Err(start.error);
    }
    var at, left := start.value, Fold(0, m[6..8]);
    var found: seq<Found> := [];
    assert AnswersOf(m) == AnswersFrom(m, at, left);
    assert AnswersOf(m).Ok? ==> [] + AnswersOf(m).value == AnswersOf(m).value;
    while left > 0
      invariant match AnswersFrom(m, at, left)
                case Ok(more) => AnswersOf(m) == Ok(found + more)
                case Err(e) => AnswersOf(m) == Err(e)
    {
      var next := ReadRow(m, at);
      if next.Err? {
        return Err(next.error);
      }
      var (row, end) := next.value;
      ghost var rest := AnswersFrom(m, end, left - 1);
      assert rest.Ok? ==> found + (FoundIn(row) + rest.value) == (found + FoundIn(row)) + rest.value;
      found := found + FoundIn(row);
      at, left := end, left - 1;
    }
    assert found + [] == found;
    return Ok(found);
  }

  // ----- what a message is -----

  function U16(n: nat): bytes {
    BigEndian(n, 2)
  }

  /** A record after its name. */
  function RowBytes(row: Row): bytes {
    U16(row.rtype) + U16(row.rclass) + BigEndian(row.ttl, 4) + U16(|row.data|) + row.data
  }

  predicate FitsRow(row: Row) {
    row.rtype < 0x1_0000 && row.rclass < 0x1_0000 && row.ttl < 0x1_0000_0000 && |row.data| < 0x1_0000
  }

  /** A record and how its name is spelled. */
  datatype Spelled = Spelled(name: Spelling, row: Row)

  /** A record stands from `at` to `end`. */
  ghost predicate Stands(m: bytes, at: nat, s: Spelled, end: nat) {
    && FitsRow(s.row) && Spells(m, at, s.name)
    && var after := EndOf(m, at, s.name);
       && Reads(m, at, s.name, s.row.name, after)
       && after <= end <= |m| && m[after..end] == RowBytes(s.row)
  }

  /** A question's name stands at `at`, and its type and class take the four octets before `end`. */
  ghost predicate Asks(m: bytes, at: nat, sp: Spelling, end: nat) {
    && Spells(m, at, sp) && Jumps(sp) <= MAX_JUMPS && Taken(Labels(m, at, sp)) <= MAX_NAME
    && end == EndOf(m, at, sp) + 4
  }

  /** The parts of a message as far as its answers go: where each question and record ends. */
  datatype Anatomy = Anatomy(questions: seq<(Spelling, nat)>, records: seq<(Spelled, nat)>)

  ghost predicate Questions(m: bytes, at: nat, qs: seq<(Spelling, nat)>)
    decreases |qs|
  {
    qs == [] || (Asks(m, at, qs[0].0, qs[0].1) && Questions(m, qs[0].1, qs[1..]))
  }

  ghost predicate Records(m: bytes, at: nat, rs: seq<(Spelled, nat)>)
    decreases |rs|
  {
    rs == [] || (Stands(m, at, rs[0].0, rs[0].1) && Records(m, rs[0].1, rs[1..]))
  }

  ghost function EndOfQuestions(at: nat, qs: seq<(Spelling, nat)>): nat {
    if qs == [] then at else qs[|qs| - 1].1
  }

  ghost predicate IsAnatomy(m: bytes, a: Anatomy) {
    && |m| >= HEADER_LEN
    && U16(|a.questions|) == m[4..6] && |a.questions| < 0x1_0000
    && U16(|a.records|) == m[6..8] && |a.records| < 0x1_0000
    && Questions(m, HEADER_LEN, a.questions)
    && Records(m, EndOfQuestions(HEADER_LEN, a.questions), a.records)
  }

  function AllFound(rs: seq<(Spelled, nat)>): seq<Found> {
    if rs == [] then [] else FoundIn(rs[0].0.row) + AllFound(rs[1..])
  }

  // ----- integers -----

  lemma U16Reads(b: bytes, n: nat)
    requires |b| == 2
    ensures Fold(0, b) == n <==> n < 0x1_0000 && b == U16(n)
  {
    Powers();
    BigEndianFold(b);
    FoldRange(0, b);
    if n < 0x1_0000 {
      FoldBigEndian(n, 2);
    }
  }

  lemma U32Reads(b: bytes, n: nat)
    requires |b| == 4
    ensures Fold(0, b) == n <==> n < 0x1_0000_0000 && b == BigEndian(n, 4)
  {
    Powers();
    BigEndianFold(b);
    FoldRange(0, b);
    if n < 0x1_0000_0000 {
      FoldBigEndian(n, 4);
    }
  }

  /** The fixed fields after a name, and the data. */
  lemma RowSplits(b: bytes, row: Row)
    requires FitsRow(row)
    ensures b == RowBytes(row) <==>
            && |b| >= 10
            && Fold(0, b[0..2]) == row.rtype && Fold(0, b[2..4]) == row.rclass && Fold(0, b[4..8]) == row.ttl
            && Fold(0, b[8..10]) == |row.data| && b[10..] == row.data
  {
    hide Fold, BigEndian;
    if |b| >= 10 {
      U16Reads(b[0..2], row.rtype);
      U16Reads(b[2..4], row.rclass);
      U32Reads(b[4..8], row.ttl);
      U16Reads(b[8..10], |row.data|);
      assert b == b[0..2] + b[2..4] + b[4..8] + b[8..10] + b[10..];
    }
  }

  // ----- records -----

  lemma Window(m: bytes, from: nat, end: nat)
    requires from + 10 <= end <= |m|
    ensures var b := m[from..end];
            && m[from..from + 2] == b[0..2] && m[from + 2..from + 4] == b[2..4]
            && m[from + 4..from + 8] == b[4..8] && m[from + 8..from + 10] == b[8..10]
            && m[from + 10..end] == b[10..]
  {
    Slices(m, from, end, 0, 2);
    Slices(m, from, end, 2, 4);
    Slices(m, from, end, 4, 8);
    Slices(m, from, end, 8, 10);
  }

  lemma Slices(m: bytes, from: nat, end: nat, i: nat, j: nat)
    requires from <= end <= |m| && i <= j <= end - from
    ensures m[from + i..from + j] == m[from..end][i..j]
  {
    var b := m[from..end];
    forall k | 0 <= k < j - i
      ensures m[from + i..from + j][k] == b[i..j][k]
    {
      assert b[i + k] == m[from + i + k];
    }
  }

  lemma StandingIsRead(m: bytes, at: nat, s: Spelled, end: nat)
    requires Stands(m, at, s, end)
    ensures RowAt(m, at) == Ok((s.row, end))
  {
    hide Fold, BigEndian, RowBytes, Reads, NameAt;
    var after := EndOf(m, at, s.name);
    var b := m[after..end];
    ReadingIsExact(m, at, s.row.name, after);
    RowSplits(b, s.row);
    Window(m, after, end);
  }

  lemma ReadingStands(m: bytes, at: nat) returns (s: Spelled)
    requires RowAt(m, at).Ok?
    ensures Stands(m, at, s, RowAt(m, at).value.1) && s.row == RowAt(m, at).value.0
  {
    hide Fold, BigEndian, RowBytes, NameAt;
    var (row, end) := RowAt(m, at).value;
    var (name, after) := NameAt(m, at).value;
    ReadingIsExact(m, at, name, after);
    var sp :| Reads(m, at, sp, name, after);
    s := Spelled(sp, row);
    var b := m[after..end];
    Window(m, after, end);
    U16Reads(b[0..2], row.rtype);
    U16Reads(b[2..4], row.rclass);
    U32Reads(b[4..8], row.ttl);
    U16Reads(b[8..10], |row.data|);
    RowSplits(b, row);
  }

  lemma {:induction false} RecordsAreRead(m: bytes, at: nat, rs: seq<(Spelled, nat)>)
    requires Records(m, at, rs)
    ensures AnswersFrom(m, at, |rs|) == Ok(AllFound(rs))
    decreases |rs|
  {
    hide RowAt, FoundIn, Stands;
    if rs != [] {
      StandingIsRead(m, at, rs[0].0, rs[0].1);
      RecordsAreRead(m, rs[0].1, rs[1..]);
    }
  }

  lemma {:induction false} ReadingHasRecords(m: bytes, at: nat, n: nat) returns (rs: seq<(Spelled, nat)>)
    requires AnswersFrom(m, at, n).Ok?
    ensures |rs| == n && Records(m, at, rs)
    decreases n
  {
    hide RowAt, FoundIn, Stands;
    if n == 0 {
      rs := [];
    } else {
      var s := ReadingStands(m, at);
      var end := RowAt(m, at).value.1;
      var more := ReadingHasRecords(m, end, n - 1);
      rs := [(s, end)] + more;
      assert rs[1..] == more;
    }
  }

  // ----- questions -----

  lemma {:induction false} QuestionsAreRead(m: bytes, at: nat, qs: seq<(Spelling, nat)>)
    requires Questions(m, at, qs)
    ensures PastQuestions(m, at, |qs|) == Ok(EndOfQuestions(at, qs))
    decreases |qs|
  {
    hide NameAt;
    if qs != [] {
      var (sp, end) := qs[0];
      var name := Joined([], Labels(m, at, sp));
      assert Reads(m, at, sp, name, end - 4);
      ReadingIsExact(m, at, name, end - 4);
      QuestionsAreRead(m, end, qs[1..]);
    }
  }

  lemma {:induction false} ReadingHasQuestions(m: bytes, at: nat, n: nat) returns (qs: seq<(Spelling, nat)>)
    requires PastQuestions(m, at, n).Ok?
    ensures |qs| == n && Questions(m, at, qs)
    decreases n
  {
    hide NameAt;
    if n == 0 {
      qs := [];
    } else {
      var (name, after) := NameAt(m, at).value;
      ReadingIsExact(m, at, name, after);
      var sp :| Reads(m, at, sp, name, after);
      var more := ReadingHasQuestions(m, after + 4, n - 1);
      qs := [(sp, after + 4)] + more;
      assert qs[1..] == more;
    }
  }

  // ----- the answers -----

  /** A reply reads as some addresses exactly when it is the number of questions its header says, then
      the number of whole records its header says, and those are the addresses its internet A and
      AAAA records of the right length carry, in order; every other record is passed over. */
  lemma AnswersAreExact(m: bytes, found: seq<Found>)
    ensures AnswersOf(m) == Ok(found) <==> exists a :: IsAnatomy(m, a) && AllFound(a.records) == found
  {
    hide Fold, BigEndian, Questions, Records, PastQuestions, AnswersFrom, AllFound;
    if AnswersOf(m) == Ok(found) {
      var a := ReadingHasAnatomy(m);
      AnatomyIsRead(m, a);
    }
    if a :| IsAnatomy(m, a) && AllFound(a.records) == found {
      AnatomyIsRead(m, a);
    }
  }

  lemma AnatomyIsRead(m: bytes, a: Anatomy)
    requires IsAnatomy(m, a)
    ensures AnswersOf(m) == Ok(AllFound(a.records))
  {
    hide Fold, BigEndian, Questions, Records, PastQuestions, AnswersFrom, AllFound;
    U16Reads(m[4..6], |a.questions|);
    U16Reads(m[6..8], |a.records|);
    QuestionsAreRead(m, HEADER_LEN, a.questions);
    RecordsAreRead(m, EndOfQuestions(HEADER_LEN, a.questions), a.records);
  }

  lemma ReadingHasAnatomy(m: bytes) returns (a: Anatomy)
    requires AnswersOf(m).Ok?
    ensures IsAnatomy(m, a)
  {
    hide Fold, BigEndian, Questions, Records, PastQuestions, AnswersFrom;
    var questions, answers := Fold(0, m[4..6]), Fold(0, m[6..8]);
    U16Reads(m[4..6], questions);
    U16Reads(m[6..8], answers);
    var qs := ReadingHasQuestions(m, HEADER_LEN, questions);
    QuestionsAreRead(m, HEADER_LEN, qs);
    var rs := ReadingHasRecords(m, PastQuestions(m, HEADER_LEN, questions).value, answers);
    a := Anatomy(qs, rs);
  }

  // ----- the question -----

  /** The first question stands after the header, its name spelled so. */
  ghost predicate AsksFor(m: bytes, sp: Spelling, q: Query) {
    && |m| >= HEADER_LEN && m[4..6] != U16(0) && Spells(m, HEADER_LEN, sp)
    && q.id < 0x1_0000 && q.qtype < 0x1_0000 && q.qclass < 0x1_0000
    && m[0..2] == U16(q.id)
    && var after := EndOf(m, HEADER_LEN, sp);
       && Reads(m, HEADER_LEN, sp, q.name, after) && after + 4 <= |m|
       && m[after..after + 2] == U16(q.qtype) && m[after + 2..after + 4] == U16(q.qclass)
  }

  /** A query reads exactly when its header says there is a question and the first one is whole. */
  lemma QueriesAreExact(m: bytes, q: Query)
    ensures QueryOf(m) == Ok(q) <==> exists sp :: AsksFor(m, sp, q)
  {
    hide Fold, BigEndian, NameAt, Reads;
    if QueryOf(m) == Ok(q) {
      var after := NameAt(m, HEADER_LEN).value.1;
      QueryIntegers(m, after, q);
      ReadingIsExact(m, HEADER_LEN, q.name, after);
      var sp :| Reads(m, HEADER_LEN, sp, q.name, after);
      ReadsEnd(m, sp, q.name, after);
      assert AsksFor(m, sp, q);
    }
    if sp :| AsksFor(m, sp, q) {
      var after := EndOf(m, HEADER_LEN, sp);
      QueryIntegers(m, after, q);
      ReadingIsExact(m, HEADER_LEN, q.name, after);
    }
  }

  lemma ReadsEnd(m: bytes, sp: Spelling, name: bytes, after: nat)
    requires Reads(m, HEADER_LEN, sp, name, after)
    ensures Spells(m, HEADER_LEN, sp) && after == EndOf(m, HEADER_LEN, sp)
  {
  }

  lemma QueryIntegers(m: bytes, after: nat, q: Query)
    requires |m| >= HEADER_LEN && after + 4 <= |m|
    ensures Fold(0, m[4..6]) == 0 <==> m[4..6] == U16(0)
    ensures Fold(0, m[0..2]) == q.id <==> q.id < 0x1_0000 && m[0..2] == U16(q.id)
    ensures Fold(0, m[after..after + 2]) == q.qtype <==> q.qtype < 0x1_0000 && m[after..after + 2] == U16(q.qtype)
    ensures Fold(0, m[after + 2..after + 4]) == q.qclass <==>
            q.qclass < 0x1_0000 && m[after + 2..after + 4] == U16(q.qclass)
  {
    hide Fold, BigEndian;
    U16Reads(m[4..6], 0);
    U16Reads(m[0..2], q.id);
    U16Reads(m[after..after + 2], q.qtype);
    U16Reads(m[after + 2..after + 4], q.qclass);
  }

  // ----- what does not matter -----

  lemma {:induction false} NameStable(m: bytes, more: bytes, at: nat, jumps: nat, seen: nat, name: bytes,
                                      after: Option<nat>)
    requires jumps <= MAX_JUMPS && ReadFrom(m, at, jumps, seen, name, after).Ok?
    ensures ReadFrom(m + more, at, jumps, seen, name, after) == ReadFrom(m, at, jumps, seen, name, after)
    decreases MAX_JUMPS - jumps, |m| - at
  {
    hide Lower, Join;
    if m[at] >= 192 {
      assert Target(m + more, at) == Target(m, at);
      NameStable(m, more, Target(m, at), jumps + 1, seen, name, Some(if after.Some? then after.value else at + 2));
    } else if m[at] != 0 {
      var to := at + 1 + m[at];
      assert (m + more)[at + 1..to] == m[at + 1..to];
      NameStable(m, more, to, jumps, seen + m[at] + 1, Join(name, Lower(m[at + 1..to])), after);
    }
  }

  lemma RowStable(m: bytes, more: bytes, at: nat)
    requires RowAt(m, at).Ok?
    ensures RowAt(m + more, at) == RowAt(m, at)
  {
    hide Fold, ReadFrom;
    NameStable(m, more, at, 0, 0, [], None);
    var (row, end) := RowAt(m, at).value;
    var after := NameAt(m, at).value.1;
    var w := m + more;
    assert w[after..after + 2] == m[after..after + 2] && w[after + 2..after + 4] == m[after + 2..after + 4];
    assert w[after + 4..after + 8] == m[after + 4..after + 8] && w[after + 8..after + 10] == m[after + 8..after + 10];
    assert w[after + 10..end] == m[after + 10..end];
  }

  lemma {:induction false} QuestionsStable(m: bytes, more: bytes, at: nat, n: nat)
    requires PastQuestions(m, at, n).Ok?
    ensures PastQuestions(m + more, at, n) == PastQuestions(m, at, n)
    decreases n
  {
    hide ReadFrom;
    if n > 0 {
      NameStable(m, more, at, 0, 0, [], None);
      QuestionsStable(m, more, NameAt(m, at).value.1 + 4, n - 1);
    }
  }

  lemma {:induction false} RecordsStable(m: bytes, more: bytes, at: nat, n: nat)
    requires AnswersFrom(m, at, n).Ok?
    ensures AnswersFrom(m + more, at, n) == AnswersFrom(m, at, n)
    decreases n
  {
    hide RowAt, FoundIn;
    if n > 0 {
      RowStable(m, more, at);
      RecordsStable(m, more, RowAt(m, at).value.1, n - 1);
    }
  }

  /** Nothing after the answer section changes the answers, whatever addresses it names. */
  lemma OnlyAnswersCount(m: bytes, more: bytes)
    requires AnswersOf(m).Ok?
    ensures AnswersOf(m + more) == AnswersOf(m)
  {
    hide Fold, PastQuestions, AnswersFrom;
    var w := m + more;
    assert w[4..6] == m[4..6] && w[6..8] == m[6..8];
    QuestionsStable(m, more, HEADER_LEN, Fold(0, m[4..6]));
    RecordsStable(m, more, PastQuestions(m, HEADER_LEN, Fold(0, m[4..6])).value, Fold(0, m[6..8]));
  }

  // ----- how far a reply reads -----

  /** Past the furthest octet a name reads: a pointer leads backwards, but the labels it leads to may
      run on beyond where it stands. */
  ghost function Reach(m: bytes, at: nat, sp: Spelling): (r: nat)
    requires Spells(m, at, sp)
    ensures at < r <= |m|
    decreases sp
  {
    match sp
    case End => at + 1
    case Label(rest) => Reach(m, at + 1 + m[at], rest)
    case Jump(rest) => Max(at + 2, Reach(m, PointsTo(m, at), rest))
  }

  ghost function QuestionsReach(m: bytes, at: nat, qs: seq<(Spelling, nat)>): nat
    requires Questions(m, at, qs)
    decreases |qs|
  {
    if qs == [] then 0 else Max(Reach(m, at, qs[0].0), QuestionsReach(m, qs[0].1, qs[1..]))
  }

  ghost function RecordsReach(m: bytes, at: nat, rs: seq<(Spelled, nat)>): nat
    requires Records(m, at, rs)
    decreases |rs|
  {
    if rs == [] then 0
    else Max(Max(Reach(m, at, rs[0].0.name), rs[0].1), RecordsReach(m, rs[0].1, rs[1..]))
  }

  /** Past the furthest octet that reading the answers looks at. */
  ghost function ReplyReach(m: bytes, a: Anatomy): nat
    requires IsAnatomy(m, a)
  {
    Max(HEADER_LEN, Max(QuestionsReach(m, HEADER_LEN, a.questions),
                        RecordsReach(m, EndOfQuestions(HEADER_LEN, a.questions), a.records)))
  }

  /** A spelling survives a cut exactly when the cut is past its reach, and then reads the same. */
  lemma {:induction false} SpellsCut(m: bytes, e: nat, at: nat, sp: Spelling)
    requires Spells(m, at, sp) && e <= |m|
    ensures Spells(m[..e], at, sp) <==> Reach(m, at, sp) <= e
    ensures Spells(m[..e], at, sp) ==>
              Labels(m[..e], at, sp) == Labels(m, at, sp) && EndOf(m[..e], at, sp) == EndOf(m, at, sp)
    decreases sp
  {
    hide LabelAt;
    match sp
    case End =>
    case Label(rest) =>
      SpellsCut(m, e, at + 1 + m[at], rest);
      if at + 1 + m[at] <= e {
        assert m[..e][at + 1..at + 1 + m[at]] == m[at + 1..at + 1 + m[at]];
        SameLabel(m, m[..e], at);
      }
    case Jump(rest) =>
      SpellsCut(m, e, PointsTo(m, at), rest);
  }

  lemma {:induction false} SpellsMore(m: bytes, e: nat, at: nat, sp: Spelling)
    requires e <= |m| && Spells(m[..e], at, sp)
    ensures Spells(m, at, sp)
    decreases sp
  {
    match sp
    case End =>
    case Label(rest) => SpellsMore(m, e, at + 1 + m[at], rest);
    case Jump(rest) => SpellsMore(m, e, PointsTo(m, at), rest);
  }

  lemma NameCut(m: bytes, e: nat, at: nat, sp: Spelling)
    requires Spells(m, at, sp) && NameAt(m, at).Ok? && e <= |m|
    ensures NameAt(m[..e], at).Ok? <==> Reach(m, at, sp) <= e
    ensures NameAt(m[..e], at).Ok? ==> NameAt(m[..e], at) == NameAt(m, at)
  {
    hide NameAt, Labels, EndOf, Reach;
    var (name, after) := NameAt(m, at).value;
    ReadingIsExact(m, at, name, after);
    var known :| Reads(m, at, known, name, after);
    SpellingIsUnique(m, at, known, sp);
    SpellsCut(m, e, at, sp);
    if Reach(m, at, sp) <= e {
      assert Reads(m[..e], at, sp, name, after);
      ReadingIsExact(m[..e], at, name, after);
    }
    if NameAt(m[..e], at).Ok? {
      var (cutName, cutAfter) := NameAt(m[..e], at).value;
      ReadingIsExact(m[..e], at, cutName, cutAfter);
      var cut :| Reads(m[..e], at, cut, cutName, cutAfter);
      SpellsMore(m, e, at, cut);
      SpellingIsUnique(m, at, cut, sp);
    }
  }

  lemma RowCut(m: bytes, e: nat, at: nat, s: Spelled, end: nat)
    requires Stands(m, at, s, end) && e <= |m|
    ensures RowAt(m[..e], at).Ok? <==> Max(Reach(m, at, s.name), end) <= e
    ensures RowAt(m[..e], at).Ok? ==> RowAt(m[..e], at) == RowAt(m, at)
  {
    hide Fold, BigEndian, NameAt, Stands;
    StandingIsRead(m, at, s, end);
    NamedBy(m, at, s, end);
    NameCut(m, e, at, s.name);
    var after := NameAt(m, at).value.1;
    var b := m[..e];
    if end <= e {
      assert b[after..after + 2] == m[after..after + 2] && b[after + 2..after + 4] == m[after + 2..after + 4];
      assert b[after + 4..after + 8] == m[after + 4..after + 8] && b[after + 8..after + 10] == m[after + 8..after + 10];
      assert b[after + 10..end] == m[after + 10..end];
    } else if after + 10 <= e {
      assert b[after + 8..after + 10] == m[after + 8..after + 10];
    }
  }

  lemma NamedBy(m: bytes, at: nat, s: Spelled, end: nat)
    requires Stands(m, at, s, end)
    ensures Spells(m, at, s.name)
  {
  }

  lemma {:induction false} QuestionsCut(m: bytes, e: nat, at: nat, qs: seq<(Spelling, nat)>)
    requires Questions(m, at, qs) && e <= |m|
    ensures PastQuestions(m[..e], at, |qs|).Ok? <==> QuestionsReach(m, at, qs) <= e
    ensures PastQuestions(m[..e], at, |qs|).Ok? ==> PastQuestions(m[..e], at, |qs|) == Ok(EndOfQuestions(at, qs))
    decreases |qs|
  {
    hide NameAt, Reach;
    if qs != [] {
      var (sp, end) := qs[0];
      var name := Joined([], Labels(m, at, sp));
      assert Reads(m, at, sp, name, end - 4);
      ReadingIsExact(m, at, name, end - 4);
      NameCut(m, e, at, sp);
      QuestionsCut(m, e, end, qs[1..]);
    }
  }

  lemma {:induction false} RecordsCut(m: bytes, e: nat, at: nat, rs: seq<(Spelled, nat)>)
    requires Records(m, at, rs) && e <= |m|
    ensures AnswersFrom(m[..e], at, |rs|).Ok? <==> RecordsReach(m, at, rs) <= e
    ensures AnswersFrom(m[..e], at, |rs|).Ok? ==> AnswersFrom(m[..e], at, |rs|) == Ok(AllFound(rs))
    decreases |rs|
  {
    hide RowAt, FoundIn, Stands, Reach;
    if rs != [] {
      NamedBy(m, at, rs[0].0, rs[0].1);
      StandingIsRead(m, at, rs[0].0, rs[0].1);
      RowCut(m, e, at, rs[0].0, rs[0].1);
      RecordsCut(m, e, rs[0].1, rs[1..]);
    }
  }

  /** A reply that reads, cut anywhere, reads exactly when the cut is past what reading it looks at, and
      then reads alike. */
  lemma WhenACutIsHarmless(m: bytes, a: Anatomy, e: nat)
    requires IsAnatomy(m, a) && e <= |m|
    ensures AnswersOf(m[..e]).Ok? <==> ReplyReach(m, a) <= e
    ensures AnswersOf(m[..e]).Ok? ==> AnswersOf(m[..e]) == AnswersOf(m)
  {
    hide Fold, BigEndian, PastQuestions, AnswersFrom, QuestionsReach, RecordsReach, AllFound;
    AnatomyIsRead(m, a);
    if e >= HEADER_LEN {
      var b := m[..e];
      assert b[4..6] == m[4..6] && b[6..8] == m[6..8];
      U16Reads(m[4..6], |a.questions|);
      U16Reads(m[6..8], |a.records|);
      QuestionsCut(m, e, HEADER_LEN, a.questions);
      RecordsCut(m, e, EndOfQuestions(HEADER_LEN, a.questions), a.records);
    }
  }

  /** Two replies that agree as far as reading the one looks have the same answers. */
  lemma AgreeingRepliesReadAlike(m: bytes, a: Anatomy, w: bytes)
    requires IsAnatomy(m, a) && ReplyReach(m, a) <= |w| && ReplyReach(m, a) <= |m|
    requires w[..ReplyReach(m, a)] == m[..ReplyReach(m, a)]
    ensures AnswersOf(w) == AnswersOf(m)
  {
    hide AnswersOf, ReplyReach;
    var e := ReplyReach(m, a);
    WhenACutIsHarmless(m, a, e);
    OnlyAnswersCount(m[..e], w[e..]);
    assert w == m[..e] + w[e..];
  }

  /** A reply with no question and one empty record, at 12 to 24, whose name is a pointer to the last
      octet of the header, taken as the length of a label that runs past the record. */
  function Overlapping(): bytes {
    [0, 0, 0, 0, 0, 0, 0, 1, 0, 0, 0, 13,
     192, 11, 0, 1, 0, 1, 0, 0, 0, 0, 0, 0,
     0, 0]
  }

  lemma OverlappingName()
    ensures NameAt(Overlapping(), 12) == Ok((Lower(Overlapping()[12..25]), 14))
    ensures NameAt(Overlapping()[..24], 12) == Err(TruncatedLabel)
  {
    hide Lower;
    var m := Overlapping();
    var b := m[..24];
    assert Target(m, 12) == 11 && Target(b, 12) == 11;
    assert ReadFrom(m, 25, 1, 14, Lower(m[12..25]), Some(14)) == Ok((Lower(m[12..25]), 14));
    assert ReadFrom(m, 11, 1, 0, [], Some(14)) == Ok((Lower(m[12..25]), 14));
    assert ReadFrom(b, 11, 1, 0, [], Some(14)) == Err(TruncatedLabel);
  }

  lemma OverlappingRow()
    ensures var r := RowAt(Overlapping(), 12);
            r.Ok? && r.value.1 == 24 && r.value.0.data == []
    ensures RowAt(Overlapping()[..24], 12) == Err(TruncatedLabel)
  {
    hide NameAt, Lower, Fold;
    OverlappingName();
    Zeros();
    assert Overlapping()[22..24] == [0, 0];
  }

  lemma OverlappingCounts(m: bytes)
    requires m == Overlapping() || m == Overlapping()[..24]
    ensures |m| >= HEADER_LEN && Fold(0, m[4..6]) == 0 && Fold(0, m[6..8]) == 1
  {
    hide Fold;
    var o := Overlapping();
    assert |o| == 26 && o[4] == 0 && o[5] == 0 && o[6] == 0 && o[7] == 1;
    assert |m| >= 24 && forall k :: 0 <= k < 24 ==> m[k] == o[k];
    assert m[4..6] == [m[4], m[5]] && m[6..8] == [m[6], m[7]];
    Zeros();
  }

  /** The last record's end can come before that: this reply reads, and cut where its last record ends
      it does not. */
  lemma TheLastRecordIsNotTheEnd()
    ensures AnswersOf(Overlapping()) == Ok([]) && AnswersOf(Overlapping()[..24]).Err?
    ensures RowAt(Overlapping(), 12).Ok? ==> RowAt(Overlapping(), 12).value.1 == 24
  {
    hide RowAt, Fold, Overlapping;
    var m := Overlapping();
    OverlappingRow();
    OverlappingCounts(m);
    OverlappingCounts(m[..24]);
    assert AnswersFrom(m, 24, 0) == Ok([]);
    assert FoundIn(RowAt(m, 12).value.0) == [];
    var none: seq<Found> := [];
    assert AnswersFrom(m, 12, 1) == Ok(none + none) && none + none == none;
    assert PastQuestions(m, 12, 0) == Ok(12) && AnswersOf(m) == AnswersFrom(m, 12, 1);
  }

  lemma Zeros()
    ensures Fold(0, [0, 0]) == 0 && Fold(0, [0, 1]) == 1
  {
    assert [0, 0][1..] == [0] && [0][1..] == [] && [0, 1][1..] == [1] && [1][1..] == [];
    assert Fold(0, [0]) == 0 && Fold(0, [1]) == 1;
  }

  // ----- addresses -----

  lemma SixteenOctets()
    ensures Pow256(16) == 0x1_0000_0000_0000_0000_0000_0000_0000_0000
  {
    Powers();
    assert Pow256(12) == 0x1_0000_0000 * Pow256(8);
  }

  /** A record carries an address exactly if it is of the internet, and an A record of four octets or an AAAA
      record of sixteen; the address is those octets, most significant first. */
  lemma AddressIsExact(row: Row, address: Address)
    ensures AddressIn(row) == Some(address) <==>
            && row.rclass == 1
            && match address
               case V4(n) => row.rtype == 1 && n < 0x1_0000_0000 && row.data == BigEndian(n, 4)
               case V6(n) =>
                 row.rtype == 28 && n < 0x1_0000_0000_0000_0000_0000_0000_0000_0000 && row.data == BigEndian(n, 16)
  {
    hide Fold, BigEndian;
    match address
    case V4(n) =>
      if |row.data| == 4 {
        U32Reads(row.data, n);
      }
    case V6(n) =>
      if |row.data| == 16 {
        SixteenOctets();
        BigEndianFold(row.data);
        FoldRange(0, row.data);
        if n < Pow256(16) {
          FoldBigEndian(n, 16);
        }
      }
  }
}
