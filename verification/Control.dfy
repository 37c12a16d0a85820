/** Packets as HTTP datagrams, section 2.1 of RFC 9297 and section 6 of RFC 9484
    (src/transport/http3.rs). */
module Datagrams {
  import opened Common
  import opened Buffers
  import opened Varint

  /** Frame one packet as the datagram of the request on a stream. */
  method Frame(streamId: nat, packet: bytes) returns (datagram: bytes)
    requires streamId <= MAX
    ensures datagram == Encode(streamId / 4) + [0] + packet
  {
    var out := new Buffer();
    Put(out, streamId / 4);
    out.Put([0]);
    out.Put(packet);
    return out.data;
  }

  /** What a datagram carries for this request: nothing if another request or context is named. */
  function PacketIn(datagram: bytes, streamId: nat): Option<bytes> {
    match Get(datagram)
    case None => None
    case Some((quarter, used)) =>
      if quarter != streamId / 4 then None
      else
        var rest := datagram[used..];
        match Get(rest)
        case None => None
        case Some((context, more)) => if context != 0 then None else Some(rest[more..])
  }

  method Unframe(datagram: Buffer, streamId: nat) returns (packet: Option<bytes>)
    modifies datagram
    ensures packet == PacketIn(old(datagram.data), streamId)
  {
    var quarter := Read(datagram.data);
    if quarter.None? || quarter.value.0 != streamId / 4 {
      return None;
    }
    datagram.Advance(quarter.value.1);
    var context := Read(datagram.data);
    if context.None? || context.value.0 != 0 {
      return None;
    }
    datagram.Advance(context.value.1);
    return Some(datagram.data);
  }

  /** A datagram as this side or another may write it: both integers in any lengths that fit. */
  ghost predicate Carries(datagram: bytes, streamId: nat, n: nat, m: nat, packet: bytes) {
    && IsLength(n) && streamId / 4 < Capacity(n) && IsLength(m)
    && datagram == EncodeIn(streamId / 4, n) + EncodeIn(0, m) + packet
  }

  /** A packet is taken out of exactly the datagrams of this request and context that carry it. */
  lemma UnframingIsExact(datagram: bytes, streamId: nat, packet: bytes)
    ensures PacketIn(datagram, streamId) == Some(packet) <==>
            exists n: nat, m: nat :: Carries(datagram, streamId, n, m, packet)
  {
    hide EncodeIn, Get;
    if PacketIn(datagram, streamId) == Some(packet) {
      var (quarter, n) := Get(datagram).value;
      var rest := datagram[n..];
      var (context, m) := Get(rest).value;
      IntegerWasWritten(datagram);
      IntegerWasWritten(rest);
      assert datagram == EncodeIn(quarter, n) + (EncodeIn(0, m) + packet);
      assert Carries(datagram, streamId, n, m, packet);
    }
    if n: nat, m: nat :| Carries(datagram, streamId, n, m, packet) {
      var rest := EncodeIn(0, m) + packet;
      assert datagram == EncodeIn(streamId / 4, n) + rest;
      RoundTrip(streamId / 4, n, rest);
      RoundTrip(0, m, packet);
      assert datagram[n..] == rest && rest[m..] == packet;
    }
  }

  /** A framed packet comes out of its own request's datagram, and of no other request's. */
  lemma OnlyItsOwnRequest(streamId: nat, other: nat, packet: bytes)
    requires streamId <= MAX
    ensures var d := Encode(streamId / 4) + [0] + packet;
            PacketIn(d, other) == if streamId / 4 == other / 4 then Some(packet) else None
  {
    var quarter := streamId / 4;
    var rest := [0] + packet;
    var d := Encode(quarter) + [0] + packet;
    assert d == EncodeIn(quarter, Len(quarter)) + rest;
    RoundTrip(quarter, Len(quarter), rest);
    if quarter == other / 4 {
      assert BigEndian(0, 1) == [0];
      assert Carries(d, other, Len(quarter), 1, packet);
      UnframingIsExact(d, other, packet);
    }
  }
}

/** What the other side may say on its control stream, SETTINGS before anything else and never again,
    sections 6.2.1 and 7.2 of RFC 9114 (src/transport/http3.rs). */
module ControlStreams {
  import opened Common
  import opened Buffers
  import opened Varint
  import opened Frames

  const CONTROL: nat := 0x00
  const ENABLE_CONNECT_PROTOCOL: nat := 0x08
  const H3_DATAGRAM: nat := 0x33
  const H3_DATAGRAM_DRAFT00: nat := 0x276

  /** Settings of HTTP/2 that HTTP/3 reserves. */
  predicate IsReserved(id: nat) {
    2 <= id <= 5
  }

  datatype PeerSettings = PeerSettings(h3Datagram: bool, extendedConnect: bool)

  datatype ControlEvent = Settled(settings: PeerSettings) | GoAway(id: nat)

  datatype ControlError =
    | MissingSettings
    | MalformedSettings
    | ReservedSetting
    | RepeatedSetting
    | MalformedGoAway
    | Unexpected(kind: nat)

  // ----- settings -----

  function Heard(s: PeerSettings, id: nat, value: nat): PeerSettings {
    if id == H3_DATAGRAM then s.(h3Datagram := value == 1)
    else if id == ENABLE_CONNECT_PROTOCOL then s.(extendedConnect := value == 1)
    else s
  }

  /** The reader's loop: what is left, the identifiers seen and the settings so far. */
  function ParseFrom(b: bytes, seen: seq<nat>, s: PeerSettings): Result<PeerSettings, ControlError>
    decreases |b|
  {
    if b == [] then Ok(s)
    else
      match Header(b)
      case None => Err(MalformedSettings)
      case Some((id, value, used)) =>
        if IsReserved(id) then Err(ReservedSetting)
        else if id in seen then Err(RepeatedSetting)
        else ParseFrom(b[used..], seen + [id], Heard(s, id, value))
  }

  function SettingsOf(payload: bytes): Result<PeerSettings, ControlError> {
    ParseFrom(payload, [], PeerSettings(false, false))
  }

  method ParseSettings(payload: bytes) returns (r: Result<PeerSettings, ControlError>)
    ensures r == SettingsOf(payload)
  {
    hide Header;
    var rest, seen, settings := payload, [], PeerSettings(false, false);
    while rest != []
      invariant ParseFrom(rest, seen, settings) == SettingsOf(payload)
      decreases |rest|
    {
      var pair := ReadHeader(rest);
      if pair.None? {
        return Err(MalformedSettings);
      }
      var (id, value, used) := pair.value;
      rest := rest[used..];
      if IsReserved(id) {
        return Err(ReservedSetting);
      }
      if id in seen {
        return Err(RepeatedSetting);
      }
      seen := seen + [id];
      settings := Heard(settings, id, value);
    }
    return Ok(settings);
  }

  /** A setting on the wire, its two integers in any lengths that fit. */
  datatype Setting = Setting(id: nat, value: nat, idLength: nat, valueLength: nat)

  predicate SoundSetting(s: Setting) {
    && IsLength(s.idLength) && s.id < Capacity(s.idLength)
    && IsLength(s.valueLength) && s.value < Capacity(s.valueLength)
  }

  predicate SoundSettings(ss: seq<Setting>) {
    forall i :: 0 <= i < |ss| ==> SoundSetting(ss[i])
  }

  function PairBytes(s: Setting): bytes
    requires SoundSetting(s)
  {
    EncodeIn(s.id, s.idLength) + EncodeIn(s.value, s.valueLength)
  }

  function PayloadBytes(ss: seq<Setting>): bytes
    requires SoundSettings(ss)
  {
    if ss == [] then [] else PairBytes(ss[0]) + PayloadBytes(ss[1..])
  }

  /** No identifier is reserved, and none comes twice. */
  predicate Allowed(ss: seq<Setting>) {
    && (forall i :: 0 <= i < |ss| ==> !IsReserved(ss[i].id))
    && (forall i, j :: 0 <= i < j < |ss| ==> ss[i].id != ss[j].id)
  }

  predicate Says(ss: seq<Setting>, id: nat) {
    exists i :: 0 <= i < |ss| && ss[i].id == id && ss[i].value == 1
  }

  lemma PairReads(s: Setting, rest: bytes)
    requires SoundSetting(s)
    ensures var b := PairBytes(s) + rest;
            b != [] && Header(b) == Some((s.id, s.value, |PairBytes(s)|)) && b[|PairBytes(s)|..] == rest
  {
    hide Get, EncodeIn;
    var tail := EncodeIn(s.value, s.valueLength) + rest;
    var b := PairBytes(s) + rest;
    assert b == EncodeIn(s.id, s.idLength) + tail;
    RoundTrip(s.id, s.idLength, tail);
    assert b[s.idLength..] == tail;
    RoundTrip(s.value, s.valueLength, rest);
  }

  lemma PairWasWritten(b: bytes) returns (s: Setting)
    requires Header(b).Some?
    ensures SoundSetting(s) && Header(b).value == (s.id, s.value, |PairBytes(s)|)
    ensures b == PairBytes(s) + b[|PairBytes(s)|..]
  {
    hide EncodeIn, Get, Capacity;
    var (id, n) := Get(b).value;
    var rest := b[n..];
    var (value, m) := Get(rest).value;
    s := Setting(id, value, n, m);
    IntegerWasWritten(b);
    IntegerWasWritten(rest);
    assert b[n + m..] == rest[m..];
  }

  /** Whether settings go on from where a reader stands. */
  predicate GoesOn(seen: seq<nat>, ss: seq<Setting>) {
    Allowed(ss) && forall i :: 0 <= i < |ss| ==> ss[i].id !in seen
  }

  function Meaning(s: PeerSettings, ss: seq<Setting>): PeerSettings
    decreases |ss|
  {
    if ss == [] then s else Meaning(Heard(s, ss[0].id, ss[0].value), ss[1..])
  }

  lemma GoesOnStep(seen: seq<nat>, ss: seq<Setting>)
    requires ss != []
    ensures GoesOn(seen, ss) <==>
            !IsReserved(ss[0].id) && ss[0].id !in seen && GoesOn(seen + [ss[0].id], ss[1..])
  {
    var rest := ss[1..];
    if GoesOn(seen + [ss[0].id], rest) {
      forall i | 0 <= i < |ss|
        ensures i > 0 ==> ss[i] == rest[i - 1] && ss[i].id != ss[0].id && ss[i].id !in seen && !IsReserved(ss[i].id)
      {
        if i > 0 {
          assert rest[i - 1].id !in seen + [ss[0].id];
        }
      }
    }
  }

  lemma {:induction false} ParsingReadsBack(ss: seq<Setting>, seen: seq<nat>, s: PeerSettings)
    requires SoundSettings(ss)
    ensures GoesOn(seen, ss) ==> ParseFrom(PayloadBytes(ss), seen, s) == Ok(Meaning(s, ss))
    ensures !GoesOn(seen, ss) ==> ParseFrom(PayloadBytes(ss), seen, s).Err?
    decreases |ss|
  {
    hide Header, PairBytes, GoesOn;
    if ss == [] {
      NothingGoesOn(seen);
    } else {
      var rest := PayloadBytes(ss[1..]);
      PairReads(ss[0], rest);
      GoesOnStep(seen, ss);
      if !IsReserved(ss[0].id) && ss[0].id !in seen {
        ParsingReadsBack(ss[1..], seen + [ss[0].id], Heard(s, ss[0].id, ss[0].value));
      }
    }
  }

  lemma NothingGoesOn(seen: seq<nat>)
    ensures GoesOn(seen, [])
  {
  }

  lemma {:induction false} ParsedWasWritten(b: bytes, seen: seq<nat>, s: PeerSettings) returns (ss: seq<Setting>)
    requires ParseFrom(b, seen, s).Ok?
    ensures SoundSettings(ss) && PayloadBytes(ss) == b
    decreases |b|
  {
    hide Header, PairBytes;
    if b == [] {
      ss := [];
    } else {
      var (id, value, used) := Header(b).value;
      var first := PairWasWritten(b);
      var rest := ParsedWasWritten(b[used..], seen + [id], Heard(s, id, value));
      ss := [first] + rest;
      assert ss[1..] == rest;
    }
  }

  /** Of settings that do not repeat, what was said does not depend on where it was said. */
  lemma {:induction false} MeaningIsWhatIsSaid(s: PeerSettings, ss: seq<Setting>)
    requires forall i, j :: 0 <= i < j < |ss| ==> ss[i].id != ss[j].id
    ensures Meaning(s, ss).h3Datagram ==
            if exists i :: 0 <= i < |ss| && ss[i].id == H3_DATAGRAM then Says(ss, H3_DATAGRAM) else s.h3Datagram
    ensures Meaning(s, ss).extendedConnect ==
            if exists i :: 0 <= i < |ss| && ss[i].id == ENABLE_CONNECT_PROTOCOL
            then Says(ss, ENABLE_CONNECT_PROTOCOL) else s.extendedConnect
    decreases |ss|
  {
    if ss != [] {
      var rest := ss[1..];
      MeaningIsWhatIsSaid(Heard(s, ss[0].id, ss[0].value), rest);
      SaysStep(ss, H3_DATAGRAM);
      SaysStep(ss, ENABLE_CONNECT_PROTOCOL);
    }
  }

  lemma SaysStep(ss: seq<Setting>, id: nat)
    requires ss != []
    requires forall i, j :: 0 <= i < j < |ss| ==> ss[i].id != ss[j].id
    ensures (exists i :: 0 <= i < |ss| && ss[i].id == id) <==>
            ss[0].id == id || exists i :: 0 <= i < |ss[1..]| && ss[1..][i].id == id
    ensures ss[0].id == id ==> (Says(ss, id) <==> ss[0].value == 1)
    ensures ss[0].id == id ==> !exists i :: 0 <= i < |ss[1..]| && ss[1..][i].id == id
    ensures ss[0].id != id ==> (Says(ss, id) <==> Says(ss[1..], id))
  {
    var rest := ss[1..];
    forall i | 0 <= i < |rest|
      ensures rest[i] == ss[i + 1] && rest[i].id != ss[0].id
    {
    }
    if i :| 0 <= i < |ss| && ss[i].id == id && i > 0 {
      assert rest[i - 1].id == id;
    }
    if ss[0].id != id && Says(ss, id) {
      var i :| 0 <= i < |ss| && ss[i].id == id && ss[i].value == 1;
      assert rest[i - 1].value == 1;
    }
  }

  /** A payload is accepted exactly when it is whole settings, none reserved and none repeated, and
      it says what those settings say, in whatever order they come. */
  lemma SettingsAreExact(payload: bytes, s: PeerSettings)
    ensures SettingsOf(payload) == Ok(s) <==>
            exists ss :: SoundSettings(ss) && PayloadBytes(ss) == payload && Allowed(ss)
                         && s == PeerSettings(Says(ss, H3_DATAGRAM), Says(ss, ENABLE_CONNECT_PROTOCOL))
  {
    hide PairBytes, Header;
    var none := PeerSettings(false, false);
    if SettingsOf(payload) == Ok(s) {
      var ss := ParsedWasWritten(payload, [], none);
      ParsingReadsBack(ss, [], none);
      assert Allowed(ss);
      MeaningIsWhatIsSaid(none, ss);
    }
    if ss :| SoundSettings(ss) && PayloadBytes(ss) == payload && Allowed(ss)
             && s == PeerSettings(Says(ss, H3_DATAGRAM), Says(ss, ENABLE_CONNECT_PROTOCOL)) {
      assert GoesOn([], ss);
      ParsingReadsBack(ss, [], none);
      MeaningIsWhatIsSaid(none, ss);
    }
  }

  // ----- the stream -----

  type Reply = Result<Option<ControlEvent>, ControlError>

  /** What one frame says, and whether SETTINGS have come after it. */
  function Heed(settled: bool, f: Frame): (Reply, bool) {
    if !settled then
      if f.kind != SETTINGS then (Err(MissingSettings), false)
      else
        match SettingsOf(f.payload)
        case Ok(s) => (Ok(Some(Settled(s))), true)
        case Err(e) => (Err(e), true)
    else if f.kind == GOAWAY then
      match Get(f.payload)
      case None => (Err(MalformedGoAway), true)
      case Some((id, used)) =>
        (if used != |f.payload| then Err(MalformedGoAway) else Ok(Some(GoAway(id))), true)
    else if f.kind == CANCEL_PUSH || f.kind == MAX_PUSH_ID then (Ok(None), true)
    else (Err(Unexpected(f.kind)), true)
  }

  class ControlStream {
    var settled: bool

    constructor ()
      ensures !settled
    {
      settled := false;
    }

    method OnFrame(f: Frame) returns (answer: Reply)
      modifies this
      ensures (answer, settled) == Heed(old(settled), f)
    {
      if !settled {
        if f.kind != SETTINGS {
          return Err(MissingSettings);
        }
        settled := true;
        var s := ParseSettings(f.payload);
        match s
        case Ok(said) => return Ok(Some(Settled(said)));
        case Err(e) => return Err(e);
      }
      if f.kind == GOAWAY {
        var id := Read(f.payload);
        if id.None? || id.value.1 != |f.payload| {
          return Err(MalformedGoAway);
        }
        return Ok(Some(GoAway(id.value.0)));
      }
      if f.kind == CANCEL_PUSH || f.kind == MAX_PUSH_ID {
        return Ok(None);
      }
      return Err(Unexpected(f.kind));
    }
  }

  /** Frame after frame, until one is an error. */
  function Listen(settled: bool, frames: seq<Frame>): (seq<ControlEvent>, Option<ControlError>)
    decreases |frames|
  {
    if frames == [] then ([], None)
    else
      match Heed(settled, frames[0])
      case (Err(e), _) => ([], Some(e))
      case (Ok(event), still) =>
        var (more, error) := Listen(still, frames[1..]);
        ((if event.Some? then [event.value] else []) + more, error)
  }

  /** A frame with a place on a control stream once SETTINGS have come. */
  predicate HasPlace(f: Frame) {
    || f.kind == CANCEL_PUSH || f.kind == MAX_PUSH_ID
    || (f.kind == GOAWAY && Get(f.payload).Some? && Get(f.payload).value.1 == |f.payload|)
  }

  /** The identifiers of the GOAWAY frames, in order. */
  function GoAways(frames: seq<Frame>): seq<ControlEvent>
    requires forall i :: 0 <= i < |frames| ==> HasPlace(frames[i])
  {
    if frames == [] then []
    else
      assert HasPlace(frames[0]);
      (if frames[0].kind == GOAWAY then [GoAway(Get(frames[0].payload).value.0)] else []) + GoAways(frames[1..])
  }

  lemma {:induction false} SettledRuns(frames: seq<Frame>)
    ensures Listen(true, frames).1.None? <==> forall i :: 0 <= i < |frames| ==> HasPlace(frames[i])
    ensures Listen(true, frames).1.None? ==> Listen(true, frames).0 == GoAways(frames)
    decreases |frames|
  {
    hide Get;
    if frames != [] {
      SettledRuns(frames[1..]);
      assert Heed(true, frames[0]).0.Ok? <==> HasPlace(frames[0]);
      if forall i :: 0 <= i < |frames[1..]| ==> HasPlace(frames[1..][i]) {
        forall i | 0 < i < |frames|
          ensures HasPlace(frames[i])
        {
          assert frames[i] == frames[1..][i - 1];
        }
      }
      if forall i :: 0 <= i < |frames| ==> HasPlace(frames[i]) {
        assert forall i :: 0 <= i < |frames[1..]| ==> HasPlace(frames[1..][i]);
      }
    }
  }

  /** A control stream is without error exactly when it is empty, or opens with acceptable SETTINGS,
      after which only push frames and whole GOAWAYs come and never SETTINGS again; what it says is
      its settings, then each GOAWAY in order. */
  lemma RunsAreExact(frames: seq<Frame>)
    ensures Listen(false, frames).1.None? <==>
            frames == [] ||
            (frames[0].kind == SETTINGS && SettingsOf(frames[0].payload).Ok?
             && forall i :: 0 < i < |frames| ==> HasPlace(frames[i]))
    ensures frames != [] && Listen(false, frames).1.None? ==>
              var rest := frames[1..];
              (forall i :: 0 <= i < |rest| ==> HasPlace(rest[i]))
              && Listen(false, frames).0 == [Settled(SettingsOf(frames[0].payload).value)] + GoAways(rest)
  {
    hide Get, SettingsOf;
    if frames != [] {
      var rest := frames[1..];
      SettledRuns(rest);
      if forall i :: 0 <= i < |rest| ==> HasPlace(rest[i]) {
        forall i | 0 < i < |frames|
          ensures HasPlace(frames[i])
        {
          assert frames[i] == rest[i - 1];
        }
      }
    }
  }

  // ----- what an error says -----

  /** A settled stream ends at the first frame without a place, which its error names. */
  lemma {:induction false} TheFirstStrayEndsIt(frames: seq<Frame>) returns (n: nat)
    requires Listen(true, frames).1.Some?
    ensures n < |frames| && !HasPlace(frames[n]) && forall i :: 0 <= i < n ==> HasPlace(frames[i])
    ensures Listen(true, frames) ==
            (GoAways(frames[..n]),
             Some(if frames[n].kind == GOAWAY then MalformedGoAway else Unexpected(frames[n].kind)))
    decreases |frames|
  {
    hide Get;
    if HasPlace(frames[0]) {
      var rest := frames[1..];
      var m := TheFirstStrayEndsIt(rest);
      n := m + 1;
      forall i | 0 <= i < n
        ensures HasPlace(frames[i])
      {
        if i > 0 {
          assert frames[i] == rest[i - 1];
        }
      }
      assert frames[..n][1..] == rest[..m];
    } else {
      n := 0;
      assert frames[..0] == [];
    }
  }

  /** A control stream fails at its first frame unless that is acceptable SETTINGS, with the error of what it
      says, and otherwise at the first frame without a place, after the settings and each GOAWAY before. */
  lemma TheErrorIsTheFirst(frames: seq<Frame>) returns (n: nat)
    requires Listen(false, frames).1.Some?
    ensures n < |frames|
    ensures var (events, error) := Listen(false, frames);
            var first := frames[0];
            if first.kind != SETTINGS then n == 0 && events == [] && error == Some(MissingSettings)
            else
              match SettingsOf(first.payload)
              case Err(e) => n == 0 && events == [] && error == Some(e)
              case Ok(s) =>
                && n > 0 && !HasPlace(frames[n]) && (forall i :: 0 <= i < n - 1 ==> HasPlace(frames[1..n][i]))
                && events == [Settled(s)] + GoAways(frames[1..n])
                && error == Some(if frames[n].kind == GOAWAY then MalformedGoAway else Unexpected(frames[n].kind))
  {
    hide Get, SettingsOf;
    n := 0;
    if frames[0].kind == SETTINGS && SettingsOf(frames[0].payload).Ok? {
      var rest := frames[1..];
      var m := TheFirstStrayEndsIt(rest);
      n := m + 1;
      assert rest[..m] == frames[1..n];
    }
  }

  /** Settings fail at the first that is reserved or comes again, and at what is left if that is no setting. */
  lemma {:induction false} TheFirstBadSettingEndsIt(ss: seq<Setting>, tail: bytes, seen: seq<nat>, s: PeerSettings)
    requires SoundSettings(ss)
    ensures GoesOn(seen, ss) && tail != [] && Header(tail).None? ==>
              ParseFrom(PayloadBytes(ss) + tail, seen, s) == Err(MalformedSettings)
    ensures !GoesOn(seen, ss) ==>
              exists i: nat :: i < |ss| && FirstBad(seen, ss, i) &&
                ParseFrom(PayloadBytes(ss) + tail, seen, s) ==
                Err(if IsReserved(ss[i].id) then ReservedSetting else RepeatedSetting)
    decreases |ss|
  {
    hide Header, PairBytes, GoesOn, FirstBad;
    if ss == [] {
      NothingGoesOn(seen);
      assert PayloadBytes(ss) + tail == tail;
    } else {
      var rest := ss[1..];
      assert PayloadBytes(ss) + tail == PairBytes(ss[0]) + (PayloadBytes(rest) + tail);
      PairReads(ss[0], PayloadBytes(rest) + tail);
      GoesOnStep(seen, ss);
      if IsReserved(ss[0].id) || ss[0].id in seen {
        BadAtOnce(seen, ss);
        assert FirstBad(seen, ss, 0);
      } else {
        var next := Heard(s, ss[0].id, ss[0].value);
        TheFirstBadSettingEndsIt(rest, tail, seen + [ss[0].id], next);
        if !GoesOn(seen, ss) {
          var i: nat :| i < |rest| && FirstBad(seen + [ss[0].id], rest, i) &&
            ParseFrom(PayloadBytes(rest) + tail, seen + [ss[0].id], next) ==
            Err(if IsReserved(rest[i].id) then ReservedSetting else RepeatedSetting);
          BadLater(seen, ss, i);
        }
      }
    }
  }

  /** The setting at `i` is reserved or comes again, and none before it. */
  ghost predicate FirstBad(seen: seq<nat>, ss: seq<Setting>, i: nat)
    requires i < |ss|
  {
    && (IsReserved(ss[i].id) || ss[i].id in seen || exists j :: 0 <= j < i && ss[j].id == ss[i].id)
    && GoesOn(seen, ss[..i])
  }

  lemma BadAtOnce(seen: seq<nat>, ss: seq<Setting>)
    requires ss != [] && (IsReserved(ss[0].id) || ss[0].id in seen)
    ensures FirstBad(seen, ss, 0)
  {
    assert ss[..0] == [];
  }

  lemma BadLater(seen: seq<nat>, ss: seq<Setting>, i: nat)
    requires ss != [] && !IsReserved(ss[0].id) && ss[0].id !in seen
    requires i < |ss[1..]| && FirstBad(seen + [ss[0].id], ss[1..], i)
    ensures FirstBad(seen, ss, i + 1) && ss[i + 1] == ss[1..][i]
  {
    assert ss[..i + 1][1..] == ss[1..][..i];
    GoesOnStep(seen, ss[..i + 1]);
    var rest := ss[1..];
    if j :| 0 <= j < i && rest[j].id == rest[i].id {
      assert ss[j + 1].id == ss[i + 1].id;
    }
  }

  /** A SETTINGS payload that is not accepted, of whole settings and what is left after them: the error is that
      of the first setting that is reserved or comes again, or that what is left is no setting. */
  lemma TheFirstBadSetting(ss: seq<Setting>, tail: bytes)
    requires SoundSettings(ss)
    ensures Allowed(ss) && tail != [] && Header(tail).None? ==>
              SettingsOf(PayloadBytes(ss) + tail) == Err(MalformedSettings)
    ensures !Allowed(ss) ==>
              exists i: nat :: i < |ss| && Allowed(ss[..i]) && !Allowed(ss[..i + 1]) &&
                SettingsOf(PayloadBytes(ss) + tail) ==
                Err(if 2 <= ss[i].id <= 5 then ReservedSetting else RepeatedSetting)
  {
    hide Header, PayloadBytes, ParseFrom;
    TheFirstBadSettingEndsIt(ss, tail, [], PeerSettings(false, false));
    if !Allowed(ss) {
      var i: nat :| i < |ss| && FirstBad([], ss, i) && SettingsOf(PayloadBytes(ss) + tail) ==
        Err(if IsReserved(ss[i].id) then ReservedSetting else RepeatedSetting);
      NotAllowed(ss, i);
    }
  }

  lemma NotAllowed(ss: seq<Setting>, i: nat)
    requires i < |ss| && FirstBad([], ss, i)
    ensures Allowed(ss[..i]) && !Allowed(ss[..i + 1])
  {
    var upto := ss[..i + 1];
    assert upto[i] == ss[i];
    if j :| 0 <= j < i && ss[j].id == ss[i].id {
      assert upto[j].id == upto[i].id;
    }
  }

  // ----- this side's opening -----

  function Ours(): (ss: seq<Setting>)
    ensures SoundSettings(ss) && Allowed(ss)
  {
    [Setting(ENABLE_CONNECT_PROTOCOL, 1, 1, 1), Setting(H3_DATAGRAM, 1, 1, 1),
     Setting(H3_DATAGRAM_DRAFT00, 1, 2, 1)]
  }

  function Preamble(): Wire {
    Wire(Frame(SETTINGS, PayloadBytes(Ours())), 1, 1)
  }

  lemma OursAre()
    ensures PayloadBytes(Ours()) == Encode(ENABLE_CONNECT_PROTOCOL) + Encode(1) + Encode(H3_DATAGRAM) + Encode(1) +
                                    Encode(H3_DATAGRAM_DRAFT00) + Encode(1)
    ensures |PayloadBytes(Ours())| == 7
  {
    hide EncodeIn;
    var ss := Ours();
    assert PayloadBytes(ss[3..]) == [];
    assert ss[1..][1..] == ss[2..] && ss[2..][1..] == ss[3..];
    assert PayloadBytes(ss[2..]) == PairBytes(ss[2]) + PayloadBytes(ss[3..]);
    assert PayloadBytes(ss[1..]) == PairBytes(ss[1]) + PayloadBytes(ss[2..]);
    assert PayloadBytes(ss) == PairBytes(ss[0]) + PayloadBytes(ss[1..]);
  }

  /** What this side writes first on its own control stream. */
  method ControlStreamPreface() returns (preface: bytes)
    ensures Sound(Preamble()) && preface == Encode(CONTROL) + WireBytes(Preamble())
  {
    hide EncodeIn;
    OursAre();
    var settings := new Buffer();
    Put(settings, ENABLE_CONNECT_PROTOCOL);
    Put(settings, 1);
    Put(settings, H3_DATAGRAM);
    Put(settings, 1);
    Put(settings, H3_DATAGRAM_DRAFT00);
    Put(settings, 1);
    assert settings.data == PayloadBytes(Ours());
    var out := new Buffer();
    Put(out, CONTROL);
    PutFrame(out, SETTINGS, settings.data);
    return out.data;
  }

  lemma OpeningIsOneFrame(chunks: seq<bytes>)
    requires Sound(Preamble()) && Flatten(chunks) == WireBytes(Preamble())
    ensures Feed(Reader([], 0), chunks) == ([Preamble().frame], None)
  {
    hide EncodeIn, WireBytes, Feed, Ours, Parse;
    OursAre();
    var w := Preamble();
    assert StreamBytes([w]) == WireBytes(w) + StreamBytes([w][1..]);
    assert WireBytes(w) + [] == WireBytes(w);
    FramesSurviveAnyCut([w], chunks);
    assert Visible([w][1..]) == ([], None);
    assert |w.frame.payload| <= MAX_FRAME ==> Visible([w]) == ([w.frame] + [], None);
    assert [w.frame] + [] == [w.frame];
  }

  lemma OpeningSettles()
    ensures SettingsOf(Preamble().frame.payload) == Ok(PeerSettings(true, true))
  {
    hide EncodeIn, SettingsOf, PayloadBytes;
    var ss := Ours();
    assert ss[0].value == 1 && ss[1].value == 1;
    assert Says(ss, H3_DATAGRAM) && Says(ss, ENABLE_CONNECT_PROTOCOL);
    SettingsAreExact(PayloadBytes(ss), PeerSettings(true, true));
  }

  /** However it is cut after its type, this side's opening is read as a control stream that is
      settled, with datagrams and extended CONNECT both on. */
  lemma TheOpeningIsUnderstood(chunks: seq<bytes>)
    requires Sound(Preamble()) && Flatten(chunks) == WireBytes(Preamble())
    ensures Get(Encode(CONTROL) + Flatten(chunks)) == Some((CONTROL, 1))
    ensures var (frames, error) := Feed(Reader([], 0), chunks);
            error.None? && Listen(false, frames) == ([Settled(PeerSettings(true, true))], None)
  {
    hide EncodeIn, WireBytes, Feed, SettingsOf, PayloadBytes, Get;
    RoundTrip(CONTROL, 1, Flatten(chunks));
    OpeningIsOneFrame(chunks);
    OpeningSettles();
    RunsAreExact([Preamble().frame]);
    var said := Settled(PeerSettings(true, true));
    assert GoAways([Preamble().frame][1..]) == [] && [said] + [] == [said];
  }
}

/** The request that opens the tunnel, from its fields to its stream and back (src/transport/http3.rs). */
module Requests {
  import opened Common
  import opened Buffers
  import opened Varint
  import opened Frames
  import Qpack
  import opened StaticTable

  function Section(fields: seq<Field>): bytes {
    [0, 0] + Qpack.FieldsBytes(fields)
  }

  function RequestFrame(section: bytes): Wire {
    Wire(Frame(HEADERS, section), Len(HEADERS), Len(|section|))
  }

  /** Fields as one frame of a request stream. */
  method HeadersFrame(fields: seq<Field>) returns (r: bytes)
    requires |Section(fields)| <= MAX
    ensures Sound(RequestFrame(Section(fields))) && r == WireBytes(RequestFrame(Section(fields)))
  {
    hide WireBytes;
    var section := new Buffer();
    Qpack.Encode(fields, section);
    assert section.data == Section(fields);
    var out := new Buffer();
    PutFrame(out, HEADERS, section.data);
    return out.data;
  }

  /** However its frame is cut on the way, a request of any fields arrives as one HEADERS frame whose
      section decodes to those fields, or is refused exactly when the section is longer than a frame
      may be. */
  lemma RequestsAreUnderstood(fields: seq<Field>, chunks: seq<bytes>)
    requires forall i :: 0 <= i < |fields| ==> Qpack.InMemory(fields[i])
    requires |Section(fields)| <= MAX
    requires Flatten(chunks) == WireBytes(RequestFrame(Section(fields)))
    ensures Feed(Reader([], 0), chunks) ==
            if |Section(fields)| <= MAX_FRAME then ([Frame(HEADERS, Section(fields))], None)
            else ([], Some(FrameTooLong(HEADERS, |Section(fields)|)))
    ensures Qpack.DecodeOf(Section(fields)) == Ok(fields)
  {
    hide WireBytes, Feed, Parse, Section, Qpack.DecodeOf;
    var w := RequestFrame(Section(fields));
    assert StreamBytes([w]) == WireBytes(w) + StreamBytes([w][1..]);
    assert WireBytes(w) + [] == WireBytes(w);
    FramesSurviveAnyCut([w], chunks);
    assert Visible([w][1..]) == ([], None);
    assert |w.frame.payload| <= MAX_FRAME ==> Visible([w]) == ([w.frame] + [], None);
    assert [w.frame] + [] == [w.frame];
    SectionReadsBack(fields);
  }

  lemma SectionReadsBack(fields: seq<Field>)
    requires forall i :: 0 <= i < |fields| ==> Qpack.InMemory(fields[i])
    ensures Qpack.DecodeOf(Section(fields)) == Ok(fields)
  {
    Qpack.RoundTrip(fields);
  }
}
