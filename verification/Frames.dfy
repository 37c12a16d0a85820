/** HTTP/3 frames, read from a stream in whatever pieces it arrives, sections 7.1 and 9 of RFC 9114
    (src/transport/http3.rs). */
module Frames {
  import opened Common
  import opened Buffers
  import opened Varint

  const MAX_FRAME: nat := 65_535

  const DATA: nat := 0x00
  const HEADERS: nat := 0x01
  const CANCEL_PUSH: nat := 0x03
  const SETTINGS: nat := 0x04
  const PUSH_PROMISE: nat := 0x05
  const GOAWAY: nat := 0x07
  const MAX_PUSH_ID: nat := 0x0d

  /** The frame types with a meaning, the ones reserved from HTTP/2 included. */
  predicate IsKnown(kind: nat) {
    || kind == DATA || kind == HEADERS || kind == CANCEL_PUSH || kind == SETTINGS
    || kind == PUSH_PROMISE || kind == GOAWAY || kind == MAX_PUSH_ID
    || kind == 0x02 || kind == 0x06 || kind == 0x08 || kind == 0x09
  }

  datatype Frame = Frame(kind: nat, payload: bytes)

  datatype FrameError = FrameTooLong(kind: nat, length: nat)

  type Answer = Result<Option<Frame>, FrameError>

  /** The state of a reader: octets that are not yet a whole frame, and how many more of an unknown
      frame are to be discarded. */
  datatype Reader = Reader(pending: bytes, skipping: nat)

  /** Discard what has arrived of an unknown frame. */
  function Skip(r: Reader): Reader {
    var n := Min(|r.pending|, r.skipping);
    Reader(r.pending[n..], r.skipping - n)
  }

  /** The type and length at the front of a buffer, and how many octets they take. */
  function Header(b: bytes): (h: Option<(nat, nat, nat)>)
    ensures h.Some? ==> 2 <= h.value.2 <= |b|
    ensures h.None? ==> |b| < 16
  {
    var kind := Get(b);
    if kind.None? then None
    else
      var length := Get(b[kind.value.1..]);
      if length.None? then None
      else Some((kind.value.0, length.value.0, kind.value.1 + length.value.1))
  }

  method ReadHeader(b: bytes) returns (h: Option<(nat, nat, nat)>)
    ensures h == Header(b)
  {
    var kind := Read(b);
    if kind.None? {
      return None;
    }
    var length := Read(b[kind.value.1..]);
    if length.None? {
      return None;
    }
    return Some((kind.value.0, length.value.0, kind.value.1 + length.value.1));
  }

  function Next(r: Reader): (a: (Answer, Reader))
    ensures |a.1.pending| <= |r.pending|
    ensures a.0.Ok? && a.0.value.Some? ==> |a.1.pending| < |r.pending|
    decreases |r.pending|
  {
    var s := Skip(r);
    if s.skipping > 0 || Header(s.pending).None? then (Ok(None), s)
    else
      var (kind, length, start) := Header(s.pending).value;
      if !IsKnown(kind) then Next(Reader(s.pending[start..], length))
      else if length > MAX_FRAME then (Err(FrameTooLong(kind, length)), s)
      else if |s.pending| < start + length then (Ok(None), s)
      else
        (Ok(Some(Frame(kind, s.pending[start..start + length]))), Reader(s.pending[start + length..], 0))
  }

  class FrameReader {
    const pending: Buffer
    var skipping: nat

    ghost function State(): Reader
      reads this, pending
    {
      Reader(pending.data, skipping)
    }

    constructor ()
      ensures State() == Reader([], 0) && fresh(pending)
    {
      pending := new Buffer();
      skipping := 0;
    }

    /** More octets of the stream arrived. */
    method Extend(chunk: bytes)
      requires pending as object != this
      modifies pending
      ensures State() == old(State()).(pending := old(pending.data) + chunk)
    {
      pending.Put(chunk);
    }

    method Discard()
      requires pending as object != this
      modifies this, pending
      ensures State() == Skip(old(State()))
    {
      if skipping > 0 {
        var skip := Min(|pending.data|, skipping);
        pending.Advance(skip);
        skipping := skipping - skip;
      }
    }

    /** Read on until a known frame is whole, an unknown one is not, or a length is refused. */
    method NextFrame() returns (answer: Answer)
      requires pending as object != this
      modifies this, pending
      ensures (answer, State()) == Next(old(State()))
    {
      hide Header, IsKnown;
      while true
        invariant Next(State()) == Next(old(State()))
        decreases |pending.data|
      {
        Discard();
        if skipping > 0 {
          return Ok(None);
        }
        var header := ReadHeader(pending.data);
        if header.None? {
          return Ok(None);
        }
        var (kind, length, start) := header.value;
        if !IsKnown(kind) {
          pending.Advance(start);
          skipping := length;
        } else if length > MAX_FRAME {
          return Err(FrameTooLong(kind, length));
        } else {
          if |pending.data| < start + length {
            return Ok(None);
          }
          ghost var b := pending.data;
          pending.Advance(start);
          var payload := pending.SplitTo(length);
          assert payload == b[start..start + length] && pending.data == b[start + length..];
          return Ok(Some(Frame(kind, payload)));
        }
      }
    }
  }

  /** After a `None`, fewer octets are buffered than one frame and two integers take. */
  lemma {:induction false} LittleIsBuffered(r: Reader)
    ensures Next(r).0 == Ok(None) ==> |Next(r).1.pending| < MAX_FRAME + 16
    decreases |r.pending|
  {
    hide IsKnown;
    var s := Skip(r);
    if s.skipping == 0 && Header(s.pending).Some? {
      var (kind, length, start) := Header(s.pending).value;
      if !IsKnown(kind) {
        LittleIsBuffered(Reader(s.pending[start..], length));
      }
    }
  }

  // ----- reading a stream in pieces -----

  /** Frames until the reader has no more, or objects. */
  function DrainReader(r: Reader): (seq<Frame>, Option<FrameError>, Reader)
    decreases |r.pending|
  {
    var (answer, left) := Next(r);
    match answer
    case Err(e) => ([], Some(e), left)
    case Ok(None) => ([], None, left)
    case Ok(Some(frame)) =>
      var (more, error, end) := DrainReader(left);
      ([frame] + more, error, end)
  }

  /** A stream read chunk by chunk, each drained before the next; an error ends it. */
  function Feed(r: Reader, chunks: seq<bytes>): (seq<Frame>, Option<FrameError>)
    decreases |chunks|
  {
    if chunks == [] then ([], None)
    else
      var (frames, error, left) := DrainReader(r.(pending := r.pending + chunks[0]));
      if error.Some? then (frames, error)
      else
        var (more, end) := Feed(left, chunks[1..]);
        (frames + more, end)
  }

  /** The one-shot reading of a whole stream, `skip` octets of which belong to an unknown frame. */
  function Parse(b: bytes, skip: nat): (seq<Frame>, Option<FrameError>)
    decreases |b|
  {
    if skip > |b| || Header(b[skip..]).None? then ([], None)
    else
      var c := b[skip..];
      var (kind, length, start) := Header(c).value;
      if !IsKnown(kind) then Parse(c[start..], length)
      else if length > MAX_FRAME then ([], Some(FrameTooLong(kind, length)))
      else if |c| < start + length then ([], None)
      else
        var (more, error) := Parse(c[start + length..], 0);
        ([Frame(kind, c[start..start + length])] + more, error)
  }

  /** A header that is whole stays what it is however much more arrives. */
  lemma HeaderStable(b: bytes, more: bytes)
    requires Header(b).Some?
    ensures Header(b + more) == Header(b)
    ensures (b + more)[Header(b).value.2..] == b[Header(b).value.2..] + more
  {
    hide DeclaredLength, Fold;
    var k := Get(b).value.1;
    GetStable(b, more);
    var rest := b[k..];
    assert (b + more)[k..] == rest + more;
    GetStable(rest, more);
  }

  lemma SkipSplits(r: Reader, more: bytes)
    ensures var s := Skip(r);
            && (s.skipping > 0 ==> s.pending == [])
            && Parse(r.pending + more, r.skipping) == Parse(s.pending + more, s.skipping)
  {
    hide Header, IsKnown;
    var s := Skip(r);
    var b, c := r.pending + more, s.pending + more;
    if r.skipping <= |b| {
      assert b[r.skipping..] == c[s.skipping..];
      ParseSkips(b, r.skipping, c, s.skipping);
    }
  }

  lemma ParseSkips(b: bytes, n: nat, c: bytes, m: nat)
    requires n <= |b| && m <= |c| && b[n..] == c[m..]
    ensures Parse(b, n) == Parse(c, m)
  {
    hide Header, IsKnown;
  }

  /** One answer of the reader, against the one-shot reading of all that has arrived and will. */
  lemma {:induction false} NextAgrees(r: Reader, more: bytes)
    ensures var (answer, left) := Next(r);
            var all := Parse(r.pending + more, r.skipping);
            match answer
            case Err(e) => all == ([], Some(e))
            case Ok(None) => all == Parse(left.pending + more, left.skipping)
            case Ok(Some(frame)) =>
              var rest := Parse(left.pending + more, left.skipping);
              all == ([frame] + rest.0, rest.1)
    decreases |r.pending|
  {
    hide Header, IsKnown;
    SkipSplits(r, more);
    var s := Skip(r);
    if s.skipping == 0 && Header(s.pending).Some? {
      var all := s.pending + more;
      assert all[0..] == all;
      HeaderStable(s.pending, more);
      var (kind, length, start) := Header(s.pending).value;
      if !IsKnown(kind) {
        NextAgrees(Reader(s.pending[start..], length), more);
      } else if length <= MAX_FRAME && |s.pending| >= start + length {
        assert all[start..start + length] == s.pending[start..start + length];
        assert all[start + length..] == s.pending[start + length..] + more;
      }
    }
  }

  lemma {:induction false} DrainAgrees(r: Reader, more: bytes)
    ensures var (frames, error, left) := DrainReader(r);
            var all := Parse(r.pending + more, r.skipping);
            var rest := Parse(left.pending + more, left.skipping);
            all == if error.Some? then (frames, error) else (frames + rest.0, rest.1)
    decreases |r.pending|
  {
    hide Next, Parse;
    NextAgrees(r, more);
    var (answer, left) := Next(r);
    if answer.Ok? && answer.value.Some? {
      DrainAgrees(left, more);
      var (frames, error, end) := DrainReader(left);
      var rest := Parse(end.pending + more, end.skipping);
      assert [answer.value.value] + (frames + rest.0) == ([answer.value.value] + frames) + rest.0;
    } else if answer.Ok? {
      var rest := Parse(left.pending + more, left.skipping);
      assert [] + rest.0 == rest.0;
    }
  }

  /** The end of a stream: what a drained reader still holds reads as nothing. */
  lemma {:induction false} DrainedIsQuiet(r: Reader)
    ensures DrainReader(r).1.None? ==>
              Parse(DrainReader(r).2.pending, DrainReader(r).2.skipping) == ([], None)
    decreases |r.pending|
  {
    hide Parse;
    var (answer, left) := Next(r);
    if answer.Ok? {
      if answer.value.Some? {
        DrainedIsQuiet(left);
      } else {
        NothingIsQuiet(r);
      }
    }
  }

  lemma {:induction false} NothingIsQuiet(r: Reader)
    requires Next(r).0 == Ok(None)
    ensures Parse(Next(r).1.pending, Next(r).1.skipping) == ([], None)
    decreases |r.pending|
  {
    hide Header, IsKnown;
    var s := Skip(r);
    if s.skipping == 0 {
      assert s.pending[0..] == s.pending;
      if Header(s.pending).Some? && !IsKnown(Header(s.pending).value.0) {
        var (_, length, start) := Header(s.pending).value;
        NothingIsQuiet(Reader(s.pending[start..], length));
      }
    }
  }

  lemma {:induction false} FeedAgrees(r: Reader, chunks: seq<bytes>)
    requires Parse(r.pending, r.skipping) == ([], None)
    ensures Feed(r, chunks) == Parse(r.pending + Flatten(chunks), r.skipping)
    decreases |chunks|
  {
    hide Parse, DrainReader;
    if chunks == [] {
      assert r.pending + Flatten(chunks) == r.pending;
    } else {
      var fed := r.(pending := r.pending + chunks[0]);
      assert r.pending + Flatten(chunks) == fed.pending + Flatten(chunks[1..]);
      DrainAgrees(fed, Flatten(chunks[1..]));
      DrainedIsQuiet(fed);
      if DrainReader(fed).1.None? {
        FeedAgrees(DrainReader(fed).2, chunks[1..]);
      }
    }
  }

  /** However the stream is cut between `extend` calls, the frames drained and the error are those
      of a single reading of all its octets. */
  lemma CutsDoNotMatter(chunks: seq<bytes>)
    ensures Feed(Reader([], 0), chunks) == Parse(Flatten(chunks), 0)
  {
    assert [] + Flatten(chunks) == Flatten(chunks);
    assert Parse([], 0) == ([], None);
    FeedAgrees(Reader([], 0), chunks);
  }

  // ----- what is on the wire -----

  /** A frame on the wire, its two integers in any lengths that fit. */
  datatype Wire = Wire(frame: Frame, kindLength: nat, lengthLength: nat)

  predicate Sound(w: Wire) {
    && IsLength(w.kindLength) && w.frame.kind < Capacity(w.kindLength)
    && IsLength(w.lengthLength) && |w.frame.payload| < Capacity(w.lengthLength)
  }

  function WireBytes(w: Wire): bytes
    requires Sound(w)
  {
    EncodeIn(w.frame.kind, w.kindLength) + EncodeIn(|w.frame.payload|, w.lengthLength) + w.frame.payload
  }

  method PutFrame(out: Buffer, kind: nat, payload: bytes)
    requires kind <= MAX && |payload| <= MAX
    modifies out
    ensures var w := Wire(Frame(kind, payload), Len(kind), Len(|payload|));
            Sound(w) && out.data == old(out.data) + WireBytes(w)
  {
    Put(out, kind);
    Put(out, |payload|);
    out.Put(payload);
    assert out.data == old(out.data) + (Encode(kind) + Encode(|payload|) + payload);
  }

  function StreamBytes(ws: seq<Wire>): bytes
    requires forall i :: 0 <= i < |ws| ==> Sound(ws[i])
  {
    if ws == [] then [] else WireBytes(ws[0]) + StreamBytes(ws[1..])
  }

  /** The frames the caller sees: those of a known type, up to the first that is too long. */
  function Visible(ws: seq<Wire>): (seq<Frame>, Option<FrameError>) {
    if ws == [] then ([], None)
    else
      var frame := ws[0].frame;
      if !IsKnown(frame.kind) then Visible(ws[1..])
      else if |frame.payload| > MAX_FRAME then ([], Some(FrameTooLong(frame.kind, |frame.payload|)))
      else
        var (more, error) := Visible(ws[1..]);
        ([frame] + more, error)
  }

  lemma WireHeader(w: Wire, rest: bytes)
    requires Sound(w)
    ensures var b := WireBytes(w) + rest;
            var k, n := w.kindLength, w.lengthLength;
            && Header(b) == Some((w.frame.kind, |w.frame.payload|, k + n))
            && b[k + n..] == w.frame.payload + rest
  {
    hide Get, EncodeIn;
    var b := WireBytes(w) + rest;
    var k, n := w.kindLength, w.lengthLength;
    var tail := EncodeIn(|w.frame.payload|, n) + (w.frame.payload + rest);
    assert b == EncodeIn(w.frame.kind, k) + tail;
    RoundTrip(w.frame.kind, k, tail);
    assert b[k..] == tail;
    RoundTrip(|w.frame.payload|, n, w.frame.payload + rest);
  }

  /** Frames of known types come out whole and in order; unknown frames of any length vanish; a known
      frame longer than this side buffers is the error. */
  lemma {:induction false} StreamReadsBack(ws: seq<Wire>)
    requires forall i :: 0 <= i < |ws| ==> Sound(ws[i])
    ensures Parse(StreamBytes(ws), 0) == Visible(ws)
  {
    hide Header, IsKnown, WireBytes;
    var b := StreamBytes(ws);
    assert b[0..] == b;
    if ws == [] {
      NothingHasNoFront();
    } else {
      var w, rest := ws[0], StreamBytes(ws[1..]);
      WireHeader(w, rest);
      StreamReadsBack(ws[1..]);
      var start := w.kindLength + w.lengthLength;
      var total := start + |w.frame.payload|;
      assert b[start..] == w.frame.payload + rest;
      assert b[total..] == rest && b[start..total] == w.frame.payload by {
        assert b[start..][|w.frame.payload|..] == rest;
        assert b[start..][..|w.frame.payload|] == w.frame.payload;
      }
      if !IsKnown(w.frame.kind) {
        ParseSkips(b[start..], |w.frame.payload|, rest, 0);
      }
    }
  }

  lemma NothingHasNoFront()
    ensures Header([]).None?
  {
  }

  /** End to end: any frames, in any lengths of integers, cut anywhere. */
  lemma FramesSurviveAnyCut(ws: seq<Wire>, chunks: seq<bytes>)
    requires forall i :: 0 <= i < |ws| ==> Sound(ws[i])
    requires Flatten(chunks) == StreamBytes(ws)
    ensures Feed(Reader([], 0), chunks) == Visible(ws)
  {
    CutsDoNotMatter(chunks);
    StreamReadsBack(ws);
  }

  /** The types with a meaning are those of RFC 9114 and the four reserved from HTTP/2: all below ten, and
      thirteen. */
  lemma KnownTypes(kind: nat)
    ensures IsKnown(kind) <==> kind < 10 || kind == 13
  {
  }
}
