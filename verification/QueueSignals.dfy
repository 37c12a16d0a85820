/** When CoDel tells a sender to slow down (src/queue.rs): what the log of a run says of a bucket decides
    every signal to it, and what each signal leads to. */
module QueueSignals {
  import opened Common
  import opened Packets
  import opened QueueModel
  import opened QueueLog
  import opened QueueInvariant

  // ----- what the log says of a bucket -----

  /** Whether the packet before was dropped to give a signal: the first of an episode, or a later one. */
  datatype Dropped = No | AsFirst | AsLater

  /** When the delay will have stood long enough; whether an episode of signals is under way, how many
      signals it counts and when the next is due; and the interval in force. */
  datatype Memory = Memory(
    clock: Option<int>,
    episode: bool,
    count: nat,
    due: Option<int>,
    interval: nat,
    dropped: Dropped)

  const NOTHING: Memory := Memory(None, false, 0, None, 0, No)

  /** The packet had waited the target and left more than a quantum behind. */
  predicate Stood(e: Event)
    requires e.Taken?
  {
    Since(e.now, e.what.at) >= e.target && e.left > QUANTUM
  }

  /** It stood, and so had the bucket for an interval. */
  predicate Overdue(m: Memory, e: Event)
    requires e.Taken?
  {
    Stood(e) && m.clock.Some? && e.now >= m.clock.value
  }

  function Later(due: Option<int>, step: int): Option<int> {
    if due.None? then None else Some(due.value + step)
  }

  /** A packet was taken. The first that did not stand stops the clock, and the first that is not
      overdue ends an episode, unless it follows the drop that began it. One that is overdue after a
      later drop moves the next signal on. */
  function AfterTaking(m: Memory, e: Event, law: Law): Memory
    requires e.Taken?
  {
    m.(clock := if !Stood(e) then None else if m.clock.None? then Some(e.now + e.interval) else m.clock,
       episode := m.episode && (m.dropped.AsFirst? || Overdue(m, e)),
       due := if m.dropped.AsLater? && Overdue(m, e) then Later(m.due, law(e.interval, m.count)) else m.due,
       interval := e.interval,
       dropped := No)
  }

  /** The count of an episode that begins: an episode that comes back within sixteen intervals goes on
      two below where the last one left off. */
  function FirstCount(m: Memory, now: int): nat {
    if m.count > 2 && m.due.Some? && Since(now, m.due.value) < 16 * m.interval then m.count - 2 else 1
  }

  /** A signal was given: by a mark, which moves the next one on, or by a drop. */
  function AfterSignal(m: Memory, now: int, marked: bool, law: Law): Memory {
    if m.episode then
      var count := m.count + 1;
      m.(count := count,
         due := if marked then Later(m.due, law(m.interval, count)) else m.due,
         dropped := if marked then No else AsLater)
    else
      var count := FirstCount(m, now);
      m.(episode := true,
         count := count,
         due := Some(now + law(m.interval, count)),
         dropped := if marked then No else AsFirst)
  }

  function AfterEvent(m: Memory, e: Event, b: Bucket, law: Law): Memory {
    match e
    case Taken(idx, _, _, _, _, _) => if idx == b then AfterTaking(m, e, law) else m
    case Punished(idx, now, marked) => if idx == b then AfterSignal(m, now, marked, law) else m
    case Swept(idx) => if idx == b then m.(clock := None, episode := false, dropped := No) else m
    case Moved(_, _, _, _) => m
    case Refilled(_) => m
  }

  /** What a log says of bucket `b`. */
  function MemoryOf(log: seq<Event>, b: Bucket, law: Law): Memory {
    if log == [] then NOTHING else AfterEvent(MemoryOf(log[..|log| - 1], b, law), log[|log| - 1], b, law)
  }

  /** The packet taken is to carry a signal: it is overdue, and within an episode the moment has come. */
  predicate SignalDue(m: Memory, e: Event, law: Law)
    requires e.Taken?
  {
    var n := AfterTaking(m, e, law);
    Overdue(m, e) && !m.dropped.AsFirst? && (m.episode ==> n.due.Some? && e.now >= n.due.value)
  }

  // ----- what follows when a packet is taken -----

  /** The packet taken at `i` was signalled straight away: it left marked if it was willing, and was
      dropped over target otherwise, with the next packet of the bucket taken at once. */
  ghost predicate Signalled(log: seq<Event>, i: nat)
    requires i < |log| && log[i].Taken?
  {
    var e := log[i];
    var (willing, sent) := MarkOutcome(e.what.packet);
    && i + 2 < |log|
    && log[i + 1] == Punished(e.idx, e.now, willing)
    && if willing then log[i + 2] == Moved(Delivery, e.idx, e.what, sent)
       else
         && log[i + 2] == Moved(OverTarget, e.idx, e.what, e.what.packet)
         && i + 3 < |log| && log[i + 3].Taken? && log[i + 3].idx == e.idx && log[i + 3].now == e.now
  }

  /** It was delivered as it is. */
  ghost predicate PassedOn(log: seq<Event>, i: nat)
    requires i < |log| && log[i].Taken?
  {
    i + 1 < |log| && log[i + 1] == Moved(Delivery, log[i].idx, log[i].what, log[i].what.packet)
  }

  ghost predicate Answered(log: seq<Event>, i: nat, law: Law)
    requires i < |log|
  {
    log[i].Taken? ==>
      if SignalDue(MemoryOf(log[..i], log[i].idx, law), log[i], law) then Signalled(log, i) else PassedOn(log, i)
  }

  ghost predicate AllAnswered(log: seq<Event>, n: nat, law: Law) {
    forall i: nat :: i < n && i < |log| ==> Answered(log, i, law)
  }

  /** A signal comes straight after the packet that carries it was taken. */
  ghost predicate Grounded(log: seq<Event>, k: nat)
    requires k < |log|
  {
    log[k].Punished? ==> k > 0 && log[k - 1].Taken? && log[k - 1].idx == log[k].idx && log[k - 1].now == log[k].now
  }

  ghost predicate AllGrounded(log: seq<Event>) {
    forall k: nat :: k < |log| ==> Grounded(log, k)
  }

  // ----- one event more -----

  lemma MemoryNote(log: seq<Event>, e: Event, b: Bucket, law: Law)
    ensures MemoryOf(log + [e], b, law) == AfterEvent(MemoryOf(log, b, law), e, b, law)
  {
    assert (log + [e])[..|log|] == log;
  }

  lemma AnsweredStays(log: seq<Event>, more: seq<Event>, n: nat, law: Law)
    requires AllAnswered(log, n, law) && log <= more && n <= |log|
    ensures AllAnswered(more, n, law)
  {
    hide MemoryOf, SignalDue, MarkOutcome;
    forall i: nat | i < n
      ensures Answered(more, i, law)
    {
      assert Answered(log, i, law);
      assert more[..i] == log[..i];
    }
  }

  /** An event that takes no packet asks for no answer. */
  lemma AnsweredNote(log: seq<Event>, e: Event, law: Law)
    requires AllAnswered(log, |log|, law) && !e.Taken?
    ensures AllAnswered(log + [e], |log| + 1, law)
  {
    hide MemoryOf, SignalDue, MarkOutcome;
    AnsweredStays(log, log + [e], |log|, law);
  }

  lemma GroundedNote(log: seq<Event>, e: Event)
    requires AllGrounded(log)
    requires e.Punished? ==>
               |log| > 0 && log[|log| - 1].Taken? && log[|log| - 1].idx == e.idx && log[|log| - 1].now == e.now
    ensures AllGrounded(log + [e])
  {
    var more := log + [e];
    forall k: nat | k < |more|
      ensures Grounded(more, k)
    {
      if k < |log| {
        assert Grounded(log, k);
      }
    }
  }

  // ----- the state remembers the log -----

  ghost predicate Tied(m: Memory, f: Flow) {
    && (m.clock, m.episode, m.count, m.due) == (f.aboveSince, f.dropping, f.count, f.dropNext)
    && m.dropped.No? && (m.episode ==> m.due.Some?)
  }

  ghost predicate Remembers(q: Queue, law: Law) {
    forall b: Bucket :: Tied(MemoryOf(q.log, b, law), q.flows[b])
  }

  /** Every packet taken so far has been answered, and the buckets remember what the log says. */
  ghost predicate Tells(q: Queue, law: Law) {
    Remembers(q, law) && AllAnswered(q.log, |q.log|, law) && AllGrounded(q.log)
  }

  ghost predicate SameMemory(f: Flow, g: Flow) {
    (g.aboveSince, g.dropping, g.count, g.dropNext) == (f.aboveSince, f.dropping, f.count, f.dropNext)
  }

  lemma QuietTells(q: Queue, r: Queue, e: Event, law: Law)
    requires Tells(q, law) && r.log == q.log + [e] && (e.Moved? || e.Refilled?)
    requires forall b: Bucket :: SameMemory(q.flows[b], r.flows[b])
    ensures Tells(r, law)
  {
    hide MemoryOf, AllAnswered, AllGrounded;
    AnsweredNote(q.log, e, law);
    GroundedNote(q.log, e);
    forall b: Bucket
      ensures Tied(MemoryOf(r.log, b, law), r.flows[b])
    {
      MemoryNote(q.log, e, b, law);
    }
  }

  lemma SameTells(q: Queue, r: Queue, law: Law)
    requires Tells(q, law) && r.log == q.log
    requires forall b: Bucket :: SameMemory(q.flows[b], r.flows[b])
    ensures Tells(r, law)
  {
    hide MemoryOf, AllAnswered, AllGrounded;
  }

  // ----- operations that take nothing out for the caller -----

  lemma PopHeadTells(q: Queue, idx: Bucket, fate: Fate, law: Law)
    requires Tells(q, law) && q.flows[idx].packets != []
    ensures Tells(PopHead(q, idx, fate), law)
  {
    hide Tells;
    var head := q.flows[idx].packets[0];
    QuietTells(q, PopHead(q, idx, fate), Moved(fate, idx, head, head.packet), law);
  }

  lemma DropFattestTells(q: Queue, law: Law)
    requires Tallied(q) && Tells(q, law)
    ensures Tells(DropFattest(q).0, law)
  {
    hide MemoryOf, AllAnswered, AllGrounded;
    var idx := Fattest(q.flows);
    if q.flows[idx].bytes > 0 {
      PopHeadTells(q, idx, OverLimit, law);
    }
  }

  lemma {:induction false} MakeRoomTells(q: Queue, len: nat, law: Law)
    requires Tallied(q) && Tells(q, law)
    ensures Tells(MakeRoom(q, len), law)
    decreases SumPackets(q.flows)
  {
    hide Tells, DropFattest;
    if q.bytes + len > LIMIT_BYTES {
      DropFattestTallied(q);
      DropFattestTells(q, law);
      var (r, more) := DropFattest(q);
      if more {
        MakeRoomTells(r, len, law);
      }
    }
  }

  lemma {:induction false} ThinnedTells(q: Queue, idx: Bucket, gone: seq<Queued>, law: Law)
    requires Tells(q, law)
    ensures Tells(q.(log := q.log + ThinnedEvents(idx, gone)), law)
    decreases |gone|
  {
    hide Tells;
    if gone == [] {
      assert q.log + ThinnedEvents(idx, gone) == q.log;
    } else {
      var n := |gone| - 1;
      ThinnedTells(q, idx, gone[..n], law);
      var r := q.(log := q.log + ThinnedEvents(idx, gone[..n]));
      var e := Moved(Thinned, idx, gone[n], gone[n].packet);
      var s := q.(log := q.log + ThinnedEvents(idx, gone));
      assert s.log == r.log + [e];
      QuietTells(r, s, e, law);
    }
  }

  lemma ThinTells(q: Queue, packet: bytes, law: Law)
    requires Tells(q, law)
    ensures Tells(ThinFor(q, packet), law)
  {
    hide Tells, Sift, FlowOf, PureAck;
    if PureAck(packet).Some? {
      var idx := FlowOf(packet);
      var gone := Sift(q.flows[idx].packets, packet, PureAck(packet).value).1;
      ThinnedTells(q, idx, gone, law);
      SameTells(q.(log := q.log + ThinnedEvents(idx, gone)), ThinFor(q, packet), law);
    }
  }

  lemma EnqueueTells(q: Queue, packet: bytes, now: int, law: Law)
    requires Tallied(q) && Tells(q, law)
    ensures Tells(Enqueue(q, packet, now), law)
  {
    hide Tells, MakeRoom, ThinFor, FlowOf;
    MakeRoomTells(q, |packet|, law);
    var roomy := MakeRoom(q, |packet|);
    ThinTells(roomy, packet, law);
    var thin := ThinFor(roomy, packet);
    QuietTells(thin, Accept(thin, packet, now), Moved(Arrival, FlowOf(packet), Queued(packet, now), packet), law);
  }

  lemma {:induction false} SweepBucketTells(q: Queue, idx: Bucket, now: int, age: nat, law: Law)
    requires Tells(q, law)
    ensures Tells(SweepBucket(q, idx, now, age), law)
    decreases |q.flows[idx].packets|
  {
    var f := q.flows[idx];
    if f.packets != [] && Since(now, f.packets[0].at) >= age {
      hide Tells;
      PopHeadTells(q, idx, Stale, law);
      SameTells(PopHead(q, idx, Stale), SweepHead(q, idx), law);
      SweepBucketTells(SweepHead(q, idx), idx, now, age, law);
    } else {
      SweptTells(q, idx, law);
    }
  }

  lemma SweptTells(q: Queue, idx: Bucket, law: Law)
    requires Tells(q, law)
    ensures Tells(Note(SetFlow(q, idx, q.flows[idx].(aboveSince := None, dropping := false)), Swept(idx)), law)
  {
    hide MemoryOf, AllAnswered, AllGrounded;
    var r := Note(SetFlow(q, idx, q.flows[idx].(aboveSince := None, dropping := false)), Swept(idx));
    AnsweredNote(q.log, Swept(idx), law);
    GroundedNote(q.log, Swept(idx));
    forall b: Bucket
      ensures Tied(MemoryOf(r.log, b, law), r.flows[b])
    {
      MemoryNote(q.log, Swept(idx), b, law);
    }
  }

  lemma {:induction false} SweepTells(q: Queue, i: nat, now: int, age: nat, law: Law)
    requires i <= FLOWS && Tells(q, law)
    ensures Tells(SweepFrom(q, i, now, age), law)
    decreases FLOWS - i
  {
    hide Tells, SweepBucket;
    if i < FLOWS {
      SweepBucketTells(q, i, now, age, law);
      SweepTells(SweepBucket(q, i, now, age), i + 1, now, age, law);
    }
  }

  // ----- with a packet in hand -----

  /** The last thing the log says is that this packet was taken; all before is answered; and a signal is
      due exactly when its bucket is in an episode whose moment has come. */
  ghost predicate InHandOf(q: Queue, idx: Bucket, now: int, head: Queued, law: Law) {
    && Remembers(q, law) && AllGrounded(q.log) && |q.log| > 0
    && var n := |q.log| - 1;
    && AllAnswered(q.log, n, law)
    && q.log[n].Taken? && q.log[n].idx == idx && q.log[n].what == head && q.log[n].now == now
    && MemoryOf(q.log, idx, law).interval == q.interval
  }

  /** The packet in hand is to carry a signal. */
  ghost predicate Called(q: Queue, law: Law)
    requires |q.log| > 0 && q.log[|q.log| - 1].Taken?
  {
    var n := |q.log| - 1;
    SignalDue(MemoryOf(q.log[..n], q.log[n].idx, law), q.log[n], law)
  }

  /** Once what CoDel lets out is delivered, the log has answered everything. */
  ghost predicate Closed(q: Queue, idx: Bucket, out: Release, law: Law) {
    && Remembers(q, law) && AllGrounded(q.log)
    && AllAnswered(q.log + [Moved(Delivery, idx, out.head, out.sent)], |q.log| + 1, law)
  }

  lemma PassOn(log: seq<Event>, law: Law)
    requires |log| > 0 && log[|log| - 1].Taken? && AllAnswered(log, |log| - 1, law)
    requires !SignalDue(MemoryOf(log[..|log| - 1], log[|log| - 1].idx, law), log[|log| - 1], law)
    ensures var e := log[|log| - 1];
            AllAnswered(log + [Moved(Delivery, e.idx, e.what, e.what.packet)], |log| + 1, law)
  {
    hide MemoryOf, SignalDue;
    var n := |log| - 1;
    var e := log[n];
    var more := log + [Moved(Delivery, e.idx, e.what, e.what.packet)];
    AnsweredStays(log, more, n, law);
    assert more[..n] == log[..n];
    assert Answered(more, n, law);
  }

  /** The packet in hand is signalled by a mark. */
  lemma MarkOn(log: seq<Event>, law: Law)
    requires |log| > 0 && log[|log| - 1].Taken? && AllAnswered(log, |log| - 1, law)
    requires SignalDue(MemoryOf(log[..|log| - 1], log[|log| - 1].idx, law), log[|log| - 1], law)
    requires MarkOutcome(log[|log| - 1].what.packet).0
    ensures var e := log[|log| - 1];
            AllAnswered(log + [Punished(e.idx, e.now, true)] +
                        [Moved(Delivery, e.idx, e.what, MarkOutcome(e.what.packet).1)], |log| + 2, law)
  {
    hide MemoryOf, SignalDue, MarkOutcome;
    var n := |log| - 1;
    var e := log[n];
    var more := log + [Punished(e.idx, e.now, true)] + [Moved(Delivery, e.idx, e.what, MarkOutcome(e.what.packet).1)];
    AnsweredStays(log, more, n, law);
    assert more[..n] == log[..n];
    assert more[n + 1] == Punished(e.idx, e.now, true);
    assert Signalled(more, n);
    assert Answered(more, n, law);
  }

  /** The packet in hand is dropped, and the next one taken. */
  lemma DropOn(log: seq<Event>, next: Event, law: Law)
    requires |log| > 0 && log[|log| - 1].Taken? && AllAnswered(log, |log| - 1, law)
    requires SignalDue(MemoryOf(log[..|log| - 1], log[|log| - 1].idx, law), log[|log| - 1], law)
    requires !MarkOutcome(log[|log| - 1].what.packet).0
    requires next.Taken? && next.idx == log[|log| - 1].idx && next.now == log[|log| - 1].now
    ensures var e := log[|log| - 1];
            AllAnswered(log + [Punished(e.idx, e.now, false)] + [Moved(OverTarget, e.idx, e.what, e.what.packet)] +
                        [next], |log| + 2, law)
  {
    hide MemoryOf, SignalDue, MarkOutcome;
    var n := |log| - 1;
    var e := log[n];
    var more := log + [Punished(e.idx, e.now, false)] + [Moved(OverTarget, e.idx, e.what, e.what.packet)] + [next];
    AnsweredStays(log, more, n, law);
    assert more[..n] == log[..n];
    assert more[n + 1] == Punished(e.idx, e.now, false) && more[n + 3] == next;
    assert Signalled(more, n);
    assert Answered(more, n, law);
  }

  /** A packet taken from a bucket that remembers, its episode ended if the packet is not overdue. */
  lemma TakeOne(q: Queue, idx: Bucket, now: int, law: Law)
    requires Tells(q, law) && q.flows[idx].packets != []
    ensures var (taken, next) := Take(q, idx, now);
            var r := if taken.flows[idx].dropping && !next.value.1 then SetDropping(taken, idx, false) else taken;
            && InHandOf(r, idx, now, next.value.0, law)
            && (Called(r, law) <==> next.value.1 && (taken.flows[idx].dropping ==> Due(taken.flows[idx], now)))
            && (r.flows[idx].dropping ==> r.flows[idx].dropNext.Some?)
  {
    hide MemoryOf, AllAnswered, AllGrounded;
    var (taken, next) := Take(q, idx, now);
    var f := q.flows[idx];
    var head := f.packets[0];
    var e := Taken(idx, head, now, q.target, q.interval, f.bytes - |head.packet|);
    var r := if taken.flows[idx].dropping && !next.value.1 then SetDropping(taken, idx, false) else taken;
    assert r.log == q.log + [e] && r.log[..|q.log|] == q.log;
    AnsweredStays(q.log, r.log, |q.log|, law);
    GroundedNote(q.log, e);
    forall b: Bucket
      ensures Tied(MemoryOf(r.log, b, law), r.flows[b])
    {
      MemoryNote(q.log, e, b, law);
    }
    MemoryNote(q.log, e, idx, law);
  }

  lemma PassOnCloses(q: Queue, idx: Bucket, now: int, head: Queued, law: Law)
    requires InHandOf(q, idx, now, head, law) && !Called(q, law)
    ensures Closed(q, idx, Whole(head), law)
  {
    hide MemoryOf, AllAnswered, AllGrounded;
    PassOn(q.log, law);
  }

  /** One more signal of an episode, by a mark. */
  lemma MarkLater(q: Queue, idx: Bucket, now: int, head: Queued, law: Law)
    requires InHandOf(q, idx, now, head, law) && Called(q, law) && MarkOutcome(head.packet).0
    requires q.flows[idx].dropping
    ensures var f := q.flows[idx];
            var counted := SetFlow(q, idx, f.(count := f.count + 1));
            Closed(Schedule(CountMark(counted, idx, now), idx, From(f, now), law), idx,
                   Release(head, MarkOutcome(head.packet).1), law)
  {
    hide MemoryOf, AllAnswered, AllGrounded, MarkOutcome, SignalDue;
    var f := q.flows[idx];
    var e := Punished(idx, now, true);
    var r := Schedule(CountMark(SetFlow(q, idx, f.(count := f.count + 1)), idx, now), idx, From(f, now), law);
    assert r.log == q.log + [e];
    MarkOn(q.log, law);
    GroundedNote(q.log, e);
    forall b: Bucket
      ensures Tied(MemoryOf(r.log, b, law), r.flows[b])
    {
      MemoryNote(q.log, e, b, law);
    }
  }

  /** The first signal of an episode, by a mark. */
  lemma MarkFirst(q: Queue, idx: Bucket, now: int, head: Queued, law: Law)
    requires InHandOf(q, idx, now, head, law) && Called(q, law) && MarkOutcome(head.packet).0
    requires !q.flows[idx].dropping
    ensures Closed(StartEpisode(CountMark(q, idx, now), idx, now, law), idx,
                   Release(head, MarkOutcome(head.packet).1), law)
  {
    hide MemoryOf, AllAnswered, AllGrounded, MarkOutcome, SignalDue;
    var e := Punished(idx, now, true);
    var r := StartEpisode(CountMark(q, idx, now), idx, now, law);
    assert r.log == q.log + [e];
    MarkOn(q.log, law);
    GroundedNote(q.log, e);
    forall b: Bucket
      ensures Tied(MemoryOf(r.log, b, law), r.flows[b])
    {
      MemoryNote(q.log, e, b, law);
    }
  }

  /** The events of a drop, and of the packet taken after it. */
  lemma DropMemory(log: seq<Event>, idx: Bucket, now: int, head: Queued, next: Event, b: Bucket, law: Law)
    ensures var more := log + [Punished(idx, now, false)] + [Moved(OverTarget, idx, head, head.packet)];
            && MemoryOf(more, b, law) == AfterEvent(MemoryOf(log, b, law), Punished(idx, now, false), b, law)
            && MemoryOf(more + [next], b, law) == AfterEvent(MemoryOf(more, b, law), next, b, law)
  {
    hide MemoryOf;
    var one := log + [Punished(idx, now, false)];
    MemoryNote(log, Punished(idx, now, false), b, law);
    MemoryNote(one, Moved(OverTarget, idx, head, head.packet), b, law);
    MemoryNote(one + [Moved(OverTarget, idx, head, head.packet)], next, b, law);
  }

  /** What the log and its answers are after a drop and the packet taken after it. */
  lemma DropLog(log: seq<Event>, next: Event, law: Law)
    requires |log| > 0 && log[|log| - 1].Taken? && AllAnswered(log, |log| - 1, law) && AllGrounded(log)
    requires SignalDue(MemoryOf(log[..|log| - 1], log[|log| - 1].idx, law), log[|log| - 1], law)
    requires !MarkOutcome(log[|log| - 1].what.packet).0
    requires next.Taken? && next.idx == log[|log| - 1].idx && next.now == log[|log| - 1].now
    ensures var e := log[|log| - 1];
            var more := log + [Punished(e.idx, e.now, false)] + [Moved(OverTarget, e.idx, e.what, e.what.packet)];
            AllAnswered(more + [next], |more|, law) && AllGrounded(more + [next])
  {
    hide MemoryOf, AllAnswered, SignalDue, MarkOutcome;
    var e := log[|log| - 1];
    var one := log + [Punished(e.idx, e.now, false)];
    DropOn(log, next, law);
    GroundedNote(log, Punished(e.idx, e.now, false));
    GroundedNote(one, Moved(OverTarget, e.idx, e.what, e.what.packet));
    GroundedNote(one + [Moved(OverTarget, e.idx, e.what, e.what.packet)], next);
  }

  /** What an episode goes on from when its packet was dropped and the next one taken. */
  function GoneOn(taken: Queue, idx: Bucket, now: int, law: Law, overdue: bool): Queue {
    if overdue then Schedule(taken, idx, From(taken.flows[idx], now), law) else SetDropping(taken, idx, false)
  }

  /** One more signal of an episode, by a drop, as the bucket remembers it. */
  lemma DropLaterTies(q: Queue, idx: Bucket, now: int, head: Queued, law: Law)
    requires Remembers(q, law) && MemoryOf(q.log, idx, law).interval == q.interval
    requires q.flows[idx].dropping && q.flows[idx].packets != []
    ensures var f := q.flows[idx];
            var dropped := CountDrop(SetFlow(q, idx, f.(count := f.count + 1)), idx, now, head);
            var (taken, next) := Take(dropped, idx, now);
            var r := GoneOn(taken, idx, now, law, next.value.1);
            var e := Taken(idx, next.value.0, now, q.target, q.interval, f.bytes - |next.value.0.packet|);
            && r.log == dropped.log + [e] && r.interval == q.interval
            && Tied(MemoryOf(r.log, idx, law), r.flows[idx]) && MemoryOf(r.log, idx, law).interval == q.interval
            && (SignalDue(MemoryOf(dropped.log, idx, law), e, law) <==>
                r.flows[idx].dropping && Due(r.flows[idx], now))
  {
    hide MemoryOf, MarkOutcome;
    var f := q.flows[idx];
    var dropped := CountDrop(SetFlow(q, idx, f.(count := f.count + 1)), idx, now, head);
    var (taken, next) := Take(dropped, idx, now);
    var e := Taken(idx, next.value.0, now, q.target, q.interval, f.bytes - |next.value.0.packet|);
    assert dropped.log == q.log + [Punished(idx, now, false)] + [Moved(OverTarget, idx, head, head.packet)];
    DropMemory(q.log, idx, now, head, e, idx, law);
    assert Tied(MemoryOf(q.log, idx, law), f);
  }

  /** One more signal of an episode, by a drop. */
  lemma DropLater(q: Queue, idx: Bucket, now: int, head: Queued, law: Law)
    requires InHandOf(q, idx, now, head, law) && Called(q, law) && !MarkOutcome(head.packet).0
    requires q.flows[idx].dropping && q.flows[idx].packets != []
    ensures var f := q.flows[idx];
            var (taken, next) := Take(CountDrop(SetFlow(q, idx, f.(count := f.count + 1)), idx, now, head), idx, now);
            var r := GoneOn(taken, idx, now, law, next.value.1);
            && InHandOf(r, idx, now, next.value.0, law)
            && (Called(r, law) <==> r.flows[idx].dropping && Due(r.flows[idx], now))
  {
    hide MemoryOf, AllAnswered, AllGrounded, MarkOutcome, SignalDue, AfterTaking, AfterSignal;
    var f := q.flows[idx];
    var dropped := CountDrop(SetFlow(q, idx, f.(count := f.count + 1)), idx, now, head);
    var (taken, next) := Take(dropped, idx, now);
    var r := GoneOn(taken, idx, now, law, next.value.1);
    var e := Taken(idx, next.value.0, now, q.target, q.interval, f.bytes - |next.value.0.packet|);
    assert dropped.log == q.log + [Punished(idx, now, false)] + [Moved(OverTarget, idx, head, head.packet)];
    DropLaterTies(q, idx, now, head, law);
    assert r.log[..|dropped.log|] == dropped.log;
    DropLog(q.log, e, law);
    forall b: Bucket | b != idx
      ensures Tied(MemoryOf(r.log, b, law), r.flows[b])
    {
      DropMemory(q.log, idx, now, head, e, b, law);
    }
  }

  /** The first signal of an episode, by a drop: the packet taken after it is delivered. */
  lemma DropFirst(q: Queue, idx: Bucket, now: int, head: Queued, law: Law)
    requires InHandOf(q, idx, now, head, law) && Called(q, law) && !MarkOutcome(head.packet).0
    requires !q.flows[idx].dropping && q.flows[idx].packets != []
    ensures var (taken, next) := Take(CountDrop(q, idx, now, head), idx, now);
            Closed(StartEpisode(taken, idx, now, law), idx, Whole(next.value.0), law)
  {
    hide MemoryOf, AllAnswered, AllGrounded, MarkOutcome;
    var f := q.flows[idx];
    var dropped := CountDrop(q, idx, now, head);
    var (taken, next) := Take(dropped, idx, now);
    var r := StartEpisode(taken, idx, now, law);
    var e := Taken(idx, next.value.0, now, q.target, q.interval, f.bytes - |next.value.0.packet|);
    assert dropped.log == q.log + [Punished(idx, now, false)] + [Moved(OverTarget, idx, head, head.packet)];
    assert r.log == dropped.log + [e] && r.log[..|dropped.log|] == dropped.log;
    DropLog(q.log, e, law);
    forall b: Bucket
      ensures Tied(MemoryOf(r.log, b, law), r.flows[b])
    {
      DropMemory(q.log, idx, now, head, e, b, law);
    }
    DropMemory(q.log, idx, now, head, e, idx, law);
    PassOnCloses(r, idx, now, next.value.0, law);
  }

  // ----- CoDel -----

  /** A bucket in an episode has something left, and counts its octets right. */
  ghost predicate Stocked(q: Queue, idx: Bucket) {
    q.flows[idx].bytes == TotalLen(q.flows[idx].packets) && (q.flows[idx].dropping ==> q.flows[idx].packets != [])
  }

  /** Taking a packet that is overdue leaves more than a quantum. */
  lemma TakeStocked(q: Queue, idx: Bucket, now: int)
    requires q.flows[idx].bytes == TotalLen(q.flows[idx].packets) && q.flows[idx].packets != []
    ensures var (taken, next) := Take(q, idx, now);
            && taken.flows[idx].bytes == TotalLen(taken.flows[idx].packets)
            && (next.value.1 ==> taken.flows[idx].packets != [])
  {
  }

  lemma {:induction false} EpisodeCloses(q: Queue, idx: Bucket, now: int, law: Law, head: Queued)
    requires InHandOf(q, idx, now, head, law) && Stocked(q, idx)
    requires Called(q, law) <==> q.flows[idx].dropping && Due(q.flows[idx], now)
    ensures var r := Episode(q, idx, now, law, head);
            r.1.Some? && Closed(r.0, idx, r.1.value, law)
    decreases |q.flows[idx].packets|
  {
    hide InHandOf, Called, Closed, MarkOutcome, Take, TotalLen;
    var f := q.flows[idx];
    InHandTook(q, idx, now, head, law);
    if !f.dropping || !Due(f, now) {
      PassOnCloses(q, idx, now, head, law);
    } else if MarkOutcome(head.packet).0 {
      MarkLater(q, idx, now, head, law);
    } else {
      DropLater(q, idx, now, head, law);
      var dropped := CountDrop(SetFlow(q, idx, f.(count := f.count + 1)), idx, now, head);
      TakeStocked(dropped, idx, now);
      var (taken, next) := Take(dropped, idx, now);
      EpisodeCloses(GoneOn(taken, idx, now, law, next.value.1), idx, now, law, next.value.0);
    }
  }

  lemma InHandTook(q: Queue, idx: Bucket, now: int, head: Queued, law: Law)
    requires InHandOf(q, idx, now, head, law)
    ensures |q.log| > 0 && q.log[|q.log| - 1].Taken?
  {
  }

  lemma OnsetCloses(q: Queue, idx: Bucket, now: int, law: Law, head: Queued)
    requires InHandOf(q, idx, now, head, law) && q.flows[idx].packets != [] && !q.flows[idx].dropping
    requires Called(q, law)
    ensures var r := Onset(q, idx, now, law, head);
            r.1.Some? && Closed(r.0, idx, r.1.value, law)
  {
    hide Closed, MarkOutcome, Take, MemoryOf, StartEpisode;
    if MarkOutcome(head.packet).0 {
      MarkFirst(q, idx, now, head, law);
    } else {
      DropFirst(q, idx, now, head, law);
    }
  }

  lemma CodelCloses(q: Queue, idx: Bucket, now: int, law: Law)
    requires Tells(q, law) && Tallied(q) && q.flows[idx].packets != []
    ensures var r := Codel(q, idx, now, law);
            r.1.Some? && Closed(r.0, idx, r.1.value, law)
  {
    hide Tells, InHandOf, Called, Closed, Take, Episode, Onset;
    TakeOne(q, idx, now, law);
    TakeStocked(q, idx, now);
    var (taken, next) := Take(q, idx, now);
    var (head, overdue) := next.value;
    var r := if taken.flows[idx].dropping && !overdue then SetDropping(taken, idx, false) else taken;
    InHandTook(r, idx, now, head, law);
    if !overdue {
      PassOnCloses(r, idx, now, head, law);
    } else if taken.flows[idx].dropping {
      EpisodeCloses(taken, idx, now, law, head);
    } else {
      OnsetCloses(taken, idx, now, law, head);
    }
  }

  // ----- runs -----

  lemma ChargeTells(q: Queue, idx: Bucket, out: Release, law: Law)
    requires Closed(q, idx, out, law)
    ensures Tells(Charge(q, idx, out), law)
  {
    hide MemoryOf, AllAnswered, AllGrounded;
    var e := Moved(Delivery, idx, out.head, out.sent);
    GroundedNote(q.log, e);
    var r := Charge(q, idx, out);
    forall b: Bucket
      ensures Tied(MemoryOf(r.log, b, law), r.flows[b])
    {
      MemoryNote(q.log, e, b, law);
    }
  }

  lemma {:induction false} DequeueTells(q: Queue, now: int, law: Law)
    requires Good(q, Free) && Tells(q, law)
    ensures Tells(Dequeue(q, now, law).0, law)
    decreases |q.freshList| + |q.backlogged|, SumOwed(q.flows)
  {
    hide Good, Tells, Closed, Codel;
    if InService(q) {
      var idx := Next(q);
      if q.flows[idx].deficit <= 0 {
        RefillPaysOne(q);
        RefillKeeps(q);
        QuietTells(q, Refill(q), Refilled(idx), law);
        DequeueTells(Refill(q), now, law);
      } else {
        CodelKeeps(q, idx, now, law);
        var (r, out) := Codel(q, idx, now, law);
        if q.flows[idx].packets == [] {
          UnlistKeeps(q);
          SameTells(q, Unlist(q), law);
          DequeueTells(Unlist(q), now, law);
        } else {
          GoodIsTallied(q, Free);
          CodelCloses(q, idx, now, law);
          ChargeTells(r, idx, out.value, law);
        }
      }
    }
  }

  lemma ApplyTells(q: Queue, op: Op, law: Law)
    requires Good(q, Free) && Tallied(q) && Tells(q, law)
    ensures Tells(Apply(q, op, law), law)
  {
    hide Good, Tells, Enqueue, Dequeue, SweepFrom;
    match op
    case Push(packet, at) => EnqueueTells(q, packet, at, law);
    case Pop(at) => DequeueTells(q, at, law);
    case Sweep(at, age) => SweepTells(q, 0, at, age, law);
    case Measure(rtt) => SameTells(q, ObserveRtt(q, rtt), law);
    case Report => SameTells(q, AfterStats(q), law);
  }

  lemma {:induction false} RunTells(q: Queue, ops: seq<Op>, law: Law)
    requires Good(q, Free) && Tells(q, law)
    ensures Tells(RunFrom(q, ops, law), law)
    decreases |ops|
  {
    hide Good, Tells, Apply;
    if ops != [] {
      GoodIsTallied(q, Free);
      ApplyKeeps(q, ops[0], law);
      ApplyTells(q, ops[0], law);
      RunTells(Apply(q, ops[0], law), ops[1..], law);
    }
  }

  lemma ReachedTells(ops: seq<Op>, law: Law)
    ensures Tells(Reached(ops, law), law)
  {
    hide Good;
    EmptyIsGood();
    RunTells(Empty(), ops, law);
  }

  // ----- when a signal comes -----

  /** This ends whatever delay had stood in bucket `b`: a packet that did not stand, or a stale sweep. */
  ghost predicate Breaks(e: Event, b: Bucket) {
    e == Swept(b) || (e.Taken? && e.idx == b && !Stood(e))
  }

  /** The stretch in which every packet taken from `b` stood, up to the end of the log, begins at `j`. */
  ghost predicate Begins(log: seq<Event>, b: Bucket, j: nat) {
    && StoodSince(log, b, j, |log|)
    && forall i: nat :: i < j && log[i].Taken? && log[i].idx == b ==> BrokenBetween(log, b, i, j)
  }

  ghost predicate BrokenBetween(log: seq<Event>, b: Bucket, i: nat, j: nat)
    requires j <= |log|
  {
    exists k :: i <= k < j && Breaks(log[k], b)
  }

  /** A clock that runs out an interval after the stretch began, and stands still when there is none. */
  ghost predicate TellsTheStretch(clock: Option<int>, log: seq<Event>, b: Bucket) {
    && (forall j: nat :: Begins(log, b, j) ==> clock == Some(log[j].now + log[j].interval))
    && (clock.Some? ==> exists j: nat :: Begins(log, b, j))
    && (clock.None? ==> Unbegun(log, b))
  }

  ghost predicate Unbegun(log: seq<Event>, b: Bucket) {
    forall i: nat :: i < |log| && log[i].Taken? && log[i].idx == b ==> BrokenBetween(log, b, i, |log|)
  }

  lemma {:induction false} ClockTellsTheStretch(log: seq<Event>, b: Bucket, law: Law)
    ensures TellsTheStretch(MemoryOf(log, b, law).clock, log, b)
    decreases |log|
  {
    if log != [] {
      hide TellsTheStretch;
      var n := |log| - 1;
      var front, e := log[..n], log[n];
      ClockTellsTheStretch(front, b, law);
      assert front + [e] == log;
      if Breaks(e, b) {
        StretchBreaks(front, e, b);
      } else if e.Taken? && e.idx == b && MemoryOf(front, b, law).clock.None? {
        StretchBegins(front, e, b);
      } else {
        StretchGoesOn(front, e, b, MemoryOf(front, b, law).clock);
      }
    }
  }

  lemma BreaksStay(front: seq<Event>, e: Event, b: Bucket)
    ensures forall i: nat, j: nat :: j <= |front| ==>
              (BrokenBetween(front + [e], b, i, j) <==> BrokenBetween(front, b, i, j))
    ensures forall i: nat :: BrokenBetween(front, b, i, |front|) ==> BrokenBetween(front + [e], b, i, |front| + 1)
  {
    var log := front + [e];
    forall i: nat, j: nat | j <= |front|
      ensures BrokenBetween(log, b, i, j) <==> BrokenBetween(front, b, i, j)
    {
      assert forall k :: 0 <= k < j ==> log[k] == front[k];
    }
    forall i: nat | BrokenBetween(front, b, i, |front|)
      ensures BrokenBetween(log, b, i, |front| + 1)
    {
      var k :| i <= k < |front| && Breaks(front[k], b);
      assert Breaks(log[k], b);
    }
  }

  lemma StretchBreaks(front: seq<Event>, e: Event, b: Bucket)
    requires Breaks(e, b)
    ensures TellsTheStretch(None, front + [e], b)
  {
    var log := front + [e];
    forall i: nat | i < |log|
      ensures BrokenBetween(log, b, i, |log|)
    {
      assert Breaks(log[|front|], b);
    }
    forall j: nat
      ensures !Begins(log, b, j)
    {
      assert !TakenStanding(log[|front|], b) || log[|front|] == Swept(b);
    }
  }

  /** With nothing standing before, a packet that stands begins the stretch. */
  lemma StretchBegins(front: seq<Event>, e: Event, b: Bucket)
    requires e.Taken? && e.idx == b && Stood(e) && TellsTheStretch(None, front, b)
    ensures TellsTheStretch(Some(e.now + e.interval), front + [e], b)
  {
    var log := front + [e];
    BreaksStay(front, e, b);
    assert Begins(log, b, |front|);
    forall j: nat | j != |front|
      ensures !Begins(log, b, j)
    {
      if j < |front| && log[j].Taken? && log[j].idx == b {
        assert front[j] == log[j];
        var k :| j <= k < |front| && Breaks(front[k], b);
        assert log[k] == front[k];
        assert !StoodSince(log, b, j, |log|);
      }
    }
  }

  /** What breaks nothing leaves the stretch as it began. */
  lemma StretchGoesOn(front: seq<Event>, e: Event, b: Bucket, clock: Option<int>)
    requires !Breaks(e, b) && TellsTheStretch(clock, front, b)
    requires e.Taken? && e.idx == b ==> clock.Some?
    ensures TellsTheStretch(clock, front + [e], b)
  {
    var log := front + [e];
    BreaksStay(front, e, b);
    forall j: nat
      ensures Begins(log, b, j) <==> Begins(front, b, j)
    {
      if j < |front| {
        StretchStays(front, e, b, j);
      } else if e.Taken? && e.idx == b {
        var first: nat :| Begins(front, b, first);
        BegunOnce(front, e, b, first);
      }
    }
    forall i: nat | clock.None? && i < |log| && log[i].Taken? && log[i].idx == b
      ensures BrokenBetween(log, b, i, |log|)
    {
      assert front[i] == log[i];
    }
  }

  lemma StretchStays(front: seq<Event>, e: Event, b: Bucket, j: nat)
    requires !Breaks(e, b) && j < |front|
    ensures Begins(front + [e], b, j) <==> Begins(front, b, j)
  {
    var log := front + [e];
    BreaksStay(front, e, b);
    assert forall k :: 0 <= k < |front| ==> log[k] == front[k];
    StoodNote(front, e, b, j, |front|);
  }

  lemma BegunOnce(front: seq<Event>, e: Event, b: Bucket, first: nat)
    requires Begins(front, b, first)
    ensures !Begins(front + [e], b, |front|)
  {
    var log := front + [e];
    forall k | first <= k < |front|
      ensures !Breaks(log[k], b)
    {
      assert log[k] == front[k] && TakenStanding(front[k], b);
    }
    assert log[first] == front[first];
    assert !BrokenBetween(log, b, first, |front|);
  }

  lemma {:induction false} DroppedWithin(log: seq<Event>, b: Bucket, law: Law)
    ensures MemoryOf(log, b, law).dropped.No? || MemoryOf(log, b, law).episode
    decreases |log|
  {
    if log != [] {
      DroppedWithin(log[..|log| - 1], b, law);
    }
  }

  /** What is to happen to the packet taken at `i`, and what did. */
  ghost predicate SignalledWhenDue(log: seq<Event>, i: nat, law: Law)
    requires i < |log| && log[i].Taken?
  {
    var e, b := log[i], log[i].idx;
    var m, n := MemoryOf(log[..i], b, law), MemoryOf(log[..i + 1], b, law);
    if && Stood(e) && (exists j: nat :: Begins(log[..i], b, j) && log[j].now + log[j].interval <= e.now)
       && (m.episode ==> !m.dropped.AsFirst? && n.due.Some? && n.due.value <= e.now)
    then Signalled(log, i) else PassedOn(log, i)
  }

  /** After any run, a packet taken from a bucket carries a signal, and at once, exactly when it stood and
      so had the bucket for an interval, counted from the packet its stretch began with; within an
      episode, only when the moment has come, and not as the packet that follows the episode's first drop.
      It is marked if it is willing, and otherwise dropped with the next one taken; any other packet
      taken is delivered as it is. And no signal comes but straight after its packet was taken. */
  lemma SignalsAreExact(ops: seq<Op>, law: Law, i: nat)
    requires i < |Reached(ops, law).log| && Reached(ops, law).log[i].Taken?
    ensures SignalledWhenDue(Reached(ops, law).log, i, law)
    ensures AllGrounded(Reached(ops, law).log)
  {
    hide Good, Reached, SignalledWhenDue, Remembers, AllAnswered, AllGrounded;
    ReachedTells(ops, law);
    AnsweredMeans(Reached(ops, law).log, i, law);
  }

  lemma AnsweredMeans(log: seq<Event>, i: nat, law: Law)
    requires i < |log| && log[i].Taken? && AllAnswered(log, |log|, law)
    ensures SignalledWhenDue(log, i, law)
  {
    hide MemoryOf, Signalled, PassedOn, Begins, Overdue;
    var front, e, b := log[..i], log[i], log[i].idx;
    assert log[..i + 1] == front + [e];
    MemoryNote(front, e, b, law);
    DroppedWithin(front, b, law);
    OverdueMeans(front, e, b, law);
    BegunIsTaken(front, b);
    assert Answered(log, i, law);
    assert forall j :: 0 <= j < i ==> front[j] == log[j];
  }

  lemma OverdueMeans(log: seq<Event>, e: Event, b: Bucket, law: Law)
    requires e.Taken?
    ensures Overdue(MemoryOf(log, b, law), e) <==>
            Stood(e) && exists j: nat :: Begins(log, b, j) && log[j].now + log[j].interval <= e.now
  {
    hide MemoryOf, Begins;
    BegunIsTaken(log, b);
    ClockTellsTheStretch(log, b, law);
  }

  lemma BegunIsTaken(log: seq<Event>, b: Bucket)
    ensures forall j: nat :: Begins(log, b, j) ==> j < |log| && log[j].Taken?
  {
  }

  /** What bucket `b` knows of CoDel is what the log says of it, its clock that of the stretch. */
  ghost predicate KnowsTheLog(q: Queue, b: Bucket, law: Law) {
    var m, f := MemoryOf(q.log, b, law), q.flows[b];
    && (f.aboveSince, f.dropping, f.count, f.dropNext) == (m.clock, m.episode, m.count, m.due)
    && (f.dropping ==> f.dropNext.Some?)
    && TellsTheStretch(f.aboveSince, q.log, b)
  }

  /** Between operations, a bucket knows of CoDel just what the log of the run says of it. */
  lemma TheStateRemembers(ops: seq<Op>, law: Law, b: Bucket)
    ensures KnowsTheLog(Reached(ops, law), b, law)
  {
    hide Good, Reached, MemoryOf, TellsTheStretch, AllAnswered, AllGrounded;
    ReachedTells(ops, law);
    var q := Reached(ops, law);
    assert Tied(MemoryOf(q.log, b, law), q.flows[b]);
    ClockTellsTheStretch(q.log, b, law);
  }

  // ----- the pace of signals -----

  /** How many signals bucket `b` was given. */
  function SignalsTo(log: seq<Event>, b: Bucket): nat {
    if log == [] then 0
    else
      var e := log[|log| - 1];
      SignalsTo(log[..|log| - 1], b) + if e.Punished? && e.idx == b then 1 else 0
  }

  lemma SignalsToNote(log: seq<Event>, e: Event, b: Bucket)
    ensures SignalsTo(log + [e], b) == SignalsTo(log, b) + if e.Punished? && e.idx == b then 1 else 0
  {
    assert (log + [e])[..|log|] == log;
  }

  /** How far `n` signals after the first `count` move the next one on. */
  function Steps(law: Law, interval: nat, count: nat, n: nat): int
    decreases n
  {
    if n == 0 then 0 else law(interval, count + 1) + Steps(law, interval, count + 1, n - 1)
  }

  /** What `n` signals within an episode make of a bucket: each counts one and moves the next one on by
      what the law says for its number, except that a drop after which the delay no longer stands ends
      the episode instead. */
  ghost predicate GoesOn(f: Flow, g: Flow, n: int, interval: nat, now: int, law: Law) {
    && n >= 0 && f.dropNext.Some? && g.count == f.count + n
    && (n > 0 ==> f.dropNext.value <= now) && (n == 0 ==> g.dropNext == f.dropNext)
    && (n > 0 ==>
          g.dropNext == Some(f.dropNext.value + Steps(law, interval, f.count, if g.dropping then n else n - 1)))
  }

  /** What `n` signals, given in one `dequeue`, make of a bucket. Outside an episode there is at most one,
      which begins an episode: two below the count of the last one, if that was above two and its next
      signal was due less than sixteen intervals ago, and at one otherwise. */
  ghost predicate KeepsPace(f: Flow, g: Flow, n: int, interval: nat, now: int, law: Law) {
    if f.dropping then GoesOn(f, g, n, interval, now, law)
    else if n == 0 then (g.dropping, g.count, g.dropNext) == (false, f.count, f.dropNext)
    else
      && n == 1 && g.dropping
      && g.count == (if f.count > 2 && f.dropNext.Some? && Since(now, f.dropNext.value) < 16 * interval
                     then f.count - 2 else 1)
      && g.dropNext == Some(now + law(interval, g.count))
  }

  ghost predicate Elsewhere(q: Queue, r: Queue, idx: Bucket) {
    && r.interval == q.interval
    && forall b: Bucket :: b != idx ==> r.flows[b] == q.flows[b] && SignalsTo(r.log, b) == SignalsTo(q.log, b)
  }

  lemma TakePace(q: Queue, idx: Bucket, now: int)
    ensures var r := Take(q, idx, now).0;
            && Elsewhere(q, r, idx) && SignalsTo(r.log, idx) == SignalsTo(q.log, idx)
            && (r.flows[idx].dropping, r.flows[idx].count, r.flows[idx].dropNext) ==
               (q.flows[idx].dropping, q.flows[idx].count, q.flows[idx].dropNext)
  {
    hide SignalsTo;
    var f := q.flows[idx];
    if f.packets != [] {
      var head := f.packets[0];
      forall b: Bucket
        ensures SignalsTo(Take(q, idx, now).0.log, b) == SignalsTo(q.log, b)
      {
        SignalsToNote(q.log, Taken(idx, head, now, q.target, q.interval, f.bytes - |head.packet|), b);
      }
    }
  }

  lemma CountPace(q: Queue, idx: Bucket, now: int, head: Queued)
    ensures forall b: Bucket :: SignalsTo(CountMark(q, idx, now).log, b) ==
                                SignalsTo(q.log, b) + if b == idx then 1 else 0
    ensures forall b: Bucket :: SignalsTo(CountDrop(q, idx, now, head).log, b) ==
                                SignalsTo(q.log, b) + if b == idx then 1 else 0
  {
    hide SignalsTo;
    var mid := q.log + [Punished(idx, now, false)];
    assert CountDrop(q, idx, now, head).log == mid + [Moved(OverTarget, idx, head, head.packet)];
    forall b: Bucket
      ensures SignalsTo(CountMark(q, idx, now).log, b) == SignalsTo(q.log, b) + if b == idx then 1 else 0
      ensures SignalsTo(CountDrop(q, idx, now, head).log, b) == SignalsTo(q.log, b) + if b == idx then 1 else 0
    {
      SignalsToNote(q.log, Punished(idx, now, true), b);
      SignalsToNote(q.log, Punished(idx, now, false), b);
      SignalsToNote(mid, Moved(OverTarget, idx, head, head.packet), b);
    }
  }

  lemma OneMore(f: Flow, eased: Flow, g: Flow, n: int, interval: nat, now: int, law: Law)
    requires f.dropNext.Some? && f.dropNext.value <= now && eased.count == f.count + 1
    requires eased.dropNext == Some(f.dropNext.value + law(interval, eased.count))
    requires GoesOn(eased, g, n, interval, now, law) && (!g.dropping ==> n > 0)
    ensures GoesOn(f, g, n + 1, interval, now, law)
  {
  }

  lemma NoneMore(f: Flow, interval: nat, now: int, law: Law)
    requires f.dropNext.Some?
    ensures GoesOn(f, f, 0, interval, now, law)
  {
  }

  lemma LastOne(f: Flow, g: Flow, interval: nat, now: int, law: Law)
    requires f.dropNext.Some? && f.dropNext.value <= now && g.count == f.count + 1
    requires g.dropNext == if g.dropping then Some(f.dropNext.value + law(interval, g.count)) else f.dropNext
    ensures GoesOn(f, g, 1, interval, now, law)
  {
    assert Steps(law, interval, f.count, 1) == law(interval, f.count + 1);
  }

  lemma {:induction false} EpisodePace(q: Queue, idx: Bucket, now: int, law: Law, head: Queued)
    requires q.flows[idx].dropping && q.flows[idx].dropNext.Some?
    ensures var r := Episode(q, idx, now, law, head).0;
            && Elsewhere(q, r, idx)
            && GoesOn(q.flows[idx], r.flows[idx], SignalsTo(r.log, idx) - SignalsTo(q.log, idx), q.interval, now, law)
            && (!r.flows[idx].dropping ==> SignalsTo(r.log, idx) > SignalsTo(q.log, idx))
    decreases |q.flows[idx].packets|
  {
    hide SignalsTo, MarkOutcome, Take, CountMark, CountDrop, GoesOn;
    var f := q.flows[idx];
    if !Due(f, now) {
      NoneMore(f, q.interval, now, law);
    } else {
      var counted := SetFlow(q, idx, f.(count := f.count + 1));
      CountPace(counted, idx, now, head);
      CountKeeps(counted, idx, now, head);
      var dropped := CountDrop(counted, idx, now, head);
      TakePace(dropped, idx, now);
      var (taken, next) := Take(dropped, idx, now);
      if !MarkOutcome(head.packet).0 && next.Some? && next.value.1 {
        var eased := Schedule(taken, idx, From(taken.flows[idx], now), law);
        EpisodePace(eased, idx, now, law, next.value.0);
        var r := Episode(eased, idx, now, law, next.value.0).0;
        OneMore(f, eased.flows[idx], r.flows[idx], SignalsTo(r.log, idx) - SignalsTo(eased.log, idx), q.interval, now,
                law);
      } else {
        LastOne(f, Episode(q, idx, now, law, head).0.flows[idx], q.interval, now, law);
      }
    }
  }

  lemma CountKeeps(q: Queue, idx: Bucket, now: int, head: Queued)
    ensures CountMark(q, idx, now).flows == q.flows && CountMark(q, idx, now).interval == q.interval
    ensures CountDrop(q, idx, now, head).flows == q.flows && CountDrop(q, idx, now, head).interval == q.interval
  {
  }

  lemma OnsetPace(q: Queue, idx: Bucket, now: int, law: Law, head: Queued)
    requires !q.flows[idx].dropping
    ensures var r := Onset(q, idx, now, law, head).0;
            && Elsewhere(q, r, idx) && SignalsTo(r.log, idx) == SignalsTo(q.log, idx) + 1
            && KeepsPace(q.flows[idx], r.flows[idx], 1, q.interval, now, law)
  {
    hide SignalsTo, MarkOutcome, Take, CountMark, CountDrop;
    CountPace(q, idx, now, head);
    CountKeeps(q, idx, now, head);
    TakePace(CountDrop(q, idx, now, head), idx, now);
  }

  lemma CodelPace(q: Queue, idx: Bucket, now: int, law: Law)
    requires q.flows[idx].dropping ==> q.flows[idx].dropNext.Some?
    ensures var r := Codel(q, idx, now, law).0;
            && Elsewhere(q, r, idx)
            && KeepsPace(q.flows[idx], r.flows[idx], SignalsTo(r.log, idx) - SignalsTo(q.log, idx), q.interval, now,
                         law)
  {
    hide SignalsTo, Take, Episode, Onset;
    TakePace(q, idx, now);
    var (taken, next) := Take(q, idx, now);
    if next.Some? && next.value.1 {
      if taken.flows[idx].dropping {
        EpisodePace(taken, idx, now, law, next.value.0);
      } else {
        OnsetPace(taken, idx, now, law, next.value.0);
      }
    }
  }

  /** Refilling a bucket, or taking a dry one out of service, gives no signal. */
  lemma ServicePace(q: Queue)
    requires InService(q)
    ensures forall b: Bucket :: SameMemory(q.flows[b], Refill(q).flows[b]) && SameMemory(q.flows[b], Unlist(q).flows[b])
    ensures forall b: Bucket :: SignalsTo(Refill(q).log, b) == SignalsTo(q.log, b)
    ensures Refill(q).interval == q.interval && Unlist(q).interval == q.interval && Unlist(q).log == q.log
  {
    hide SignalsTo;
    forall b: Bucket
      ensures SignalsTo(Refill(q).log, b) == SignalsTo(q.log, b)
    {
      SignalsToNote(q.log, Refilled(Next(q)), b);
    }
  }

  /** The pace depends on what a bucket knows of CoDel alone. */
  lemma SamePace(f: Flow, e: Flow, g: Flow, h: Flow, n: int, interval: nat, now: int, law: Law)
    requires SameMemory(f, e) && SameMemory(g, h) && KeepsPace(e, g, n, interval, now, law)
    ensures KeepsPace(f, h, n, interval, now, law)
  {
  }

  lemma NoPace(f: Flow, interval: nat, now: int, law: Law)
    requires f.dropping ==> f.dropNext.Some?
    ensures KeepsPace(f, f, 0, interval, now, law)
  {
  }

  lemma {:induction false} DequeuePace(q: Queue, now: int, law: Law, b: Bucket)
    requires Good(q, Free) && forall c: Bucket :: q.flows[c].dropping ==> q.flows[c].dropNext.Some?
    ensures var r := Dequeue(q, now, law).0;
            KeepsPace(q.flows[b], r.flows[b], SignalsTo(r.log, b) - SignalsTo(q.log, b), q.interval, now, law)
    decreases |q.freshList| + |q.backlogged|, SumOwed(q.flows)
  {
    hide Good, Codel, SignalsTo, Refill, Unlist, KeepsPace;
    if InService(q) {
      var idx := Next(q);
      ServicePace(q);
      if q.flows[idx].deficit <= 0 {
        RefillPaysOne(q);
        RefillKeeps(q);
        DequeuePace(Refill(q), now, law, b);
        var g, n := Dequeue(q, now, law).0.flows[b], SignalsTo(Dequeue(q, now, law).0.log, b) - SignalsTo(q.log, b);
        SamePace(q.flows[b], Refill(q).flows[b], g, g, n, q.interval, now, law);
      } else {
        CodelKeeps(q, idx, now, law);
        var (r, out) := Codel(q, idx, now, law);
        if out.None? {
          UnlistKeeps(q);
          DequeuePace(Unlist(q), now, law, b);
          var g, n := Dequeue(q, now, law).0.flows[b], SignalsTo(Dequeue(q, now, law).0.log, b) - SignalsTo(q.log, b);
          SamePace(q.flows[b], Unlist(q).flows[b], g, g, n, q.interval, now, law);
        } else {
          ServedPace(q, idx, now, law, b);
        }
      }
    } else {
      NoPace(q.flows[b], q.interval, now, law);
    }
  }

  lemma ServedPace(q: Queue, idx: Bucket, now: int, law: Law, b: Bucket)
    requires Codel(q, idx, now, law).1.Some?
    requires forall c: Bucket :: q.flows[c].dropping ==> q.flows[c].dropNext.Some?
    ensures var (r, out) := Codel(q, idx, now, law);
            var s := Charge(r, idx, out.value);
            KeepsPace(q.flows[b], s.flows[b], SignalsTo(s.log, b) - SignalsTo(q.log, b), q.interval, now, law)
  {
    hide Codel, SignalsTo, KeepsPace;
    CodelPace(q, idx, now, law);
    var (r, out) := Codel(q, idx, now, law);
    SignalsToNote(r.log, Moved(Delivery, idx, out.value.head, out.value.sent), b);
    var s := Charge(r, idx, out.value);
    if b == idx {
      SamePace(q.flows[b], q.flows[b], r.flows[b], s.flows[b], SignalsTo(s.log, b) - SignalsTo(q.log, b), q.interval,
               now, law);
    } else {
      NoPace(q.flows[b], q.interval, now, law);
    }
  }

  /** After any run, what one `dequeue` does to a bucket's episode goes with the signals it gives: outside
      an episode at most one, which begins one with the count of the last if that is not long ago; within,
      each signal counts one and moves the next on by what the law says for its number. */
  lemma SignalsKeepPace(ops: seq<Op>, law: Law, now: int, b: Bucket)
    ensures var q := Reached(ops, law);
            var r := Dequeue(q, now, law).0;
            KeepsPace(q.flows[b], r.flows[b], SignalsTo(r.log, b) - SignalsTo(q.log, b), q.interval, now, law)
  {
    hide Good, Reached, Dequeue, SignalsTo, Tells, KeepsPace;
    ReachedTells(ops, law);
    EpisodesAreDue(Reached(ops, law), law);
    DequeuePace(Reached(ops, law), now, law, b);
  }

  lemma EpisodesAreDue(q: Queue, law: Law)
    requires Tells(q, law)
    ensures forall b: Bucket :: q.flows[b].dropping ==> q.flows[b].dropNext.Some?
  {
    hide MemoryOf, AllAnswered, AllGrounded;
    forall b: Bucket | q.flows[b].dropping
      ensures q.flows[b].dropNext.Some?
    {
      assert Tied(MemoryOf(q.log, b, law), q.flows[b]);
    }
  }
}
