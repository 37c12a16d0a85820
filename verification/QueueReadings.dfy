/** What the statistics of the packet queue tell about its runs (src/queue.rs). */
module QueueReadings {
  import opened Common
  import opened Packets
  import opened QueueModel
  import opened QueueInvariant

  /** How long a packet taken out of a bucket had waited there. */
  function WaitOf(e: Event): nat {
    if e.Taken? then Since(e.now, e.what.at) else 0
  }

  /** The longest wait the log tells of from one position on. */
  function Longest(log: seq<Event>, from: nat): nat {
    if |log| <= from then 0 else Max(Longest(log[..|log| - 1], from), WaitOf(log[|log| - 1]))
  }

  lemma {:induction false} LongestIs(log: seq<Event>, from: nat)
    ensures forall i :: from <= i < |log| && log[i].Taken? ==> WaitOf(log[i]) <= Longest(log, from)
    ensures Longest(log, from) > 0 ==>
              exists i :: from <= i < |log| && log[i].Taken? && WaitOf(log[i]) == Longest(log, from)
    decreases |log|
  {
    if |log| > from {
      var n := |log| - 1;
      LongestIs(log[..n], from);
      if Longest(log, from) > 0 && WaitOf(log[n]) < Longest(log, from) {
        var i :| from <= i < n && log[..n][i].Taken? && WaitOf(log[..n][i]) == Longest(log[..n], from);
        assert log[i].Taken?;
      }
    }
  }

  /** The worst wait is the longest of those that came after `read`. */
  ghost predicate Kept(q: Queue, read: seq<Event>) {
    read <= q.log && q.worstWait == Longest(q.log, |read|)
  }

  lemma KeptNote(q: Queue, r: Queue, e: Event, read: seq<Event>)
    requires Kept(q, read) && r.log == q.log + [e] && r.worstWait == Max(q.worstWait, WaitOf(e))
    ensures Kept(r, read)
  {
    assert r.log[..|r.log| - 1] == q.log;
  }

  // ----- what takes no packet out for the caller -----

  lemma PopHeadKept(q: Queue, idx: Bucket, fate: Fate, read: seq<Event>)
    requires Kept(q, read) && q.flows[idx].packets != []
    ensures Kept(PopHead(q, idx, fate), read)
  {
    hide Kept;
    var head := q.flows[idx].packets[0];
    KeptNote(q, PopHead(q, idx, fate), Moved(fate, idx, head, head.packet), read);
  }

  lemma DropFattestKept(q: Queue, read: seq<Event>)
    requires Tallied(q) && Kept(q, read)
    ensures Kept(DropFattest(q).0, read)
  {
    var idx := Fattest(q.flows);
    if q.flows[idx].bytes > 0 {
      PopHeadKept(q, idx, OverLimit, read);
    }
  }

  lemma {:induction false} MakeRoomKept(q: Queue, len: nat, read: seq<Event>)
    requires Tallied(q) && Kept(q, read)
    ensures Kept(MakeRoom(q, len), read)
    decreases SumPackets(q.flows)
  {
    hide Kept, DropFattest;
    if q.bytes + len > LIMIT_BYTES {
      DropFattestTallied(q);
      DropFattestKept(q, read);
      var (r, more) := DropFattest(q);
      if more {
        MakeRoomKept(r, len, read);
      }
    }
  }

  lemma {:induction false} ThinnedKept(q: Queue, idx: Bucket, gone: seq<Queued>, read: seq<Event>)
    requires Kept(q, read)
    ensures Kept(q.(log := q.log + ThinnedEvents(idx, gone)), read)
    decreases |gone|
  {
    if gone == [] {
      assert q.log + ThinnedEvents(idx, gone) == q.log;
    } else {
      hide Kept;
      var n := |gone| - 1;
      ThinnedKept(q, idx, gone[..n], read);
      var r := q.(log := q.log + ThinnedEvents(idx, gone[..n]));
      var e := Moved(Thinned, idx, gone[n], gone[n].packet);
      var s := q.(log := q.log + ThinnedEvents(idx, gone));
      assert s.log == r.log + [e];
      KeptNote(r, s, e, read);
    }
  }

  lemma ThinKept(q: Queue, packet: bytes, read: seq<Event>)
    requires Kept(q, read)
    ensures Kept(ThinFor(q, packet), read)
  {
    hide Sift, FlowOf, PureAck, Longest;
    if PureAck(packet).Some? {
      var idx := FlowOf(packet);
      ThinnedKept(q, idx, Sift(q.flows[idx].packets, packet, PureAck(packet).value).1, read);
    }
  }

  lemma EnqueueKept(q: Queue, packet: bytes, now: int, read: seq<Event>)
    requires Tallied(q) && Kept(q, read)
    ensures Kept(Enqueue(q, packet, now), read)
  {
    hide Kept, MakeRoom, ThinFor, FlowOf;
    MakeRoomKept(q, |packet|, read);
    var roomy := MakeRoom(q, |packet|);
    ThinKept(roomy, packet, read);
    var thin := ThinFor(roomy, packet);
    KeptNote(thin, Accept(thin, packet, now), Moved(Arrival, FlowOf(packet), Queued(packet, now), packet), read);
  }

  lemma {:induction false} SweepBucketKept(q: Queue, idx: Bucket, now: int, age: nat, read: seq<Event>)
    requires Kept(q, read)
    ensures Kept(SweepBucket(q, idx, now, age), read)
    decreases |q.flows[idx].packets|
  {
    var f := q.flows[idx];
    if f.packets != [] && Since(now, f.packets[0].at) >= age {
      PopHeadKept(q, idx, Stale, read);
      SweepBucketKept(SweepHead(q, idx), idx, now, age, read);
    } else {
      hide Kept;
      KeptNote(q, SweepBucket(q, idx, now, age), Swept(idx), read);
    }
  }

  lemma {:induction false} SweepKept(q: Queue, i: nat, now: int, age: nat, read: seq<Event>)
    requires i <= FLOWS && Kept(q, read)
    ensures Kept(SweepFrom(q, i, now, age), read)
    decreases FLOWS - i
  {
    hide Kept, SweepBucket;
    if i < FLOWS {
      SweepBucketKept(q, i, now, age, read);
      SweepKept(SweepBucket(q, i, now, age), i + 1, now, age, read);
    }
  }

  // ----- what takes packets out -----

  lemma TakeKept(q: Queue, idx: Bucket, now: int, read: seq<Event>)
    requires Kept(q, read)
    ensures Kept(Take(q, idx, now).0, read)
  {
    hide Kept;
    var f := q.flows[idx];
    if f.packets != [] {
      var head := f.packets[0];
      KeptNote(q, Take(q, idx, now).0, Taken(idx, head, now, q.target, q.interval, f.bytes - |head.packet|), read);
    }
  }

  lemma SignalKept(q: Queue, idx: Bucket, now: int, head: Queued, read: seq<Event>)
    requires Kept(q, read)
    ensures Kept(CountMark(q, idx, now), read) && Kept(CountDrop(q, idx, now, head), read)
  {
    hide Kept;
    KeptNote(q, CountMark(q, idx, now), Punished(idx, now, true), read);
    var mid := Note(q.(overTarget := q.overTarget + 1), Punished(idx, now, false));
    KeptNote(q, mid, Punished(idx, now, false), read);
    KeptNote(mid, CountDrop(q, idx, now, head), Moved(OverTarget, idx, head, head.packet), read);
  }

  lemma TuneKept(q: Queue, idx: Bucket, f: Flow, read: seq<Event>)
    requires Kept(q, read)
    ensures Kept(SetFlow(q, idx, f), read)
  {
  }

  lemma {:induction false} EpisodeKept(q: Queue, idx: Bucket, now: int, law: Law, head: Queued, read: seq<Event>)
    requires Kept(q, read)
    ensures Kept(Episode(q, idx, now, law, head).0, read)
    decreases |q.flows[idx].packets|
  {
    hide Kept, MarkOutcome, Take, CountMark, CountDrop;
    var f := q.flows[idx];
    if f.dropping && Due(f, now) {
      var g := f.(count := f.count + 1);
      var counted := SetFlow(q, idx, g);
      TuneKept(q, idx, g, read);
      SignalKept(counted, idx, now, head, read);
      if MarkOutcome(head.packet).0 {
        var marked := CountMark(counted, idx, now);
        TuneKept(marked, idx, Schedule(marked, idx, From(f, now), law).flows[idx], read);
      } else {
        var dropped := CountDrop(counted, idx, now, head);
        TakeKept(dropped, idx, now, read);
        EpisodeGoesOn(dropped, idx, now, law, read);
        assert |dropped.flows[idx].packets| == |f.packets| by {
          DropWaits(counted, idx, now, head);
        }
        var (taken, next) := Take(dropped, idx, now);
        if next.Some? {
          var eased := Eased(taken, idx, now, law, next.value.1);
          EpisodeKept(eased, idx, now, law, next.value.0, read);
        }
      }
    }
  }

  /** The state an episode goes on from when the head it has taken is overdue, or is not. */
  function Eased(taken: Queue, idx: Bucket, now: int, law: Law, overdue: bool): Queue {
    if overdue then Schedule(taken, idx, From(taken.flows[idx], now), law) else SetDropping(taken, idx, false)
  }

  lemma DropWaits(q: Queue, idx: Bucket, now: int, head: Queued)
    ensures CountDrop(q, idx, now, head).flows == q.flows
  {
  }

  lemma EpisodeGoesOn(q: Queue, idx: Bucket, now: int, law: Law, read: seq<Event>)
    requires Kept(q, read)
    ensures var taken := Take(q, idx, now).0;
            && Kept(Eased(taken, idx, now, law, true), read)
            && Kept(Eased(taken, idx, now, law, false), read)
  {
    hide Kept, Take;
    TakeKept(q, idx, now, read);
    var taken := Take(q, idx, now).0;
    TuneKept(taken, idx, Eased(taken, idx, now, law, true).flows[idx], read);
    TuneKept(taken, idx, Eased(taken, idx, now, law, false).flows[idx], read);
  }

  lemma OnsetKept(q: Queue, idx: Bucket, now: int, law: Law, head: Queued, read: seq<Event>)
    requires Kept(q, read)
    ensures Kept(Onset(q, idx, now, law, head).0, read)
  {
    hide Longest, MarkOutcome, Take, CountMark, CountDrop, ResumedCount;
    SignalKept(q, idx, now, head, read);
    TakeKept(CountDrop(q, idx, now, head), idx, now, read);
  }

  lemma CodelKept(q: Queue, idx: Bucket, now: int, law: Law, read: seq<Event>)
    requires Kept(q, read)
    ensures Kept(Codel(q, idx, now, law).0, read)
  {
    hide Longest, Take, Episode, Onset;
    TakeKept(q, idx, now, read);
    var (taken, next) := Take(q, idx, now);
    if next.Some? {
      EpisodeKept(taken, idx, now, law, next.value.0, read);
      OnsetKept(taken, idx, now, law, next.value.0, read);
    }
  }

  lemma {:induction false} DequeueKept(q: Queue, now: int, law: Law, read: seq<Event>)
    requires Kept(q, read)
    ensures Kept(Dequeue(q, now, law).0, read)
    decreases |q.freshList| + |q.backlogged|, SumOwed(q.flows)
  {
    hide Kept, Codel;
    if InService(q) {
      var idx := Next(q);
      if q.flows[idx].deficit <= 0 {
        RefillPaysOne(q);
        KeptNote(q, Refill(q), Refilled(idx), read);
        DequeueKept(Refill(q), now, law, read);
      } else {
        CodelKept(q, idx, now, law, read);
        var (r, out) := Codel(q, idx, now, law);
        match out
        case Some(release) =>
          KeptNote(r, Charge(r, idx, release), Moved(Delivery, idx, release.head, release.sent), read);
        case None =>
          UnlistKept(r, read);
          DequeueKept(Unlist(r), now, law, read);
      }
    }
  }

  lemma UnlistKept(q: Queue, read: seq<Event>)
    requires InService(q) && Kept(q, read)
    ensures Kept(Unlist(q), read)
  {
  }

  // ----- runs -----

  lemma ApplyKept(q: Queue, op: Op, law: Law, read: seq<Event>)
    requires Tallied(q) && Kept(q, read) && !op.Report?
    ensures Kept(Apply(q, op, law), read)
  {
    hide Enqueue, Dequeue, SweepFrom, Longest;
    match op
    case Push(packet, at) => EnqueueKept(q, packet, at, read);
    case Pop(at) => DequeueKept(q, at, law, read);
    case Sweep(at, age) => SweepKept(q, 0, at, age, read);
    case Measure(rtt) =>
  }

  lemma {:induction false} RunKept(q: Queue, ops: seq<Op>, law: Law, read: seq<Event>)
    requires Good(q, Free) && Kept(q, read) && forall op :: op in ops ==> !op.Report?
    ensures Kept(RunFrom(q, ops, law), read)
    decreases |ops|
  {
    hide Good, Kept, Apply;
    if ops != [] {
      GoodIsTallied(q, Free);
      ApplyKeeps(q, ops[0], law);
      ApplyKept(q, ops[0], law, read);
      RunKept(Apply(q, ops[0], law), ops[1..], law, read);
    }
  }

  lemma {:induction false} RunJoins(q: Queue, a: seq<Op>, b: seq<Op>, law: Law)
    requires Good(q, Free)
    ensures RunFrom(q, a + b, law) == RunFrom(RunFrom(q, a, law), b, law)
    decreases |a|
  {
    hide Good, Apply;
    if a == [] {
      assert a + b == b;
    } else {
      GoodIsTallied(q, Free);
      ApplyKeeps(q, a[0], law);
      RunJoins(Apply(q, a[0], law), a[1..], b, law);
      assert (a + b)[1..] == a[1..] + b;
    }
  }

  /** The worst wait is exact: after any run, it is the longest that any packet had waited which
      `dequeue` took out of a bucket since the statistics were last read, to deliver it or to drop it
      over target; nothing else moves it. */
  lemma WorstWaitIsExact(before: seq<Op>, after: seq<Op>, law: Law)
    requires forall op :: op in after ==> !op.Report?
    ensures var read := Reached(before, law).log;
            var q := Reached(before + ([Report] + after), law);
            && read <= q.log
            && (forall i :: |read| <= i < |q.log| && q.log[i].Taken? ==> WaitOf(q.log[i]) <= q.worstWait)
            && (q.worstWait > 0 ==>
                  exists i :: |read| <= i < |q.log| && q.log[i].Taken? && WaitOf(q.log[i]) == q.worstWait)
  {
    hide Good;
    EmptyIsGood();
    var p := Reached(before, law);
    GoodIsTallied(p, Free);
    ReportKeeps(p);
    RunJoins(Empty(), before, [Report] + after, law);
    assert ([Report] + after)[1..] == after;
    RunKept(AfterStats(p), after, law, p.log);
    LongestIs(RunFrom(AfterStats(p), after, law).log, |p.log|);
  }
}
