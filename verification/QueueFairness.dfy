/** Deficit round-robin between the buckets of the packet queue. */
module QueueFairness {
  import opened Common
  import opened Packets
  import opened QueueModel
  import opened QueueLog
  import opened QueueInvariant

  /** How many quanta a bucket was given. */
  function Refills(log: seq<Event>, b: Bucket): nat {
    if log == [] then 0
    else Refills(log[..|log| - 1], b) + if log[|log| - 1] == Refilled(b) then 1 else 0
  }

  function SentBy(e: Event, b: Bucket): nat {
    if e.Moved? && e.fate == Delivery && e.idx == b then |e.sent| else 0
  }

  /** How many octets a bucket delivered. */
  function SentBytes(log: seq<Event>, b: Bucket): nat {
    if log == [] then 0 else SentBytes(log[..|log| - 1], b) + SentBy(log[|log| - 1], b)
  }

  lemma ServiceNote(log: seq<Event>, e: Event, b: Bucket)
    ensures Refills(log + [e], b) == Refills(log, b) + if e == Refilled(b) then 1 else 0
    ensures SentBytes(log + [e], b) == SentBytes(log, b) + SentBy(e, b)
  {
    assert (log + [e])[..|log|] == log;
  }

  // ----- what does not disturb the rotation -----

  ghost predicate Calm(q: Queue, r: Queue) {
    && r.freshList == q.freshList && r.backlogged == q.backlogged
    && (forall b: Bucket ::
          && r.flows[b].listed == q.flows[b].listed
          && r.flows[b].deficit == q.flows[b].deficit
          && (forall p :: p in r.flows[b].packets ==> p in q.flows[b].packets))
    && (forall b: Bucket :: Refills(r.log, b) == Refills(q.log, b))
    && (forall b: Bucket :: SentBytes(r.log, b) == SentBytes(q.log, b))
    && Calls(r.log) == Calls(q.log)
  }

  /** One event that is neither a refill, an arrival nor a delivery. */
  lemma CalmNote(q: Queue, r: Queue, e: Event)
    requires r.log == q.log + [e]
    requires !e.Refilled? && !(e.Moved? && (e.fate == Delivery || e.fate == Arrival))
    requires r.freshList == q.freshList && r.backlogged == q.backlogged
    requires forall b: Bucket ::
               && r.flows[b].listed == q.flows[b].listed
               && r.flows[b].deficit == q.flows[b].deficit
               && (forall p :: p in r.flows[b].packets ==> p in q.flows[b].packets)
    ensures Calm(q, r)
  {
    CallsNote(q.log, e);
    forall b: Bucket
      ensures Refills(r.log, b) == Refills(q.log, b) && SentBytes(r.log, b) == SentBytes(q.log, b)
    {
      ServiceNote(q.log, e, b);
    }
  }

  lemma PopHeadCalm(q: Queue, idx: Bucket, fate: Fate)
    requires q.flows[idx].packets != [] && fate != Delivery && fate != Arrival
    ensures Calm(q, PopHead(q, idx, fate))
  {
    HeadSplits(q.flows[idx].packets);
    CalmNote(q, PopHead(q, idx, fate), Moved(fate, idx, q.flows[idx].packets[0], q.flows[idx].packets[0].packet));
  }

  lemma {:induction false} MakeRoomCalm(q: Queue, len: nat)
    requires Tallied(q)
    ensures Calm(q, MakeRoom(q, len))
    decreases SumPackets(q.flows)
  {
    hide Calm, DropFattest;
    CalmSelf(q);
    if q.bytes + len > LIMIT_BYTES {
      DropFattestTallied(q);
      DropFattestCalm(q);
      var (r, more) := DropFattest(q);
      if more {
        MakeRoomCalm(r, len);
        CalmThen(q, r, MakeRoom(r, len));
      }
    }
  }

  lemma DropFattestCalm(q: Queue)
    requires Tallied(q)
    ensures Calm(q, DropFattest(q).0)
  {
    hide Calls, Refills, SentBytes;
    var idx := Fattest(q.flows);
    if q.flows[idx].bytes > 0 {
      PopHeadCalm(q, idx, OverLimit);
    }
  }

  lemma {:induction false} ThinnedLogCalm(log: seq<Event>, idx: Bucket, gone: seq<Queued>, b: Bucket)
    ensures Refills(log + ThinnedEvents(idx, gone), b) == Refills(log, b)
    ensures SentBytes(log + ThinnedEvents(idx, gone), b) == SentBytes(log, b)
    ensures Calls(log + ThinnedEvents(idx, gone)) == Calls(log)
    decreases |gone|
  {
    hide Calls, Refills, SentBytes;
    if gone == [] {
      assert log + ThinnedEvents(idx, gone) == log;
    } else {
      var n := |gone| - 1;
      ThinnedLogCalm(log, idx, gone[..n], b);
      var l := log + ThinnedEvents(idx, gone[..n]);
      var e := Moved(Thinned, idx, gone[n], gone[n].packet);
      assert log + ThinnedEvents(idx, gone) == l + [e];
      CallsNote(l, e);
      ServiceNote(l, e, b);
    }
  }

  lemma ThinCalm(q: Queue, packet: bytes)
    ensures Calm(q, ThinFor(q, packet))
  {
    hide Calls, Refills, SentBytes, Sift, FlowOf, PureAck;
    if PureAck(packet).Some? {
      var idx, acked := FlowOf(packet), PureAck(packet).value;
      SiftSplits(q.flows[idx].packets, packet, acked);
      ThinnedLogCalm(q.log, idx, Sift(q.flows[idx].packets, packet, acked).1, 0);
      forall b: Bucket
        ensures Refills(ThinFor(q, packet).log, b) == Refills(q.log, b)
        ensures SentBytes(ThinFor(q, packet).log, b) == SentBytes(q.log, b)
      {
        ThinnedLogCalm(q.log, idx, Sift(q.flows[idx].packets, packet, acked).1, b);
      }
    }
  }

  lemma {:induction false} SweepBucketCalm(q: Queue, idx: Bucket, now: int, age: nat)
    ensures Calm(q, SweepBucket(q, idx, now, age))
    decreases |q.flows[idx].packets|
  {
    hide Calls, Refills, SentBytes;
    var f := q.flows[idx];
    if f.packets != [] && Since(now, f.packets[0].at) >= age {
      PopHeadCalm(q, idx, Stale);
      SweepBucketCalm(SweepHead(q, idx), idx, now, age);
    } else {
      CalmNote(q, SweepBucket(q, idx, now, age), Swept(idx));
    }
  }

  lemma {:induction false} SweepCalm(q: Queue, i: nat, now: int, age: nat)
    requires i <= FLOWS
    ensures Calm(q, SweepFrom(q, i, now, age))
    decreases FLOWS - i
  {
    hide Calls, Refills, SentBytes, SweepBucket;
    if i < FLOWS {
      SweepBucketCalm(q, i, now, age);
      SweepCalm(SweepBucket(q, i, now, age), i + 1, now, age);
    }
  }

  lemma TakeCalm(q: Queue, idx: Bucket, now: int)
    ensures Calm(q, Take(q, idx, now).0)
    ensures q.flows[idx].packets != [] ==> Take(q, idx, now).1.value.0 in q.flows[idx].packets
  {
    hide Calls, Refills, SentBytes;
    var ps := q.flows[idx].packets;
    if ps != [] {
      HeadSplits(ps);
      CalmNote(q, Take(q, idx, now).0,
               Taken(idx, ps[0], now, q.target, q.interval, q.flows[idx].bytes - |ps[0].packet|));
    }
  }

  lemma SignalCalm(q: Queue, idx: Bucket, now: int, head: Queued)
    ensures Calm(q, CountMark(q, idx, now))
    ensures Calm(q, CountDrop(q, idx, now, head))
  {
    hide Calls, Refills, SentBytes;
    CalmNote(q, CountMark(q, idx, now), Punished(idx, now, true));
    var mid := Note(q.(overTarget := q.overTarget + 1), Punished(idx, now, false));
    CalmNote(q, mid, Punished(idx, now, false));
    CalmNote(mid, CountDrop(q, idx, now, head), Moved(OverTarget, idx, head, head.packet));
  }

  /** The released packet waited in the bucket, and marking does not change a length. */
  ghost predicate WaitedIn(q: Queue, idx: Bucket, out: Release) {
    out.head in q.flows[idx].packets && |out.sent| == |out.head.packet|
  }

  lemma {:induction false} EpisodeCalm(q: Queue, idx: Bucket, now: int, law: Law, head: Queued)
    ensures var r := Episode(q, idx, now, law, head);
            && Calm(q, r.0)
            && (r.1.Some? ==> |r.1.value.sent| == |r.1.value.head.packet| &&
                              (r.1.value.head == head || r.1.value.head in q.flows[idx].packets))
    decreases |q.flows[idx].packets|
  {
    hide Calm, MarkOutcome, Take;
    var f := q.flows[idx];
    CalmSelf(q);
    if f.dropping && Due(f, now) {
      var g := f.(count := f.count + 1);
      var counted := SetFlow(q, idx, g);
      TuneCalm(q, idx, g);
      SignalCalm(counted, idx, now, head);
      if MarkOutcome(head.packet).0 {
        var marked := CountMark(counted, idx, now);
        var r := Schedule(marked, idx, From(g, now), law);
        TuneCalm(marked, idx, r.flows[idx]);
        CalmThen(q, counted, marked);
        CalmThen(q, marked, r);
      } else {
        var dropped := CountDrop(counted, idx, now, head);
        TakeCalm(dropped, idx, now);
        var (taken, next) := Take(dropped, idx, now);
        var eased := if next.Some? && next.value.1
                     then Schedule(taken, idx, From(taken.flows[idx], now), law)
                     else SetDropping(taken, idx, false);
        TuneCalm(taken, idx, eased.flows[idx]);
        CalmThen(q, counted, dropped);
        CalmThen(q, dropped, taken);
        CalmThen(q, taken, eased);
        if next.Some? {
          EpisodeCalm(eased, idx, now, law, next.value.0);
          CalmThen(q, eased, Episode(eased, idx, now, law, next.value.0).0);
          CalmWaits(q, dropped, idx);
          CalmWaits(q, eased, idx);
        }
      }
    }
  }

  lemma CalmSelf(q: Queue)
    ensures Calm(q, q)
  {
  }

  lemma CalmThen(q: Queue, r: Queue, s: Queue)
    requires Calm(q, r) && Calm(r, s)
    ensures Calm(q, s)
  {
  }

  lemma CalmWaits(q: Queue, r: Queue, idx: Bucket)
    requires Calm(q, r)
    ensures forall p :: p in r.flows[idx].packets ==> p in q.flows[idx].packets
  {
  }

  /** Setting a bucket's CoDel state is calm. */
  lemma TuneCalm(q: Queue, idx: Bucket, f: Flow)
    requires f == q.flows[idx].(dropNext := f.dropNext, count := f.count, dropping := f.dropping)
    ensures Calm(q, SetFlow(q, idx, f))
  {
  }

  lemma OnsetCalm(q: Queue, idx: Bucket, now: int, law: Law, head: Queued)
    ensures var r := Onset(q, idx, now, law, head);
            && Calm(q, r.0)
            && (r.1.Some? ==> |r.1.value.sent| == |r.1.value.head.packet| &&
                              (r.1.value.head == head || r.1.value.head in q.flows[idx].packets))
  {
    hide Calls, Refills, SentBytes, MarkOutcome, Take;
    SignalCalm(q, idx, now, head);
    TakeCalm(CountDrop(q, idx, now, head), idx, now);
  }

  lemma CodelCalm(q: Queue, idx: Bucket, now: int, law: Law)
    ensures Calm(q, Codel(q, idx, now, law).0)
    ensures Codel(q, idx, now, law).1.Some? ==> WaitedIn(q, idx, Codel(q, idx, now, law).1.value)
  {
    hide Calls, Refills, SentBytes, MarkOutcome, Take, Episode, Onset;
    TakeCalm(q, idx, now);
    var (taken, next) := Take(q, idx, now);
    if next.Some? {
      EpisodeCalm(taken, idx, now, law, next.value.0);
      OnsetCalm(taken, idx, now, law, next.value.0);
    }
  }

  // ----- one operation -----

  /** 0 when `a` comes up before `b` on a list holding both, 1 when `b` does. */
  function Lead(s: seq<Bucket>, a: Bucket, b: Bucket): int {
    if s == [] || s[0] == a then 0 else if s[0] == b then 1 else Lead(s[1..], a, b)
  }

  lemma {:induction false} LeadAppend(s: seq<Bucket>, x: Bucket, a: Bucket, b: Bucket)
    requires a in s || b in s
    ensures Lead(s + [x], a, b) == Lead(s, a, b)
  {
    assert (s + [x])[0] == s[0];
    if s[0] != a && s[0] != b {
      LeadAppend(s[1..], x, a, b);
      assert (s + [x])[1..] == s[1..] + [x];
    }
  }

  lemma {:induction false} LeadOnly(s: seq<Bucket>, a: Bucket, b: Bucket)
    requires a != b
    ensures a !in s && b in s ==> Lead(s, a, b) == 1
    ensures a in s && b !in s ==> Lead(s, a, b) == 0
  {
    if s != [] {
      LeadOnly(s[1..], a, b);
    }
  }

  /** The head of the list goes to the back: the one of the two that moved comes up last. */
  lemma LeadRotate(s: seq<Bucket>, a: Bucket, b: Bucket)
    requires a != b && a in s && b in s && Distinct(s)
    ensures Lead(s[1..] + [s[0]], a, b) ==
            if s[0] == a then 1 else if s[0] == b then 0 else Lead(s, a, b)
  {
    assert s == [s[0]] + s[1..];
    LeadOnly(s[1..], a, b);
    LeadAppend(s[1..], s[0], a, b);
  }

  /** What a window of service conserves for one bucket: octets delivered, less the quanta granted,
      plus the credit left. */
  function Books(q: Queue, b: Bucket): int {
    SentBytes(q.log, b) - QUANTUM * Refills(q.log, b) + q.flows[b].deficit
  }

  /** What a window of service conserves for two backlogged buckets. */
  function Race(q: Queue, a: Bucket, b: Bucket): int {
    Refills(q.log, a) - Refills(q.log, b) - Lead(q.backlogged, a, b)
  }

  lemma RefillFair(q: Queue, a: Bucket, b: Bucket)
    requires InOrder(q) && InService(q) && a != b
    ensures Books(Refill(q), a) == Books(q, a)
    ensures a in q.backlogged ==> a in Refill(q).backlogged
    ensures a in q.backlogged && b in q.backlogged ==> Race(Refill(q), a, b) == Race(q, a, b)
  {
    hide Calls, Refills, SentBytes;
    var r, idx := Refill(q), Next(q);
    ServiceNote(q.log, Refilled(idx), a);
    ServiceNote(q.log, Refilled(idx), b);
    if q.freshList == [] {
      assert q.backlogged == [q.backlogged[0]] + q.backlogged[1..];
    }
    if a in q.backlogged && b in q.backlogged {
      if q.freshList == [] {
        LeadRotate(q.backlogged, a, b);
      } else {
        LeadAppend(q.backlogged, idx, a, b);
      }
    }
  }

  lemma UnlistFair(q: Queue, a: Bucket, b: Bucket)
    requires InService(q) && a != b
    ensures Books(Unlist(q), a) == Books(q, a)
    ensures a in q.backlogged ==> a in Unlist(q).backlogged || a == Next(q)
    ensures a in q.backlogged && b in q.backlogged && Next(q) != a && Next(q) != b ==>
              Race(Unlist(q), a, b) == Race(q, a, b)
  {
    hide Calls, Refills, SentBytes;
    if q.freshList == [] {
      assert q.backlogged == [q.backlogged[0]] + q.backlogged[1..];
    }
  }

  lemma ChargeFair(q: Queue, idx: Bucket, out: Release, a: Bucket, b: Bucket)
    ensures Books(Charge(q, idx, out), a) == Books(q, a)
    ensures Race(Charge(q, idx, out), a, b) == Race(q, a, b)
  {
    hide Calls, Refills, SentBytes, Lead;
    var e := Moved(Delivery, idx, out.head, out.sent);
    ServiceNote(q.log, e, a);
    ServiceNote(q.log, e, b);
  }

  /** Serving never puts a bucket in service that was not. */
  lemma {:induction false} DequeueNeverLists(q: Queue, now: int, law: Law, x: Bucket)
    requires !OnList(q, x)
    ensures !OnList(Dequeue(q, now, law).0, x)
    decreases |q.freshList| + |q.backlogged|, SumOwed(q.flows)
  {
    hide Codel;
    if InService(q) {
      var idx := Next(q);
      if q.flows[idx].deficit <= 0 {
        RefillPaysOne(q);
        DequeueNeverLists(Refill(q), now, law, x);
      } else {
        var (r, out) := Codel(q, idx, now, law);
        if out.None? {
          DequeueNeverLists(Unlist(r), now, law, x);
        }
      }
    }
  }

  /** One dequeue, for two buckets that are on the backlogged list before and after. */
  lemma {:induction false} DequeueFair(q: Queue, now: int, law: Law, a: Bucket, b: Bucket)
    requires Good(q, Free) && a != b
    requires a in q.backlogged && b in q.backlogged
    requires OnList(Dequeue(q, now, law).0, a) && OnList(Dequeue(q, now, law).0, b)
    ensures Books(Dequeue(q, now, law).0, a) == Books(q, a)
    ensures Race(Dequeue(q, now, law).0, a, b) == Race(q, a, b)
    decreases |q.freshList| + |q.backlogged|, SumOwed(q.flows)
  {
    hide Good, Codel, Refill, Unlist, Charge, Books, Race, OnList;
    if InService(q) {
      GoodIsInOrder(q);
      var idx := Next(q);
      if q.flows[idx].deficit <= 0 {
        RefillPaysOne(q);
        RefillKeeps(q);
        RefillFair(q, a, b);
        RefillFair(q, b, a);
        DequeueFair(Refill(q), now, law, a, b);
      } else {
        CodelKeeps(q, idx, now, law);
        CodelFair(q, idx, now, law, a, b);
        var (r, out) := Codel(q, idx, now, law);
        match out
        case Some(release) =>
          ChargeFair(r, idx, release, a, b);
        case None =>
          UnlistKeeps(r);
          UnlistFair(r, a, b);
          UnlistFair(r, b, a);
          if idx == a || idx == b {
            DequeueNeverLists(Unlist(r), now, law, idx);
          }
          DequeueFair(Unlist(r), now, law, a, b);
      }
    }
  }

  lemma GoodIsInOrder(q: Queue)
    requires Good(q, Free)
    ensures InOrder(q)
  {
  }

  lemma CodelFair(q: Queue, idx: Bucket, now: int, law: Law, a: Bucket, b: Bucket)
    ensures Books(Codel(q, idx, now, law).0, a) == Books(q, a)
    ensures Race(Codel(q, idx, now, law).0, a, b) == Race(q, a, b)
  {
    CodelCalm(q, idx, now, law);
  }

  // ----- the credit -----

  /** Nothing that waits is longer than `longest`, and every bucket in service has a credit from
      `1 - longest` to a quantum. */
  ghost predicate Fit(q: Queue, longest: nat) {
    && (forall b: Bucket :: forall p :: p in q.flows[b].packets ==> |p.packet| <= longest)
    && (forall b: Bucket :: q.flows[b].listed ==> 1 - longest <= q.flows[b].deficit <= QUANTUM)
  }

  lemma CalmFit(q: Queue, r: Queue, longest: nat)
    requires Calm(q, r) && Fit(q, longest)
    ensures Fit(r, longest)
  {
  }

  lemma ServiceFit(q: Queue, longest: nat)
    requires Fit(q, longest) && InOrder(q) && InService(q)
    ensures q.flows[Next(q)].deficit <= 0 ==> Fit(Refill(q), longest)
    ensures Fit(Unlist(q), longest)
  {
  }

  lemma {:induction false} DequeueFit(q: Queue, now: int, law: Law, longest: nat)
    requires Good(q, Free) && Fit(q, longest)
    ensures Fit(Dequeue(q, now, law).0, longest)
    decreases |q.freshList| + |q.backlogged|, SumOwed(q.flows)
  {
    hide Good, Codel, Refill, Unlist, Fit;
    if InService(q) {
      GoodIsInOrder(q);
      ServiceFit(q, longest);
      var idx := Next(q);
      if q.flows[idx].deficit <= 0 {
        RefillPaysOne(q);
        RefillKeeps(q);
        DequeueFit(Refill(q), now, law, longest);
      } else {
        CodelKeeps(q, idx, now, law);
        CodelCalm(q, idx, now, law);
        var (r, out) := Codel(q, idx, now, law);
        CalmFit(q, r, longest);
        match out
        case Some(release) =>
          ChargeFit(q, r, idx, release, longest);
        case None =>
          UnlistKeeps(r);
          GoodIsInOrder(r);
          ServiceFit(r, longest);
          DequeueFit(Unlist(r), now, law, longest);
      }
    }
  }

  lemma ChargeFit(q: Queue, r: Queue, idx: Bucket, out: Release, longest: nat)
    requires Fit(q, longest) && Fit(r, longest) && WaitedIn(q, idx, out)
    requires r.flows[idx].deficit > 0
    ensures Fit(Charge(r, idx, out), longest)
  {
  }

  /** No packet of a run is longer than `longest`. */
  ghost predicate Within(ops: seq<Op>, longest: nat) {
    forall i :: 0 <= i < |ops| && ops[i].Push? ==> |ops[i].packet| <= longest
  }

  lemma EnqueueFit(q: Queue, packet: bytes, now: int, longest: nat)
    requires Good(q, Free) && Fit(q, longest) && |packet| <= longest
    ensures Fit(Enqueue(q, packet, now), longest)
  {
    hide Good, MakeRoom, ThinFor;
    GoodIsTallied(q, Free);
    MakeRoomCalm(q, |packet|);
    var roomy := MakeRoom(q, |packet|);
    CalmFit(q, roomy, longest);
    ThinCalm(roomy, packet);
    CalmFit(roomy, ThinFor(roomy, packet), longest);
  }

  lemma ApplyFit(q: Queue, op: Op, law: Law, longest: nat)
    requires Good(q, Free) && Fit(q, longest)
    requires op.Push? ==> |op.packet| <= longest
    ensures Fit(Apply(q, op, law), longest)
  {
    hide Good, Enqueue, Dequeue, SweepFrom, Fit;
    match op
    case Push(packet, at) => EnqueueFit(q, packet, at, longest);
    case Pop(at) => DequeueFit(q, at, law, longest);
    case Sweep(at, age) =>
      SweepCalm(q, 0, at, age);
      CalmFit(q, DropOlderThan(q, at, age), longest);
    case Measure(rtt) => MeasureFit(q, rtt, longest);
    case Report => ReportFit(q, longest);
  }

  lemma MeasureFit(q: Queue, rtt: nat, longest: nat)
    requires Fit(q, longest)
    ensures Fit(ObserveRtt(q, rtt), longest)
  {
  }

  lemma ReportFit(q: Queue, longest: nat)
    requires Fit(q, longest)
    ensures Fit(AfterStats(q), longest)
  {
  }

  // ----- windows -----

  /** Both buckets are on the backlogged list now and after every operation of the window. */
  ghost predicate StayBacklogged(q: Queue, ops: seq<Op>, law: Law, a: Bucket, b: Bucket)
    requires Good(q, Free)
    decreases |ops|
  {
    && a in q.backlogged && b in q.backlogged
    && (ops != [] ==>
          (ApplyKeeps(q, ops[0], law); StayBacklogged(Apply(q, ops[0], law), ops[1..], law, a, b)))
  }

  lemma EnqueueFair(q: Queue, packet: bytes, now: int, a: Bucket, b: Bucket)
    requires Good(q, Free) && a in q.backlogged
    ensures Books(Enqueue(q, packet, now), a) == Books(q, a)
    ensures Race(Enqueue(q, packet, now), a, b) == Race(q, a, b)
  {
    hide MakeRoom, ThinFor, Refills, SentBytes, FlowOf, Ledger, Patient;
    MakeRoomCalm(q, |packet|);
    var roomy := MakeRoom(q, |packet|);
    ThinCalm(roomy, packet);
    var thin := ThinFor(roomy, packet);
    var e := Moved(Arrival, FlowOf(packet), Queued(packet, now), packet);
    ServiceNote(thin.log, e, a);
    ServiceNote(thin.log, e, b);
    assert OnList(q, a) && q.flows[a].listed;
  }

  lemma ApplyFair(q: Queue, op: Op, law: Law, a: Bucket, b: Bucket)
    requires Good(q, Free) && a != b
    requires a in q.backlogged && b in q.backlogged
    requires a in Apply(q, op, law).backlogged && b in Apply(q, op, law).backlogged
    ensures Books(Apply(q, op, law), a) == Books(q, a)
    ensures Race(Apply(q, op, law), a, b) == Race(q, a, b)
  {
    hide Good, Enqueue, Dequeue, SweepFrom, Refills, SentBytes, Lead;
    match op
    case Push(packet, at) => EnqueueFair(q, packet, at, a, b);
    case Pop(at) => DequeueFair(q, at, law, a, b);
    case Sweep(at, age) => SweepCalm(q, 0, at, age);
    case Measure(rtt) =>
    case Report =>
  }

  lemma {:induction false} WindowConserves(q: Queue, ops: seq<Op>, law: Law, a: Bucket, b: Bucket)
    requires Good(q, Free) && a != b && StayBacklogged(q, ops, law, a, b)
    ensures Books(RunFrom(q, ops, law), a) == Books(q, a)
    ensures Books(RunFrom(q, ops, law), b) == Books(q, b)
    ensures Race(RunFrom(q, ops, law), a, b) == Race(q, a, b)
    ensures a in RunFrom(q, ops, law).backlogged && b in RunFrom(q, ops, law).backlogged
    decreases |ops|
  {
    hide Good, Apply, Books, Race;
    if ops != [] {
      GoodIsTallied(q, Free);
      ApplyKeeps(q, ops[0], law);
      var r := Apply(q, ops[0], law);
      assert StayBacklogged(r, ops[1..], law, a, b);
      assert a in r.backlogged && b in r.backlogged;
      ApplyFair(q, ops[0], law, a, b);
      ApplyFair(q, ops[0], law, b, a);
      WindowConserves(r, ops[1..], law, a, b);
    }
  }

  lemma {:induction false} WindowFit(q: Queue, ops: seq<Op>, law: Law, longest: nat)
    requires Good(q, Free) && Fit(q, longest) && Within(ops, longest)
    ensures Fit(RunFrom(q, ops, law), longest)
    decreases |ops|
  {
    hide Good, Apply, Fit;
    if ops != [] {
      GoodIsTallied(q, Free);
      ApplyKeeps(q, ops[0], law);
      ApplyFit(q, ops[0], law, longest);
      WindowFit(Apply(q, ops[0], law), ops[1..], law, longest);
    }
  }

  /** After any run, every bucket in service has a credit from one less the longest packet to a
      quantum, and nothing that waits is longer than that packet. */
  lemma CreditsStayInBounds(ops: seq<Op>, law: Law, longest: nat)
    requires Within(ops, longest)
    ensures var q := Reached(ops, law);
            && (forall b: Bucket :: q.flows[b].listed ==> 1 - longest <= q.flows[b].deficit <= QUANTUM)
            && (forall b: Bucket :: forall p :: p in q.flows[b].packets ==> |p.packet| <= longest)
  {
    hide Good;
    EmptyIsGood();
    EmptyFits(longest);
    WindowFit(Empty(), ops, law, longest);
  }

  lemma EmptyFits(longest: nat)
    ensures Fit(Empty(), longest)
  {
    EmptyIsIdle();
  }

  /** Octets bucket `x` delivered between two moments of a run. */
  function Delivered(q: Queue, r: Queue, x: Bucket): int {
    SentBytes(r.log, x) - SentBytes(q.log, x)
  }

  function Granted(q: Queue, r: Queue, x: Bucket): int {
    Refills(r.log, x) - Refills(q.log, x)
  }

  /** Deficit round-robin is fair: after any run, over any window of operations in which two buckets
      both stay on the backlogged list, their refill counts differ by at most one, each delivered a
      quantum per refill less its change in credit, and the octets they delivered differ by at most
      three quanta and twice the longest packet, less two. */
  lemma RoundRobinIsFair(before: seq<Op>, window: seq<Op>, law: Law, longest: nat, a: Bucket, b: Bucket)
    requires a != b && Within(before, longest) && Within(window, longest)
    requires StayBacklogged(Reached(before, law), window, law, a, b)
    ensures var q := Reached(before, law);
            var r := RunFrom(q, window, law);
            && -1 <= Granted(q, r, a) - Granted(q, r, b) <= 1
            && Delivered(q, r, a) == QUANTUM * Granted(q, r, a) + q.flows[a].deficit - r.flows[a].deficit
            && (forall x: Bucket :: r.flows[x].listed ==> 1 - longest <= r.flows[x].deficit <= QUANTUM)
            && -(3 * QUANTUM + 2 * longest - 2)
               <= Delivered(q, r, a) - Delivered(q, r, b)
               <= 3 * QUANTUM + 2 * longest - 2
  {
    hide Good, Calls, Refills, SentBytes, Apply;
    var q := Reached(before, law);
    var r := RunFrom(q, window, law);
    EmptyFits(longest);
    EmptyIsGood();
    WindowFit(Empty(), before, law, longest);
    WindowFit(q, window, law, longest);
    WindowConserves(q, window, law, a, b);
    GoodIsInOrder(q);
    GoodIsInOrder(r);
    assert OnList(q, a) && OnList(q, b) && OnList(r, a) && OnList(r, b);
    LeadRange(q.backlogged, a, b);
    LeadRange(r.backlogged, a, b);
  }

  lemma {:induction false} LeadRange(s: seq<Bucket>, a: Bucket, b: Bucket)
    ensures 0 <= Lead(s, a, b) <= 1
  {
    if s != [] {
      LeadRange(s[1..], a, b);
    }
  }
}
