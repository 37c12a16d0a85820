/** What arrivals, stale sweeps and measurements do to the buckets of the queue (src/queue.rs). */
module QueueOperations {
  import opened Common
  import opened Packets
  import opened QueueModel
  import opened QueueLog
  import opened QueueInvariant
  import opened QueueTheorems

  // ----- stale sweeps -----

  /** The first `n` packets had waited `age` or longer, and the next had not. */
  ghost predicate StaleUpTo(ps: seq<Queued>, n: nat, now: int, age: nat) {
    && n <= |ps|
    && (forall i :: 0 <= i < n ==> Since(now, ps[i].at) >= age)
    && (n < |ps| ==> Since(now, ps[n].at) < age)
  }

  /** What a sweep leaves of a bucket that loses its first `n` packets. */
  ghost predicate SweptOf(f: Flow, n: nat, g: Flow)
    requires n <= |f.packets|
  {
    g == f.(packets := f.packets[n..], bytes := f.bytes - TotalLen(f.packets[..n]), aboveSince := None,
            dropping := false)
  }

  /** Only what a sweep is about differs. */
  ghost predicate OnlySwept(q: Queue, r: Queue, n: int) {
    && r == q.(flows := r.flows, bytes := r.bytes, packets := r.packets, stale := r.stale, log := r.log)
    && r.packets == q.packets - n && r.stale == q.stale + n
  }

  lemma {:induction false} SweepBucketIsExact(q: Queue, idx: Bucket, now: int, age: nat) returns (n: nat)
    ensures StaleUpTo(q.flows[idx].packets, n, now, age)
    ensures var r := SweepBucket(q, idx, now, age);
            && SweptOf(q.flows[idx], n, r.flows[idx]) && OnlySwept(q, r, n)
            && forall b: Bucket :: b != idx ==> r.flows[b] == q.flows[b]
    decreases |q.flows[idx].packets|
  {
    hide StaleUpTo, SweptOf, TotalLen;
    n := 0;
    var f := q.flows[idx];
    if f.packets != [] && Since(now, f.packets[0].at) >= age {
      var m := SweepBucketIsExact(SweepHead(q, idx), idx, now, age);
      n := m + 1;
      OneMoreSwept(f, m, SweepBucket(q, idx, now, age).flows[idx], now, age);
    } else {
      NoneSwept(f, now, age);
    }
  }

  lemma NoneSwept(f: Flow, now: int, age: nat)
    requires f.packets == [] || Since(now, f.packets[0].at) < age
    ensures StaleUpTo(f.packets, 0, now, age) && SweptOf(f, 0, f.(aboveSince := None, dropping := false))
  {
  }

  lemma OneMoreSwept(f: Flow, m: nat, g: Flow, now: int, age: nat)
    requires f.packets != [] && Since(now, f.packets[0].at) >= age && StaleUpTo(f.packets[1..], m, now, age)
    requires SweptOf(f.(packets := f.packets[1..], bytes := f.bytes - |f.packets[0].packet|), m, g)
    ensures StaleUpTo(f.packets, m + 1, now, age) && SweptOf(f, m + 1, g)
  {
    var ps := f.packets;
    assert ps[1..][m..] == ps[m + 1..];
    assert ps[..m + 1][1..] == ps[1..][..m];
    assert forall i :: 0 < i <= m ==> ps[i] == ps[1..][i - 1];
  }

  function Sum(ns: seq<nat>): nat {
    if ns == [] then 0 else ns[0] + Sum(ns[1..])
  }

  lemma {:induction false} SweepFromIsExact(q: Queue, i: nat, now: int, age: nat) returns (ns: seq<nat>)
    requires i <= FLOWS
    ensures |ns| == FLOWS - i && OnlySwept(q, SweepFrom(q, i, now, age), Sum(ns))
    ensures forall b: Bucket :: b >= i ==>
              && StaleUpTo(q.flows[b].packets, ns[b - i], now, age)
              && SweptOf(q.flows[b], ns[b - i], SweepFrom(q, i, now, age).flows[b])
    ensures forall b: Bucket :: b < i ==> SweepFrom(q, i, now, age).flows[b] == q.flows[b]
    decreases FLOWS - i
  {
    hide SweepBucket, SweptOf, StaleUpTo;
    ns := [];
    if i < FLOWS {
      var n := SweepBucketIsExact(q, i, now, age);
      var rest := SweepFromIsExact(SweepBucket(q, i, now, age), i + 1, now, age);
      ns := [n] + rest;
    }
  }

  /** A sweep is exact. Each bucket loses the packets at its head that had waited `age` or longer, and no
      other, with whatever delay had stood; its credit and its place in service stay; and the sweep counts
      what it dropped. Where packets arrived in order of time, nothing that had waited so long is left. */
  lemma SweepIsExact(q: Queue, now: int, age: nat) returns (ns: seq<nat>)
    ensures |ns| == FLOWS && OnlySwept(q, DropOlderThan(q, now, age), Sum(ns))
    ensures forall b: Bucket ::
              && StaleUpTo(q.flows[b].packets, ns[b], now, age)
              && SweptOf(q.flows[b], ns[b], DropOlderThan(q, now, age).flows[b])
    ensures forall b: Bucket :: ArrivedInOrder(q.flows[b].packets) ==>
              forall p :: p in DropOlderThan(q, now, age).flows[b].packets ==> Since(now, p.at) < age
  {
    hide SweepFrom, StaleUpTo, SweptOf, ArrivedInOrder;
    ns := SweepFromIsExact(q, 0, now, age);
    forall b: Bucket | ArrivedInOrder(q.flows[b].packets)
      ensures forall p :: p in DropOlderThan(q, now, age).flows[b].packets ==> Since(now, p.at) < age
    {
      FreshStays(q.flows[b], ns[b], DropOlderThan(q, now, age).flows[b], now, age);
    }
  }

  ghost predicate ArrivedInOrder(ps: seq<Queued>) {
    forall i, j :: 0 <= i < j < |ps| ==> ps[i].at <= ps[j].at
  }

  lemma FreshStays(f: Flow, n: nat, g: Flow, now: int, age: nat)
    requires ArrivedInOrder(f.packets) && StaleUpTo(f.packets, n, now, age) && SweptOf(f, n, g)
    ensures forall p :: p in g.packets ==> Since(now, p.at) < age
  {
    var ps := f.packets;
    forall p | p in g.packets
      ensures Since(now, p.at) < age
    {
      var i :| n <= i < |ps| && ps[i] == p;
      assert ps[n].at <= ps[i].at;
    }
  }

  // ----- arrivals -----

  /** The packet waiting at `i` is an older acknowledgement of what an arrival, itself just that,
      acknowledges. */
  ghost predicate Outdated(ps: seq<Queued>, i: nat, packet: bytes)
    requires i < |ps|
  {
    exists n: nat, m: nat ::
      && BareAck(packet, n) && BareAck(ps[i].packet, m)
      && OneConnection(packet, ps[i].packet) && 0 < (n - m) % 0x1_0000_0000 < 0x8000_0000
  }

  /** It is outdated, and not the last in its bucket that is. */
  ghost predicate Goes(ps: seq<Queued>, i: nat, packet: bytes)
    requires i < |ps|
  {
    Outdated(ps, i, packet) && exists j: nat :: i < j < |ps| && Outdated(ps, j, packet)
  }

  /** `at` lists, in increasing order, the positions that stay. */
  ghost predicate Stays(ps: seq<Queued>, packet: bytes, at: seq<nat>) {
    && (forall k :: 0 <= k < |at| ==> at[k] < |ps|)
    && (forall k, m :: 0 <= k < m < |at| ==> at[k] < at[m])
    && (forall i: nat :: i < |ps| ==> (i in at <==> !Goes(ps, i, packet)))
  }

  lemma OutdatedIsRedundant(ps: seq<Queued>, i: nat, packet: bytes, acked: nat)
    requires i < |ps| && PureAck(packet) == Some(acked)
    ensures Outdated(ps, i, packet) <==> Redundant(ps[i], packet, acked)
  {
    hide PureAck, BareAck, OneConnection, SameConnection, Redundant;
    PureAckIsExact(packet, acked);
    OnlyOlderAcksAreRedundant(ps[i], packet, acked);
    forall n: nat | BareAck(packet, n)
      ensures n == acked
    {
      PureAckIsExact(packet, n);
    }
  }

  lemma NotAnAck(packet: bytes)
    requires PureAck(packet).None?
    ensures forall ps: seq<Queued>, i: nat :: i < |ps| ==> !Goes(ps, i, packet)
  {
    hide PureAck, BareAck;
    forall n: nat
      ensures !BareAck(packet, n)
    {
      PureAckIsExact(packet, n);
    }
  }

  lemma ThinningStays(q: Queue, packet: bytes) returns (at: seq<nat>)
    ensures var r, b := ThinFor(q, packet), FlowOf(packet);
            var f, g := q.flows[b], r.flows[b];
            && Stays(f.packets, packet, at) && |g.packets| == |at|
            && (forall k :: 0 <= k < |at| ==> g.packets[k] == f.packets[at[k]])
            && (forall c: Bucket :: c != b ==> r.flows[c] == q.flows[c])
            && g.listed == f.listed && g.deficit == f.deficit
            && r.freshList == q.freshList && r.backlogged == q.backlogged
  {
    hide FlowOf, PureAck, Outdated, Redundant, Sift;
    var ps := q.flows[FlowOf(packet)].packets;
    match PureAck(packet)
    case None =>
      NotAnAck(packet);
      at := seq(|ps|, i => i);
      forall i: nat | i < |ps|
        ensures i in at
      {
        assert at[i] == i;
      }
    case Some(acked) =>
      at := ThinningIsExact(ps, packet, acked);
      StaysAsKept(ps, packet, acked, at);
  }

  /** An arrival makes room; then, if it is an acknowledgement and nothing else, the older ones of its
      connection that wait go, but for the last; and it waits behind everything that is left in its bucket.
      No other bucket changes. A bucket that was out of service comes into it behind the other fresh ones,
      with a quantum to spend. */
  lemma ArrivalIsExact(q: Queue, packet: bytes, now: int) returns (at: seq<nat>)
    requires Tallied(q)
    ensures var roomy, r, b := MakeRoom(q, |packet|), Enqueue(q, packet, now), FlowOf(packet);
            var f, g := roomy.flows[b], r.flows[b];
            && Stays(f.packets, packet, at)
            && |g.packets| == |at| + 1 && g.packets[|at|] == Queued(packet, now)
            && (forall k :: 0 <= k < |at| ==> g.packets[k] == f.packets[at[k]])
            && (forall c: Bucket :: c != b ==> r.flows[c] == roomy.flows[c])
            && g.listed && g.deficit == (if f.listed then f.deficit else 1280)
            && r.freshList == roomy.freshList + (if f.listed then [] else [b]) && r.backlogged == roomy.backlogged
  {
    hide FlowOf, Stays, MakeRoom, ThinFor;
    at := ThinningStays(MakeRoom(q, |packet|), packet);
  }

  lemma StaysAsKept(ps: seq<Queued>, packet: bytes, acked: nat, at: seq<nat>)
    requires PureAck(packet) == Some(acked) && KeptAt(ps, packet, acked, at)
    ensures Stays(ps, packet, at)
  {
    hide PureAck, Outdated, Redundant;
    forall i: nat | i < |ps|
      ensures Outdated(ps, i, packet) <==> Redundant(ps[i], packet, acked)
    {
      OutdatedIsRedundant(ps, i, packet, acked);
    }
    forall i: nat | i < |ps|
      ensures Goes(ps, i, packet) <==> Removed(ps, packet, acked, i)
    {
      if Removed(ps, packet, acked, i) {
        var j :| i < j < |ps| && Redundant(ps[j], packet, acked);
        assert Outdated(ps, j, packet);
      }
    }
  }

  // ----- overflow -----

  /** One eviction: the oldest packet of a bucket with as many octets as any, and more than every later one. */
  ghost predicate Evicts(q: Queue, r: Queue) {
    exists b: Bucket ::
      && q.flows[b].packets != [] && q.flows[b].bytes > 0
      && (forall c: Bucket :: q.flows[c].bytes <= q.flows[b].bytes)
      && (forall c: Bucket :: b < c ==> q.flows[c].bytes < q.flows[b].bytes)
      && r.flows[b].packets == q.flows[b].packets[1..]
      && r == q.(flows := q.flows[b := q.flows[b].(packets := r.flows[b].packets, bytes := r.flows[b].bytes)],
                 bytes := r.bytes, packets := r.packets, overLimit := q.overLimit + 1, log := r.log)
  }

  /** Overflow, step by step: while the arrival does not fit and anything with octets waits, the oldest packet
      of the longest bucket goes. */
  lemma {:induction false} OverflowTakesTheOldestOfTheLongest(q: Queue, len: nat) returns (qs: seq<Queue>)
    requires Tallied(q)
    ensures |qs| > 0 && qs[0] == q && qs[|qs| - 1] == MakeRoom(q, len)
    ensures forall k :: 0 <= k < |qs| - 1 ==> qs[k].bytes + len > 2_097_152 && Evicts(qs[k], qs[k + 1])
    ensures var r := qs[|qs| - 1];
            r.bytes + len <= 2_097_152 || forall b: Bucket :: r.flows[b].packets != [] ==> r.flows[b].bytes <= 0
    decreases SumPackets(q.flows)
  {
    hide Evicts;
    qs := [q];
    if q.bytes + len > LIMIT_BYTES {
      DropFattestTallied(q);
      var (r, more) := DropFattest(q);
      if more {
        DropFattestEvicts(q);
        var rest := OverflowTakesTheOldestOfTheLongest(r, len);
        qs := [q] + rest;
        forall k | 0 <= k < |qs| - 1
          ensures qs[k].bytes + len > LIMIT_BYTES && Evicts(qs[k], qs[k + 1])
        {
          if k > 0 {
            assert qs[k] == rest[k - 1] && qs[k + 1] == rest[k];
          }
        }
      }
    }
  }

  lemma DropFattestEvicts(q: Queue)
    requires Tallied(q) && DropFattest(q).1
    ensures Evicts(q, DropFattest(q).0)
  {
    var b: Bucket := Fattest(q.flows);
    var r := DropFattest(q).0;
    assert q.flows[b].bytes == TotalLen(q.flows[b].packets);
    assert r.flows == q.flows[b := q.flows[b].(packets := r.flows[b].packets, bytes := r.flows[b].bytes)];
  }

  // ----- round trips -----

  /** The interval four round trips call for, within bounds of 50 and 300 milliseconds. */
  function Wanted(rtt: nat): nat {
    if 4 * rtt < 50_000_000 then 50_000_000 else if 4 * rtt > 300_000_000 then 300_000_000 else 4 * rtt
  }

  /** A measurement takes the interval an eighth of the way to four round trips, to within a nanosecond,
      unless that leaves the bounds; the target is a twentieth of it. */
  lemma MeasurementIsSmoothed(q: Queue, rtt: nat)
    ensures var r, eighths := ObserveRtt(q, rtt), 7 * q.interval + 4 * rtt;
            && r == q.(interval := r.interval, target := r.interval / 20)
            && if eighths < 400_000_000 then r.interval == 50_000_000
               else if eighths > 2_400_000_000 then r.interval == 300_000_000
               else eighths - 8 < 8 * r.interval <= eighths
  {
  }

  /** The same round trip, measured again, brings the interval closer to what it calls for and never past
      it, until less than eight nanoseconds are missing. */
  lemma MeasurementsSettle(q: Queue, rtt: nat)
    requires 50_000_000 <= q.interval <= 300_000_000 && 50_000_000 <= 4 * rtt <= 300_000_000
    ensures var r, w := ObserveRtt(q, rtt), Wanted(rtt);
            && (q.interval > w ==> w <= r.interval < q.interval)
            && (q.interval <= w - 8 ==> q.interval < r.interval <= w)
            && (w - 8 < q.interval <= w ==> q.interval <= r.interval <= w)
  {
  }

  // ----- what a dequeue takes -----

  /** How many packets were taken from bucket `b`. */
  function TakenFrom(log: seq<Event>, b: Bucket): nat {
    if log == [] then 0
    else
      var e := log[|log| - 1];
      TakenFrom(log[..|log| - 1], b) + if e.Taken? && e.idx == b then 1 else 0
  }

  lemma TakenNote(log: seq<Event>, e: Event, b: Bucket)
    ensures TakenFrom(log + [e], b) == TakenFrom(log, b) + if e.Taken? && e.idx == b then 1 else 0
  {
    assert (log + [e])[..|log|] == log;
  }

  /** The packet taken at `i` was the next of those that had waited in its bucket, and the log says when it
      was taken, how much it left behind, and what CoDel was working to. */
  ghost predicate TakenInTurn(q: Queue, log: seq<Event>, i: nat, now: int)
    requires i < |log|
  {
    log[i].Taken? ==>
      var b := log[i].idx;
      var ps, j := q.flows[b].packets, TakenFrom(log[..i], b) - TakenFrom(q.log, b);
      0 <= j < |ps| && log[i] == Taken(b, ps[j], now, q.target, q.interval, TotalLen(ps[j + 1..]))
  }

  /** Since `q`, packets were taken from the heads of buckets alone, and each as the log says. */
  ghost predicate TookInTurn(q: Queue, r: Queue, now: int) {
    && q.log <= r.log && (r.target, r.interval) == (q.target, q.interval)
    && (forall i: nat :: |q.log| <= i < |r.log| ==> TakenInTurn(q, r.log, i, now))
    && forall b: Bucket :: Leaves(q, r, b)
  }

  ghost predicate Leaves(q: Queue, r: Queue, b: Bucket) {
    var j := TakenFrom(r.log, b) - TakenFrom(q.log, b);
    && 0 <= j <= |q.flows[b].packets| && r.flows[b].packets == q.flows[b].packets[j..]
    && r.flows[b].bytes == TotalLen(r.flows[b].packets)
  }

  ghost predicate SameWaiting(r: Queue, s: Queue) {
    && (s.target, s.interval) == (r.target, r.interval)
    && forall b: Bucket :: s.flows[b].packets == r.flows[b].packets && s.flows[b].bytes == r.flows[b].bytes
  }

  lemma InTurnStays(q: Queue, r: Queue, more: seq<Event>, now: int)
    requires TookInTurn(q, r, now) && r.log <= more
    ensures forall i: nat :: |q.log| <= i < |r.log| ==> TakenInTurn(q, more, i, now)
  {
    hide TakenFrom;
    forall i: nat | |q.log| <= i < |r.log|
      ensures TakenInTurn(q, more, i, now)
    {
      assert TakenInTurn(q, r.log, i, now);
      assert more[..i] == r.log[..i];
    }
  }

  lemma OtherInTurn(q: Queue, r: Queue, s: Queue, e: Event, now: int)
    requires TookInTurn(q, r, now) && SameWaiting(r, s) && s.log == r.log + [e] && !e.Taken?
    ensures TookInTurn(q, s, now)
  {
    hide TakenFrom;
    InTurnStays(q, r, s.log, now);
    forall b: Bucket
      ensures Leaves(q, s, b)
    {
      assert Leaves(q, r, b);
      TakenNote(r.log, e, b);
    }
  }

  lemma SameInTurn(q: Queue, r: Queue, s: Queue, now: int)
    requires TookInTurn(q, r, now) && SameWaiting(r, s) && s.log == r.log
    ensures TookInTurn(q, s, now)
  {
    hide TakenFrom;
    forall b: Bucket
      ensures Leaves(q, s, b)
    {
      assert Leaves(q, r, b);
    }
  }

  lemma TakeInTurn(q: Queue, r: Queue, idx: Bucket, now: int)
    requires TookInTurn(q, r, now)
    ensures TookInTurn(q, Take(r, idx, now).0, now)
  {
    hide TakenFrom;
    var f := r.flows[idx];
    if f.packets != [] {
      var head := f.packets[0];
      var e := Taken(idx, head, now, r.target, r.interval, f.bytes - |head.packet|);
      var s := Take(r, idx, now).0;
      assert s.log == r.log + [e] && s.log[..|r.log|] == r.log;
      InTurnStays(q, r, s.log, now);
      assert Leaves(q, r, idx);
      var j := TakenFrom(r.log, idx) - TakenFrom(q.log, idx);
      assert f.packets[1..] == q.flows[idx].packets[j + 1..];
      assert TakenInTurn(q, s.log, |r.log|, now);
      forall b: Bucket
        ensures Leaves(q, s, b)
      {
        assert Leaves(q, r, b);
        TakenNote(r.log, e, b);
      }
    }
  }

  lemma SignalInTurn(q: Queue, r: Queue, idx: Bucket, now: int, head: Queued)
    requires TookInTurn(q, r, now)
    ensures TookInTurn(q, CountMark(r, idx, now), now) && TookInTurn(q, CountDrop(r, idx, now, head), now)
  {
    hide TookInTurn;
    OtherInTurn(q, r, CountMark(r, idx, now), Punished(idx, now, true), now);
    var mid := Note(r.(overTarget := r.overTarget + 1), Punished(idx, now, false));
    OtherInTurn(q, r, mid, Punished(idx, now, false), now);
    OtherInTurn(q, mid, CountDrop(r, idx, now, head), Moved(OverTarget, idx, head, head.packet), now);
  }

  /** What CoDel remembers of a bucket does not matter. */
  lemma TuneInTurn(q: Queue, r: Queue, idx: Bucket, f: Flow, now: int)
    requires TookInTurn(q, r, now) && f.packets == r.flows[idx].packets && f.bytes == r.flows[idx].bytes
    ensures TookInTurn(q, SetFlow(r, idx, f), now)
  {
    hide TookInTurn;
    SameInTurn(q, r, SetFlow(r, idx, f), now);
  }

  lemma {:induction false} EpisodeInTurn(q: Queue, r: Queue, idx: Bucket, now: int, law: Law, head: Queued)
    requires TookInTurn(q, r, now)
    ensures TookInTurn(q, Episode(r, idx, now, law, head).0, now)
    decreases |r.flows[idx].packets|
  {
    hide TookInTurn, MarkOutcome, Take, CountMark, CountDrop;
    var f := r.flows[idx];
    if f.dropping && Due(f, now) {
      var g := f.(count := f.count + 1);
      var counted := SetFlow(r, idx, g);
      TuneInTurn(q, r, idx, g, now);
      SignalInTurn(q, counted, idx, now, head);
      CountKeepsFlows(counted, idx, now, head);
      var marked, dropped := CountMark(counted, idx, now), CountDrop(counted, idx, now, head);
      TuneInTurn(q, marked, idx, Schedule(marked, idx, From(f, now), law).flows[idx], now);
      TakeInTurn(q, dropped, idx, now);
      var (taken, next) := Take(dropped, idx, now);
      var scheduled, eased := Schedule(taken, idx, From(taken.flows[idx], now), law), SetDropping(taken, idx, false);
      TuneInTurn(q, taken, idx, scheduled.flows[idx], now);
      TuneInTurn(q, taken, idx, eased.flows[idx], now);
      if !MarkOutcome(head.packet).0 && next.Some? {
        EpisodeInTurn(q, if next.value.1 then scheduled else eased, idx, now, law, next.value.0);
      }
    }
  }

  lemma CountKeepsFlows(q: Queue, idx: Bucket, now: int, head: Queued)
    ensures CountMark(q, idx, now).flows == q.flows && CountDrop(q, idx, now, head).flows == q.flows
  {
  }

  lemma StartInTurn(q: Queue, r: Queue, idx: Bucket, now: int, law: Law)
    requires TookInTurn(q, r, now)
    ensures TookInTurn(q, StartEpisode(r, idx, now, law), now)
  {
    hide TookInTurn;
    SameInTurn(q, r, StartEpisode(r, idx, now, law), now);
  }

  lemma CodelInTurn(q: Queue, r: Queue, idx: Bucket, now: int, law: Law)
    requires TookInTurn(q, r, now)
    ensures TookInTurn(q, Codel(r, idx, now, law).0, now)
  {
    hide TookInTurn, MarkOutcome, Take, Episode, CountMark, CountDrop, StartEpisode;
    TakeInTurn(q, r, idx, now);
    var (taken, next) := Take(r, idx, now);
    if next.Some? {
      var (head, overdue) := next.value;
      TuneInTurn(q, taken, idx, taken.flows[idx].(dropping := false), now);
      EpisodeInTurn(q, taken, idx, now, law, head);
      SignalInTurn(q, taken, idx, now, head);
      StartInTurn(q, CountMark(taken, idx, now), idx, now, law);
      TakeInTurn(q, CountDrop(taken, idx, now, head), idx, now);
      StartInTurn(q, Take(CountDrop(taken, idx, now, head), idx, now).0, idx, now, law);
    }
  }

  lemma {:induction false} DequeueInTurn(q: Queue, r: Queue, now: int, law: Law)
    requires TookInTurn(q, r, now)
    ensures TookInTurn(q, Dequeue(r, now, law).0, now)
    decreases |r.freshList| + |r.backlogged|, SumOwed(r.flows)
  {
    hide TookInTurn, Codel;
    if InService(r) {
      var idx := Next(r);
      if r.flows[idx].deficit <= 0 {
        RefillPaysOne(r);
        OtherInTurn(q, r, Refill(r), Refilled(idx), now);
        DequeueInTurn(q, Refill(r), now, law);
      } else {
        CodelInTurn(q, r, idx, now, law);
        var (s, out) := Codel(r, idx, now, law);
        match out
        case Some(release) =>
          OtherInTurn(q, s, Charge(s, idx, release), Moved(Delivery, idx, release.head, release.sent), now);
        case None =>
          SameInTurn(q, s, Unlist(s), now);
          DequeueInTurn(q, Unlist(s), now, law);
      }
    }
  }

  /** A dequeue takes packets from the heads of buckets alone, in the order they waited, and the log tells of
      each when it was taken, how many octets it left in its bucket, and the target and interval in force. */
  lemma PacketsAreTakenInTurn(q: Queue, now: int, law: Law)
    requires Tallied(q)
    ensures TookInTurn(q, Dequeue(q, now, law).0, now)
  {
    hide TakenFrom;
    assert forall b: Bucket :: Leaves(q, q, b);
    DequeueInTurn(q, q, now, law);
  }
}
