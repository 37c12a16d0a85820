/** What the packet queue promises, over every run. */
module QueueTheorems {
  import opened Common
  import opened Packets
  import opened QueueModel
  import opened QueueLog
  import opened QueueInvariant
  import opened QueueFairness

  // ----- the ledger -----

  /** Every accepted packet of a bucket is exactly one of delivered, dropped over the limit, dropped
      over target, thinned, stale or still waiting; and what was delivered, followed by what waits,
      is a subsequence of what arrived. */
  lemma EveryPacketIsAccounted(ops: seq<Op>, law: Law, b: Bucket)
    ensures var q := Reached(ops, law);
            && multiset(Entries(q.log, Arrival, b)) ==
               multiset(Entries(q.log, Delivery, b)) + multiset(Entries(q.log, OverLimit, b)) +
               multiset(Entries(q.log, OverTarget, b)) + multiset(Entries(q.log, Thinned, b)) +
               multiset(Entries(q.log, Stale, b)) + multiset(q.flows[b].packets)
            && Subsequence(Entries(q.log, Delivery, b) + q.flows[b].packets, Entries(q.log, Arrival, b))
  {
    hide Entries, Settled, Subsequence, Tallied, Shaped, Patient, Counted, WellTold;
    var q := Reached(ops, law);
    assert Accounted(q, Free, b);
    SettledIsPartition(q.log, b);
    assert [] + q.flows[b].packets == q.flows[b].packets;
  }

  /** The totals equal the sums over buckets, the counters count what the log holds, a bucket is in
      service iff listed and on one list only, whatever waits is in service in the bucket its headers
      name, and the interval stays within its bounds with the target its fixed share. */
  lemma CountersAreRight(ops: seq<Op>, law: Law)
    ensures var q := Reached(ops, law);
            && Tallied(q) && Counted(q) && InOrder(q) && Paced(q)
            && (forall b: Bucket :: forall p :: p in q.flows[b].packets ==> FlowOf(p.packet) == b)
  {
  }

  /** A delivered packet leaves from the bucket it was filed in, as it arrived or carrying the
      congestion mark; and it carries a new mark, or was dropped over target, only right after its
      bucket was signalled. */
  lemma DeliveriesAreFaithful(ops: seq<Op>, law: Law, i: nat)
    requires i < |Reached(ops, law).log|
    ensures SentAsIs(Reached(ops, law).log[i]) && Told(Reached(ops, law).log, i)
  {
    assert WellTold(Reached(ops, law).log);
  }

  // ----- what callers see -----

  /** What one operation takes from and gives to its caller. */
  ghost function CallOf(q: Queue, op: Op, law: Law): seq<Call>
    requires Good(q, Free)
  {
    match op
    case Push(packet, at) => [In(packet, at)]
    case Pop(at) =>
      (match Dequeue(q, at, law).1
       case Some(sent) => [Out(sent)]
       case None => [])
    case Sweep(_, _) => []
    case Measure(_) => []
    case Report => []
  }

  ghost function CallsOfRun(q: Queue, ops: seq<Op>, law: Law): seq<Call>
    requires Good(q, Free)
    decreases |ops|
  {
    if ops == [] then []
    else
      ApplyKeeps(q, ops[0], law);
      CallOf(q, ops[0], law) + CallsOfRun(Apply(q, ops[0], law), ops[1..], law)
  }

  lemma EnqueueCalls(q: Queue, packet: bytes, now: int)
    requires Good(q, Free)
    ensures Calls(Enqueue(q, packet, now).log) == Calls(q.log) + [In(packet, now)]
  {
    hide Good, MakeRoom, ThinFor, Refills, SentBytes, Calls, FlowOf;
    GoodIsTallied(q, Free);
    MakeRoomCalm(q, |packet|);
    var roomy := MakeRoom(q, |packet|);
    ThinCalm(roomy, packet);
    CallsNote(ThinFor(roomy, packet).log, Moved(Arrival, FlowOf(packet), Queued(packet, now), packet));
  }

  lemma {:induction false} DequeueCalls(q: Queue, now: int, law: Law)
    ensures Calls(Dequeue(q, now, law).0.log) ==
            Calls(q.log) + match Dequeue(q, now, law).1
                           case Some(sent) => [Out(sent)]
                           case None => []
    decreases |q.freshList| + |q.backlogged|, SumOwed(q.flows)
  {
    hide Codel, Refills, SentBytes, Calls;
    if InService(q) {
      var idx := Next(q);
      if q.flows[idx].deficit <= 0 {
        RefillPaysOne(q);
        CallsNote(q.log, Refilled(idx));
        DequeueCalls(Refill(q), now, law);
      } else {
        CodelCalm(q, idx, now, law);
        var (r, out) := Codel(q, idx, now, law);
        match out
        case Some(release) => CallsNote(r.log, Moved(Delivery, idx, release.head, release.sent));
        case None => DequeueCalls(Unlist(r), now, law);
      }
    }
  }

  lemma ApplyCalls(q: Queue, op: Op, law: Law)
    requires Good(q, Free)
    ensures Calls(Apply(q, op, law).log) == Calls(q.log) + CallOf(q, op, law)
  {
    hide Good, Enqueue, Dequeue, SweepFrom, Refills, SentBytes, Calls;
    match op
    case Push(packet, at) => EnqueueCalls(q, packet, at);
    case Pop(at) => DequeueCalls(q, at, law);
    case Sweep(at, age) => SweepCalm(q, 0, at, age);
    case Measure(rtt) =>
    case Report =>
  }

  lemma {:induction false} RunCalls(q: Queue, ops: seq<Op>, law: Law)
    requires Good(q, Free)
    ensures Calls(RunFrom(q, ops, law).log) == Calls(q.log) + CallsOfRun(q, ops, law)
    decreases |ops|
  {
    hide Good, Apply, Calls, CallOf;
    if ops != [] {
      GoodIsTallied(q, Free);
      ApplyKeeps(q, ops[0], law);
      ApplyCalls(q, ops[0], law);
      RunCalls(Apply(q, ops[0], law), ops[1..], law);
    }
  }

  /** The ledger is about what callers saw: its arrivals and deliveries, interleaved as they happened,
      are exactly the packets callers pushed and the packets `dequeue` returned. */
  lemma TheLogTellsTheCalls(ops: seq<Op>, law: Law)
    ensures Calls(Reached(ops, law).log) == (EmptyIsGood(); CallsOfRun(Empty(), ops, law))
  {
    hide Good;
    EmptyIsGood();
    RunCalls(Empty(), ops, law);
  }

  // ----- CoDel -----

  /** CoDel never punishes a burst: any mark or drop made at `now` is preceded by a moment at least
      the interval then in force earlier, from which on every packet taken from the bucket had waited
      at least the target then in force and left more than a quantum behind, with no stale sweep of
      the bucket in between. */
  lemma BurstsAreNeverPunished(ops: seq<Op>, law: Law, i: nat)
    requires i < |Reached(ops, law).log| && Reached(ops, law).log[i].Punished?
    ensures var log := Reached(ops, law).log;
            var b := log[i].idx;
            exists j: nat ::
              && j < i && log[j].Taken? && log[j].idx == b
              && log[j].now + log[j].interval <= log[i].now
              && forall k :: j <= k < i ==>
                   && log[k] != Swept(b)
                   && (log[k].Taken? && log[k].idx == b ==>
                         Since(log[k].now, log[k].what.at) >= log[k].target && log[k].left > QUANTUM)
  {
    var log := Reached(ops, law).log;
    assert Justified(log, i);
    var j: nat :| StoodSince(log, log[i].idx, j, i) && log[j].now + log[j].interval <= log[i].now;
    assert forall k :: j <= k < i ==> TakenStanding(log[k], log[i].idx);
  }

  // ----- work conservation -----

  /** After any run, CoDel returns nothing only for a bucket that was already empty, and `dequeue`
      returns nothing exactly when no packet waits in any bucket. */
  lemma TheSchedulerConservesWork(ops: seq<Op>, law: Law, now: int, idx: Bucket)
    ensures var q := Reached(ops, law);
            && (Codel(q, idx, now, law).1.None? <==> q.flows[idx].packets == [])
            && (Dequeue(q, now, law).1.None? <==> forall b: Bucket :: q.flows[b].packets == [])
  {
    hide Codel, Dequeue, Ledger, Patient;
    var q := Reached(ops, law);
    CodelKeeps(q, idx, now, law);
    DequeueKeeps(q, now, law);
    if q.packets != 0 {
      if forall b: Bucket :: q.flows[b].packets == [] {
        forall k | 0 <= k < FLOWS
          ensures q.flows[k].packets == []
        {
          var b: Bucket := k;
          assert q.flows[b].packets == [];
        }
        SumPacketsZero(q.flows);
      }
    } else {
      forall b: Bucket
        ensures q.flows[b].packets == []
      {
        if q.flows[b].packets != [] {
          WaitingCounts(q, b);
        }
      }
    }
  }

  // ----- overflow -----

  lemma {:induction false} SumAtMost(fs: seq<Flow>, top: int)
    requires forall k :: 0 <= k < |fs| ==> fs[k].bytes <= top
    ensures SumBytes(fs) <= |fs| * top
  {
    if fs != [] {
      SumAtMost(fs[1..], top);
    }
  }

  /** Making room stops as soon as the arrival fits; it fails only for an arrival longer than the
      limit, and then nothing with octets is left. */
  lemma {:induction false} RoomIsMade(q: Queue, len: nat)
    requires Tallied(q)
    ensures var r := MakeRoom(q, len);
            && (r.bytes + len <= LIMIT_BYTES || (len > LIMIT_BYTES && r.bytes <= 0))
            && r.bytes <= Max(q.bytes, 0)
    decreases SumPackets(q.flows)
  {
    if q.bytes + len > LIMIT_BYTES {
      DropFattestTallied(q);
      var idx := Fattest(q.flows);
      if q.flows[idx].bytes > 0 {
        RoomIsMade(DropFattest(q).0, len);
      } else {
        SumAtMost(q.flows, 0);
      }
    }
  }

  /** The octets of a run of evictions. */
  function Evicted(es: seq<Event>): nat {
    if es == [] then 0
    else Evicted(es[..|es| - 1]) + if es[|es| - 1].Moved? then |es[|es| - 1].what.packet| else 0
  }

  lemma {:induction false} EvictedFirst(e: Event, es: seq<Event>)
    requires e.Moved?
    ensures Evicted([e] + es) == |e.what.packet| + Evicted(es)
    decreases |es|
  {
    if es == [] {
      assert [e] + es == [e];
    } else {
      var n := |es| - 1;
      EvictedFirst(e, es[..n]);
      assert ([e] + es)[..n + 1] == [e] + es[..n];
    }
  }

  /** The log records each eviction, made while the arrival still did not fit. */
  ghost predicate EvictionsNeeded(q: Queue, len: nat, es: seq<Event>) {
    forall i :: 0 <= i < |es| ==>
      es[i].Moved? && es[i].fate == OverLimit && q.bytes - Evicted(es[..i]) + len > LIMIT_BYTES
  }

  lemma NeededFirst(q: Queue, r: Queue, len: nat, e: Event, rest: seq<Event>)
    requires EvictionsNeeded(r, len, rest) && q.bytes + len > LIMIT_BYTES
    requires e.Moved? && e.fate == OverLimit && r.bytes == q.bytes - |e.what.packet|
    ensures EvictionsNeeded(q, len, [e] + rest)
  {
    hide Evicted;
    var es := [e] + rest;
    forall i | 0 <= i < |es|
      ensures es[i].Moved? && es[i].fate == OverLimit && q.bytes - Evicted(es[..i]) + len > LIMIT_BYTES
    {
      if i == 0 {
        NothingEvicted(es[..0]);
      } else {
        assert es[..i] == [e] + rest[..i - 1];
        EvictedFirst(e, rest[..i - 1]);
        assert rest[i - 1] == es[i];
      }
    }
  }

  lemma NothingEvicted(es: seq<Event>)
    requires es == []
    ensures Evicted(es) == 0
  {
  }

  lemma {:induction false} EvictionsAreNeeded(q: Queue, len: nat) returns (es: seq<Event>)
    requires Tallied(q)
    ensures MakeRoom(q, len).log == q.log + es
    ensures EvictionsNeeded(q, len, es)
    decreases SumPackets(q.flows)
  {
    es := [];
    if q.bytes + len > LIMIT_BYTES {
      DropFattestTallied(q);
      var idx := Fattest(q.flows);
      if q.flows[idx].bytes > 0 {
        var r := DropFattest(q).0;
        var rest := EvictionsAreNeeded(r, len);
        var head := q.flows[idx].packets[0];
        var e := Moved(OverLimit, idx, head, head.packet);
        es := [e] + rest;
        assert q.log + es == r.log + rest;
        NeededFirst(q, r, len, e, rest);
      }
    }
  }

  /** Overflow never touches a bucket holding at most a sixty-fourth of the room the arrival
      leaves: by pigeonhole it is never the fattest. */
  lemma {:induction false} BystanderIsSpared(q: Queue, len: nat, b: Bucket)
    requires Tallied(q)
    requires FLOWS * q.flows[b].bytes <= LIMIT_BYTES - len
    ensures MakeRoom(q, len).flows[b] == q.flows[b]
    ensures Entries(MakeRoom(q, len).log, OverLimit, b) == Entries(q.log, OverLimit, b)
    decreases SumPackets(q.flows)
  {
    hide Entries;
    if q.bytes + len > LIMIT_BYTES {
      DropFattestTallied(q);
      var idx := Fattest(q.flows);
      SumAtMost(q.flows, q.flows[idx].bytes);
      if q.flows[idx].bytes > 0 {
        var head := q.flows[idx].packets[0];
        EntriesNote(q.log, Moved(OverLimit, idx, head, head.packet), OverLimit, b);
        BystanderIsSpared(DropFattest(q).0, len, b);
      }
    }
  }

  /** No operation but an arrival adds octets, and an arrival makes room first. */
  lemma ApplyLimited(q: Queue, op: Op, law: Law, longest: nat)
    requires Good(q, Free) && q.bytes <= Max(LIMIT_BYTES, longest)
    requires op.Push? ==> |op.packet| <= longest
    ensures Apply(q, op, law).bytes <= Max(LIMIT_BYTES, longest)
  {
    hide Good, Dequeue, SweepFrom, MakeRoom, ThinFor;
    match op
    case Push(packet, at) =>
      GoodIsTallied(q, Free);
      RoomIsMade(q, |packet|);
      ThinShrinks(MakeRoom(q, |packet|), packet);
    case Pop(at) => DequeueShrinks(q, at, law);
    case Sweep(at, age) => SweepShrinks(q, 0, at, age);
    case Measure(rtt) =>
    case Report =>
  }

  lemma ThinShrinks(q: Queue, packet: bytes)
    ensures ThinFor(q, packet).bytes <= q.bytes
  {
  }

  lemma {:induction false} SweepBucketShrinks(q: Queue, idx: Bucket, now: int, age: nat)
    ensures SweepBucket(q, idx, now, age).bytes <= q.bytes
    decreases |q.flows[idx].packets|
  {
    var f := q.flows[idx];
    if f.packets != [] && Since(now, f.packets[0].at) >= age {
      SweepBucketShrinks(SweepHead(q, idx), idx, now, age);
    }
  }

  lemma {:induction false} SweepShrinks(q: Queue, i: nat, now: int, age: nat)
    requires i <= FLOWS
    ensures SweepFrom(q, i, now, age).bytes <= q.bytes
    decreases FLOWS - i
  {
    hide SweepBucket;
    if i < FLOWS {
      SweepBucketShrinks(q, i, now, age);
      SweepShrinks(SweepBucket(q, i, now, age), i + 1, now, age);
    }
  }

  lemma {:induction false} EpisodeShrinks(q: Queue, idx: Bucket, now: int, law: Law, head: Queued)
    ensures Episode(q, idx, now, law, head).0.bytes <= q.bytes
    decreases |q.flows[idx].packets|
  {
    hide MarkOutcome;
    var f := q.flows[idx];
    if f.dropping && Due(f, now) && !MarkOutcome(head.packet).0 {
      var counted := SetFlow(q, idx, f.(count := f.count + 1));
      var (taken, next) := Take(CountDrop(counted, idx, now, head), idx, now);
      if next.Some? {
        if next.value.1 {
          var scheduled := Schedule(taken, idx, From(taken.flows[idx], now), law);
          EpisodeShrinks(scheduled, idx, now, law, next.value.0);
        } else {
          EpisodeShrinks(SetDropping(taken, idx, false), idx, now, law, next.value.0);
        }
      }
    }
  }

  lemma CodelShrinks(q: Queue, idx: Bucket, now: int, law: Law)
    ensures Codel(q, idx, now, law).0.bytes <= q.bytes
  {
    hide Episode, MarkOutcome;
    var (taken, next) := Take(q, idx, now);
    if next.Some? {
      EpisodeShrinks(taken, idx, now, law, next.value.0);
    }
  }

  lemma {:induction false} DequeueShrinks(q: Queue, now: int, law: Law)
    ensures Dequeue(q, now, law).0.bytes <= q.bytes
    decreases |q.freshList| + |q.backlogged|, SumOwed(q.flows)
  {
    hide Codel;
    if InService(q) {
      var idx := Next(q);
      if q.flows[idx].deficit <= 0 {
        RefillPaysOne(q);
        DequeueShrinks(Refill(q), now, law);
      } else {
        CodelShrinks(q, idx, now, law);
        var (r, out) := Codel(q, idx, now, law);
        if out.None? {
          DequeueShrinks(Unlist(r), now, law);
        }
      }
    }
  }

  lemma {:induction false} RunLimited(q: Queue, ops: seq<Op>, law: Law, longest: nat)
    requires Good(q, Free) && q.bytes <= Max(LIMIT_BYTES, longest) && Within(ops, longest)
    ensures RunFrom(q, ops, law).bytes <= Max(LIMIT_BYTES, longest)
    decreases |ops|
  {
    hide Good, Apply;
    if ops != [] {
      GoodIsTallied(q, Free);
      ApplyKeeps(q, ops[0], law);
      ApplyLimited(q, ops[0], law, longest);
      RunLimited(Apply(q, ops[0], law), ops[1..], law, longest);
    }
  }

  /** The queue never holds more octets than the limit or, if one packet is longer than that, than the
      longest packet. */
  lemma TheLimitHolds(ops: seq<Op>, law: Law, longest: nat)
    requires Within(ops, longest)
    ensures Reached(ops, law).bytes <= Max(LIMIT_BYTES, longest)
  {
    hide Good;
    EmptyIsGood();
    RunLimited(Empty(), ops, law, longest);
  }

  // ----- acknowledgement thinning -----

  /** The waiting packet at `i` is removed: it is redundant and not the last that is. */
  ghost predicate Removed(ps: seq<Queued>, newer: bytes, acked: nat, i: nat)
    requires i < |ps|
  {
    Redundant(ps[i], newer, acked) && exists j :: i < j < |ps| && Redundant(ps[j], newer, acked)
  }

  /** `at` lists, in increasing order, the positions kept. */
  ghost predicate KeptAt(ps: seq<Queued>, newer: bytes, acked: nat, at: seq<nat>) {
    && (forall k :: 0 <= k < |at| ==> at[k] < |ps|)
    && (forall k, m :: 0 <= k < m < |at| ==> at[k] < at[m])
    && (forall i: nat :: i < |ps| ==> (i in at <==> !Removed(ps, newer, acked, i)))
  }

  /** Thinning removes precisely the redundant acknowledgements except the last, and keeps
      everything else in order. */
  lemma {:induction false} ThinningIsExact(ps: seq<Queued>, newer: bytes, acked: nat) returns (at: seq<nat>)
    ensures KeptAt(ps, newer, acked, at)
    ensures var kept := Sift(ps, newer, acked).0;
            |kept| == |at| && forall k :: 0 <= k < |at| ==> kept[k] == ps[at[k]]
  {
    hide Redundant;
    at := [];
    if ps != [] {
      var later := ThinningIsExact(ps[1..], newer, acked);
      var shifted := seq(|later|, k requires 0 <= k < |later| => later[k] + 1);
      ShiftKept(ps, newer, acked, later, shifted);
      if Redundant(ps[0], newer, acked) && AnyRedundant(ps[1..], newer, acked) {
        var j :| 0 <= j < |ps[1..]| && Redundant(ps[1..][j], newer, acked);
        assert ps[j + 1] == ps[1..][j];
        assert Removed(ps, newer, acked, 0);
        at := shifted;
      } else {
        assert !Removed(ps, newer, acked, 0);
        at := [0] + shifted;
        assert forall i: nat :: i in at <==> i == 0 || i in shifted;
      }
    }
  }

  lemma ShiftKept(ps: seq<Queued>, newer: bytes, acked: nat, later: seq<nat>, shifted: seq<nat>)
    requires ps != [] && KeptAt(ps[1..], newer, acked, later)
    requires |shifted| == |later| && forall k :: 0 <= k < |later| ==> shifted[k] == later[k] + 1
    ensures forall k :: 0 <= k < |shifted| ==> 0 < shifted[k] < |ps|
    ensures forall i: nat :: 0 < i < |ps| ==> (i in shifted <==> !Removed(ps, newer, acked, i))
  {
    hide Redundant;
    forall i: nat | 0 < i < |ps|
      ensures i in shifted <==> !Removed(ps, newer, acked, i)
    {
      var m: nat := i - 1;
      assert Removed(ps, newer, acked, i) <==> Removed(ps[1..], newer, acked, m) by {
        assert ps[1..][m] == ps[i];
        if Removed(ps, newer, acked, i) {
          var j :| i < j < |ps| && Redundant(ps[j], newer, acked);
          assert ps[1..][j - 1] == ps[j];
        }
        if Removed(ps[1..], newer, acked, m) {
          var j :| m < j < |ps[1..]| && Redundant(ps[1..][j], newer, acked);
          assert ps[j + 1] == ps[1..][j];
        }
      }
      if m in later {
        var k :| 0 <= k < |later| && later[k] == m;
        assert shifted[k] == i;
      }
      if i in shifted {
        var k :| 0 <= k < |shifted| && shifted[k] == i;
        assert later[k] == m;
      }
    }
  }

  /** Only an older acknowledgement of the same connection is redundant: TCP, without payload, options or
      any other flag, strictly behind in 32-bit serial arithmetic, which is never so both ways round. */
  lemma OnlyOlderAcksAreRedundant(older: Queued, newer: bytes, acked: nat)
    requires BareAck(newer, acked)
    ensures Redundant(older, newer, acked) <==>
              && OneConnection(newer, older.packet)
              && exists n: nat :: BareAck(older.packet, n) && 0 < (acked - n) % 0x1_0000_0000 < 0x8000_0000
    ensures Redundant(older, newer, acked) ==>
              && FlowOf(older.packet) == FlowOf(newer)
              && forall n: nat :: BareAck(older.packet, n) ==> n != acked && !SeriallyAhead(n, acked)
  {
    hide FlowOf, SameConnection, OneConnection, PureAck, BareAck;
    PureAckIsExact(newer, acked);
    SameConnectionIsExact(newer, older.packet);
    forall n: nat
      ensures PureAck(older.packet) == Some(n) <==> BareAck(older.packet, n)
    {
      PureAckIsExact(older.packet, n);
    }
    if Redundant(older, newer, acked) {
      ConnectionSharesBucket(newer, older.packet);
      assert BareAck(older.packet, PureAck(older.packet).value);
    }
  }
}
