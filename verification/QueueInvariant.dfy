/** What every operation of the packet queue keeps. */
module QueueInvariant {
  import opened Common
  import opened Packets
  import opened QueueModel
  import opened QueueLog

  /** The packet an operation has taken out of its bucket and not yet disposed of. */
  datatype Hand = Free | Holding(idx: Bucket, what: Queued)

  function InHand(h: Hand, b: Bucket): seq<Queued> {
    if h.Holding? && h.idx == b then [h.what] else []
  }

  ghost predicate Distinct<T>(s: seq<T>) {
    forall i, j :: 0 <= i < j < |s| ==> s[i] != s[j]
  }

  ghost predicate OnList(q: Queue, b: Bucket) {
    b in q.freshList || b in q.backlogged
  }

  /** A bucket is on exactly one service list, once, iff it is listed; whatever waits is in service
      and in the bucket its headers name. */
  ghost predicate InOrder(q: Queue) {
    && Distinct(q.freshList) && Distinct(q.backlogged)
    && (forall b: Bucket :: b in q.freshList ==> b !in q.backlogged)
    && (forall b: Bucket :: q.flows[b].listed <==> OnList(q, b))
    && (forall b: Bucket :: q.flows[b].packets != [] ==> q.flows[b].listed)
  }

  ghost predicate Filed(q: Queue, h: Hand) {
    && (forall b: Bucket :: forall p :: p in q.flows[b].packets ==> FlowOf(p.packet) == b)
    && (h.Holding? ==> FlowOf(h.what.packet) == h.idx)
  }

  ghost predicate Paced(q: Queue) {
    INTERVAL_FLOOR <= q.interval <= INTERVAL_CEILING && q.target == q.interval / TARGET_SHARE
  }

  /** Bucket `b`: every accepted packet is settled, in hand or waiting, exactly once; what was
      delivered, then what is in hand, then what waits, is a subsequence of what arrived. */
  ghost predicate Accounted(q: Queue, h: Hand, b: Bucket) {
    && multiset(Entries(q.log, Arrival, b)) ==
       Settled(q.log, b) + multiset(InHand(h, b)) + multiset(q.flows[b].packets)
    && Subsequence(Entries(q.log, Delivery, b) + (InHand(h, b) + q.flows[b].packets), Entries(q.log, Arrival, b))
  }

  ghost predicate Counted(q: Queue) {
    && q.overLimit == Tally(q.log, OverLimit)
    && q.overTarget == Tally(q.log, OverTarget) == Signals(q.log, false)
    && q.marked == Signals(q.log, true)
    && q.thinned == Tally(q.log, Thinned)
    && q.stale == Tally(q.log, Stale)
  }

  ghost predicate Ledger(q: Queue, h: Hand) {
    && (forall b: Bucket :: Accounted(q, h, b))
    && Counted(q)
    && WellTold(q.log)
  }

  /** The moment a bucket's CoDel clock runs from, if it runs, is one interval after a moment from
      which on the bucket stood. */
  ghost predicate Clocked(q: Queue, b: Bucket) {
    q.flows[b].aboveSince.Some? ==>
      exists j: nat :: StoodSince(q.log, b, j, |q.log|) &&
                       q.flows[b].aboveSince.value == q.log[j].now + q.log[j].interval
  }

  ghost predicate Patient(q: Queue) {
    && (forall i: nat :: i < |q.log| ==> Justified(q.log, i))
    && (forall b: Bucket :: Clocked(q, b))
  }

  ghost predicate Good(q: Queue, h: Hand) {
    Tallied(q) && Shaped(q, h) && Ledger(q, h) && Patient(q)
  }

  lemma EmptyIsGood()
    ensures Good(Empty(), Free)
  {
    EmptyIsIdle();
    IdleIsGood(Empty());
  }

  lemma EmptyIsIdle()
    ensures Tallied(Empty())
    ensures forall b: Bucket :: Empty().flows[b] == IDLE_FLOW
  {
    SumsZero(FLOWS);
    assert Empty().flows == seq(FLOWS, _ => IDLE_FLOW);
  }

  lemma IdleIsGood(q: Queue)
    requires forall b: Bucket :: q.flows[b] == IDLE_FLOW
    requires Tallied(q) && Paced(q)
    requires q.log == [] && q.freshList == [] && q.backlogged == []
    requires q.overLimit == q.overTarget == q.marked == q.thinned == q.stale == 0
    ensures Good(q, Free)
  {
    forall b: Bucket
      ensures Accounted(q, Free, b)
    {
      assert q.flows[b] == IDLE_FLOW;
      assert Entries(q.log, Delivery, b) + (InHand(Free, b) + q.flows[b].packets) == [];
    }
  }

  // ----- noting one event -----

  /** `r` is `q` with one event more and the waiting packets of one bucket replaced. */
  ghost predicate Noted(q: Queue, r: Queue, e: Event, idx: Bucket) {
    && r.log == q.log + [e]
    && (forall b: Bucket :: b != idx ==> r.flows[b].packets == q.flows[b].packets)
  }

  ghost predicate Shaped(q: Queue, h: Hand) {
    InOrder(q) && Filed(q, h) && Paced(q)
  }

  lemma AccountedElsewhere(q: Queue, h: Hand, r: Queue, h': Hand, e: Event, idx: Bucket)
    requires Noted(q, r, e, idx)
    requires e.Moved? ==> e.idx == idx
    requires forall b: Bucket :: b != idx ==> InHand(h, b) == InHand(h', b)
    requires forall b: Bucket :: Accounted(q, h, b)
    ensures forall b: Bucket :: b != idx ==> Accounted(r, h', b)
  {
    forall b: Bucket | b != idx
      ensures Accounted(r, h', b)
    {
      assert Accounted(q, h, b);
      EntriesNote(q.log, e, Arrival, b);
      EntriesNote(q.log, e, Delivery, b);
      SettledNote(q.log, e, b);
    }
  }

  /** An event that is neither a signal nor bears on a clock leaves the clocks right. */
  lemma PatientNote(q: Queue, r: Queue, e: Event)
    requires Patient(q)
    requires r.log == q.log + [e]
    requires e.Punished? ==> Justified(r.log, |q.log|)
    requires forall b: Bucket :: r.flows[b].aboveSince.None? ||
               (TakenStanding(e, b) && e != Swept(b) &&
                (r.flows[b].aboveSince == q.flows[b].aboveSince ||
                 (StoodSince(r.log, b, |q.log|, |r.log|) && r.flows[b].aboveSince.value == e.now + e.interval)))
    ensures Patient(r)
  {
    forall i: nat | i < |r.log|
      ensures Justified(r.log, i)
    {
      if i < |q.log| {
        JustifiedNote(q.log, e, i);
      }
    }
    forall b: Bucket
      ensures Clocked(r, b)
    {
      assert Clocked(q, b);
      if r.flows[b].aboveSince.Some? {
        if r.flows[b].aboveSince == q.flows[b].aboveSince {
          var j: nat :| StoodSince(q.log, b, j, |q.log|) &&
                        q.flows[b].aboveSince.value == q.log[j].now + q.log[j].interval;
          StoodNote(q.log, e, b, j, |q.log|);
          assert StoodSince(r.log, b, j, |r.log|);
        } else {
          assert r.log[|q.log|] == e;
        }
      }
    }
  }

  // ----- removing the head of a bucket -----

  lemma DropHead(done: seq<Queued>, ps: seq<Queued>, all: seq<Queued>)
    requires ps != [] && Subsequence(done + ps, all)
    ensures Subsequence(done + ps[1..], all)
  {
    SubsequenceReflexive(done);
    SubsequenceReflexive(ps[1..]);
    assert Subsequence(ps[1..], ps);
    SubsequenceAppend(done, done, ps[1..], ps);
    SubsequenceTransitive(done + ps[1..], done + ps, all);
  }

  lemma HeadSplits(ps: seq<Queued>)
    requires ps != []
    ensures multiset(ps) == multiset{ps[0]} + multiset(ps[1..])
    ensures forall p :: p in ps[1..] ==> p in ps
  {
    assert ps == [ps[0]] + ps[1..];
  }

  lemma PopHeadAccounted(q: Queue, idx: Bucket, e: Event, r: Queue)
    requires q.flows[idx].packets != []
    requires e.Moved? && e.idx == idx && e.what == q.flows[idx].packets[0]
    requires e.fate != Arrival && e.fate != Delivery
    requires r.log == q.log + [e]
    requires r.flows[idx].packets == q.flows[idx].packets[1..]
    requires Accounted(q, Free, idx)
    ensures Accounted(r, Free, idx)
  {
    hide Subsequence, Entries, Settled;
    var ps := q.flows[idx].packets;
    EntriesNote(q.log, e, Arrival, idx);
    EntriesNote(q.log, e, Delivery, idx);
    SettledNote(q.log, e, idx);
    HeadSplits(ps);
    assert [] + ps == ps && [] + ps[1..] == ps[1..];
    DropHead(Entries(q.log, Delivery, idx), ps, Entries(q.log, Arrival, idx));
  }

  lemma EvictionKeeps(q: Queue, idx: Bucket)
    requires Good(q, Free) && q.flows[idx].packets != []
    ensures Good(PopHead(q, idx, OverLimit).(overLimit := q.overLimit + 1), Free)
  {
    PopHeadKeeps(q, idx, OverLimit, PopHead(q, idx, OverLimit).(overLimit := q.overLimit + 1));
  }

  lemma SweepHeadKeeps(q: Queue, idx: Bucket)
    requires Good(q, Free) && q.flows[idx].packets != []
    ensures Good(SweepHead(q, idx), Free)
  {
    PopHeadKeeps(q, idx, Stale, SweepHead(q, idx));
  }

  lemma PopHeadKeeps(q: Queue, idx: Bucket, fate: Fate, r: Queue)
    requires Good(q, Free) && q.flows[idx].packets != []
    requires || (fate == OverLimit && r == PopHead(q, idx, fate).(overLimit := q.overLimit + 1))
             || (fate == Stale && r == PopHead(q, idx, fate).(stale := q.stale + 1))
    ensures Good(r, Free)
  {
    PopHeadTallied(q, idx, fate);
    PopHeadShaped(q, idx, r);
    PopHeadLedger(q, idx, fate, r);
    PatientNote(q, r, Moved(fate, idx, q.flows[idx].packets[0], q.flows[idx].packets[0].packet));
  }

  lemma PopHeadShaped(q: Queue, idx: Bucket, r: Queue)
    requires Shaped(q, Free) && q.flows[idx].packets != []
    requires r.flows == q.flows[idx := r.flows[idx]]
    requires r.flows[idx].listed == q.flows[idx].listed
    requires r.flows[idx].packets == q.flows[idx].packets[1..]
    requires (r.freshList, r.backlogged, r.interval, r.target) == (q.freshList, q.backlogged, q.interval, q.target)
    ensures Shaped(r, Free)
  {
    HeadSplits(q.flows[idx].packets);
  }

  lemma PopHeadLedger(q: Queue, idx: Bucket, fate: Fate, r: Queue)
    requires Ledger(q, Free) && q.flows[idx].packets != []
    requires || (fate == OverLimit && r == PopHead(q, idx, fate).(overLimit := q.overLimit + 1))
             || (fate == Stale && r == PopHead(q, idx, fate).(stale := q.stale + 1))
    ensures Ledger(r, Free)
  {
    hide Subsequence, Entries, Settled, Tally, Signals, WellTold;
    var ps := q.flows[idx].packets;
    var e := Moved(fate, idx, ps[0], ps[0].packet);
    AccountedElsewhere(q, Free, r, Free, e, idx);
    PopHeadAccounted(q, idx, e, r);
    CountsNote(q.log, e);
    WellToldNote(q.log, e);
  }

  lemma {:induction false} MakeRoomKeeps(q: Queue, len: nat)
    requires Good(q, Free)
    ensures Good(MakeRoom(q, len), Free)
    decreases SumPackets(q.flows)
  {
    hide Ledger, Patient, Shaped;
    if q.bytes + len > LIMIT_BYTES {
      DropFattestTallied(q);
      var idx := Fattest(q.flows);
      if q.flows[idx].bytes > 0 {
        EvictionKeeps(q, idx);
        MakeRoomKeeps(DropFattest(q).0, len);
      }
    }
  }

  // ----- thinning -----

  lemma {:induction false} SiftSplits(ps: seq<Queued>, newer: bytes, acked: nat)
    ensures var (kept, gone) := Sift(ps, newer, acked);
            && multiset(ps) == multiset(kept) + multiset(gone)
            && Subsequence(kept, ps)
            && TotalLen(ps) == TotalLen(kept) + TotalLen(gone)
            && |ps| == |kept| + |gone|
            && (forall p :: p in kept ==> p in ps)
            && (kept == [] ==> ps == [])
  {
    hide Redundant;
    if ps != [] {
      SiftSplits(ps[1..], newer, acked);
      var (kept, gone) := Sift(ps[1..], newer, acked);
      HeadSplits(ps);
      if Redundant(ps[0], newer, acked) && AnyRedundant(ps[1..], newer, acked) {
        assert Sift(ps, newer, acked) == (kept, gone + [ps[0]]);
        TotalLenAppend(gone, [ps[0]]);
        assert TotalLen([ps[0]]) == |ps[0].packet| + TotalLen([]);
      } else {
        assert Sift(ps, newer, acked) == ([ps[0]] + kept, gone);
        assert ([ps[0]] + kept)[1..] == kept;
      }
    }
  }

  /** What a run of thinned packets adds to the log. */
  lemma {:induction false} ThinnedLog(log: seq<Event>, idx: Bucket, gone: seq<Queued>)
    ensures var l := log + ThinnedEvents(idx, gone);
            && (forall b: Bucket :: Entries(l, Arrival, b) == Entries(log, Arrival, b))
            && (forall b: Bucket :: Entries(l, Delivery, b) == Entries(log, Delivery, b))
            && (forall b: Bucket ::
                  Settled(l, b) == Settled(log, b) + if b == idx then multiset(gone) else multiset{})
            && (forall fate :: Tally(l, fate) == Tally(log, fate) + if fate == Thinned then |gone| else 0)
            && (forall marked :: Signals(l, marked) == Signals(log, marked))
    decreases |gone|
  {
    if gone == [] {
      assert log + ThinnedEvents(idx, gone) == log;
    } else {
      var n := |gone| - 1;
      ThinnedLog(log, idx, gone[..n]);
      var l := log + ThinnedEvents(idx, gone[..n]);
      var e := Moved(Thinned, idx, gone[n], gone[n].packet);
      assert log + ThinnedEvents(idx, gone) == l + [e];
      assert gone == gone[..n] + [gone[n]];
      ThinnedLogStep(l, e);
    }
  }

  lemma ThinnedLogStep(l: seq<Event>, e: Event)
    requires e.Moved? && e.fate == Thinned
    ensures forall b: Bucket :: Entries(l + [e], Arrival, b) == Entries(l, Arrival, b)
    ensures forall b: Bucket :: Entries(l + [e], Delivery, b) == Entries(l, Delivery, b)
    ensures forall b: Bucket ::
              Settled(l + [e], b) == Settled(l, b) + if e.idx == b then multiset{e.what} else multiset{}
    ensures forall fate :: Tally(l + [e], fate) == Tally(l, fate) + if fate == Thinned then 1 else 0
    ensures forall marked :: Signals(l + [e], marked) == Signals(l, marked)
  {
    hide Entries, Settled, Tally, Signals;
    forall b: Bucket
      ensures Entries(l + [e], Arrival, b) == Entries(l, Arrival, b)
      ensures Entries(l + [e], Delivery, b) == Entries(l, Delivery, b)
      ensures Settled(l + [e], b) == Settled(l, b) + if e.idx == b then multiset{e.what} else multiset{}
    {
      EntriesNote(l, e, Arrival, b);
      EntriesNote(l, e, Delivery, b);
      SettledNote(l, e, b);
    }
    CountsNote(l, e);
  }

  lemma {:induction false} ThinnedWellTold(log: seq<Event>, idx: Bucket, gone: seq<Queued>)
    requires WellTold(log)
    ensures WellTold(log + ThinnedEvents(idx, gone))
    decreases |gone|
  {
    if gone == [] {
      assert log + ThinnedEvents(idx, gone) == log;
    } else {
      var n := |gone| - 1;
      ThinnedWellTold(log, idx, gone[..n]);
      var l := log + ThinnedEvents(idx, gone[..n]);
      var e := Moved(Thinned, idx, gone[n], gone[n].packet);
      assert log + ThinnedEvents(idx, gone) == l + [e];
      WellToldNote(l, e);
    }
  }

  lemma PatientSame(q: Queue, r: Queue)
    requires Patient(q) && r.log == q.log
    requires forall b: Bucket :: r.flows[b].aboveSince == q.flows[b].aboveSince || r.flows[b].aboveSince.None?
    ensures Patient(r)
  {
    forall b: Bucket
      ensures Clocked(r, b)
    {
      assert Clocked(q, b);
    }
  }

  lemma {:induction false} PatientThinned(q: Queue, idx: Bucket, gone: seq<Queued>)
    requires Patient(q)
    ensures Patient(q.(log := q.log + ThinnedEvents(idx, gone)))
    decreases |gone|
  {
    if gone == [] {
      assert q.log + ThinnedEvents(idx, gone) == q.log;
    } else {
      hide Patient;
      var n := |gone| - 1;
      var p := q.(log := q.log + ThinnedEvents(idx, gone[..n]));
      var e := Moved(Thinned, idx, gone[n], gone[n].packet);
      PatientThinned(q, idx, gone[..n]);
      assert q.log + ThinnedEvents(idx, gone) == p.log + [e];
      PatientNote(p, q.(log := p.log + [e]), e);
    }
  }

  lemma ThinAccounted(q: Queue, idx: Bucket, kept: seq<Queued>, gone: seq<Queued>, r: Queue, b: Bucket)
    requires Accounted(q, Free, b)
    requires multiset(q.flows[idx].packets) == multiset(kept) + multiset(gone)
    requires Subsequence(kept, q.flows[idx].packets)
    requires r.log == q.log + ThinnedEvents(idx, gone)
    requires r.flows[b].packets == if b == idx then kept else q.flows[b].packets
    ensures Accounted(r, Free, b)
  {
    hide Entries, Settled, Tally, Signals, Subsequence, WellTold;
    hide ThinnedEvents;
    ThinnedLog(q.log, idx, gone);
    assert multiset(Entries(r.log, Arrival, b)) ==
           Settled(r.log, b) + multiset(InHand(Free, b)) + multiset(r.flows[b].packets);
    if b == idx {
      var done, ps := Entries(q.log, Delivery, b), q.flows[b].packets;
      assert [] + ps == ps && [] + kept == kept;
      SubsequenceReflexive(done);
      SubsequenceAppend(done, done, kept, ps);
      SubsequenceTransitive(done + kept, done + ps, Entries(q.log, Arrival, b));
    }
  }

  lemma ThinLedger(q: Queue, idx: Bucket, newer: bytes, acked: nat)
    requires Ledger(q, Free)
    ensures Ledger(ThinAcks(q, idx, newer, acked), Free)
  {
    hide Entries, Settled, Tally, Signals, Subsequence, Sift, Accounted, WellTold;
    var (kept, gone) := Sift(q.flows[idx].packets, newer, acked);
    var r := ThinAcks(q, idx, newer, acked);
    SiftSplits(q.flows[idx].packets, newer, acked);
    ThinnedLog(q.log, idx, gone);
    ThinnedWellTold(q.log, idx, gone);
    forall b: Bucket
      ensures Accounted(r, Free, b)
    {
      ThinAccounted(q, idx, kept, gone, r, b);
    }
  }

  lemma ThinShaped(q: Queue, idx: Bucket, newer: bytes, acked: nat)
    requires Tallied(q) && Shaped(q, Free)
    ensures Tallied(ThinAcks(q, idx, newer, acked))
    ensures Shaped(ThinAcks(q, idx, newer, acked), Free)
  {
    hide Sift, Subsequence, Redundant, FlowOf;
    var f := q.flows[idx];
    var r := ThinAcks(q, idx, newer, acked);
    SiftSplits(f.packets, newer, acked);
    TalliedUpdate(q, idx, r.flows[idx], r);
  }

  lemma ThinPatient(q: Queue, idx: Bucket, newer: bytes, acked: nat)
    requires Patient(q)
    ensures Patient(ThinAcks(q, idx, newer, acked))
  {
    hide Patient, Sift;
    var r := ThinAcks(q, idx, newer, acked);
    PatientThinned(q, idx, Sift(q.flows[idx].packets, newer, acked).1);
    PatientSame(q.(log := r.log), r);
  }

  lemma ThinKeeps(q: Queue, idx: Bucket, newer: bytes, acked: nat)
    requires Good(q, Free)
    ensures Good(ThinAcks(q, idx, newer, acked), Free)
  {
    hide Ledger, Patient, Shaped, Tallied, ThinAcks;
    ThinShaped(q, idx, newer, acked);
    ThinLedger(q, idx, newer, acked);
    ThinPatient(q, idx, newer, acked);
  }

  // ----- arrival -----

  lemma ArrivalAccounted(q: Queue, idx: Bucket, e: Event, r: Queue)
    requires Accounted(q, Free, idx)
    requires e.Moved? && e.fate == Arrival && e.idx == idx
    requires r.log == q.log + [e]
    requires r.flows[idx].packets == q.flows[idx].packets + [e.what]
    ensures Accounted(r, Free, idx)
  {
    hide Entries, Settled, Subsequence;
    EntriesNote(q.log, e, Arrival, idx);
    EntriesNote(q.log, e, Delivery, idx);
    SettledNote(q.log, e, idx);
    var done, ps := Entries(q.log, Delivery, idx), q.flows[idx].packets;
    SubsequenceReflexive([e.what]);
    SubsequenceAppend(done + ([] + ps), Entries(q.log, Arrival, idx), [e.what], [e.what]);
    assert done + ([] + ps) + [e.what] == done + ([] + (ps + [e.what]));
  }

  lemma AcceptLedger(q: Queue, packet: bytes, now: int)
    requires Ledger(q, Free)
    ensures Ledger(Accept(q, packet, now), Free)
  {
    hide Accounted, FlowOf, Tally, Signals, WellTold;
    var idx := FlowOf(packet);
    var r := Accept(q, packet, now);
    var e := Moved(Arrival, idx, Queued(packet, now), packet);
    AccountedElsewhere(q, Free, r, Free, e, idx);
    ArrivalAccounted(q, idx, e, r);
    CountsNote(q.log, e);
    WellToldNote(q.log, e);
  }

  lemma AcceptKeeps(q: Queue, packet: bytes, now: int)
    requires Good(q, Free)
    ensures Good(Accept(q, packet, now), Free)
  {
    hide Ledger, Patient, FlowOf;
    var idx := FlowOf(packet);
    var r := Accept(q, packet, now);
    var arrival := Queued(packet, now);
    var f := r.flows[idx];
    TotalLenAppend(q.flows[idx].packets, [arrival]);
    TalliedUpdate(q, idx, f, r);
    AcceptLedger(q, packet, now);
    PatientNote(q, r, Moved(Arrival, idx, arrival, packet));
  }

  lemma EnqueueKeeps(q: Queue, packet: bytes, now: int)
    requires Good(q, Free)
    ensures Good(Enqueue(q, packet, now), Free)
  {
    hide Shaped, Ledger, Patient, MakeRoom, ThinAcks, Accept;
    MakeRoomKeeps(q, |packet|);
    var roomy := MakeRoom(q, |packet|);
    if PureAck(packet).Some? {
      ThinKeeps(roomy, FlowOf(packet), packet, PureAck(packet).value);
    }
    AcceptKeeps(ThinFor(roomy, packet), packet, now);
  }

  // ----- stale eviction -----

  lemma SweepEndKeeps(q: Queue, idx: Bucket)
    requires Good(q, Free)
    ensures Good(Note(SetFlow(q, idx, q.flows[idx].(aboveSince := None, dropping := false)), Swept(idx)), Free)
  {
    hide Entries, Settled, Tally, Signals, Subsequence, WellTold;
    var f := q.flows[idx].(aboveSince := None, dropping := false);
    var e := Swept(idx);
    var r := Note(SetFlow(q, idx, f), e);
    TalliedUpdate(q, idx, f, r);
    QuietLedger(q, Free, r, e);
    PatientNote(q, r, e);
  }

  /** An event that moves no packet and signals nothing leaves the ledger right. */
  lemma QuietLedger(q: Queue, h: Hand, r: Queue, e: Event)
    requires Ledger(q, h)
    requires !e.Moved? && !e.Punished?
    requires r.log == q.log + [e]
    requires forall b: Bucket :: r.flows[b].packets == q.flows[b].packets
    requires (r.overLimit, r.overTarget, r.marked, r.thinned, r.stale) ==
             (q.overLimit, q.overTarget, q.marked, q.thinned, q.stale)
    ensures Ledger(r, h)
  {
    hide Entries, Settled, Tally, Signals, Subsequence, WellTold;
    CountsNote(q.log, e);
    WellToldNote(q.log, e);
    forall b: Bucket
      ensures Accounted(r, h, b)
    {
      assert Accounted(q, h, b);
      EntriesNote(q.log, e, Arrival, b);
      EntriesNote(q.log, e, Delivery, b);
      SettledNote(q.log, e, b);
    }
  }

  lemma {:induction false} SweepBucketKeeps(q: Queue, idx: Bucket, now: int, age: nat)
    requires Good(q, Free)
    ensures Good(SweepBucket(q, idx, now, age), Free)
    decreases |q.flows[idx].packets|
  {
    hide Good;
    var f := q.flows[idx];
    if f.packets != [] && Since(now, f.packets[0].at) >= age {
      SweepHeadKeeps(q, idx);
      SweepBucketKeeps(SweepHead(q, idx), idx, now, age);
    } else {
      SweepEndKeeps(q, idx);
    }
  }

  lemma {:induction false} SweepFromKeeps(q: Queue, i: nat, now: int, age: nat)
    requires Good(q, Free) && i <= FLOWS
    ensures Good(SweepFrom(q, i, now, age), Free)
    decreases FLOWS - i
  {
    hide Good, SweepBucket;
    if i < FLOWS {
      SweepBucketKeeps(q, i, now, age);
      SweepFromKeeps(SweepBucket(q, i, now, age), i + 1, now, age);
    }
  }

  // ----- CoDel -----

  /** CoDel's clock for a bucket has run out: its head may be punished. */
  ghost predicate Ripe(q: Queue, idx: Bucket, now: int) {
    q.flows[idx].aboveSince.Some? && now >= q.flows[idx].aboveSince.value
  }

  lemma TakeLedger(q: Queue, idx: Bucket, now: int)
    requires Ledger(q, Free) && q.flows[idx].packets != []
    ensures Ledger(Take(q, idx, now).0, Holding(idx, q.flows[idx].packets[0]))
  {
    hide Entries, Settled, Tally, Signals, Subsequence, WellTold;
    var ps := q.flows[idx].packets;
    var r := Take(q, idx, now).0;
    var h := Holding(idx, ps[0]);
    var e := Taken(idx, ps[0], now, q.target, q.interval, q.flows[idx].bytes - |ps[0].packet|);
    CountsNote(q.log, e);
    WellToldNote(q.log, e);
    AccountedElsewhere(q, Free, r, h, e, idx);
    assert Accounted(r, h, idx) by {
      assert Accounted(q, Free, idx);
      EntriesNote(q.log, e, Arrival, idx);
      EntriesNote(q.log, e, Delivery, idx);
      SettledNote(q.log, e, idx);
      HeadSplits(ps);
      assert [ps[0]] + ps[1..] == [] + ps;
      assert multiset(InHand(h, idx)) == multiset{ps[0]};
    }
  }

  lemma TakeShaped(q: Queue, idx: Bucket, now: int)
    requires Tallied(q) && Shaped(q, Free) && q.flows[idx].packets != []
    ensures Tallied(Take(q, idx, now).0)
    ensures Shaped(Take(q, idx, now).0, Holding(idx, q.flows[idx].packets[0]))
  {
    var r := Take(q, idx, now).0;
    TalliedUpdate(q, idx, r.flows[idx], r);
    PopHeadShaped(q, idx, r);
  }

  lemma TakePatient(q: Queue, idx: Bucket, now: int)
    requires Patient(q) && q.flows[idx].packets != []
    ensures Patient(Take(q, idx, now).0)
  {
    hide Patient;
    var ps := q.flows[idx].packets;
    var r := Take(q, idx, now).0;
    var e := Taken(idx, ps[0], now, q.target, q.interval, q.flows[idx].bytes - |ps[0].packet|);
    assert r.log[|q.log|] == e;
    PatientNote(q, r, e);
  }

  lemma TakeKeeps(q: Queue, idx: Bucket, now: int)
    requires Good(q, Free) && q.flows[idx].packets != []
    ensures Good(Take(q, idx, now).0, Holding(idx, q.flows[idx].packets[0]))
    ensures Take(q, idx, now).1.value.1 ==> Ripe(Take(q, idx, now).0, idx, now)
  {
    hide Ledger, Patient, Shaped, Tallied;
    TakeShaped(q, idx, now);
    TakeLedger(q, idx, now);
    TakePatient(q, idx, now);
  }

  /** Changing only a bucket's drop schedule keeps everything. */
  lemma LedgerSame(q: Queue, h: Hand, r: Queue)
    requires Ledger(q, h) && r.log == q.log
    requires forall b: Bucket :: r.flows[b].packets == q.flows[b].packets
    requires (r.overLimit, r.overTarget, r.marked, r.thinned, r.stale) ==
             (q.overLimit, q.overTarget, q.marked, q.thinned, q.stale)
    ensures Ledger(r, h)
  {
    hide Entries, Settled, Tally, Signals, Subsequence, WellTold;
    forall b: Bucket
      ensures Accounted(r, h, b)
    {
      assert Accounted(q, h, b);
    }
  }

  lemma TuneKeeps(q: Queue, h: Hand, idx: Bucket, f: Flow)
    requires Good(q, h)
    requires f == q.flows[idx].(dropNext := f.dropNext, count := f.count, dropping := f.dropping)
    ensures Good(SetFlow(q, idx, f), h)
  {
    hide Ledger, Patient;
    var r := SetFlow(q, idx, f);
    TalliedUpdate(q, idx, f, r);
    PatientSame(q, r);
    LedgerSame(q, h, r);
  }

  /** A signal given to a bucket whose clock has run out is justified. */
  lemma PunishPatient(q: Queue, idx: Bucket, now: int, marked: bool, r: Queue)
    requires Patient(q) && Ripe(q, idx, now)
    requires r.flows == q.flows && r.log == q.log + [Punished(idx, now, marked)]
    ensures Patient(r)
  {
    var e := Punished(idx, now, marked);
    assert Clocked(q, idx);
    var j: nat :| StoodSince(q.log, idx, j, |q.log|) &&
                  q.flows[idx].aboveSince.value == q.log[j].now + q.log[j].interval;
    StoodNote(q.log, e, idx, j, |q.log|);
    assert r.log[|q.log|] == e;
    assert StoodSince(r.log, r.log[|q.log|].idx, j, |q.log|);
    assert Justified(r.log, |q.log|);
    PatientNote(q, r, e);
  }

  lemma MarkKeeps(q: Queue, h: Hand, idx: Bucket, now: int)
    requires Good(q, h) && Ripe(q, idx, now)
    ensures Good(CountMark(q, idx, now), h)
  {
    hide Entries, Settled, Tally, Signals, Subsequence, WellTold, Accounted;
    var e := Punished(idx, now, true);
    var r := CountMark(q, idx, now);
    CountsNote(q.log, e);
    WellToldNote(q.log, e);
    PunishPatient(q, idx, now, true, r);
    forall b: Bucket
      ensures Accounted(r, h, b)
    {
      assert Accounted(q, h, b);
      MarkAccounted(q, h, r, e, b);
    }
  }

  lemma MarkAccounted(q: Queue, h: Hand, r: Queue, e: Event, b: Bucket)
    requires Accounted(q, h, b) && e.Punished? && r.log == q.log + [e]
    requires r.flows[b].packets == q.flows[b].packets
    ensures Accounted(r, h, b)
  {
    hide Entries, Settled, Tally, Signals, Subsequence, WellTold;
    EntriesNote(q.log, e, Arrival, b);
    EntriesNote(q.log, e, Delivery, b);
    SettledNote(q.log, e, b);
  }

  /** Settling the packet in hand: delivered, or dropped. */
  lemma SettleAccounted(q: Queue, idx: Bucket, head: Queued, e: Event, r: Queue)
    requires forall b: Bucket :: Accounted(q, Holding(idx, head), b)
    requires e.Moved? && e.idx == idx && e.what == head && e.fate != Arrival
    requires r.log == q.log + [e]
    requires forall b: Bucket :: r.flows[b].packets == q.flows[b].packets
    ensures forall b: Bucket :: Accounted(r, Free, b)
  {
    hide Entries, Settled, Subsequence;
    var h := Holding(idx, head);
    AccountedElsewhere(q, h, r, Free, e, idx);
    assert Accounted(q, h, idx);
    EntriesNote(q.log, e, Arrival, idx);
    EntriesNote(q.log, e, Delivery, idx);
    SettledNote(q.log, e, idx);
    var done, ps := Entries(q.log, Delivery, idx), q.flows[idx].packets;
    assert [head] + ps == InHand(h, idx) + ps;
    assert [] + ps == InHand(Free, idx) + ps;
    if e.fate == Delivery {
      assert done + ([head] + ps) == (done + [head]) + ([] + ps);
    } else {
      assert ([head] + ps)[1..] == [] + ps;
      DropHead(done, [head] + ps, Entries(q.log, Arrival, idx));
    }
  }

  lemma DropLedger(q: Queue, idx: Bucket, now: int, head: Queued)
    requires Ledger(q, Holding(idx, head))
    ensures Ledger(CountDrop(q, idx, now, head), Free)
  {
    hide Entries, Settled, Tally, Signals, Subsequence, WellTold;
    var e0, e1 := Punished(idx, now, false), Moved(OverTarget, idx, head, head.packet);
    var mid := Note(q.(overTarget := q.overTarget + 1), e0);
    var r := CountDrop(q, idx, now, head);
    CountsNote(q.log, e0);
    CountsNote(mid.log, e1);
    WellToldNote(q.log, e0);
    WellToldNote(mid.log, e1);
    forall b: Bucket
      ensures Accounted(mid, Holding(idx, head), b)
    {
      assert Accounted(q, Holding(idx, head), b);
      EntriesNote(q.log, e0, Arrival, b);
      EntriesNote(q.log, e0, Delivery, b);
      SettledNote(q.log, e0, b);
    }
    SettleAccounted(mid, idx, head, e1, r);
  }

  lemma DropKeeps(q: Queue, idx: Bucket, now: int, head: Queued)
    requires Good(q, Holding(idx, head)) && Ripe(q, idx, now)
    ensures Good(CountDrop(q, idx, now, head), Free)
  {
    hide Ledger;
    var e0, e1 := Punished(idx, now, false), Moved(OverTarget, idx, head, head.packet);
    var mid := Note(q.(overTarget := q.overTarget + 1), e0);
    PunishPatient(q, idx, now, false, mid);
    PatientNote(mid, CountDrop(q, idx, now, head), e1);
    DropLedger(q, idx, now, head);
  }

  /** What CoDel releases may be delivered: the packet in hand, as it waited or marked. */
  ghost predicate Released(q: Queue, idx: Bucket, out: Release) {
    && Good(q, Holding(idx, out.head))
    && (out.sent == out.head.packet || ((true, out.sent) == MarkOutcome(out.head.packet) && JustMarked(q, idx)))
  }

  ghost predicate JustMarked(q: Queue, idx: Bucket) {
    |q.log| > 0 && q.log[|q.log| - 1].Punished? && q.log[|q.log| - 1].idx == idx && q.log[|q.log| - 1].marked
  }

  ghost predicate ReleasedIfAny(r: (Queue, Option<Release>), idx: Bucket) {
    match r.1
    case Some(out) => Released(r.0, idx, out)
    case None => Good(r.0, Free) && r.0.flows[idx].packets == []
  }

  /** Dropping the head in hand of a bucket that stands leaves something to take. */
  ghost predicate Standing(q: Queue, idx: Bucket) {
    q.flows[idx].packets != []
  }

  lemma OverdueLeavesMore(q: Queue, idx: Bucket, now: int)
    requires Tallied(q) && q.flows[idx].packets != [] && Take(q, idx, now).1.value.1
    ensures Take(q, idx, now).0.flows[idx].packets != []
  {
    assert q.flows[idx].bytes == TotalLen(q.flows[idx].packets);
  }

  lemma {:induction false} EpisodeKeeps(q: Queue, idx: Bucket, now: int, law: Law, head: Queued)
    requires Good(q, Holding(idx, head))
    requires q.flows[idx].dropping ==> Ripe(q, idx, now) && Standing(q, idx)
    ensures ReleasedIfAny(Episode(q, idx, now, law, head), idx)
    ensures Episode(q, idx, now, law, head).1.Some?
    decreases |q.flows[idx].packets|
  {
    hide Good, MarkOutcome, Take;
    var f := q.flows[idx];
    if f.dropping && Due(f, now) {
      var counted := SetFlow(q, idx, f.(count := f.count + 1));
      TuneKeeps(q, Holding(idx, head), idx, f.(count := f.count + 1));
      var (willing, sent) := MarkOutcome(head.packet);
      if willing {
        var marked := CountMark(counted, idx, now);
        MarkKeeps(counted, Holding(idx, head), idx, now);
        ScheduleKeeps(marked, Holding(idx, head), idx, From(f, now), law);
      } else {
        var dropped := CountDrop(counted, idx, now, head);
        DropKeeps(counted, idx, now, head);
        TakeKeeps(dropped, idx, now);
        TakenHead(dropped, idx, now);
        var (taken, next) := Take(dropped, idx, now);
        if next.value.1 {
          GoodIsTallied(dropped, Free);
          OverdueLeavesMore(dropped, idx, now);
          ScheduleKeeps(taken, Holding(idx, next.value.0), idx, From(taken.flows[idx], now), law);
          EpisodeKeeps(Schedule(taken, idx, From(taken.flows[idx], now), law), idx, now, law, next.value.0);
        } else {
          TuneKeeps(taken, Holding(idx, next.value.0), idx, taken.flows[idx].(dropping := false));
          EpisodeKeeps(SetDropping(taken, idx, false), idx, now, law, next.value.0);
        }
      }
    }
  }

  lemma GoodIsTallied(q: Queue, h: Hand)
    requires Good(q, h)
    ensures Tallied(q)
  {
  }

  lemma TakenHead(q: Queue, idx: Bucket, now: int)
    requires q.flows[idx].packets != []
    ensures Take(q, idx, now).1.Some? && Take(q, idx, now).1.value.0 == q.flows[idx].packets[0]
    ensures Take(q, idx, now).0.flows[idx].dropping == q.flows[idx].dropping
  {
  }

  lemma ScheduleKeeps(q: Queue, h: Hand, idx: Bucket, from: int, law: Law)
    requires Good(q, h)
    ensures Good(Schedule(q, idx, from, law), h)
    ensures var f, g := q.flows[idx], Schedule(q, idx, from, law).flows[idx];
            (f.packets, f.aboveSince, f.dropping) == (g.packets, g.aboveSince, g.dropping)
    ensures Schedule(q, idx, from, law).log == q.log
  {
    TuneKeeps(q, h, idx, Schedule(q, idx, from, law).flows[idx]);
    assert Schedule(q, idx, from, law) == SetFlow(q, idx, Schedule(q, idx, from, law).flows[idx]);
  }

  lemma StartKeeps(q: Queue, h: Hand, idx: Bucket, now: int, law: Law)
    requires Good(q, h)
    ensures Good(StartEpisode(q, idx, now, law), h)
    ensures StartEpisode(q, idx, now, law).log == q.log
  {
    var f := q.flows[idx];
    var g := f.(count := ResumedCount(f, q.interval, now), dropping := true);
    TuneKeeps(q, h, idx, g);
    ScheduleKeeps(SetFlow(q, idx, g), h, idx, now, law);
  }

  lemma OnsetKeeps(q: Queue, idx: Bucket, now: int, law: Law, head: Queued)
    requires Good(q, Holding(idx, head)) && Ripe(q, idx, now) && Standing(q, idx)
    ensures ReleasedIfAny(Onset(q, idx, now, law, head), idx)
    ensures Onset(q, idx, now, law, head).1.Some?
  {
    hide Good, MarkOutcome, Take, StartEpisode;
    var (willing, sent) := MarkOutcome(head.packet);
    if willing {
      MarkKeeps(q, Holding(idx, head), idx, now);
      StartKeeps(CountMark(q, idx, now), Holding(idx, head), idx, now, law);
    } else {
      var dropped := CountDrop(q, idx, now, head);
      DropKeeps(q, idx, now, head);
      TakeKeeps(dropped, idx, now);
      TakenHead(dropped, idx, now);
      var (taken, next) := Take(dropped, idx, now);
      StartKeeps(taken, Holding(idx, next.value.0), idx, now, law);
    }
  }

  /** CoDel releases the head of a bucket, or a later packet of it, possibly marked; it returns
      nothing only for a bucket that was already empty. */
  lemma CodelKeeps(q: Queue, idx: Bucket, now: int, law: Law)
    requires Good(q, Free)
    ensures ReleasedIfAny(Codel(q, idx, now, law), idx)
    ensures Codel(q, idx, now, law).1.None? <==> q.flows[idx].packets == []
    ensures Codel(q, idx, now, law).1.None? ==> Codel(q, idx, now, law).0 == q
  {
    hide Good, Take, Episode, Onset;
    if q.flows[idx].packets == [] {
      TakeNothing(q, idx, now);
    } else {
      TakeKeeps(q, idx, now);
      TakenHead(q, idx, now);
      var (taken, next) := Take(q, idx, now);
      var (head, overdue) := next.value;
      if overdue {
        GoodIsTallied(q, Free);
        OverdueLeavesMore(q, idx, now);
        if taken.flows[idx].dropping {
          EpisodeKeeps(taken, idx, now, law, head);
        } else {
          OnsetKeeps(taken, idx, now, law, head);
        }
      } else if taken.flows[idx].dropping {
        TuneKeeps(taken, Holding(idx, head), idx, taken.flows[idx].(dropping := false));
      }
    }
  }

  lemma TakeNothing(q: Queue, idx: Bucket, now: int)
    requires q.flows[idx].packets == []
    ensures Take(q, idx, now) == (q, None)
  {
  }

  // ----- dequeue -----

  lemma RefillShaped(q: Queue)
    requires Shaped(q, Free) && InService(q)
    ensures Shaped(Refill(q), Free)
  {
  }

  lemma RefillKeeps(q: Queue)
    requires Good(q, Free) && InService(q)
    ensures Good(Refill(q), Free)
  {
    hide Ledger, Patient, Shaped;
    var idx := Next(q);
    var r := Refill(q);
    TalliedUpdate(q, idx, r.flows[idx], r);
    RefillShaped(q);
    QuietLedger(q, Free, r, Refilled(idx));
    PatientNote(q, r, Refilled(idx));
  }

  lemma UnlistKeeps(q: Queue)
    requires Good(q, Free) && InService(q) && q.flows[Next(q)].packets == []
    ensures Good(Unlist(q), Free)
    ensures !OnList(Unlist(q), Next(q))
  {
    hide Patient, Ledger;
    var idx := Next(q);
    var r := Unlist(q);
    TalliedUpdate(q, idx, r.flows[idx], r);
    PatientSame(q, r);
    LedgerSame(q, Free, r);
  }

  lemma ChargeLedger(q: Queue, idx: Bucket, out: Release)
    requires Ledger(q, Holding(idx, out.head)) && FlowOf(out.head.packet) == idx
    requires out.sent == out.head.packet || ((true, out.sent) == MarkOutcome(out.head.packet) && JustMarked(q, idx))
    ensures Ledger(Charge(q, idx, out), Free)
  {
    hide Accounted, Tally, Signals, FlowOf, MarkOutcome, WellTold;
    var e := Moved(Delivery, idx, out.head, out.sent);
    MarkKeepsFlow(out.head.packet);
    SettleAccounted(q, idx, out.head, e, Charge(q, idx, out));
    CountsNote(q.log, e);
    assert SentAsIs(e);
    WellToldNote(q.log, e);
  }

  lemma ChargeKeeps(q: Queue, idx: Bucket, out: Release)
    requires Released(q, idx, out)
    ensures Good(Charge(q, idx, out), Free)
  {
    hide Ledger, Patient, MarkOutcome;
    var r := Charge(q, idx, out);
    TalliedUpdate(q, idx, r.flows[idx], r);
    ChargeLedger(q, idx, out);
    PatientNote(q, r, Moved(Delivery, idx, out.head, out.sent));
  }

  /** The scheduler is work-conserving: it returns nothing exactly when nothing waits. */
  lemma {:induction false} DequeueKeeps(q: Queue, now: int, law: Law)
    requires Good(q, Free)
    ensures Good(Dequeue(q, now, law).0, Free)
    ensures Dequeue(q, now, law).1.None? <==> q.packets == 0
    decreases |q.freshList| + |q.backlogged|, SumOwed(q.flows)
  {
    hide Good, Codel, Refill, Unlist, Charge;
    if !InService(q) {
      IdleIsEmpty(q);
    } else {
      var idx := Next(q);
      if q.flows[idx].deficit <= 0 {
        RefillPaysOne(q);
        RefillKeeps(q);
        RefillQuiet(q);
        DequeueKeeps(Refill(q), now, law);
      } else {
        CodelKeeps(q, idx, now, law);
        var (r, out) := Codel(q, idx, now, law);
        match out
        case Some(release) =>
          ChargeKeeps(r, idx, release);
          WaitingCounts(q, idx);
        case None =>
          UnlistKeeps(r);
          UnlistQuiet(r);
          DequeueKeeps(Unlist(r), now, law);
      }
    }
  }

  lemma RefillQuiet(q: Queue)
    requires InService(q)
    ensures Refill(q).packets == q.packets
  {
  }

  lemma UnlistQuiet(q: Queue)
    requires InService(q)
    ensures Unlist(q).packets == q.packets
  {
  }

  lemma WaitingCounts(q: Queue, idx: Bucket)
    requires Good(q, Free) && q.flows[idx].packets != []
    ensures q.packets > 0
  {
    forall k | 0 <= k < FLOWS
      ensures q.flows[k].bytes >= 0
    {
      var b: Bucket := k;
      assert q.flows[b].bytes == TotalLen(q.flows[b].packets);
    }
    SumsBound(q.flows, idx);
  }

  lemma IdleIsEmpty(q: Queue)
    requires Good(q, Free) && !InService(q)
    ensures q.packets == 0
  {
    forall k | 0 <= k < FLOWS
      ensures q.flows[k].packets == []
    {
      var b: Bucket := k;
      assert !OnList(q, b);
    }
    SumPacketsZero(q.flows);
  }

  lemma {:induction false} SumPacketsZero(fs: seq<Flow>)
    requires forall k :: 0 <= k < |fs| ==> fs[k].packets == []
    ensures SumPackets(fs) == 0
  {
    if fs != [] {
      SumPacketsZero(fs[1..]);
    }
  }

  lemma MeasureKeeps(q: Queue, rtt: nat)
    requires Good(q, Free)
    ensures Good(ObserveRtt(q, rtt), Free)
  {
    hide Entries, Settled, Tally, Signals, Subsequence, WellTold;
    var r := ObserveRtt(q, rtt);
    PatientSame(q, r);
    forall b: Bucket
      ensures Accounted(r, Free, b)
    {
      assert Accounted(q, Free, b);
    }
  }

  lemma ReportKeeps(q: Queue)
    requires Good(q, Free)
    ensures Good(AfterStats(q), Free)
  {
    hide Ledger, Patient;
    LedgerSame(q, Free, AfterStats(q));
    PatientSame(q, AfterStats(q));
  }

  // ----- runs -----

  /** One operation of the queue on a state that satisfies the invariant. */
  function Apply(q: Queue, op: Op, law: Law): (r: Queue)
    requires Tallied(q)
  {
    match op
    case Push(packet, at) => Enqueue(q, packet, at)
    case Pop(at) => Dequeue(q, at, law).0
    case Sweep(at, age) => DropOlderThan(q, at, age)
    case Measure(rtt) => ObserveRtt(q, rtt)
    case Report => AfterStats(q)
  }

  lemma ApplyKeeps(q: Queue, op: Op, law: Law)
    requires Good(q, Free)
    ensures Good(Apply(q, op, law), Free)
  {
    hide Good, Enqueue, Dequeue, SweepFrom, ObserveRtt;
    match op
    case Push(packet, at) => EnqueueKeeps(q, packet, at);
    case Pop(at) => DequeueKeeps(q, at, law);
    case Sweep(at, age) => SweepFromKeeps(q, 0, at, age);
    case Measure(rtt) => MeasureKeeps(q, rtt);
    case Report => ReportKeeps(q);
  }

  ghost function RunFrom(q: Queue, ops: seq<Op>, law: Law): (r: Queue)
    requires Good(q, Free)
    ensures Good(r, Free)
    decreases |ops|
  {
    if ops == [] then q
    else
      ApplyKeeps(q, ops[0], law);
      RunFrom(Apply(q, ops[0], law), ops[1..], law)
  }

  /** The state an empty queue is in after a run of operations. */
  ghost function Reached(ops: seq<Op>, law: Law): (q: Queue)
    ensures Good(q, Free)
  {
    EmptyIsGood();
    RunFrom(Empty(), ops, law)
  }
}
