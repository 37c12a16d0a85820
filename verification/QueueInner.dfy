/** The packet queue itself: its fields, updated in place by each operation (src/queue.rs). */
module QueueInner {
  import opened Common
  import opened Packets
  import opened QueueModel
  import opened QueueLog
  import opened QueueInvariant
  import opened QueueTheorems
  import opened QueueFairness

  // ----- thinning by position -----

  /** No packet of `ps[lo..hi]` is removed, so sifting from `lo` keeps them and goes on from `hi`. */
  lemma {:induction false} SiftRun(ps: seq<Queued>, newer: bytes, acked: nat, lo: nat, hi: nat)
    requires lo <= hi <= |ps|
    requires forall i: nat :: lo <= i < hi ==> !Removed(ps, newer, acked, i)
    ensures var (kept, gone) := Sift(ps[hi..], newer, acked);
            Sift(ps[lo..], newer, acked) == (ps[lo..hi] + kept, gone)
    decreases hi - lo
  {
    hide Redundant;
    var (kept, gone) := Sift(ps[hi..], newer, acked);
    if lo == hi {
      assert ps[lo..hi] + kept == kept;
    } else {
      SiftRun(ps, newer, acked, lo + 1, hi);
      assert ps[lo..][1..] == ps[lo + 1..];
      assert ps[lo..][0] == ps[lo];
      assert !Removed(ps, newer, acked, lo);
      if AnyRedundant(ps[lo + 1..], newer, acked) {
        var j :| 0 <= j < |ps[lo + 1..]| && Redundant(ps[lo + 1..][j], newer, acked);
        assert ps[lo + 1 + j] == ps[lo + 1..][j];
      }
      assert [ps[lo]] + (ps[lo + 1..hi] + kept) == ps[lo..hi] + kept;
    }
  }

  /** The packet at `at` is removed. */
  lemma SiftAt(ps: seq<Queued>, newer: bytes, acked: nat, at: nat)
    requires at < |ps| && Removed(ps, newer, acked, at)
    ensures var (kept, gone) := Sift(ps[at + 1..], newer, acked);
            Sift(ps[at..], newer, acked) == (kept, gone + [ps[at]])
  {
    hide Redundant;
    var j :| at < j < |ps| && Redundant(ps[j], newer, acked);
    assert ps[at + 1..][j - at - 1] == ps[j];
    assert ps[at..][1..] == ps[at + 1..];
    assert AnyRedundant(ps[at + 1..], newer, acked);
  }

  ghost predicate Increasing(at: seq<nat>, bound: nat) {
    && (forall k :: 0 <= k < |at| ==> at[k] < bound)
    && (forall k, m :: 0 <= k < m < |at| ==> at[k] < at[m])
  }

  /** Of the positions of the redundant packets, in order, all but the last are removed. */
  lemma LastStays(ps: seq<Queued>, newer: bytes, acked: nat, all: seq<nat>)
    requires Increasing(all, |ps|)
    requires forall i: nat :: i < |ps| ==> (i in all <==> Redundant(ps[i], newer, acked))
    ensures var at := if all == [] then [] else all[..|all| - 1];
            forall i: nat :: i < |ps| ==> (i in at <==> Removed(ps, newer, acked, i))
  {
    hide Redundant;
    var at := if all == [] then [] else all[..|all| - 1];
    forall i: nat | i < |ps|
      ensures i in at <==> Removed(ps, newer, acked, i)
    {
      if i in at {
        assert all[|all| - 1] in all;
        assert i in all;
      }
      if Removed(ps, newer, acked, i) {
        var j: nat :| i < j < |ps| && Redundant(ps[j], newer, acked);
        assert i in all && j in all;
      }
    }
  }

  /** What thinning from position `edge` on makes of the bucket. */
  ghost function SiftedFrom(q: Queue, idx: Bucket, ps: seq<Queued>, newer: bytes, acked: nat, edge: nat): Queue
    requires edge <= |ps|
  {
    var (kept, gone) := Sift(ps[edge..], newer, acked);
    Sifted(q, idx, ps[..edge] + kept, gone)
  }

  /** From one removed position to the one before it: just the packet there goes. */
  lemma SiftBack(q: Queue, idx: Bucket, ps: seq<Queued>, newer: bytes, acked: nat, at: nat, edge: nat)
    requires at < edge <= |ps| && Removed(ps, newer, acked, at)
    requires forall i: nat :: at < i < edge ==> !Removed(ps, newer, acked, i)
    ensures var r := SiftedFrom(q, idx, ps, newer, acked, edge);
            var waiting := r.flows[idx].packets;
            && at < |waiting| && waiting[at] == ps[at]
            && SiftedFrom(q, idx, ps, newer, acked, at) ==
               SetFlow(r, idx, r.flows[idx].(packets := waiting[..at] + waiting[at + 1..],
                                             bytes := r.flows[idx].bytes - |ps[at].packet|)).(
                 bytes := r.bytes - |ps[at].packet|,
                 packets := r.packets - 1,
                 thinned := r.thinned + 1,
                 log := r.log + [Moved(Thinned, idx, ps[at], ps[at].packet)])
  {
    hide Sift, Removed, Redundant, Sifted;
    var (kept, gone) := Sift(ps[edge..], newer, acked);
    var waiting := ps[..edge] + kept;
    SiftAt(ps, newer, acked, at);
    SiftRun(ps, newer, acked, at + 1, edge);
    assert waiting[..at] + waiting[at + 1..] == ps[..at] + (ps[at + 1..edge] + kept);
    assert waiting[at] == ps[at];
    OneMoreSifted(q, idx, waiting, gone, at);
    SiftedWaits(q, idx, waiting, gone);
  }

  /** The positions of the redundant packets, in order. */
  method FindRedundant(ps: seq<Queued>, newer: bytes, acked: nat) returns (redundant: seq<nat>)
    ensures Increasing(redundant, |ps|)
    ensures forall i: nat :: i < |ps| ==> (i in redundant <==> Redundant(ps[i], newer, acked))
  {
    hide Redundant;
    redundant := [];
    var at := 0;
    while at < |ps|
      invariant 0 <= at <= |ps|
      invariant Increasing(redundant, at)
      invariant forall i: nat :: i < at ==> (i in redundant <==> Redundant(ps[i], newer, acked))
    {
      if Redundant(ps[at], newer, acked) {
        redundant := redundant + [at];
      }
      at := at + 1;
    }
  }

  lemma SiftNothing(newer: bytes, acked: nat)
    ensures Sift([], newer, acked) == ([], [])
  {
  }

  lemma NothingSifted(q: Queue, idx: Bucket)
    ensures Sifted(q, idx, q.flows[idx].packets, []) == q
  {
    assert q.log + ThinnedEvents(idx, []) == q.log;
    assert q.flows[idx := q.flows[idx]] == q.flows;
  }

  lemma SiftedWaits(q: Queue, idx: Bucket, kept: seq<Queued>, gone: seq<Queued>)
    ensures Sifted(q, idx, kept, gone).flows[idx].packets == kept
  {
  }

  /** Thinning one packet more. */
  lemma OneMoreSifted(q: Queue, idx: Bucket, kept: seq<Queued>, gone: seq<Queued>, at: nat)
    requires at < |kept|
    ensures var r := Sifted(q, idx, kept, gone);
            var fewer := kept[..at] + kept[at + 1..];
            var f := r.flows[idx];
            Sifted(q, idx, fewer, gone + [kept[at]]) ==
            SetFlow(r, idx, f.(packets := fewer, bytes := f.bytes - |kept[at].packet|)).(
              bytes := r.bytes - |kept[at].packet|,
              packets := r.packets - 1,
              thinned := r.thinned + 1,
              log := r.log + [Moved(Thinned, idx, kept[at], kept[at].packet)])
  {
    var more := kept[at];
    assert ThinnedEvents(idx, gone + [more]) ==
           ThinnedEvents(idx, gone) + [Moved(Thinned, idx, more, more.packet)];
    TotalLenAppend(gone, [more]);
    assert TotalLen([more]) == |more.packet| + TotalLen([]);
  }

  class Inner {
    var flows: Flows
    var freshList: seq<Bucket>
    var backlogged: seq<Bucket>
    var bytes: int
    var packets: int
    var overLimit: nat
    var overTarget: nat
    var marked: nat
    var thinned: nat
    var stale: nat
    var worstWait: nat
    var interval: nat
    var target: nat

    /** How far apart drops come. */
    const law: Law

    /** What happened so far. */
    ghost var log: seq<Event>

    ghost function State(): Queue
      reads this
    {
      Queue(flows, freshList, backlogged, bytes, packets, overLimit, overTarget, marked, thinned, stale,
            worstWait, interval, target, log)
    }

    constructor (law: Law)
      ensures State() == Empty() && Good(State(), Free)
      ensures this.law == law
    {
      this.law := law;
      flows := seq(FLOWS, _ => IDLE_FLOW);
      freshList, backlogged := [], [];
      bytes, packets := 0, 0;
      overLimit, overTarget, marked, thinned, stale, worstWait := 0, 0, 0, 0, 0, 0;
      interval, target := INTERVAL, INTERVAL / TARGET_SHARE;
      log := [];
      new;
      EmptyIsGood();
    }

    method PopFront(idx: Bucket, ghost fate: Fate) returns (head: Queued)
      requires flows[idx].packets != []
      modifies this`flows, this`bytes, this`packets, this`log
      ensures State() == PopHead(old(State()), idx, fate)
      ensures head == old(flows[idx].packets[0])
    {
      var f := flows[idx];
      head := f.packets[0];
      flows := flows[idx := f.(packets := f.packets[1..], bytes := f.bytes - |head.packet|)];
      bytes := bytes - |head.packet|;
      packets := packets - 1;
      log := log + [Moved(fate, idx, head, head.packet)];
    }

    /** The longest bucket, the last of those that tie. */
    method FindFattest() returns (best: nat)
      ensures best == Fattest(flows)
    {
      best := 0;
      var i := 1;
      while i < FLOWS
        invariant 1 <= i <= FLOWS
        invariant best == Fattest(flows[..i])
      {
        assert flows[..i + 1][..i] == flows[..i];
        if flows[i].bytes >= flows[best].bytes {
          best := i;
        }
        i := i + 1;
      }
      assert flows[..FLOWS] == flows;
    }

    /** Evict one packet, from whichever bucket holds most. */
    method DropFattest() returns (more: bool)
      requires Tallied(State())
      modifies this`flows, this`bytes, this`packets, this`overLimit, this`log
      ensures (State(), more) == QueueModel.DropFattest(old(State()))
    {
      hide Fattest;
      var best := FindFattest();
      if flows[best].bytes <= 0 {
        return false;
      }
      if flows[best].packets != [] {
        var _ := PopFront(best, OverLimit);
        overLimit := overLimit + 1;
      }
      return true;
    }

    method RemoveAt(idx: Bucket, at: nat)
      requires at < |flows[idx].packets|
      modifies this`flows, this`bytes, this`packets, this`thinned, this`log
      ensures var q := old(State());
              var f := q.flows[idx];
              var dropped := f.packets[at];
              State() ==
              SetFlow(q, idx, f.(packets := f.packets[..at] + f.packets[at + 1..],
                                 bytes := f.bytes - |dropped.packet|)).(
                bytes := q.bytes - |dropped.packet|,
                packets := q.packets - 1,
                thinned := q.thinned + 1,
                log := q.log + [Moved(Thinned, idx, dropped, dropped.packet)])
    {
      var f := flows[idx];
      var dropped := f.packets[at];
      flows := flows[idx := f.(packets := f.packets[..at] + f.packets[at + 1..], bytes := f.bytes - |dropped.packet|)];
      bytes := bytes - |dropped.packet|;
      packets := packets - 1;
      thinned := thinned + 1;
      log := log + [Moved(Thinned, idx, dropped, dropped.packet)];
    }

    /** Drop the acknowledgements this one has made redundant: find their positions, leave the last
        of them, and remove the rest back to front. */
    method ThinAcks(idx: Bucket, newer: bytes, acked: nat)
      modifies this`flows, this`bytes, this`packets, this`thinned, this`log
      ensures State() == QueueModel.ThinAcks(old(State()), idx, newer, acked)
    {
      hide Sift, Redundant, Removed, Sifted;
      ghost var q := State();
      ghost var ps := flows[idx].packets;
      var redundant := FindRedundant(flows[idx].packets, newer, acked);
      LastStays(ps, newer, acked, redundant);
      if redundant != [] {
        redundant := redundant[..|redundant| - 1];
      }
      var left := |redundant|;
      ghost var edge := |ps|;
      NothingSifted(q, idx);
      SiftNothing(newer, acked);
      assert ps[edge..] == [] && ps[..edge] + [] == ps;
      while left > 0
        invariant 0 <= left <= |redundant|
        invariant left < |redundant| ==> edge == redundant[left]
        invariant left == |redundant| ==> edge == |ps|
        invariant State() == SiftedFrom(q, idx, ps, newer, acked, edge)
      {
        hide SiftedFrom;
        left := left - 1;
        var position := redundant[left];
        assert position in redundant && position < edge;
        SiftBack(q, idx, ps, newer, acked, position, edge);
        RemoveAt(idx, position);
        edge := position;
      }
      SiftRun(ps, newer, acked, 0, edge);
      assert ps[0..] == ps && ps[0..edge] == ps[..edge];
    }

    /** Make room for an arrival of `len` octets. */
    method MakeRoom(len: nat)
      requires Tallied(State())
      modifies this`flows, this`bytes, this`packets, this`overLimit, this`log
      ensures State() == QueueModel.MakeRoom(old(State()), len)
    {
      hide Tallied, QueueModel.DropFattest;
      while bytes + len > LIMIT_BYTES
        invariant Tallied(State())
        invariant QueueModel.MakeRoom(State(), len) == QueueModel.MakeRoom(old(State()), len)
        invariant freshList == old(freshList) && backlogged == old(backlogged)
        decreases SumPackets(flows)
      {
        DropFattestTallied(State());
        var more := DropFattest();
        if !more {
          break;
        }
      }
    }

    method Accept(packet: bytes, now: int, idx: Bucket)
      requires idx == FlowOf(packet)
      modifies this`flows, this`bytes, this`packets, this`freshList, this`log
      ensures State() == QueueModel.Accept(old(State()), packet, now)
    {
      hide FlowOf;
      var f := flows[idx];
      f := f.(packets := f.packets + [Queued(packet, now)], bytes := f.bytes + |packet|);
      bytes := bytes + |packet|;
      packets := packets + 1;
      if !f.listed {
        f := f.(listed := true, deficit := QUANTUM);
        freshList := freshList + [idx];
      }
      flows := flows[idx := f];
      log := log + [Moved(Arrival, idx, Queued(packet, now), packet)];
    }

    method Enqueue(packet: bytes, now: int)
      requires Good(State(), Free)
      modifies this
      ensures State() == QueueModel.Enqueue(old(State()), packet, now)
      ensures Good(State(), Free)
    {
      hide Good, Tallied, FlowOf, PureAck, QueueModel.MakeRoom, QueueModel.ThinAcks, QueueModel.Accept;
      GoodIsTallied(State(), Free);
      EnqueueKeeps(State(), packet, now);
      MakeRoom(|packet|);
      var idx := FindFlow(packet);
      var acked := PureAck(packet);
      if acked.Some? {
        ThinAcks(idx, packet, acked.value);
      }
      Accept(packet, now, idx);
    }

    method SweepHead(i: Bucket)
      requires flows[i].packets != []
      modifies this`flows, this`bytes, this`packets, this`stale, this`log
      ensures State() == QueueModel.SweepHead(old(State()), i)
      ensures |flows[i].packets| == old(|flows[i].packets|) - 1
      ensures stale == old(stale) + 1
    {
      var _ := PopFront(i, Stale);
      stale := stale + 1;
    }

    method SweepBucket(i: Bucket, now: int, age: nat) returns (dropped: nat)
      modifies this`flows, this`bytes, this`packets, this`stale, this`log
      ensures State() == QueueModel.SweepBucket(old(State()), i, now, age)
      ensures stale == old(stale) + dropped
    {
      hide QueueModel.SweepHead;
      dropped := 0;
      while flows[i].packets != [] && Since(now, flows[i].packets[0].at) >= age
        invariant QueueModel.SweepBucket(State(), i, now, age) == QueueModel.SweepBucket(old(State()), i, now, age)
        invariant stale == old(stale) + dropped
        decreases |flows[i].packets|
      {
        SweepHead(i);
        dropped := dropped + 1;
      }
      flows := flows[i := flows[i].(aboveSince := None, dropping := false)];
      log := log + [Swept(i)];
    }

    /** Empty the buckets of what waited `age` or more, and count it. */
    method DropOlderThan(now: int, age: nat) returns (dropped: nat)
      requires Good(State(), Free)
      modifies this
      ensures State() == QueueModel.DropOlderThan(old(State()), now, age)
      ensures Good(State(), Free)
      ensures stale == old(stale) + dropped
    {
      hide Good, QueueModel.SweepBucket;
      SweepFromKeeps(State(), 0, now, age);
      dropped := 0;
      var i := 0;
      while i < FLOWS
        invariant 0 <= i <= FLOWS
        invariant SweepFrom(State(), i, now, age) == SweepFrom(old(State()), 0, now, age)
        invariant stale == old(stale) + dropped
      {
        var more := SweepBucket(i, now, age);
        dropped := dropped + more;
        i := i + 1;
      }
    }

    /** Before a new tunnel carries, drop what its senders have sent again by now. */
    method DropStale(now: int) returns (dropped: nat)
      requires Good(State(), Free)
      modifies this
      ensures State() == QueueModel.DropOlderThan(old(State()), now, STALE_AFTER)
      ensures Good(State(), Free)
      ensures stale == old(stale) + dropped
    {
      dropped := DropOlderThan(now, STALE_AFTER);
    }

    /** Remove a bucket's first packet; the flag tells whether its delay stood for a whole interval. */
    method Take(idx: Bucket, now: int) returns (taken: Option<(Queued, bool)>)
      modifies this
      ensures (State(), taken) == QueueModel.Take(old(State()), idx, now)
    {
      hide Since;
      var f := flows[idx];
      if f.packets == [] {
        return None;
      }
      var head := f.packets[0];
      var len := |head.packet|;
      var waited := Since(now, head.at);
      var left := f.bytes - len;
      bytes := bytes - len;
      packets := packets - 1;
      worstWait := Max(worstWait, waited);
      var standing := waited >= target && left > QUANTUM;
      var overdue := false;
      var above := f.aboveSince;
      if !standing {
        above := None;
      } else if above.None? {
        above := Some(now + interval);
      } else {
        overdue := now >= above.value;
      }
      flows := flows[idx := f.(packets := f.packets[1..], bytes := left, aboveSince := above)];
      log := log + [Taken(idx, head, now, target, interval, left)];
      return Some((head, overdue));
    }

    /** Mark a packet whose sender accepts marks. */
    method Mark(packet: bytes, ghost idx: Bucket, ghost now: int) returns (willing: bool, sent: bytes)
      modifies this`marked, this`log
      ensures (willing, sent) == MarkOutcome(packet)
      ensures State() == if willing then CountMark(old(State()), idx, now) else old(State())
    {
      var buffer := new u8[|packet|](i requires 0 <= i < |packet| => packet[i]);
      assert buffer[..] == packet;
      willing := MarkCongestion(buffer);
      sent := buffer[..];
      if willing {
        marked := marked + 1;
        log := log + [Punished(idx, now, true)];
      }
    }

    method CountDropped(ghost idx: Bucket, ghost now: int, ghost head: Queued)
      modifies this`overTarget, this`log
      ensures State() == CountDrop(old(State()), idx, now, head)
    {
      overTarget := overTarget + 1;
      log := log + [Punished(idx, now, false)] + [Moved(OverTarget, idx, head, head.packet)];
    }

    method Schedule(idx: Bucket, from: int)
      modifies this`flows
      ensures State() == QueueModel.Schedule(old(State()), idx, from, law)
    {
      var f := flows[idx];
      flows := flows[idx := f.(dropNext := Some(from + law(interval, if f.count < 1 then 1 else f.count)))];
    }

    /** CoDel proper: the packet to deliver, and, for the record, the one it was. */
    method Codel(idx: Bucket, now: int) returns (out: Option<bytes>, ghost head: Queued)
      modifies this
      ensures var r := QueueModel.Codel(old(State()), idx, now, law);
              && State() == r.0
              && out == (if r.1.Some? then Some(r.1.value.sent) else None)
              && (r.1.Some? ==> head == r.1.value.head)
    {
      hide MarkOutcome, QueueModel.Take, QueueModel.Onset;
      var taken := Take(idx, now);
      if taken.None? {
        return None, Queued([], 0);
      }
      var (current, overdue) := taken.value;
      if flows[idx].dropping {
        if !overdue {
          flows := flows[idx := flows[idx].(dropping := false)];
        } else {
          ghost var start, first := State(), current;
          while flows[idx].dropping && Due(flows[idx], now)
            invariant Episode(State(), idx, now, law, current) == Episode(start, idx, now, law, first)
            decreases |flows[idx].packets|
          {
            flows := flows[idx := flows[idx].(count := flows[idx].count + 1)];
            var willing, sent := Mark(current.packet, idx, now);
            if willing {
              Schedule(idx, From(flows[idx], now));
              return Some(sent), current;
            }
            CountDropped(idx, now, current);
            var next := Take(idx, now);
            if next.None? {
              flows := flows[idx := flows[idx].(dropping := false)];
              return None, current;
            }
            current, overdue := next.value.0, next.value.1;
            if overdue {
              Schedule(idx, From(flows[idx], now));
            } else {
              flows := flows[idx := flows[idx].(dropping := false)];
            }
          }
        }
      } else if overdue {
        out, head := Onset(idx, now, current);
        return;
      }
      return Some(current.packet), current;
    }

    /** A first signal for a bucket that has been over its target a whole interval. */
    method Onset(idx: Bucket, now: int, current: Queued) returns (out: Option<bytes>, ghost head: Queued)
      modifies this
      ensures var r := QueueModel.Onset(old(State()), idx, now, law, current);
              && State() == r.0
              && out == (if r.1.Some? then Some(r.1.value.sent) else None)
              && (r.1.Some? ==> head == r.1.value.head)
    {
      hide MarkOutcome, QueueModel.Take;
      var willing, sent := Mark(current.packet, idx, now);
      var next: Option<(Queued, bool)> := None;
      if !willing {
        CountDropped(idx, now, current);
        next := Take(idx, now);
      }
      var f := flows[idx];
      var resumed := f.dropNext.Some? && Since(now, f.dropNext.value) < 16 * interval;
      flows := flows[idx := f.(count := if f.count > 2 && resumed then f.count - 2 else 1, dropping := true)];
      Schedule(idx, now);
      if willing {
        return Some(sent), current;
      }
      if next.None? {
        return None, current;
      }
      return Some(next.value.0.packet), next.value.0;
    }

    /** Take the bucket being served off its list. */
    method Unqueue(wasFresh: bool)
      requires InService(State()) && wasFresh == (freshList != [])
      modifies this`freshList, this`backlogged
      ensures State() == QueueModel.Unqueue(old(State()))
    {
      if wasFresh {
        freshList := freshList[1..];
      } else {
        backlogged := backlogged[1..];
      }
    }

    method Refill(idx: Bucket, wasFresh: bool)
      requires InService(State()) && wasFresh == (freshList != []) && idx == Next(State())
      modifies this`flows, this`freshList, this`backlogged, this`log
      ensures State() == QueueModel.Refill(old(State()))
    {
      flows := flows[idx := flows[idx].(deficit := flows[idx].deficit + QUANTUM)];
      Unqueue(wasFresh);
      backlogged := backlogged + [idx];
      log := log + [Refilled(idx)];
    }

    method Unlist(idx: Bucket, wasFresh: bool)
      requires InService(State()) && wasFresh == (freshList != []) && idx == Next(State())
      modifies this`flows, this`freshList, this`backlogged
      ensures State() == QueueModel.Unlist(old(State()))
    {
      Unqueue(wasFresh);
      flows := flows[idx := flows[idx].(listed := false)];
    }

    /** Serve the buckets in turn until one delivers. */
    method Dequeue(now: int) returns (out: Option<bytes>)
      requires Good(State(), Free)
      modifies this
      ensures (State(), out) == QueueModel.Dequeue(old(State()), now, law)
      ensures Good(State(), Free)
      ensures out.None? <==> old(packets) == 0
    {
      hide Good, QueueModel.Codel, QueueModel.Refill, QueueModel.Unlist;
      DequeueKeeps(State(), now, law);
      while true
        invariant QueueModel.Dequeue(State(), now, law) == QueueModel.Dequeue(old(State()), now, law)
        decreases |freshList| + |backlogged|, SumOwed(flows)
      {
        if freshList == [] && backlogged == [] {
          return None;
        }
        var wasFresh := freshList != [];
        var idx := if wasFresh then freshList[0] else backlogged[0];
        if flows[idx].deficit <= 0 {
          RefillPaysOne(State());
          Refill(idx, wasFresh);
        } else {
          var packet, head := Codel(idx, now);
          if packet.Some? {
            flows := flows[idx := flows[idx].(deficit := flows[idx].deficit - |packet.value|)];
            log := log + [Moved(Delivery, idx, head, packet.value)];
            return packet;
          }
          Unlist(idx, wasFresh);
        }
      }
    }

    /** Smooth a measurement into the interval. */
    method ObserveRtt(rtt: nat)
      requires Good(State(), Free)
      modifies this`interval, this`target
      ensures State() == QueueModel.ObserveRtt(old(State()), rtt)
      ensures Good(State(), Free)
    {
      MeasureKeeps(State(), rtt);
      var blended := (interval * 7 + rtt * RTT_TO_INTERVAL) / 8;
      interval := Max(INTERVAL_FLOOR, Min(blended, INTERVAL_CEILING));
      target := interval / TARGET_SHARE;
    }

    /** How many buckets have something in them. */
    method CountBusy() returns (n: nat)
      ensures n == |Busy(State())|
    {
      n := 0;
      var i := 0;
      ghost var seen: set<Bucket> := {};
      while i < FLOWS
        invariant 0 <= i <= FLOWS && n == |seen|
        invariant forall b: Bucket :: b in seen <==> b < i && flows[b].packets != []
      {
        if flows[i].packets != [] {
          n := n + 1;
          seen := seen + {i};
        }
        i := i + 1;
      }
      assert seen == Busy(State());
    }

    /** Read the counters, and start the one that describes an interval afresh. */
    method Stats() returns (stats: QueueStats)
      requires Good(State(), Free)
      modifies this`worstWait
      ensures stats == StatsOf(old(State()))
      ensures (stats.packets, stats.bytes, stats.worstWait, stats.interval) ==
              old((packets, bytes, worstWait, interval))
      ensures (stats.overLimit, stats.overTarget, stats.marked, stats.thinned, stats.stale) ==
              old((overLimit, overTarget, marked, thinned, stale))
      ensures State() == AfterStats(old(State()))
      ensures Good(State(), Free)
    {
      ReportKeeps(State());
      var busy := CountBusy();
      stats := QueueStats(packets, bytes, busy, overLimit, overTarget, marked, thinned, stale, interval,
                          worstWait);
      worstWait := 0;
    }
  }
}
