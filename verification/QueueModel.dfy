/** The state of the packet queue and what each of its operations makes of it (src/queue.rs).
    Times are nanoseconds. Every operation appends what it did to the log, a history of the run. */
module QueueModel {
  import opened Common
  import opened Packets

  const QUANTUM: nat := 1280
  const LIMIT_BYTES: nat := 2 * 1024 * 1024
  const INTERVAL: nat := 100_000_000
  const INTERVAL_FLOOR: nat := 50_000_000
  const INTERVAL_CEILING: nat := 300_000_000
  const RTT_TO_INTERVAL: nat := 4
  const TARGET_SHARE: nat := 20
  const STALE_AFTER: nat := 1_000_000_000

  /** A waiting packet and its arrival. */
  datatype Queued = Queued(packet: bytes, at: int)

  /** A bucket: what waits in it, its credit, and what CoDel knows of it. */
  datatype Flow = Flow(
    packets: seq<Queued>,
    bytes: int,
    deficit: int,
    listed: bool,
    aboveSince: Option<int>,
    dropNext: Option<int>,
    count: nat,
    dropping: bool)

  const IDLE_FLOW: Flow := Flow([], 0, 0, false, None, None, 0, false)

  type Flows = fs: seq<Flow> | |fs| == FLOWS witness seq(FLOWS, _ => IDLE_FLOW)

  /** What may happen to a packet. */
  datatype Fate = Arrival | Delivery | OverLimit | OverTarget | Thinned | Stale

  datatype Event =
    | Moved(fate: Fate, idx: Bucket, what: Queued, sent: bytes)
    | Taken(idx: Bucket, what: Queued, now: int, target: nat, interval: nat, left: int)
    | Punished(idx: Bucket, now: int, marked: bool)
    | Refilled(idx: Bucket)
    | Swept(idx: Bucket)

  datatype Queue = Queue(
    flows: Flows,
    freshList: seq<Bucket>,
    backlogged: seq<Bucket>,
    bytes: int,
    packets: int,
    overLimit: nat,
    overTarget: nat,
    marked: nat,
    thinned: nat,
    stale: nat,
    worstWait: nat,
    interval: nat,
    target: nat,
    log: seq<Event>)

  function Empty(): Queue {
    Queue(seq(FLOWS, _ => IDLE_FLOW), [], [], 0, 0, 0, 0, 0, 0, 0, 0, INTERVAL, INTERVAL / TARGET_SHARE, [])
  }

  /** The source's `interval.div_f64(sqrt(count))`: how far apart drops come. */
  type Law = (nat, nat) -> int

  /** Elapsed time, saturating at zero. */
  function Since(now: int, then_: int): nat {
    if now < then_ then 0 else now - then_
  }

  function Note(q: Queue, e: Event): Queue {
    q.(log := q.log + [e])
  }

  function SetFlow(q: Queue, idx: Bucket, f: Flow): Queue {
    q.(flows := q.flows[idx := f])
  }

  // ----- sums over buckets -----

  function TotalLen(ps: seq<Queued>): nat {
    if ps == [] then 0 else |ps[0].packet| + TotalLen(ps[1..])
  }

  function SumBytes(fs: seq<Flow>): int {
    if fs == [] then 0 else fs[0].bytes + SumBytes(fs[1..])
  }

  function SumPackets(fs: seq<Flow>): nat {
    if fs == [] then 0 else |fs[0].packets| + SumPackets(fs[1..])
  }

  /** The redundant counters agree with what the buckets hold. */
  ghost predicate Tallied(q: Queue) {
    && (forall b: Bucket :: q.flows[b].bytes == TotalLen(q.flows[b].packets))
    && q.bytes == SumBytes(q.flows)
    && q.packets == SumPackets(q.flows)
  }

  lemma {:induction false} SumsUpdate(fs: seq<Flow>, i: nat, f: Flow)
    requires i < |fs|
    ensures SumBytes(fs[i := f]) == SumBytes(fs) - fs[i].bytes + f.bytes
    ensures SumPackets(fs[i := f]) == SumPackets(fs) - |fs[i].packets| + |f.packets|
    decreases i
  {
    if i > 0 {
      SumsUpdate(fs[1..], i - 1, f);
      assert fs[i := f][1..] == fs[1..][i - 1 := f];
    } else {
      assert fs[i := f][1..] == fs[1..];
    }
  }

  lemma {:induction false} SumsZero(n: nat)
    ensures SumBytes(seq(n, _ => IDLE_FLOW)) == 0
    ensures SumPackets(seq(n, _ => IDLE_FLOW)) == 0
  {
    if n > 0 {
      SumsZero(n - 1);
      assert seq(n, _ => IDLE_FLOW)[1..] == seq(n - 1, _ => IDLE_FLOW);
    }
  }

  lemma {:induction false} TotalLenAppend(a: seq<Queued>, b: seq<Queued>)
    ensures TotalLen(a + b) == TotalLen(a) + TotalLen(b)
  {
    if a == [] {
      assert a + b == b;
    } else {
      TotalLenAppend(a[1..], b);
      assert (a + b)[1..] == a[1..] + b;
    }
  }

  /** Replacing one bucket's packets by a run of the given length in octets keeps the counters
      right when the totals move by the same amounts. */
  lemma TalliedUpdate(q: Queue, idx: Bucket, f: Flow, r: Queue)
    requires Tallied(q)
    requires f.bytes == TotalLen(f.packets)
    requires r.flows == q.flows[idx := f]
    requires r.bytes == q.bytes - q.flows[idx].bytes + f.bytes
    requires r.packets == q.packets - |q.flows[idx].packets| + |f.packets|
    ensures Tallied(r)
  {
    SumsUpdate(q.flows, idx, f);
  }

  lemma {:induction false} SumsBound(fs: seq<Flow>, i: nat)
    requires i < |fs|
    requires forall k :: 0 <= k < |fs| ==> fs[k].bytes >= 0
    ensures 0 <= fs[i].bytes <= SumBytes(fs)
    ensures |fs[i].packets| <= SumPackets(fs)
    decreases i
  {
    if i > 0 {
      SumsBound(fs[1..], i - 1);
    }
    SumsNonNegative(fs[1..]);
  }

  lemma {:induction false} SumsNonNegative(fs: seq<Flow>)
    requires forall k :: 0 <= k < |fs| ==> fs[k].bytes >= 0
    ensures SumBytes(fs) >= 0
  {
    if fs != [] {
      SumsNonNegative(fs[1..]);
    }
  }

  // ----- enqueue -----

  /** The last of the buckets with the most octets. */
  function Fattest(fs: seq<Flow>): (i: nat)
    requires |fs| > 0
    ensures i < |fs|
    ensures forall k :: 0 <= k < |fs| ==> fs[k].bytes <= fs[i].bytes
    ensures forall k :: i < k < |fs| ==> fs[k].bytes < fs[i].bytes
  {
    if |fs| == 1 then 0
    else
      var rest := Fattest(fs[..|fs| - 1]);
      if fs[|fs| - 1].bytes >= fs[rest].bytes then |fs| - 1 else rest
  }

  /** Remove the head of a bucket, as what the fate says. */
  function PopHead(q: Queue, idx: Bucket, fate: Fate): Queue
    requires q.flows[idx].packets != []
  {
    var f := q.flows[idx];
    var head := f.packets[0];
    var len := |head.packet|;
    Note(SetFlow(q, idx, f.(packets := f.packets[1..], bytes := f.bytes - len))
         .(bytes := q.bytes - len, packets := q.packets - 1),
         Moved(fate, idx, head, head.packet))
  }

  lemma PopHeadTallied(q: Queue, idx: Bucket, fate: Fate)
    requires Tallied(q) && q.flows[idx].packets != []
    ensures Tallied(PopHead(q, idx, fate))
    ensures SumPackets(PopHead(q, idx, fate).flows) == SumPackets(q.flows) - 1
  {
    var f := q.flows[idx];
    var head := f.packets[0];
    var g := f.(packets := f.packets[1..], bytes := f.bytes - |head.packet|);
    TalliedUpdate(q, idx, g, PopHead(q, idx, fate));
    SumsUpdate(q.flows, idx, g);
  }

  /** Evict from whichever bucket holds most octets; `false` when none holds any. */
  function DropFattest(q: Queue): (Queue, bool)
    requires Tallied(q)
  {
    var idx := Fattest(q.flows);
    if q.flows[idx].bytes <= 0 then (q, false)
    else (PopHead(q, idx, OverLimit).(overLimit := q.overLimit + 1), true)
  }

  lemma DropFattestTallied(q: Queue)
    requires Tallied(q)
    ensures Tallied(DropFattest(q).0)
    ensures DropFattest(q).1 ==> SumPackets(DropFattest(q).0.flows) < SumPackets(q.flows)
  {
    var idx := Fattest(q.flows);
    if q.flows[idx].bytes > 0 {
      PopHeadTallied(q, idx, OverLimit);
    }
  }

  function MakeRoom(q: Queue, len: nat): (r: Queue)
    requires Tallied(q)
    ensures Tallied(r)
    decreases SumPackets(q.flows)
  {
    if q.bytes + len <= LIMIT_BYTES then q
    else
      DropFattestTallied(q);
      var (r, more) := DropFattest(q);
      if more then MakeRoom(r, len) else r
  }

  /** Whether a waiting packet is an acknowledgement the newer one makes redundant. */
  predicate Redundant(older: Queued, newer: bytes, acked: nat) {
    && PureAck(older.packet).Some?
    && SeriallyAhead(acked, PureAck(older.packet).value)
    && SameConnection(newer, older.packet)
  }

  predicate AnyRedundant(ps: seq<Queued>, newer: bytes, acked: nat) {
    exists i :: 0 <= i < |ps| && Redundant(ps[i], newer, acked)
  }

  /** What waits after thinning, in order, and what was removed, newest first: every redundant
      acknowledgement goes except the last. */
  function Sift(ps: seq<Queued>, newer: bytes, acked: nat): (seq<Queued>, seq<Queued>) {
    if ps == [] then ([], [])
    else
      var (kept, gone) := Sift(ps[1..], newer, acked);
      if Redundant(ps[0], newer, acked) && AnyRedundant(ps[1..], newer, acked)
      then (kept, gone + [ps[0]])
      else ([ps[0]] + kept, gone)
  }

  function ThinnedEvents(idx: Bucket, gone: seq<Queued>): (es: seq<Event>)
    ensures |es| == |gone|
  {
    seq(|gone|, i requires 0 <= i < |gone| => Moved(Thinned, idx, gone[i], gone[i].packet))
  }

  /** The queue once bucket `idx` waits with `kept` and `gone` was thinned out of it. */
  function Sifted(q: Queue, idx: Bucket, kept: seq<Queued>, gone: seq<Queued>): Queue {
    var f := q.flows[idx];
    SetFlow(q, idx, f.(packets := kept, bytes := f.bytes - TotalLen(gone))).(
      bytes := q.bytes - TotalLen(gone),
      packets := q.packets - |gone|,
      thinned := q.thinned + |gone|,
      log := q.log + ThinnedEvents(idx, gone))
  }

  function ThinAcks(q: Queue, idx: Bucket, newer: bytes, acked: nat): Queue {
    var (kept, gone) := Sift(q.flows[idx].packets, newer, acked);
    Sifted(q, idx, kept, gone)
  }

  function ThinFor(q: Queue, packet: bytes): Queue {
    match PureAck(packet)
    case Some(acked) => ThinAcks(q, FlowOf(packet), packet, acked)
    case None => q
  }

  /** Put an arrival at the back of its bucket; a bucket not in service becomes fresh. */
  function Accept(q: Queue, packet: bytes, now: int): Queue {
    var idx := FlowOf(packet);
    var f := q.flows[idx];
    var arrival := Queued(packet, now);
    var g := f.(packets := f.packets + [arrival], bytes := f.bytes + |packet|);
    Note(SetFlow(q, idx, if f.listed then g else g.(listed := true, deficit := QUANTUM)).(
           bytes := q.bytes + |packet|,
           packets := q.packets + 1,
           freshList := if f.listed then q.freshList else q.freshList + [idx]),
         Moved(Arrival, idx, arrival, packet))
  }

  function Enqueue(q: Queue, packet: bytes, now: int): Queue
    requires Tallied(q)
  {
    Accept(ThinFor(MakeRoom(q, |packet|), packet), packet, now)
  }

  // ----- stale eviction -----

  function SweepHead(q: Queue, idx: Bucket): Queue
    requires q.flows[idx].packets != []
  {
    PopHead(q, idx, Stale).(stale := q.stale + 1)
  }

  /** Remove the packets at the head of one bucket that have waited `age` or longer, and forget its
      standing delay. */
  function SweepBucket(q: Queue, idx: Bucket, now: int, age: nat): Queue
    decreases |q.flows[idx].packets|
  {
    var f := q.flows[idx];
    if f.packets != [] && Since(now, f.packets[0].at) >= age
    then SweepBucket(SweepHead(q, idx), idx, now, age)
    else Note(SetFlow(q, idx, f.(aboveSince := None, dropping := false)), Swept(idx))
  }

  function SweepFrom(q: Queue, i: nat, now: int, age: nat): Queue
    requires i <= FLOWS
    decreases FLOWS - i
  {
    if i == FLOWS then q else SweepFrom(SweepBucket(q, i, now, age), i + 1, now, age)
  }

  function DropOlderThan(q: Queue, now: int, age: nat): Queue {
    SweepFrom(q, 0, now, age)
  }

  // ----- CoDel -----

  /** Remove a bucket's first packet; the flag tells whether its delay stood for a whole interval. */
  function Take(q: Queue, idx: Bucket, now: int): (r: (Queue, Option<(Queued, bool)>))
    ensures r.0.freshList == q.freshList && r.0.backlogged == q.backlogged
    ensures r.1.Some? <==> q.flows[idx].packets != []
    ensures r.1.Some? ==> |r.0.flows[idx].packets| == |q.flows[idx].packets| - 1
  {
    var f := q.flows[idx];
    if f.packets == [] then (q, None)
    else
      var head := f.packets[0];
      var len := |head.packet|;
      var waited := Since(now, head.at);
      var left := f.bytes - len;
      var standing := waited >= q.target && left > QUANTUM;
      var above :=
        if !standing then None
        else if f.aboveSince.None? then Some(now + q.interval)
        else f.aboveSince;
      var overdue := standing && f.aboveSince.Some? && now >= f.aboveSince.value;
      var r := Note(SetFlow(q, idx, f.(packets := f.packets[1..], bytes := left, aboveSince := above)).(
                      bytes := q.bytes - len,
                      packets := q.packets - 1,
                      worstWait := Max(q.worstWait, waited)),
                    Taken(idx, head, now, q.target, q.interval, left));
      (r, Some((head, overdue)))
  }

  function SetDropping(q: Queue, idx: Bucket, dropping: bool): Queue {
    SetFlow(q, idx, q.flows[idx].(dropping := dropping))
  }

  function Schedule(q: Queue, idx: Bucket, from: int, law: Law): Queue {
    var f := q.flows[idx];
    SetFlow(q, idx, f.(dropNext := Some(from + law(q.interval, if f.count < 1 then 1 else f.count))))
  }

  predicate Due(f: Flow, now: int) {
    f.dropNext.Some? && now >= f.dropNext.value
  }

  function From(f: Flow, now: int): int {
    if f.dropNext.Some? then f.dropNext.value else now
  }

  /** Count a packet as told to slow down. */
  function CountMark(q: Queue, idx: Bucket, now: int): Queue {
    Note(q.(marked := q.marked + 1), Punished(idx, now, true))
  }

  /** Count a packet as dropped by CoDel. */
  function CountDrop(q: Queue, idx: Bucket, now: int, head: Queued): Queue {
    Note(Note(q.(overTarget := q.overTarget + 1), Punished(idx, now, false)),
         Moved(OverTarget, idx, head, head.packet))
  }

  /** What CoDel lets out: the packet as it waited, and as it leaves. */
  datatype Release = Release(head: Queued, sent: bytes)

  function Whole(head: Queued): Release {
    Release(head, head.packet)
  }

  /** The loop of an episode already under way, with the head in hand. */
  function Episode(q: Queue, idx: Bucket, now: int, law: Law, head: Queued): (r: (Queue, Option<Release>))
    ensures r.0.freshList == q.freshList && r.0.backlogged == q.backlogged
    decreases |q.flows[idx].packets|
  {
    var f := q.flows[idx];
    if !f.dropping || !Due(f, now) then (q, Some(Whole(head)))
    else
      var counted := SetFlow(q, idx, f.(count := f.count + 1));
      var (willing, sent) := MarkOutcome(head.packet);
      if willing then
        (Schedule(CountMark(counted, idx, now), idx, From(f, now), law), Some(Release(head, sent)))
      else
        match Take(CountDrop(counted, idx, now, head), idx, now)
        case (taken, None) => (SetDropping(taken, idx, false), None)
        case (taken, Some((next, overdue))) =>
          if overdue
          then Episode(Schedule(taken, idx, From(taken.flows[idx], now), law), idx, now, law, next)
          else Episode(SetDropping(taken, idx, false), idx, now, law, next)
  }

  /** The count an episode starts from: near where the last one left off when it comes back soon. */
  function ResumedCount(f: Flow, interval: nat, now: int): nat {
    if f.count > 2 && f.dropNext.Some? && Since(now, f.dropNext.value) < 16 * interval
    then f.count - 2 else 1
  }

  function StartEpisode(q: Queue, idx: Bucket, now: int, law: Law): Queue {
    var f := q.flows[idx];
    Schedule(SetFlow(q, idx, f.(count := ResumedCount(f, q.interval, now), dropping := true)), idx, now, law)
  }

  /** The first signal of an episode: the head is marked, or dropped and its successor let out. */
  function Onset(q: Queue, idx: Bucket, now: int, law: Law, head: Queued): (r: (Queue, Option<Release>))
    ensures r.0.freshList == q.freshList && r.0.backlogged == q.backlogged
  {
    var (willing, sent) := MarkOutcome(head.packet);
    if willing then (StartEpisode(CountMark(q, idx, now), idx, now, law), Some(Release(head, sent)))
    else
      var (taken, next) := Take(CountDrop(q, idx, now, head), idx, now);
      (StartEpisode(taken, idx, now, law), if next.Some? then Some(Whole(next.value.0)) else None)
  }

  function Codel(q: Queue, idx: Bucket, now: int, law: Law): (r: (Queue, Option<Release>))
    ensures r.0.freshList == q.freshList && r.0.backlogged == q.backlogged
  {
    match Take(q, idx, now)
    case (taken, None) => (taken, None)
    case (taken, Some((head, overdue))) =>
      if taken.flows[idx].dropping then
        if !overdue then (SetDropping(taken, idx, false), Some(Whole(head)))
        else Episode(taken, idx, now, law, head)
      else if overdue then Onset(taken, idx, now, law, head)
      else (taken, Some(Whole(head)))
  }

  // ----- dequeue -----

  /** How many refills a deficit is short of being positive. */
  function Owed(deficit: int): nat {
    if deficit > 0 then 0 else 1 + -deficit / QUANTUM
  }

  function SumOwed(fs: seq<Flow>): nat {
    if fs == [] then 0 else Owed(fs[0].deficit) + SumOwed(fs[1..])
  }

  lemma {:induction false} SumOwedUpdate(fs: seq<Flow>, i: nat, f: Flow)
    requires i < |fs|
    ensures SumOwed(fs[i := f]) == SumOwed(fs) - Owed(fs[i].deficit) + Owed(f.deficit)
    decreases i
  {
    if i > 0 {
      SumOwedUpdate(fs[1..], i - 1, f);
      assert fs[i := f][1..] == fs[1..][i - 1 := f];
    } else {
      assert fs[i := f][1..] == fs[1..];
    }
  }

  predicate InService(q: Queue) {
    q.freshList != [] || q.backlogged != []
  }

  /** The bucket served next. */
  function Next(q: Queue): Bucket
    requires InService(q)
  {
    if q.freshList != [] then q.freshList[0] else q.backlogged[0]
  }

  function Unqueue(q: Queue): (r: Queue)
    requires InService(q)
    ensures |r.freshList| + |r.backlogged| == |q.freshList| + |q.backlogged| - 1
  {
    if q.freshList != [] then q.(freshList := q.freshList[1..]) else q.(backlogged := q.backlogged[1..])
  }

  /** A bucket out of credit gets a quantum and goes to the back of the backlogged ones. */
  function Refill(q: Queue): (r: Queue)
    requires InService(q)
    ensures |r.freshList| + |r.backlogged| == |q.freshList| + |q.backlogged|
  {
    var idx := Next(q);
    var f := q.flows[idx];
    var r := Unqueue(q);
    Note(SetFlow(r, idx, f.(deficit := f.deficit + QUANTUM)).(backlogged := r.backlogged + [idx]), Refilled(idx))
  }

  lemma RefillPaysOne(q: Queue)
    requires InService(q) && q.flows[Next(q)].deficit <= 0
    ensures SumOwed(Refill(q).flows) == SumOwed(q.flows) - 1
  {
    var f := q.flows[Next(q)];
    SumOwedUpdate(q.flows, Next(q), f.(deficit := f.deficit + QUANTUM));
  }

  /** A bucket that ran dry leaves service. */
  function Unlist(q: Queue): (r: Queue)
    requires InService(q)
    ensures |r.freshList| + |r.backlogged| == |q.freshList| + |q.backlogged| - 1
  {
    var idx := Next(q);
    SetFlow(Unqueue(q), idx, q.flows[idx].(listed := false))
  }

  function Charge(q: Queue, idx: Bucket, out: Release): Queue {
    var f := q.flows[idx];
    Note(SetFlow(q, idx, f.(deficit := f.deficit - |out.sent|)), Moved(Delivery, idx, out.head, out.sent))
  }

  function Dequeue(q: Queue, now: int, law: Law): (Queue, Option<bytes>)
    decreases |q.freshList| + |q.backlogged|, SumOwed(q.flows)
  {
    if !InService(q) then (q, None)
    else
      var idx := Next(q);
      if q.flows[idx].deficit <= 0 then
        RefillPaysOne(q);
        Dequeue(Refill(q), now, law)
      else
        match Codel(q, idx, now, law)
        case (r, Some(out)) => (Charge(r, idx, out), Some(out.sent))
        case (r, None) => Dequeue(Unlist(r), now, law)
  }

  // ----- round trips -----

  function ObserveRtt(q: Queue, rtt: nat): Queue {
    var blended := (q.interval * 7 + rtt * RTT_TO_INTERVAL) / 8;
    var interval := Max(INTERVAL_FLOOR, Min(blended, INTERVAL_CEILING));
    q.(interval := interval, target := interval / TARGET_SHARE)
  }

  // ----- statistics -----

  /** What a reading of the statistics tells. */
  datatype QueueStats = QueueStats(
    packets: int,
    bytes: int,
    flows: nat,
    overLimit: nat,
    overTarget: nat,
    marked: nat,
    thinned: nat,
    stale: nat,
    interval: nat,
    worstWait: nat)

  /** The buckets in which something waits. */
  function Busy(q: Queue): set<Bucket> {
    set b: Bucket | 0 <= b < FLOWS && q.flows[b].packets != []
  }

  function StatsOf(q: Queue): QueueStats {
    QueueStats(q.packets, q.bytes, |Busy(q)|, q.overLimit, q.overTarget, q.marked, q.thinned, q.stale,
               q.interval, q.worstWait)
  }

  /** Reading the statistics starts the worst wait afresh. */
  function AfterStats(q: Queue): Queue {
    q.(worstWait := 0)
  }

  // ----- runs -----

  datatype Op =
    | Push(packet: bytes, at: int)
    | Pop(at: int)
    | Sweep(at: int, age: nat)
    | Measure(rtt: nat)
    | Report
}
