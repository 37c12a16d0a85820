/** How long a waiting bucket of the packet queue waits, in octets delivered to others: no longer than
    the buckets that come into service meanwhile account for. */
module QueueService {
  import opened Common
  import opened Packets
  import opened QueueModel
  import opened QueueLog
  import opened QueueInvariant
  import opened QueueFairness

  // ----- windows -----

  /** Bucket `a` has something waiting now and after every operation of a window. */
  ghost predicate Waits(q: Queue, ops: seq<Op>, law: Law, a: Bucket)
    requires Good(q, Free)
    decreases |ops|
  {
    && q.flows[a].packets != []
    && (ops != [] ==> (ApplyKeeps(q, ops[0], law); Waits(Apply(q, ops[0], law), ops[1..], law, a)))
  }

  /** A push about a bucket out of service. */
  predicate IsNewcomer(q: Queue, op: Op) {
    op.Push? && !q.flows[FlowOf(op.packet)].listed
  }

  /** How many pushes of a window are about a bucket out of service at the time. */
  ghost function NewcomersIn(q: Queue, ops: seq<Op>, law: Law): nat
    requires Good(q, Free)
    decreases |ops|
  {
    if ops == [] then 0
    else
      ApplyKeeps(q, ops[0], law);
      (if IsNewcomer(q, ops[0]) then 1 else 0) + NewcomersIn(Apply(q, ops[0], law), ops[1..], law)
  }

  /** The most one bucket sends for coming into service once, while another waits in service. */
  function Lag(longest: nat): nat {
    3 * QUANTUM + 2 * longest - 2
  }

  // ----- the order of service -----

  /** The buckets in service, in the order they come up. */
  function Line(q: Queue): seq<Bucket> {
    q.freshList + q.backlogged
  }

  lemma LineIsDistinct(q: Queue)
    requires InOrder(q)
    ensures Distinct(Line(q)) && forall b: Bucket :: b in Line(q) <==> q.flows[b].listed
  {
    var s, n := Line(q), |q.freshList|;
    forall i, j | 0 <= i < j < |s|
      ensures s[i] != s[j]
    {
      if i < n <= j {
        assert s[i] in q.freshList && s[j] == q.backlogged[j - n];
      }
    }
    assert forall b: Bucket :: b in s <==> OnList(q, b);
  }

  lemma LineServed(q: Queue)
    requires InService(q)
    ensures Line(q) != [] && Line(q)[0] == Next(q)
    ensures Line(Refill(q)) == Line(q)[1..] + [Next(q)]
    ensures Line(Unlist(q)) == Line(q)[1..]
  {
  }

  lemma {:induction false} LeadInsert(s: seq<Bucket>, t: seq<Bucket>, x: Bucket, a: Bucket, b: Bucket)
    requires x != a && x != b
    ensures Lead(s + [x] + t, a, b) == Lead(s + t, a, b)
    decreases |s|
  {
    if s == [] {
      assert s + [x] + t == [x] + t && s + t == t;
    } else {
      assert (s + [x] + t)[1..] == s[1..] + [x] + t && (s + t)[1..] == s[1..] + t;
      if s[0] != a && s[0] != b {
        LeadInsert(s[1..], t, x, a, b);
      }
    }
  }

  // ----- what bucket `b` may send yet while bucket `a` waits -----

  /** What `b` sent, and what it may still send before `a` is served: its credit, and a quantum for
      every time it comes up before `a` has the credit to be served. */
  function Claim(q: Queue, a: Bucket, b: Bucket, longest: nat): int {
    SentBytes(q.log, b) +
    if b in Line(q)
    then q.flows[b].deficit + longest - 1 + QUANTUM * (Owed(q.flows[a].deficit) + Lead(Line(q), a, b))
    else 0
  }

  lemma OwedBound(deficit: int, longest: nat)
    requires 1 - longest <= deficit
    ensures QUANTUM * Owed(deficit) <= Max(0, QUANTUM + longest - 1)
  {
  }

  /** A claim is at least what was sent, and at most a lag more. */
  lemma ClaimBounds(q: Queue, a: Bucket, b: Bucket, longest: nat)
    requires InOrder(q) && Fit(q, longest) && a in Line(q)
    ensures SentBytes(q.log, b) <= Claim(q, a, b, longest) <= SentBytes(q.log, b) + Lag(longest)
  {
    hide SentBytes;
    LineIsDistinct(q);
    OwedBound(q.flows[a].deficit, longest);
    LeadRange(Line(q), a, b);
  }

  /** A refill leaves every claim as it is: what the bucket at the head gains in credit it gives up in
      turns, and `a` is a quantum closer at the price of a turn. */
  lemma RefillClaims(q: Queue, a: Bucket, b: Bucket, longest: nat)
    requires InOrder(q) && InService(q) && a != b && a in Line(q) && q.flows[Next(q)].deficit <= 0
    ensures Claim(Refill(q), a, b, longest) == Claim(q, a, b, longest) && a in Line(Refill(q))
    ensures SentBytes(Refill(q).log, a) == SentBytes(q.log, a)
  {
    hide SentBytes, Lead, Owed, Line, Refill, InOrder;
    RefillIs(q, a);
    RefillIs(q, b);
    OwedStep(q.flows[Next(q)].deficit);
    LineIsDistinct(q);
    LineServed(q);
    Rotated(Line(q), b);
    Rotated(Line(q), a);
    if b in Line(q) {
      LeadRotate(Line(q), a, b);
      HeadLeads(Line(q), a, b);
    }
  }

  lemma RefillIs(q: Queue, b: Bucket)
    requires InService(q)
    ensures SentBytes(Refill(q).log, b) == SentBytes(q.log, b)
    ensures Refill(q).flows[b].deficit == q.flows[b].deficit + if b == Next(q) then QUANTUM else 0
  {
    hide SentBytes;
    ServiceNote(q.log, Refilled(Next(q)), b);
  }

  lemma OwedStep(deficit: int)
    ensures deficit <= 0 ==> Owed(deficit + QUANTUM) == Owed(deficit) - 1
  {
  }

  lemma Rotated(s: seq<Bucket>, b: Bucket)
    requires s != []
    ensures b in s[1..] + [s[0]] <==> b in s
  {
    assert s == [s[0]] + s[1..];
  }

  lemma HeadLeads(s: seq<Bucket>, a: Bucket, b: Bucket)
    requires s != [] && a != b
    ensures s[0] == a ==> Lead(s, a, b) == 0
    ensures s[0] == b ==> Lead(s, a, b) == 1
  {
  }

  /** A bucket that leaves service gives up what it did not send. */
  lemma UnlistClaims(q: Queue, a: Bucket, b: Bucket, longest: nat)
    requires InOrder(q) && Fit(q, longest) && InService(q) && a != b && a in Line(q) && Next(q) != a
    ensures Claim(Unlist(q), a, b, longest) <= Claim(q, a, b, longest) && a in Line(Unlist(q))
    ensures SentBytes(Unlist(q).log, a) == SentBytes(q.log, a)
  {
    hide SentBytes;
    LineIsDistinct(q);
    LineServed(q);
    var s := Line(q);
    assert s == [s[0]] + s[1..];
    ClaimBounds(q, a, b, longest);
  }

  /** A delivery of another bucket is paid from its claim; one of `a` that has octets shows. */
  lemma ChargeClaims(q: Queue, idx: Bucket, out: Release, a: Bucket, b: Bucket, longest: nat)
    requires a != b && idx in Line(q)
    requires SentBytes(Charge(q, idx, out).log, a) == SentBytes(q.log, a)
    ensures Claim(Charge(q, idx, out), a, b, longest) == Claim(q, a, b, longest)
  {
    hide SentBytes, Lead;
    var e := Moved(Delivery, idx, out.head, out.sent);
    ServiceNote(q.log, e, a);
    ServiceNote(q.log, e, b);
  }

  lemma CalmClaims(q: Queue, r: Queue, a: Bucket, b: Bucket, longest: nat)
    requires Calm(q, r)
    ensures Claim(r, a, b, longest) == Claim(q, a, b, longest) && Line(r) == Line(q)
    ensures SentBytes(r.log, a) == SentBytes(q.log, a)
  {
    hide SentBytes, Refills, Lead, Owed;
  }

  /** What was sent stays sent. */
  lemma {:induction false} DequeueSends(q: Queue, now: int, law: Law, x: Bucket)
    ensures SentBytes(q.log, x) <= SentBytes(Dequeue(q, now, law).0.log, x)
    decreases |q.freshList| + |q.backlogged|, SumOwed(q.flows)
  {
    hide Codel, SentBytes, Refills;
    if InService(q) {
      var idx := Next(q);
      if q.flows[idx].deficit <= 0 {
        RefillPaysOne(q);
        ServiceNote(q.log, Refilled(idx), x);
        DequeueSends(Refill(q), now, law, x);
      } else {
        CodelCalm(q, idx, now, law);
        var (r, out) := Codel(q, idx, now, law);
        match out
        case Some(release) => ServiceNote(r.log, Moved(Delivery, idx, release.head, release.sent), x);
        case None => DequeueSends(Unlist(r), now, law, x);
      }
    }
  }

  /** One dequeue from which `a` stays in service and is sent nothing raises no claim. */
  lemma {:induction false} DequeueClaims(q: Queue, now: int, law: Law, a: Bucket, b: Bucket, longest: nat)
    requires Good(q, Free) && Fit(q, longest) && a != b && a in Line(q)
    requires a in Line(Dequeue(q, now, law).0)
    requires SentBytes(Dequeue(q, now, law).0.log, a) == SentBytes(q.log, a)
    ensures Claim(Dequeue(q, now, law).0, a, b, longest) <= Claim(q, a, b, longest)
    decreases |q.freshList| + |q.backlogged|, SumOwed(q.flows)
  {
    hide Good, Codel, Refill, Unlist, Charge, Claim, Line, Fit, SentBytes;
    if InService(q) {
      GoodIsInOrder(q);
      ServiceFit(q, longest);
      var idx := Next(q);
      if q.flows[idx].deficit <= 0 {
        RefillPaysOne(q);
        RefillKeeps(q);
        RefillClaims(q, a, b, longest);
        DequeueClaims(Refill(q), now, law, a, b, longest);
      } else {
        CodelKeeps(q, idx, now, law);
        CodelCalm(q, idx, now, law);
        var (r, out) := Codel(q, idx, now, law);
        CalmFit(q, r, longest);
        CalmClaims(q, r, a, b, longest);
        match out
        case Some(release) =>
          HeadOfLine(r);
          ChargeClaims(r, idx, release, a, b, longest);
        case None =>
          UnlistKeeps(r);
          GoodIsInOrder(r);
          ServiceFit(r, longest);
          if idx == a {
            OffLine(Unlist(r), a);
            DequeueNeverLists(Unlist(r), now, law, a);
            OffLine(Dequeue(q, now, law).0, a);
          }
          UnlistClaims(r, a, b, longest);
          DequeueClaims(Unlist(r), now, law, a, b, longest);
      }
    }
  }

  lemma HeadOfLine(q: Queue)
    requires InService(q)
    ensures Next(q) in Line(q)
  {
  }

  lemma OffLine(q: Queue, a: Bucket)
    ensures OnList(q, a) <==> a in Line(q)
  {
  }

  /** An arrival raises only the claim of a bucket it brings into service, and that by no more than a
      lag. */
  lemma EnqueueClaims(q: Queue, packet: bytes, now: int, a: Bucket, b: Bucket, longest: nat)
    requires Good(q, Free) && Fit(q, longest) && a != b && a in Line(q)
    requires Good(Enqueue(q, packet, now), Free) && Fit(Enqueue(q, packet, now), longest)
    ensures var r := Enqueue(q, packet, now);
            && Claim(r, a, b, longest) <= Claim(q, a, b, longest) +
                 (if IsNewcomer(q, Push(packet, now)) && FlowOf(packet) == b then Lag(longest) else 0)
            && a in Line(r) && SentBytes(r.log, a) == SentBytes(q.log, a)
  {
    hide Good, MakeRoom, ThinFor, SentBytes, Refills, FlowOf, Fit, Claim, Owed;
    GoodIsTallied(q, Free);
    MakeRoomCalm(q, |packet|);
    var roomy := MakeRoom(q, |packet|);
    ThinCalm(roomy, packet);
    var thin := ThinFor(roomy, packet);
    CalmThen(q, roomy, thin);
    CalmClaims(q, thin, a, b, longest);
    GoodIsInOrder(q);
    LineIsDistinct(q);
    AcceptClaims(thin, packet, now, a, b, longest);
    CalmListed(q, thin, FlowOf(packet));
    GoodIsInOrder(Enqueue(q, packet, now));
    ClaimBounds(Enqueue(q, packet, now), a, b, longest);
  }

  lemma CalmListed(q: Queue, r: Queue, b: Bucket)
    requires Calm(q, r)
    ensures r.flows[b].listed == q.flows[b].listed
  {
  }

  lemma AcceptClaims(q: Queue, packet: bytes, now: int, a: Bucket, b: Bucket, longest: nat)
    requires a != b && a in Line(q) && forall c: Bucket :: c in Line(q) <==> q.flows[c].listed
    ensures var r := Accept(q, packet, now);
            && a in Line(r) && SentBytes(r.log, a) == SentBytes(q.log, a)
            && SentBytes(r.log, b) == SentBytes(q.log, b)
            && (q.flows[FlowOf(packet)].listed || FlowOf(packet) != b ==>
                  Claim(r, a, b, longest) == Claim(q, a, b, longest))
            && (!q.flows[b].listed ==> Claim(q, a, b, longest) == SentBytes(q.log, b))
  {
    hide SentBytes, FlowOf, Owed, Lead;
    var idx := FlowOf(packet);
    var e := Moved(Arrival, idx, Queued(packet, now), packet);
    ServiceNote(q.log, e, a);
    ServiceNote(q.log, e, b);
    var r := Accept(q, packet, now);
    if !q.flows[idx].listed {
      assert Line(r) == q.freshList + [idx] + q.backlogged;
      if idx != b {
        assert b in Line(r) <==> b in Line(q);
        LeadInsert(q.freshList, q.backlogged, idx, a, b);
      }
    } else {
      assert Line(r) == Line(q);
    }
  }

  /** Any operation, after which `a` waits and has been sent nothing more, raises no claim but a
      newcomer's, by a lag. */
  lemma ApplyClaims(q: Queue, op: Op, law: Law, a: Bucket, b: Bucket, longest: nat)
    requires Good(q, Free) && Tallied(q) && Fit(q, longest) && a != b && a in Line(q)
    requires Good(Apply(q, op, law), Free) && Fit(Apply(q, op, law), longest)
    requires a in Line(Apply(q, op, law)) && SentBytes(Apply(q, op, law).log, a) == SentBytes(q.log, a)
    ensures Claim(Apply(q, op, law), a, b, longest) <= Claim(q, a, b, longest) +
            if IsNewcomer(q, op) && FlowOf(op.packet) == b then Lag(longest) else 0
  {
    hide Good, Fit, Enqueue, Dequeue, SweepFrom, Claim, Line, FlowOf, SentBytes;
    match op
    case Push(packet, at) => EnqueueClaims(q, packet, at, a, b, longest);
    case Pop(at) => DequeueClaims(q, at, law, a, b, longest);
    case Sweep(at, age) =>
      SweepCalm(q, 0, at, age);
      CalmClaims(q, DropOlderThan(q, at, age), a, b, longest);
    case Measure(rtt) => MeasureClaims(q, rtt, a, b, longest);
    case Report => ReportClaims(q, a, b, longest);
  }

  lemma MeasureClaims(q: Queue, rtt: nat, a: Bucket, b: Bucket, longest: nat)
    ensures Claim(ObserveRtt(q, rtt), a, b, longest) == Claim(q, a, b, longest)
    ensures Line(ObserveRtt(q, rtt)) == Line(q) && ObserveRtt(q, rtt).log == q.log
  {
  }

  lemma ReportClaims(q: Queue, a: Bucket, b: Bucket, longest: nat)
    ensures Claim(AfterStats(q), a, b, longest) == Claim(q, a, b, longest)
    ensures Line(AfterStats(q)) == Line(q) && AfterStats(q).log == q.log
  {
  }

  lemma ApplySends(q: Queue, op: Op, law: Law, x: Bucket)
    requires Good(q, Free) && Tallied(q)
    ensures SentBytes(q.log, x) <= SentBytes(Apply(q, op, law).log, x)
  {
    hide Good, Enqueue, Dequeue, SweepFrom, SentBytes;
    match op
    case Push(packet, at) => EnqueueSends(q, packet, at, x);
    case Pop(at) => DequeueSends(q, at, law, x);
    case Sweep(at, age) => SweepCalm(q, 0, at, age);
    case Measure(rtt) =>
    case Report =>
  }

  lemma EnqueueSends(q: Queue, packet: bytes, now: int, x: Bucket)
    requires Tallied(q)
    ensures SentBytes(Enqueue(q, packet, now).log, x) == SentBytes(q.log, x)
  {
    hide MakeRoom, ThinFor, SentBytes, Refills, FlowOf;
    MakeRoomCalm(q, |packet|);
    var roomy := MakeRoom(q, |packet|);
    ThinCalm(roomy, packet);
    ServiceNote(ThinFor(roomy, packet).log, Moved(Arrival, FlowOf(packet), Queued(packet, now), packet), x);
  }

  // ----- all buckets together -----

  /** How many octets the first `n` buckets delivered. */
  function SentUpTo(log: seq<Event>, n: nat): nat
    requires n <= FLOWS
  {
    if n == 0 then 0 else SentUpTo(log, n - 1) + SentBytes(log, n - 1)
  }

  /** How many octets were delivered. */
  function SentInAll(log: seq<Event>): nat {
    if log == [] then 0
    else
      var e := log[|log| - 1];
      SentInAll(log[..|log| - 1]) + if e.Moved? && e.fate == Delivery then |e.sent| else 0
  }

  lemma {:induction false} SentByAll(log: seq<Event>)
    ensures SentInAll(log) == SentUpTo(log, FLOWS)
    decreases |log|
  {
    hide SentBytes, SentBy;
    if log == [] {
      NothingSent(FLOWS);
    } else {
      SentByAll(log[..|log| - 1]);
      OneMoreSent(log, FLOWS);
    }
  }

  lemma {:induction false} NothingSent(n: nat)
    requires n <= FLOWS
    ensures SentUpTo([], n) == 0
  {
    if n > 0 {
      NothingSent(n - 1);
    }
  }

  lemma {:induction false} OneMoreSent(log: seq<Event>, n: nat)
    requires log != [] && n <= FLOWS
    ensures var e := log[|log| - 1];
            SentUpTo(log, n) == SentUpTo(log[..|log| - 1], n) +
                                if e.Moved? && e.fate == Delivery && e.idx < n then |e.sent| else 0
    decreases n
  {
    if n > 0 {
      OneMoreSent(log, n - 1);
      assert log == log[..|log| - 1] + [log[|log| - 1]];
      ServiceNote(log[..|log| - 1], log[|log| - 1], n - 1);
    }
  }

  /** The claims of the first `n` buckets, but for `a`, which has none. */
  function Claims(q: Queue, a: Bucket, longest: nat, n: nat): int
    requires n <= FLOWS
  {
    if n == 0 then 0
    else
      Claims(q, a, longest, n - 1) +
      if n - 1 == a then SentBytes(q.log, a) else Claim(q, a, n - 1, longest)
  }

  lemma {:induction false} ClaimsBounds(q: Queue, a: Bucket, longest: nat, n: nat)
    requires InOrder(q) && Fit(q, longest) && a in Line(q) && n <= FLOWS
    ensures SentUpTo(q.log, n) <= Claims(q, a, longest, n)
    ensures Claims(q, a, longest, n) <= SentUpTo(q.log, n) + (if a < n then n - 1 else n) * Lag(longest)
    decreases n
  {
    hide SentBytes, Claim, InOrder, Fit, Line;
    if n > 0 {
      ClaimsBounds(q, a, longest, n - 1);
      if n - 1 != a {
        ClaimBounds(q, a, n - 1, longest);
      }
    }
  }

  lemma {:induction false} ApplyAllClaims(q: Queue, op: Op, law: Law, a: Bucket, longest: nat, n: nat)
    requires Good(q, Free) && Tallied(q) && Fit(q, longest) && a in Line(q) && n <= FLOWS
    requires Good(Apply(q, op, law), Free) && Fit(Apply(q, op, law), longest)
    requires a in Line(Apply(q, op, law)) && SentBytes(Apply(q, op, law).log, a) == SentBytes(q.log, a)
    ensures Claims(Apply(q, op, law), a, longest, n) <= Claims(q, a, longest, n) +
            if IsNewcomer(q, op) && FlowOf(op.packet) < n then Lag(longest) else 0
    decreases n
  {
    hide Good, Fit, Apply, Claim, Line, FlowOf, SentBytes, IsNewcomer;
    if n > 0 {
      ApplyAllClaims(q, op, law, a, longest, n - 1);
      if n - 1 != a {
        ApplyClaims(q, op, law, a, n - 1, longest);
      }
    }
  }

  lemma WaitingIsInLine(q: Queue, a: Bucket)
    requires Good(q, Free) && q.flows[a].packets != []
    ensures a in Line(q)
  {
    hide Tallied, Ledger, Patient;
    assert OnList(q, a);
  }

  lemma {:induction false} WindowSends(q: Queue, ops: seq<Op>, law: Law, x: Bucket)
    requires Good(q, Free)
    ensures SentBytes(q.log, x) <= SentBytes(RunFrom(q, ops, law).log, x)
    decreases |ops|
  {
    hide Good, Apply, SentBytes;
    if ops != [] {
      GoodIsTallied(q, Free);
      ApplyKeeps(q, ops[0], law);
      ApplySends(q, ops[0], law, x);
      WindowSends(Apply(q, ops[0], law), ops[1..], law, x);
    }
  }

  /** Over a window in which `a` waits throughout and is sent nothing, all claims together rise by no
      more than a lag for every newcomer. */
  lemma {:induction false} WindowClaims(q: Queue, ops: seq<Op>, law: Law, a: Bucket, longest: nat)
    requires Good(q, Free) && Fit(q, longest) && Within(ops, longest) && Waits(q, ops, law, a)
    requires SentBytes(RunFrom(q, ops, law).log, a) == SentBytes(q.log, a)
    ensures var r := RunFrom(q, ops, law);
            && a in Line(q) && a in Line(r) && Fit(r, longest)
            && Claims(r, a, longest, FLOWS) <=
               Claims(q, a, longest, FLOWS) + NewcomersIn(q, ops, law) * Lag(longest)
    decreases |ops|
  {
    hide Good, Fit, Apply, Line, Claims, IsNewcomer, SentBytes;
    WaitingIsInLine(q, a);
    if ops != [] {
      GoodIsTallied(q, Free);
      ApplyKeeps(q, ops[0], law);
      ApplyFit(q, ops[0], law, longest);
      var r := Apply(q, ops[0], law);
      assert Waits(r, ops[1..], law, a);
      WaitingIsInLine(r, a);
      ApplySends(q, ops[0], law, a);
      WindowSends(r, ops[1..], law, a);
      ApplyAllClaims(q, ops[0], law, a, longest, FLOWS);
      WindowClaims(r, ops[1..], law, a, longest);
      OneMore(NewcomersIn(r, ops[1..], law), Lag(longest));
    }
  }

  lemma OneMore(n: nat, lag: nat)
    ensures (1 + n) * lag == lag + n * lag
  {
  }

  /** A waiting bucket is served. After any run and over any window: a bucket that has something waiting
      throughout is delivered from before the octets delivered in all pass a lag for every other bucket
      and one more for every push that brought a bucket into service. */
  lemma WaitingBucketsAreServed(before: seq<Op>, window: seq<Op>, law: Law, longest: nat, a: Bucket)
    requires Within(before, longest) && Within(window, longest)
    requires Waits(Reached(before, law), window, law, a)
    ensures var q := Reached(before, law);
            var r := RunFrom(q, window, law);
            SentInAll(r.log) - SentInAll(q.log) > (FLOWS - 1 + NewcomersIn(q, window, law)) * Lag(longest) ==>
              SentBytes(r.log, a) > SentBytes(q.log, a)
  {
    hide Good, Fit, SentBytes, Refills, Apply, RunFrom, Claims, NewcomersIn, Waits, InOrder;
    var q := Reached(before, law);
    var r := RunFrom(q, window, law);
    EmptyIsGood();
    EmptyFits(longest);
    WindowFit(Empty(), before, law, longest);
    WindowSends(q, window, law, a);
    if SentBytes(r.log, a) == SentBytes(q.log, a) {
      WindowClaims(q, window, law, a, longest);
      GoodIsInOrder(q);
      GoodIsInOrder(r);
      ClaimsBounds(q, a, longest, FLOWS);
      ClaimsBounds(r, a, longest, FLOWS);
      SentByAll(q.log);
      SentByAll(r.log);
      Together(FLOWS - 1, NewcomersIn(q, window, law), Lag(longest));
    }
  }

  lemma Together(m: nat, n: nat, lag: nat)
    ensures (m + n) * lag == m * lag + n * lag
  {
  }
}
