/** Who may be kept waiting: newcomers that start anew in turn keep a backlogged bucket out of service
    for as long as they keep coming, and nothing else does. */
module QueueStarvation {
  import opened Common
  import opened Arithmetic
  import opened Packets
  import opened QueueModel
  import opened QueueLog
  import opened QueueInvariant
  import opened QueueFairness
  import opened QueueService

  // ----- newcomers keep the fresh list busy -----

  /** Only bucket `x` is fresh, and it is dry but has credit left. */
  ghost predicate JustServed(q: Queue, x: Bucket) {
    q.freshList == [x] && q.flows[x].packets == [] && q.flows[x].deficit > 0
  }

  /** One packet of a newcomer, and when it is pushed and the next packet is popped. */
  datatype Round = Round(packet: bytes, pushed: int, popped: int)

  function OpsOf(rounds: seq<Round>): seq<Op> {
    if rounds == [] then []
    else [Push(rounds[0].packet, rounds[0].pushed), Pop(rounds[0].popped)] + OpsOf(rounds[1..])
  }

  /** A short packet, for which there is room, of a bucket out of service: not backlogged, and not the
      one just served. */
  ghost predicate StartsAnew(q: Queue, x: Bucket, round: Round) {
    && |round.packet| < QUANTUM && q.bytes + |round.packet| <= LIMIT_BYTES
    && FlowOf(round.packet) !in q.backlogged && FlowOf(round.packet) != x
  }

  /** The bucket served before round `i`. */
  function Before(x: Bucket, rounds: seq<Round>, i: nat): Bucket
    requires i <= |rounds|
  {
    if i == 0 then x else FlowOf(rounds[i - 1].packet)
  }

  ghost predicate Newcomers(q: Queue, x: Bucket, rounds: seq<Round>) {
    forall i: nat :: i < |rounds| ==> StartsAnew(q, Before(x, rounds, i), rounds[i])
  }

  /** With room and nothing to thin, an arrival is only put at the back of its bucket. */
  lemma PlainPush(q: Queue, packet: bytes, now: int)
    requires Tallied(q) && q.bytes + |packet| <= LIMIT_BYTES
    requires q.flows[FlowOf(packet)].packets == [] || PureAck(packet).None?
    ensures Enqueue(q, packet, now) == Accept(q, packet, now)
  {
    hide FlowOf, PureAck;
    var idx := FlowOf(packet);
    if PureAck(packet).Some? {
      NothingThinned(q, idx, packet, PureAck(packet).value);
    }
  }

  lemma NothingThinned(q: Queue, idx: Bucket, newer: bytes, acked: nat)
    requires q.flows[idx].packets == []
    ensures ThinAcks(q, idx, newer, acked) == q
  {
    assert q.log + ThinnedEvents(idx, []) == q.log;
    assert q.flows[idx := q.flows[idx].(packets := [])] == q.flows;
  }

  /** A head that waited less than the target, or leaves no more than a quantum behind, is delivered
      whole. */
  lemma PromptHead(q: Queue, idx: Bucket, now: int, law: Law)
    requires q.flows[idx].packets != []
    requires var head := q.flows[idx].packets[0];
             Since(now, head.at) < q.target || q.flows[idx].bytes - |head.packet| <= QUANTUM
    ensures var (r, out) := Codel(q, idx, now, law);
            var f, g, head := q.flows[idx], r.flows[idx], q.flows[idx].packets[0];
            && out == Some(Whole(head))
            && r.freshList == q.freshList && r.backlogged == q.backlogged && r.target == q.target
            && r.flows == q.flows[idx := g]
            && g.packets == f.packets[1..] && g.bytes == f.bytes - |head.packet|
            && g.deficit == f.deficit && g.listed == f.listed
            && r.bytes == q.bytes - |head.packet|
  {
    var taken := Take(q, idx, now).0;
    assert taken.flows == q.flows[idx := taken.flows[idx]];
  }

  /** A newcomer's packet makes its bucket fresh, behind the one just served. */
  lemma PushNewcomer(q: Queue, x: Bucket, round: Round)
    requires Good(q, Free) && JustServed(q, x) && StartsAnew(q, x, round)
    ensures var y := FlowOf(round.packet);
            var pushed := Enqueue(q, round.packet, round.pushed);
            && Good(pushed, Free) && pushed.freshList == [x, y] && pushed.backlogged == q.backlogged
            && pushed.flows == q.flows[y := pushed.flows[y]]
            && pushed.flows[y].packets == [Queued(round.packet, round.pushed)]
            && pushed.flows[y].bytes == |round.packet| && pushed.flows[y].deficit == QUANTUM
            && pushed.bytes == q.bytes + |round.packet|
            && IsNewcomer(q, Push(round.packet, round.pushed))
            && OnlySent(q, pushed, y, 0)
  {
    hide FlowOf, PureAck, Good, SentBytes;
    NewcomerIsOut(q, x, FlowOf(round.packet));
    forall b: Bucket
      ensures SentBytes(Enqueue(q, round.packet, round.pushed).log, b) == SentBytes(q.log, b)
    {
      EnqueueSends(q, round.packet, round.pushed, b);
    }
    EnqueueKeeps(q, round.packet, round.pushed);
    PlainPush(q, round.packet, round.pushed);
  }

  /** One round: the newcomer's packet goes straight out, the bucket served before leaves service, and
      nothing else moves. */
  lemma OneRound(q: Queue, x: Bucket, round: Round, law: Law) returns (r: Queue)
    requires Good(q, Free) && JustServed(q, x) && StartsAnew(q, x, round)
    ensures var y := FlowOf(round.packet);
            && Good(Enqueue(q, round.packet, round.pushed), Free)
            && Dequeue(Enqueue(q, round.packet, round.pushed), round.popped, law) == (r, Some(round.packet))
            && Good(r, Free) && JustServed(r, y) && r.backlogged == q.backlogged && r.bytes == q.bytes
            && (forall b: Bucket :: b != x && b != y ==> r.flows[b] == q.flows[b])
            && (forall b: Bucket :: b != y ==> Enqueue(q, round.packet, round.pushed).flows[b] == q.flows[b])
            && IsNewcomer(q, Push(round.packet, round.pushed)) && OnlySent(q, r, y, |round.packet|)
  {
    hide FlowOf, Codel, Good, Enqueue, SentBytes;
    var y := FlowOf(round.packet);
    GoodIsTallied(q, Free);
    PushNewcomer(q, x, round);
    var pushed := Enqueue(q, round.packet, round.pushed);
    r := Dequeue(pushed, round.popped, law).0;
    DequeueKeeps(pushed, round.popped, law);
    DryIsUnlisted(pushed, x, round.popped, law);
    PopPrompt(Unlist(pushed), y, round.popped, law);
  }

  /** Bucket `y` alone sent anything, `n` octets. */
  ghost predicate OnlySent(q: Queue, r: Queue, y: Bucket, n: nat) {
    forall b: Bucket :: SentBytes(r.log, b) == SentBytes(q.log, b) + if b == y then n else 0
  }

  /** Such a head goes out when its bucket's turn comes with credit. */
  lemma PopPrompt(q: Queue, y: Bucket, now: int, law: Law)
    requires InService(q) && Next(q) == y && q.flows[y].deficit > 0 && q.flows[y].packets != []
    requires var head := q.flows[y].packets[0];
             Since(now, head.at) < q.target || q.flows[y].bytes - |head.packet| <= QUANTUM
    ensures var (r, out) := Dequeue(q, now, law);
            var f, g, packet := q.flows[y], r.flows[y], q.flows[y].packets[0].packet;
            && out == Some(packet)
            && r.freshList == q.freshList && r.backlogged == q.backlogged && r.target == q.target
            && r.flows == q.flows[y := g]
            && g.packets == f.packets[1..] && g.bytes == f.bytes - |packet|
            && g.deficit == f.deficit - |packet| && g.listed == f.listed
            && r.bytes == q.bytes - |packet|
            && OnlySent(q, r, y, |packet|)
  {
    hide Codel, SentBytes, Refills, Calls;
    PromptHead(q, y, now, law);
    CodelCalm(q, y, now, law);
    var (taken, out) := Codel(q, y, now, law);
    forall b: Bucket
      ensures SentBytes(Charge(taken, y, out.value).log, b) ==
              SentBytes(q.log, b) + if b == y then |out.value.sent| else 0
    {
      ServiceNote(taken.log, Moved(Delivery, y, out.value.head, out.value.sent), b);
    }
  }

  ghost predicate Newcomer(q: Queue, y: Bucket) {
    Tallied(q) && !q.flows[y].listed && q.flows[y].packets == [] && q.flows[y].bytes == 0
  }

  lemma NewcomerIsOut(q: Queue, x: Bucket, y: Bucket)
    requires Good(q, Free) && q.freshList == [x] && y !in q.backlogged && y != x
    ensures Newcomer(q, y)
  {
    hide Ledger, Patient;
    assert !OnList(q, y);
  }

  /** A dry bucket with credit leaves service at its turn. */
  lemma DryIsUnlisted(q: Queue, x: Bucket, now: int, law: Law)
    requires InService(q) && Next(q) == x && q.flows[x].packets == [] && q.flows[x].deficit > 0
    ensures Dequeue(q, now, law) == Dequeue(Unlist(q), now, law)
  {
    assert Codel(q, x, now, law) == (q, None);
  }

  function Length(rounds: seq<Round>): nat {
    if rounds == [] then 0 else |rounds[0].packet| + Length(rounds[1..])
  }

  /** However many rounds there are, the backlogged buckets get nothing: each keeps what it holds and
      sends nothing, while the octets delivered in all grow by the length of every round's packet, one
      newcomer to a round. */
  lemma {:induction false} NewcomersStarve(q: Queue, x: Bucket, rounds: seq<Round>, law: Law)
    requires Good(q, Free) && JustServed(q, x) && x !in q.backlogged && Newcomers(q, x, rounds)
    ensures var r := RunFrom(q, OpsOf(rounds), law);
            && r.backlogged == q.backlogged && r.bytes == q.bytes
            && (forall b: Bucket :: b in q.backlogged ==> r.flows[b] == q.flows[b])
            && (forall b: Bucket :: b in q.backlogged ==> SentBytes(r.log, b) == SentBytes(q.log, b))
            && SentInAll(r.log) == SentInAll(q.log) + Length(rounds)
    ensures NewcomersIn(q, OpsOf(rounds), law) == |rounds|
    ensures forall b: Bucket :: b in q.backlogged && q.flows[b].packets != [] ==> Waits(q, OpsOf(rounds), law, b)
    decreases |rounds|
  {
    hide FlowOf, Good, Enqueue, Dequeue, SentBytes, SentInAll, IsNewcomer;
    if rounds != [] {
      var round, rest := rounds[0], rounds[1..];
      var y := FlowOf(round.packet);
      assert Before(x, rounds, 0) == x && StartsAnew(q, Before(x, rounds, 0), rounds[0]);
      var r := OneRound(q, x, round, law);
      forall i: nat | i < |rest|
        ensures StartsAnew(r, Before(y, rest, i), rest[i])
      {
        assert StartsAnew(q, Before(x, rounds, i + 1), rounds[i + 1]);
      }
      AllSent(q, r, y, |round.packet|);
      TwoOps(q, round, OpsOf(rest), law);
      NewcomersStarve(r, y, rest, law);
    }
  }

  lemma AllSent(q: Queue, r: Queue, y: Bucket, n: nat)
    requires OnlySent(q, r, y, n)
    ensures SentInAll(r.log) == SentInAll(q.log) + n
  {
    hide SentInAll;
    SentByAll(q.log);
    SentByAll(r.log);
    SentUpToSent(q, r, y, n, FLOWS);
  }

  lemma {:induction false} SentUpToSent(q: Queue, r: Queue, y: Bucket, n: nat, m: nat)
    requires OnlySent(q, r, y, n) && m <= FLOWS
    ensures SentUpTo(r.log, m) == SentUpTo(q.log, m) + if y < m then n else 0
    decreases m
  {
    hide SentBytes;
    if m > 0 {
      SentUpToSent(q, r, y, n, m - 1);
      var b: Bucket := m - 1;
      assert SentBytes(r.log, b) == SentBytes(q.log, b) + if b == y then n else 0;
    }
  }

  lemma TwoOps(q: Queue, round: Round, rest: seq<Op>, law: Law)
    requires Good(q, Free) && Good(Enqueue(q, round.packet, round.pushed), Free)
    requires Good(Dequeue(Enqueue(q, round.packet, round.pushed), round.popped, law).0, Free)
    ensures var ops := [Push(round.packet, round.pushed), Pop(round.popped)] + rest;
            var pushed := Enqueue(q, round.packet, round.pushed);
            var r := Dequeue(pushed, round.popped, law).0;
            && RunFrom(q, ops, law) == RunFrom(r, rest, law)
            && NewcomersIn(q, ops, law) ==
               (if IsNewcomer(q, Push(round.packet, round.pushed)) then 1 else 0) + NewcomersIn(r, rest, law)
            && forall b: Bucket ::
                 q.flows[b].packets != [] && pushed.flows[b].packets != [] && Waits(r, rest, law, b) ==>
                   Waits(q, ops, law, b)
  {
    hide Good, Enqueue, Dequeue;
    GoodIsTallied(q, Free);
    var ops := [Push(round.packet, round.pushed), Pop(round.popped)] + rest;
    var pushed := Enqueue(q, round.packet, round.pushed);
    GoodIsTallied(pushed, Free);
    assert ops[1..] == [Pop(round.popped)] + rest && ops[1..][1..] == rest;
    assert Apply(q, ops[0], law) == pushed;
    assert RunFrom(q, ops, law) == RunFrom(pushed, ops[1..], law);
    assert Apply(pushed, ops[1..][0], law) == Dequeue(pushed, round.popped, law).0;
    var r := Dequeue(pushed, round.popped, law).0;
    assert NewcomersIn(pushed, ops[1..], law) == NewcomersIn(r, rest, law);
    forall b: Bucket | q.flows[b].packets != [] && pushed.flows[b].packets != [] && Waits(r, rest, law, b)
      ensures Waits(q, ops, law, b)
    {
      assert Waits(pushed, ops[1..], law, b);
    }
  }

  // ----- such a state is reached -----

  lemma OneOp(q: Queue, op: Op, rest: seq<Op>, law: Law) returns (r: Queue)
    requires Good(q, Free)
    ensures Good(r, Free) && Tallied(q) && r == Apply(q, op, law)
    ensures RunFrom(q, [op] + rest, law) == RunFrom(r, rest, law)
  {
    hide Good, Apply;
    GoodIsTallied(q, Free);
    ApplyKeeps(q, op, law);
    assert ([op] + rest)[1..] == rest;
    r := Apply(q, op, law);
  }

  /** The length of `n` packets of one length. */
  function Many(n: nat, len: nat): nat {
    if n == 0 then 0 else Many(n - 1, len) + len
  }

  /** Bucket `b` alone has anything, `n` packets all alike. */
  ghost predicate Heavy(q: Queue, b: Bucket, z: bytes, n: nat) {
    && |q.flows[b].packets| == n && (forall i :: 0 <= i < n ==> q.flows[b].packets[i] == Queued(z, 0))
    && q.flows[b].bytes == Many(n, |z|) && q.bytes == Many(n, |z|) && q.target > 0
    && (forall c: Bucket :: c != b ==> q.flows[c] == IDLE_FLOW)
    && q.backlogged == []
  }

  lemma PushHeavy(q: Queue, b: Bucket, z: bytes, n: nat)
    requires Tallied(q) && Heavy(q, b, z, n) && FlowOf(z) == b && PureAck(z).None?
    requires Many(n + 1, |z|) <= LIMIT_BYTES
    requires n == 0 ==> q.freshList == [] && !q.flows[b].listed
    requires n > 0 ==> q.freshList == [b] && q.flows[b].listed && q.flows[b].deficit == QUANTUM
    ensures var r := Enqueue(q, z, 0);
            Heavy(r, b, z, n + 1) && r.freshList == [b] && r.flows[b].listed && r.flows[b].deficit == QUANTUM
  {
    hide FlowOf, PureAck;
    PlainPush(q, z, 0);
  }

  function Pushes(z: bytes, n: nat): seq<Op> {
    if n == 0 then [] else Pushes(z, n - 1) + [Push(z, 0)]
  }

  function Pops(n: nat): seq<Op> {
    if n == 0 then [] else Pops(n - 1) + [Pop(0)]
  }

  lemma {:induction false} ManyRise(m: nat, n: nat, len: nat)
    requires m <= n
    ensures Many(m, len) <= Many(n, len)
    decreases n
  {
    if m < n {
      ManyRise(m, n - 1, len);
    }
  }

  /** `n` packets of one bucket, put into the empty queue. */
  lemma {:induction false} Load(z: bytes, n: nat, rest: seq<Op>, law: Law) returns (q: Queue)
    requires PureAck(z).None? && Many(n, |z|) <= LIMIT_BYTES
    ensures Good(Empty(), Free) && Good(q, Free)
    ensures RunFrom(Empty(), Pushes(z, n) + rest, law) == RunFrom(q, rest, law)
    ensures Heavy(q, FlowOf(z), z, n)
    ensures n == 0 ==> q.freshList == [] && !q.flows[FlowOf(z)].listed
    ensures n > 0 ==> q.freshList == [FlowOf(z)] && q.flows[FlowOf(z)].listed && q.flows[FlowOf(z)].deficit == QUANTUM
    decreases n
  {
    hide FlowOf, PureAck, Good, Enqueue, RunFrom;
    EmptyIsGood();
    if n == 0 {
      q := Empty();
      assert Pushes(z, 0) + rest == rest;
    } else {
      ManyRise(n - 1, n, |z|);
      var front := Load(z, n - 1, [Push(z, 0)] + rest, law);
      q := OneOp(front, Push(z, 0), rest, law);
      PushHeavy(front, FlowOf(z), z, n - 1);
      assert Pushes(z, n) + rest == Pushes(z, n - 1) + ([Push(z, 0)] + rest);
    }
  }

  /** Pops take packet after packet from a fresh bucket while its credit lasts. */
  lemma {:induction false} Drain(q: Queue, b: Bucket, z: bytes, n: nat, k: nat, rest: seq<Op>, law: Law)
    returns (r: Queue)
    requires Good(q, Free) && Heavy(q, b, z, n) && q.freshList == [b] && k <= n
    requires k > 0 ==> q.flows[b].deficit > Many(k - 1, |z|)
    ensures Good(r, Free) && RunFrom(q, Pops(k) + rest, law) == RunFrom(r, rest, law)
    ensures Heavy(r, b, z, n - k) && r.freshList == [b]
    ensures r.flows[b].deficit == q.flows[b].deficit - Many(k, |z|)
    decreases k
  {
    hide Good, Dequeue, RunFrom;
    if k == 0 {
      r := q;
      assert Pops(0) + rest == rest;
    } else {
      if k > 1 {
        ManyRise(k - 2, k - 1, |z|);
      }
      var front := Drain(q, b, z, n, k - 1, [Pop(0)] + rest, law);
      r := OneOp(front, Pop(0), rest, law);
      PopPrompt(front, b, 0, law);
      assert Pops(k) + rest == Pops(k - 1) + ([Pop(0)] + rest);
    }
  }

  /** How many packets it takes to spend a quantum. */
  lemma SpendsAQuantum(len: nat) returns (m: nat)
    requires 0 < len <= QUANTUM
    ensures m > 0 && Many(m - 1, len) < QUANTUM <= Many(m, len)
  {
    m := 1;
    while Many(m, len) < QUANTUM
      invariant m > 0 && Many(m - 1, len) < QUANTUM
      decreases QUANTUM - Many(m, len)
    {
      m := m + 1;
    }
  }

  lemma RefillFirst(q: Queue, b: Bucket, law: Law)
    requires q.freshList == [b] && q.flows[b].deficit <= 0
    ensures Dequeue(q, 0, law) == Dequeue(Refill(q), 0, law)
  {
    RefillPaysOne(q);
  }

  /** A bucket that spent its credit is refilled at its turn, goes to the backlogged ones, and delivers
      its next packet from there. */
  lemma Unload(q: Queue, b: Bucket, z: bytes, rest: seq<Op>, law: Law) returns (r: Queue)
    requires Good(q, Free) && Heavy(q, b, z, 2) && q.freshList == [b]
    requires q.flows[b].deficit <= 0 < q.flows[b].deficit + QUANTUM
    ensures Good(r, Free) && RunFrom(q, [Pop(0)] + rest, law) == RunFrom(r, rest, law)
    ensures r.freshList == [] && r.backlogged == [b] && r.bytes == |z| && r.target > 0
    ensures r.flows[b].packets == [Queued(z, 0)] && forall c: Bucket :: c != b ==> r.flows[c] == IDLE_FLOW
  {
    hide Good, Dequeue, RunFrom, OnlySent, Refill;
    r := OneOp(q, Pop(0), rest, law);
    RefillFirst(q, b, law);
    RefillBacklogs(q, b);
    PopPrompt(Refill(q), b, 0, law);
    assert Many(2, |z|) == Many(1, |z|) + |z| && Many(1, |z|) == Many(0, |z|) + |z|;
  }

  lemma RefillBacklogs(q: Queue, b: Bucket)
    requires q.freshList == [b] && q.backlogged == []
    ensures var r, f := Refill(q), q.flows[b];
            && r.freshList == [] && r.backlogged == [b] && r.bytes == q.bytes && r.target == q.target
            && r.flows == q.flows[b := f.(deficit := f.deficit + QUANTUM)]
  {
  }

  /** What a run needs to leave a bucket backlogged: enough packets to spend a quantum, and two more. */
  lemma {:induction false} PushesFit(z: bytes, n: nat, longest: nat)
    requires |z| <= longest
    ensures Within(Pushes(z, n), longest)
  {
    if n > 0 {
      PushesFit(z, n - 1, longest);
    }
  }

  lemma {:induction false} PopsFit(n: nat, longest: nat)
    ensures Within(Pops(n), longest)
  {
    if n > 0 {
      PopsFit(n - 1, longest);
    }
  }

  /** A run from the empty queue leads to a backlogged bucket with a packet waiting, behind a fresh
      bucket that is dry with credit: from there newcomers, if they keep coming, starve it. */
  lemma StarvationIsReached(z: bytes, p: bytes, law: Law) returns (ops: seq<Op>)
    requires 0 < |z| <= QUANTUM && PureAck(z).None? && |p| < QUANTUM && FlowOf(p) != FlowOf(z)
    ensures var q := Reached(ops, law);
            && JustServed(q, FlowOf(p)) && q.backlogged == [FlowOf(z)] && q.bytes == |z|
            && q.flows[FlowOf(z)].packets == [Queued(z, 0)]
    ensures forall longest: nat :: |z| <= longest && |p| <= longest ==> Within(ops, longest)
  {
    hide FlowOf, PureAck, Good, Enqueue, Dequeue, RunFrom, Heavy;
    var last := [Push(p, 0), Pop(0)];
    var m := SpendsAQuantum(|z|);
    assert Many(m + 2, |z|) == Many(m - 1, |z|) + |z| + |z| + |z|;
    ops := Pushes(z, m + 2) + (Pops(m) + ([Pop(0)] + last));
    var loaded := Load(z, m + 2, Pops(m) + ([Pop(0)] + last), law);
    var spent := Drain(loaded, FlowOf(z), z, m + 2, m, [Pop(0)] + last, law);
    var q := Unload(spent, FlowOf(z), z, last, law);
    var r := LastRound(q, z, p, law);
    forall longest: nat | |z| <= longest && |p| <= longest
      ensures Within(ops, longest)
    {
      PushesFit(z, m + 2, longest);
      PopsFit(m, longest);
    }
  }

  lemma LastRound(q: Queue, z: bytes, p: bytes, law: Law) returns (r: Queue)
    requires Good(q, Free) && q.freshList == [] && q.backlogged == [FlowOf(z)] && q.bytes == |z| && q.target > 0
    requires q.flows[FlowOf(z)].packets == [Queued(z, 0)]
    requires |z| <= QUANTUM && |p| < QUANTUM && FlowOf(p) != FlowOf(z) && q.flows[FlowOf(p)] == IDLE_FLOW
    ensures r == RunFrom(q, [Push(p, 0), Pop(0)], law)
    ensures JustServed(r, FlowOf(p)) && r.backlogged == [FlowOf(z)] && r.bytes == |z|
    ensures r.flows[FlowOf(z)].packets == [Queued(z, 0)]
  {
    hide FlowOf, PureAck, Good, Enqueue, Dequeue, RunFrom;
    assert [Push(p, 0)] + [Pop(0)] == [Push(p, 0), Pop(0)] && [Pop(0)] + [] == [Pop(0)];
    var pushed := OneOp(q, Push(p, 0), [Pop(0)], law);
    PlainPush(q, p, 0);
    AcceptFresh(q, p);
    r := OneOp(pushed, Pop(0), [], law);
    PopPrompt(pushed, FlowOf(p), 0, law);
    NothingRun(r, law);
  }

  lemma NothingRun(q: Queue, law: Law)
    requires Good(q, Free)
    ensures RunFrom(q, [], law) == q
  {
  }

  lemma AcceptFresh(q: Queue, p: bytes)
    requires q.freshList == [] && q.flows[FlowOf(p)] == IDLE_FLOW
    ensures var y := FlowOf(p);
            var r := Accept(q, p, 0);
            && r.freshList == [y] && r.backlogged == q.backlogged && r.bytes == q.bytes + |p|
            && r.target == q.target
            && r.flows == q.flows[y := IDLE_FLOW.(packets := [Queued(p, 0)], bytes := |p|, listed := true,
                                                       deficit := QUANTUM)]
  {
    hide FlowOf;
    var y := FlowOf(p);
    var g := Accept(q, p, 0).flows[y];
    assert [] + [Queued(p, 0)] == [Queued(p, 0)] && [] + [y] == [y];
    assert g == IDLE_FLOW.(packets := [Queued(p, 0)], bytes := |p|, listed := true, deficit := QUANTUM);
  }

  // ----- real packets -----

  function Zeros(n: nat): (b: bytes)
    ensures |b| == n
  {
    seq(n, _ => 0)
  }

  /** Twenty octets that are no IP packet. */
  function Unreadable(): bytes {
    Zeros(20)
  }

  /** A bare IPv4 header between two addresses that differ in their last octet. */
  function Header(last: u8): bytes {
    [0x45] + Zeros(18) + [last]
  }

  lemma LowOctet(a: u8)
    ensures Xor(a, 0) == a
    ensures Xor(0xa7, 1) == 0xa6
  {
  }

  // One step of the hash for every octet that is absorbed below.

  lemma Hash1()
    ensures Absorb(0xcbf2_9ce4_8422_2325, 0) == 0xaf63_bd4c_8601_b7df
  {
    hide Xor;
    LowOctet(0xcbf2_9ce4_8422_2325 % 256);
  }

  lemma Hash2()
    ensures Absorb(0xaf63_bd4c_8601_b7df, 0) == 0x832_8807_b4eb_6fed
  {
    hide Xor;
    LowOctet(0xaf63_bd4c_8601_b7df % 256);
  }

  lemma Hash3()
    ensures Absorb(0x832_8807_b4eb_6fed, 0) == 0xd94d_1218_6c0f_2fb7
  {
    hide Xor;
    LowOctet(0x832_8807_b4eb_6fed % 256);
  }

  lemma Hash4()
    ensures Absorb(0xd94d_1218_6c0f_2fb7, 0) == 0x4d25_767f_9dce_13f5
  {
    hide Xor;
    LowOctet(0xd94d_1218_6c0f_2fb7 % 256);
  }

  lemma Hash5()
    ensures Absorb(0x4d25_767f_9dce_13f5, 0) == 0xe4bc_4fd9_252b_e94f
  {
    hide Xor;
    LowOctet(0x4d25_767f_9dce_13f5 % 256);
  }

  lemma Hash6()
    ensures Absorb(0xe4bc_4fd9_252b_e94f, 0) == 0xd7e4_fcfa_299d_713d
  {
    hide Xor;
    LowOctet(0xe4bc_4fd9_252b_e94f % 256);
  }

  lemma Hash7()
    ensures Absorb(0xd7e4_fcfa_299d_713d, 0) == 0x778b_1a14_b687_6aa7
  {
    hide Xor;
    LowOctet(0xd7e4_fcfa_299d_713d % 256);
  }

  lemma Hash8()
    ensures Absorb(0x778b_1a14_b687_6aa7, 0) == 0xa8c7_f832_281a_39c5
  {
    hide Xor;
    LowOctet(0x778b_1a14_b687_6aa7 % 256);
  }

  lemma Hash9()
    ensures Absorb(0xa8c7_f832_281a_39c5, 0) == 0xe604_823a_2490_29bf
  {
    hide Xor;
    LowOctet(0xa8c7_f832_281a_39c5 % 256);
  }

  lemma Hash10()
    ensures Absorb(0x778b_1a14_b687_6aa7, 1) == 0xa8c7_f732_281a_3812
  {
    hide Xor;
    LowOctet(0x778b_1a14_b687_6aa7 % 256);
  }

  lemma Hash11()
    ensures Absorb(0xa8c7_f732_281a_3812, 0) == 0xe601_1c3a_248d_4696
  {
    hide Xor;
    LowOctet(0xa8c7_f732_281a_3812 % 256);
  }

  /** The hash of so many zero octets. */
  lemma {:induction false} EatZeros(hash: nat, n: nat)
    ensures Eat(hash, Zeros(n)) == if n == 0 then hash else Absorb(Eat(hash, Zeros(n - 1)), 0)
  {
    hide Absorb;
    if n > 0 {
      EatAppend(hash, Zeros(n - 1), [0]);
      assert Zeros(n) == Zeros(n - 1) + [0];
      EatOne(Eat(hash, Zeros(n - 1)), 0);
    }
  }

  lemma EatOne(hash: nat, octet: u8)
    ensures Eat(hash, [octet]) == Absorb(hash, octet)
  {
    hide Absorb;
    assert [octet][1..] == [];
  }

  lemma NoZeros()
    ensures Zeros(0) == [] && Eat(FNV_OFFSET, Zeros(0)) == FNV_OFFSET
  {
  }

  lemma SevenZeros()
    ensures Eat(FNV_OFFSET, Zeros(1)) == 0xaf63_bd4c_8601_b7df
    ensures Eat(FNV_OFFSET, Zeros(7)) == 0x778b_1a14_b687_6aa7
  {
    hide Absorb, Eat;
    NoZeros();
    EatZeros(FNV_OFFSET, 1);
    Hash1();
    EatZeros(FNV_OFFSET, 2);
    Hash2();
    EatZeros(FNV_OFFSET, 3);
    Hash3();
    EatZeros(FNV_OFFSET, 4);
    Hash4();
    EatZeros(FNV_OFFSET, 5);
    Hash5();
    EatZeros(FNV_OFFSET, 6);
    Hash6();
    EatZeros(FNV_OFFSET, 7);
    Hash7();
  }

  lemma UnreadableBucket(p: bytes)
    requires |p| < 20 || (Version(p) != 4 && Version(p) != 6)
    ensures FlowOf(p) == 31
  {
    hide Absorb, Eat;
    SevenZeros();
    assert FlowKey(p) == Zeros(1);
  }

  lemma HeaderKey(last: u8)
    ensures FlowKey(Header(last)) == Zeros(7) + [last] + [0]
  {
    var h := Header(last);
    assert h[12..20] == Zeros(7) + [last];
  }

  lemma HeaderBuckets()
    ensures FlowOf(Header(0)) == 63 && FlowOf(Header(1)) == 22
  {
    hide Absorb, Eat;
    SevenZeros();
    var seven := Eat(FNV_OFFSET, Zeros(7));
    HeaderKey(0);
    HeaderKey(1);
    EatAppend(FNV_OFFSET, Zeros(7), [0]);
    EatAppend(FNV_OFFSET, Zeros(7), [1]);
    EatAppend(FNV_OFFSET, Zeros(7) + [0], [0]);
    EatAppend(FNV_OFFSET, Zeros(7) + [1], [0]);
    EatOne(seven, 0);
    EatOne(seven, 1);
    Hash8();
    Hash9();
    Hash10();
    Hash11();
    EatOne(0xa8c7_f832_281a_39c5, 0);
    EatOne(0xa8c7_f732_281a_3812, 0);
  }

  // ----- how much a bucket can be made to wait -----

  /** Rounds of two buckets in turn, that of the last address 1 first. */
  function InTurn(n: nat): seq<Round> {
    seq(n, i requires i >= 0 => Round(Header(if i % 2 == 0 then 1 else 0), 0, 0))
  }

  lemma {:induction false} LengthOfTurns(rounds: seq<Round>)
    requires forall i :: 0 <= i < |rounds| ==> |rounds[i].packet| == 20
    ensures Length(rounds) == 20 * |rounds|
  {
    if rounds != [] {
      LengthOfTurns(rounds[1..]);
    }
  }

  lemma TurnsAreNewcomers(q: Queue, n: nat)
    requires q.backlogged == [31] && q.bytes == 20
    ensures Newcomers(q, 63, InTurn(n))
  {
    hide FlowOf, Header;
    HeaderBuckets();
    HeaderLength(0);
    HeaderLength(1);
    var rounds := InTurn(n);
    forall i: nat | i < n
      ensures StartsAnew(q, Before(63, rounds, i), rounds[i])
    {
      if i > 0 {
        assert rounds[i - 1].packet == Header(if i % 2 == 0 then 0 else 1);
      }
      assert rounds[i].packet == Header(if i % 2 == 0 then 1 else 0);
    }
  }

  lemma HeaderLength(last: u8)
    ensures |Header(last)| == 20
  {
  }

  lemma {:induction false} TurnsFit(rounds: seq<Round>, longest: nat)
    requires forall i :: 0 <= i < |rounds| ==> |rounds[i].packet| <= longest
    ensures Within(OpsOf(rounds), longest)
  {
    if rounds != [] {
      TurnsFit(rounds[1..], longest);
    }
  }

  /** After the run `before`, over the window, bucket `a` waits throughout and is sent nothing, while
      `octets` are delivered in all and no more pushes than the limit bring a bucket into service. */
  ghost predicate StarvedIn(before: seq<Op>, window: seq<Op>, law: Law, longest: nat, limit: Option<nat>,
                            a: Bucket, octets: nat) {
    && Within(before, longest) && Within(window, longest)
    && var q := Reached(before, law);
       var r := RunFrom(q, window, law);
       && Waits(q, window, law, a) && SentBytes(r.log, a) == SentBytes(q.log, a)
       && (limit.Some? ==> NewcomersIn(q, window, law) <= limit.value)
       && SentInAll(r.log) == SentInAll(q.log) + octets
  }

  /** Some bucket can be starved while so many octets are delivered. */
  ghost predicate Starves(law: Law, longest: nat, limit: Option<nat>, octets: nat) {
    exists before, window, a :: StarvedIn(before, window, law, longest, limit, a, octets)
  }

  ghost predicate Bounds(law: Law, longest: nat, limit: Option<nat>, most: nat) {
    forall octets: nat :: Starves(law, longest, limit, octets) ==> octets <= most
  }

  /** With real packets: twenty octets that are no IP packet wait in bucket 31, while bare headers of two
      flows, of buckets 63 and 22, come in turn. So many newcomers starve it of twenty octets each. */
  lemma NewcomersOfTwoFlows(law: Law, longest: nat, n: nat)
    requires longest >= 20
    ensures Starves(law, longest, Some(n), 20 * n)
  {
    hide FlowOf, PureAck, Good, RunFrom, Waits, NewcomersIn, SentBytes, SentInAll, Within;
    HeaderBuckets();
    var z := Unreadable();
    UnreadableIsPlain();
    var before := StarvationIsReached(z, Header(0), law);
    var q, rounds := Reached(before, law), InTurn(n);
    TurnsAreNewcomers(q, n);
    TurnsFit(rounds, longest);
    LengthOfTurns(rounds);
    NewcomersStarve(q, 63, rounds, law);
    assert StarvedIn(before, OpsOf(rounds), law, longest, Some(n), 31, 20 * n);
  }

  lemma UnreadableIsPlain()
    ensures FlowOf(Unreadable()) == 31 && PureAck(Unreadable()).None? && |Unreadable()| == 20
  {
    hide FlowOf;
    UnreadableBucket(Unreadable());
  }

  // ----- packets too short to have buckets of their own -----

  /** Only bucket 31 is in service. */
  ghost predicate OneBucket(q: Queue) {
    forall b: Bucket :: b in Line(q) ==> b == 31
  }

  /** A bucket out of service sends nothing. */
  lemma {:induction false} OutSendsNothing(q: Queue, now: int, law: Law, x: Bucket)
    requires x !in Line(q)
    ensures SentBytes(Dequeue(q, now, law).0.log, x) == SentBytes(q.log, x)
    decreases |q.freshList| + |q.backlogged|, SumOwed(q.flows)
  {
    hide Codel, SentBytes, Refills, Calls;
    if InService(q) {
      var idx := Next(q);
      if q.flows[idx].deficit <= 0 {
        RefillPaysOne(q);
        ServiceNote(q.log, Refilled(idx), x);
        OutSendsNothing(Refill(q), now, law, x);
      } else {
        CodelCalm(q, idx, now, law);
        var (r, out) := Codel(q, idx, now, law);
        match out
        case Some(release) => ServiceNote(r.log, Moved(Delivery, idx, release.head, release.sent), x);
        case None => OutSendsNothing(Unlist(r), now, law, x);
      }
    }
  }

  lemma ShortApply(q: Queue, op: Op, law: Law)
    requires Good(q, Free) && Tallied(q) && OneBucket(q) && (op.Push? ==> |op.packet| < 20)
    ensures OneBucket(Apply(q, op, law))
    ensures forall b: Bucket :: b != 31 ==> SentBytes(Apply(q, op, law).log, b) == SentBytes(q.log, b)
  {
    hide Good, Enqueue, Dequeue, SweepFrom, SentBytes, FlowOf, Line;
    match op
    case Push(packet, at) => ShortEnqueue(q, packet, at);
    case Pop(at) =>
      forall b: Bucket | b != 31
        ensures b !in Line(Dequeue(q, at, law).0)
        ensures SentBytes(Dequeue(q, at, law).0.log, b) == SentBytes(q.log, b)
      {
        OutSendsNothing(q, at, law, b);
        OffLine(q, b);
        DequeueNeverLists(q, at, law, b);
        OffLine(Dequeue(q, at, law).0, b);
      }
    case Sweep(at, age) =>
      SweepCalm(q, 0, at, age);
      CalmLine(q, DropOlderThan(q, at, age));
    case Measure(rtt) => MeasureLine(q, rtt);
    case Report => ReportLine(q);
  }

  lemma CalmLine(q: Queue, r: Queue)
    requires Calm(q, r)
    ensures Line(r) == Line(q) && forall b: Bucket :: SentBytes(r.log, b) == SentBytes(q.log, b)
  {
    hide SentBytes, Refills, Calls;
  }

  lemma MeasureLine(q: Queue, rtt: nat)
    ensures Line(ObserveRtt(q, rtt)) == Line(q) && ObserveRtt(q, rtt).log == q.log
  {
  }

  lemma ReportLine(q: Queue)
    ensures Line(AfterStats(q)) == Line(q) && AfterStats(q).log == q.log
  {
  }

  lemma ShortEnqueue(q: Queue, packet: bytes, now: int)
    requires Tallied(q) && OneBucket(q) && |packet| < 20
    ensures OneBucket(Enqueue(q, packet, now))
    ensures forall b: Bucket :: SentBytes(Enqueue(q, packet, now).log, b) == SentBytes(q.log, b)
  {
    hide MakeRoom, ThinFor, SentBytes, Refills, Calls, FlowOf;
    UnreadableBucket(packet);
    MakeRoomCalm(q, |packet|);
    var roomy := MakeRoom(q, |packet|);
    ThinCalm(roomy, packet);
    var thin := ThinFor(roomy, packet);
    CalmLine(q, roomy);
    CalmLine(roomy, thin);
    AcceptLine(thin, packet, now);
    forall b: Bucket
      ensures SentBytes(Enqueue(q, packet, now).log, b) == SentBytes(q.log, b)
    {
      EnqueueSends(q, packet, now, b);
    }
  }

  lemma AcceptLine(q: Queue, packet: bytes, now: int)
    ensures forall b: Bucket :: b in Line(Accept(q, packet, now)) ==> b in Line(q) || b == FlowOf(packet)
  {
    hide FlowOf;
  }

  lemma {:induction false} ShortWindow(q: Queue, ops: seq<Op>, law: Law)
    requires Good(q, Free) && OneBucket(q) && Within(ops, 19)
    ensures OneBucket(RunFrom(q, ops, law))
    ensures forall b: Bucket :: b != 31 ==> SentBytes(RunFrom(q, ops, law).log, b) == SentBytes(q.log, b)
    decreases |ops|
  {
    hide Good, Apply, SentBytes, OneBucket;
    if ops != [] {
      GoodIsTallied(q, Free);
      ApplyKeeps(q, ops[0], law);
      ShortApply(q, ops[0], law);
      ShortWindow(Apply(q, ops[0], law), ops[1..], law);
    }
  }

  /** Packets shorter than an IPv4 header all share one bucket, which nothing can starve. */
  lemma ShortPacketsStarveNobody(before: seq<Op>, window: seq<Op>, law: Law, longest: nat, limit: Option<nat>,
                                 a: Bucket, octets: nat)
    requires longest < 20 && StarvedIn(before, window, law, longest, limit, a, octets)
    ensures octets == 0
  {
    hide Good, RunFrom, Waits, NewcomersIn, SentBytes, SentInAll, OneBucket;
    EmptyIsGood();
    var q := Reached(before, law);
    var r := RunFrom(q, window, law);
    NothingInService();
    ShortWindow(Empty(), before, law);
    ShortWindow(q, window, law);
    WaitsNow(q, window, law, a);
    WaitingIsInLine(q, a);
    OneBucketIs(q, a);
    AllSent(q, r, a, 0);
  }

  lemma NothingInService()
    ensures OneBucket(Empty())
  {
  }

  lemma OneBucketIs(q: Queue, a: Bucket)
    requires OneBucket(q) && a in Line(q)
    ensures a == 31
  {
  }

  lemma WaitsNow(q: Queue, ops: seq<Op>, law: Law, a: Bucket)
    requires Good(q, Free) && Waits(q, ops, law, a)
    ensures q.flows[a].packets != []
  {
  }

  // ----- exactly when waiting is bounded -----

  lemma NewcomersBoundWaiting(law: Law, longest: nat, limit: nat)
    ensures Bounds(law, longest, Some(limit), (FLOWS - 1 + limit) * Lag(longest))
  {
    hide Good, RunFrom, Waits, NewcomersIn, SentBytes, SentInAll;
    forall octets: nat | Starves(law, longest, Some(limit), octets)
      ensures octets <= (FLOWS - 1 + limit) * Lag(longest)
    {
      var before, window, a :| StarvedIn(before, window, law, longest, Some(limit), a, octets);
      WaitingBucketsAreServed(before, window, law, longest, a);
      Scale(FLOWS - 1 + NewcomersIn(Reached(before, law), window, law), FLOWS - 1 + limit, Lag(longest));
    }
  }

  lemma Unlimited(law: Law, longest: nat, limit: nat, octets: nat)
    requires Starves(law, longest, Some(limit), octets)
    ensures Starves(law, longest, None, octets)
  {
    hide Good, RunFrom, Waits, NewcomersIn, SentBytes, SentInAll, Within;
    var before, window, a :| StarvedIn(before, window, law, longest, Some(limit), a, octets);
    assert StarvedIn(before, window, law, longest, None, a, octets);
  }

  /** The octets delivered past a waiting bucket that is sent nothing are bounded exactly when the
      newcomers are: at most a lag for each of them and for each other bucket, and twenty octets for each
      at the least. Only if no packet is as long as an IPv4 header, so that all share one bucket, does no
      bound on newcomers matter. */
  lemma WaitingIsBoundedIffNewcomersAre(law: Law, longest: nat, limit: Option<nat>)
    ensures (exists most: nat :: Bounds(law, longest, limit, most)) <==> limit.Some? || longest < 20
  {
    hide Starves;
    if limit.Some? {
      NewcomersBoundWaiting(law, longest, limit.value);
    } else if longest < 20 {
      ShortIsBounded(law, longest);
    } else {
      forall most: nat
        ensures !Bounds(law, longest, None, most)
      {
        NewcomersOfTwoFlows(law, longest, most + 1);
        Unlimited(law, longest, most + 1, 20 * (most + 1));
      }
    }
  }

  lemma ShortIsBounded(law: Law, longest: nat)
    requires longest < 20
    ensures Bounds(law, longest, None, 0)
  {
    hide StarvedIn;
    forall octets: nat | Starves(law, longest, None, octets)
      ensures octets <= 0
    {
      var before, window, a :| StarvedIn(before, window, law, longest, None, a, octets);
      ShortPacketsStarveNobody(before, window, law, longest, None, a, octets);
    }
  }
}
