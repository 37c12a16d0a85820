/** Reading the queue's log: what happened to whom, and in which order. */
module QueueLog {
  import opened Common
  import opened Packets
  import opened QueueModel

  // ----- subsequences -----

  /** `a` is `b` with some elements left out, order kept. */
  ghost predicate Subsequence<T>(a: seq<T>, b: seq<T>) {
    if a == [] then true
    else if b == [] then false
    else (a[0] == b[0] && Subsequence(a[1..], b[1..])) || Subsequence(a, b[1..])
  }

  lemma {:induction false} SubsequenceReflexive<T>(a: seq<T>)
    ensures Subsequence(a, a)
  {
    if a != [] {
      SubsequenceReflexive(a[1..]);
    }
  }

  lemma {:induction false} SubsequenceAppend<T>(a: seq<T>, b: seq<T>, c: seq<T>, d: seq<T>)
    requires Subsequence(a, b) && Subsequence(c, d)
    ensures Subsequence(a + c, b + d)
    decreases |b|
  {
    if b == [] {
      assert a + c == c && b + d == d;
    } else {
      assert (b + d)[1..] == b[1..] + d;
      if a != [] && a[0] == b[0] && Subsequence(a[1..], b[1..]) {
        SubsequenceAppend(a[1..], b[1..], c, d);
        assert (a + c)[1..] == a[1..] + c;
      } else {
        SubsequenceAppend(a, b[1..], c, d);
      }
    }
  }

  lemma {:induction false} SubsequenceTransitive<T>(a: seq<T>, b: seq<T>, c: seq<T>)
    requires Subsequence(a, b) && Subsequence(b, c)
    ensures Subsequence(a, c)
    decreases |b| + |c|
  {
    if a != [] && b != [] {
      if b[0] == c[0] && Subsequence(b[1..], c[1..]) {
        if a[0] == b[0] && Subsequence(a[1..], b[1..]) {
          SubsequenceTransitive(a[1..], b[1..], c[1..]);
        } else {
          SubsequenceTransitive(a, b[1..], c[1..]);
        }
      } else {
        SubsequenceTransitive(a, b, c[1..]);
      }
    }
  }

  // ----- columns of the ledger -----

  function Entry(e: Event, fate: Fate, b: Bucket): seq<Queued> {
    if e.Moved? && e.fate == fate && e.idx == b then [e.what] else []
  }

  /** The packets of one bucket that met one fate, in order. */
  function Entries(log: seq<Event>, fate: Fate, b: Bucket): seq<Queued> {
    if log == [] then [] else Entries(log[..|log| - 1], fate, b) + Entry(log[|log| - 1], fate, b)
  }

  lemma EntriesNote(log: seq<Event>, e: Event, fate: Fate, b: Bucket)
    ensures Entries(log + [e], fate, b) == Entries(log, fate, b) + Entry(e, fate, b)
    ensures Entry(e, fate, b) == [] ==> Entries(log + [e], fate, b) == Entries(log, fate, b)
  {
    assert (log + [e])[..|log|] == log;
  }

  /** The packets of one bucket whose fate is settled, whatever it is. */
  function Settled(log: seq<Event>, b: Bucket): multiset<Queued> {
    if log == [] then multiset{}
    else
      var e := log[|log| - 1];
      Settled(log[..|log| - 1], b) +
      if e.Moved? && e.fate != Arrival && e.idx == b then multiset{e.what} else multiset{}
  }

  lemma SettledNote(log: seq<Event>, e: Event, b: Bucket)
    ensures Settled(log + [e], b) ==
            Settled(log, b) + (if e.Moved? && e.fate != Arrival && e.idx == b then multiset{e.what} else multiset{})
  {
    assert (log + [e])[..|log|] == log;
  }

  /** The packets of one bucket that met any of the five fates. */
  function Columns(log: seq<Event>, b: Bucket): multiset<Queued> {
    multiset(Entries(log, Delivery, b)) + multiset(Entries(log, OverLimit, b)) +
    multiset(Entries(log, OverTarget, b)) + multiset(Entries(log, Thinned, b)) +
    multiset(Entries(log, Stale, b))
  }

  lemma ColumnsElsewhere(log: seq<Event>, e: Event, b: Bucket)
    requires !(e.Moved? && e.fate != Arrival && e.idx == b)
    ensures Columns(log + [e], b) == Columns(log, b)
  {
    hide Entries;
    forall fate: Fate | fate != Arrival
      ensures Entries(log + [e], fate, b) == Entries(log, fate, b)
    {
      EntriesNote(log, e, fate, b);
    }
  }

  lemma ColumnsHere(log: seq<Event>, e: Event, b: Bucket)
    requires e.Moved? && e.fate != Arrival && e.idx == b
    ensures Columns(log + [e], b) == Columns(log, b) + multiset{e.what}
  {
    hide Entries;
    forall fate: Fate
      ensures Entries(log + [e], fate, b) == if fate == e.fate then Entries(log, fate, b) + [e.what]
                                             else Entries(log, fate, b)
    {
      EntriesNote(log, e, fate, b);
    }
    var d, o, t := Entries(log, Delivery, b), Entries(log, OverLimit, b), Entries(log, OverTarget, b);
    var h, s := Entries(log, Thinned, b), Entries(log, Stale, b);
    match e.fate
    case Delivery => FirstGrows(d, multiset(o), multiset(t), multiset(h), multiset(s), e.what);
    case OverLimit => SecondGrows(multiset(d), o, multiset(t), multiset(h), multiset(s), e.what);
    case OverTarget => SecondGrows(multiset(d) + multiset(o), t, multiset(h), multiset(s), multiset{}, e.what);
    case Thinned =>
      SecondGrows(multiset(d) + multiset(o) + multiset(t), h, multiset(s), multiset{}, multiset{}, e.what);
    case Stale =>
  }

  lemma FirstGrows<T>(a: seq<T>, b: multiset<T>, c: multiset<T>, d: multiset<T>, e: multiset<T>, x: T)
    ensures multiset(a + [x]) + b + c + d + e == multiset(a) + b + c + d + e + multiset{x}
  {
  }

  lemma SecondGrows<T>(a: multiset<T>, b: seq<T>, c: multiset<T>, d: multiset<T>, e: multiset<T>, x: T)
    ensures a + multiset(b + [x]) + c + d + e == a + multiset(b) + c + d + e + multiset{x}
    ensures a + multiset(b + [x]) + c + d == a + multiset(b) + c + d + multiset{x}
    ensures a + multiset(b + [x]) + c == a + multiset(b) + c + multiset{x}
  {
  }

  /** A settled packet is exactly one of delivered, over limit, over target, thinned or stale. */
  lemma {:induction false} SettledIsPartition(log: seq<Event>, b: Bucket)
    ensures Settled(log, b) == Columns(log, b)
  {
    if log != [] {
      hide Columns, Settled;
      var front, e := log[..|log| - 1], log[|log| - 1];
      assert log == front + [e];
      SettledIsPartition(front, b);
      SettledNote(front, e, b);
      if e.Moved? && e.fate != Arrival && e.idx == b {
        ColumnsHere(front, e, b);
      } else {
        ColumnsElsewhere(front, e, b);
      }
    }
  }

  /** How many packets met one fate, over all buckets. */
  function Tally(log: seq<Event>, fate: Fate): nat {
    if log == [] then 0
    else
      Tally(log[..|log| - 1], fate) +
      if log[|log| - 1].Moved? && log[|log| - 1].fate == fate then 1 else 0
  }

  function Signals(log: seq<Event>, marked: bool): nat {
    if log == [] then 0
    else
      Signals(log[..|log| - 1], marked) +
      if log[|log| - 1].Punished? && log[|log| - 1].marked == marked then 1 else 0
  }

  lemma CountsNote(log: seq<Event>, e: Event)
    ensures forall fate :: Tally(log + [e], fate) ==
                           Tally(log, fate) + if e.Moved? && e.fate == fate then 1 else 0
    ensures forall marked :: Signals(log + [e], marked) ==
                             Signals(log, marked) + if e.Punished? && e.marked == marked then 1 else 0
  {
    assert (log + [e])[..|log|] == log;
  }

  /** A delivery sends the packet that waited, possibly carrying the congestion mark, which the
      packet was willing to carry; either way it belongs to its bucket. */
  ghost predicate SentAsIs(e: Event) {
    e.Moved? && e.fate == Delivery ==>
      && (e.sent == e.what.packet || (e.sent, true) == (MarkOutcome(e.what.packet).1, MarkOutcome(e.what.packet).0))
      && FlowOf(e.sent) == e.idx
  }

  /** A packet dropped over target, or delivered changed, was told so by the entry just before. */
  ghost predicate Told(log: seq<Event>, i: nat)
    requires i < |log|
  {
    log[i].Moved? && (log[i].fate == OverTarget || (log[i].fate == Delivery && log[i].sent != log[i].what.packet)) ==>
      && i > 0 && log[i - 1].Punished?
      && log[i - 1].idx == log[i].idx
      && log[i - 1].marked == (log[i].fate == Delivery)
  }

  /** Every entry of the log says what it should about what was sent. */
  ghost predicate WellTold(log: seq<Event>) {
    && (forall i :: 0 <= i < |log| ==> SentAsIs(log[i]))
    && (forall i: nat :: i < |log| ==> Told(log, i))
  }

  lemma WellToldNote(log: seq<Event>, e: Event)
    requires WellTold(log) && SentAsIs(e) && Told(log + [e], |log|)
    ensures WellTold(log + [e])
  {
    var l := log + [e];
    forall i: nat | i < |l|
      ensures Told(l, i)
    {
      if i < |log| {
        assert Told(log, i);
      }
    }
  }

  // ----- what callers see -----

  /** A packet handed to the queue, or one the queue handed out. */
  datatype Call = In(packet: bytes, at: int) | Out(sent: bytes)

  function CallIn(e: Event): seq<Call> {
    if e.Moved? && e.fate == Arrival then [In(e.what.packet, e.what.at)]
    else if e.Moved? && e.fate == Delivery then [Out(e.sent)]
    else []
  }

  /** The arrivals and deliveries of a log, in order. */
  function Calls(log: seq<Event>): seq<Call> {
    if log == [] then [] else Calls(log[..|log| - 1]) + CallIn(log[|log| - 1])
  }

  lemma CallsNote(log: seq<Event>, e: Event)
    ensures Calls(log + [e]) == Calls(log) + CallIn(e)
  {
    assert (log + [e])[..|log|] == log;
  }

  // ----- standing delay -----

  /** A packet taken from bucket `b` had waited at least the target then in force and left more than
      a quantum behind it. */
  ghost predicate TakenStanding(e: Event, b: Bucket) {
    e.Taken? && e.idx == b ==> Since(e.now, e.what.at) >= e.target && e.left > QUANTUM
  }

  /** Every packet taken from `b` in `log[j..upto]` was standing, the first at `j`, and no stale
      sweep came in between. */
  ghost predicate StoodSince(log: seq<Event>, b: Bucket, j: nat, upto: nat) {
    && j < upto <= |log|
    && log[j].Taken? && log[j].idx == b
    && forall k :: j <= k < upto ==> TakenStanding(log[k], b) && log[k] != Swept(b)
  }

  /** The signal at position `i` came at least one interval after a moment from which on its bucket
      stood. */
  ghost predicate Justified(log: seq<Event>, i: nat)
    requires i < |log|
  {
    log[i].Punished? ==>
      exists j: nat :: StoodSince(log, log[i].idx, j, i) && log[j].now + log[j].interval <= log[i].now
  }

  lemma StoodNote(log: seq<Event>, e: Event, b: Bucket, j: nat, upto: nat)
    ensures StoodSince(log, b, j, upto) ==> StoodSince(log + [e], b, j, upto)
    ensures StoodSince(log, b, j, |log|) && TakenStanding(e, b) && e != Swept(b) ==>
              StoodSince(log + [e], b, j, |log| + 1)
  {
  }

  lemma JustifiedNote(log: seq<Event>, e: Event, i: nat)
    requires i < |log| && Justified(log, i)
    ensures Justified(log + [e], i)
  {
    if log[i].Punished? {
      var j: nat :| StoodSince(log, log[i].idx, j, i) && log[j].now + log[j].interval <= log[i].now;
      StoodNote(log, e, log[i].idx, j, i);
      assert StoodSince(log + [e], (log + [e])[i].idx, j, i);
    }
  }
}
