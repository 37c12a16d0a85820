/** Internet addresses, as far as routing tells them apart. */
module Addresses {
  datatype Address = V4(octets: nat) | V6(octets: nat)
}

/** The table of leased addresses and when each lease is over (src/dns/lease.rs). Moments are
    nanoseconds; the table keeps whole milliseconds from its own start. */
module Leases {
  import opened Common
  import opened Addresses

  const MIN_LEASE_MS: nat := 600_000
  const MAX_LEASE_MS: nat := 3_600_000
  const MAX_LEASES: nat := 8192
  const NANOS_PER_MILLI: nat := 1_000_000

  datatype Lease = Lease(expires: nat, names: set<string>)

  type Held = map<Address, Lease>

  /** An address an answer carries, and its time to live in seconds. */
  datatype Record = Record(address: Address, ttl: nat)

  /** How many milliseconds a lease is given for a time to live: no fewer and no more than the limits. */
  function Lifetime(ttl: nat): (ms: nat)
    ensures MIN_LEASE_MS <= ms <= MAX_LEASE_MS
  {
    if ttl * 1000 < MIN_LEASE_MS then MIN_LEASE_MS
    else if ttl * 1000 > MAX_LEASE_MS then MAX_LEASE_MS
    else ttl * 1000
  }

  /** Whole milliseconds since the table started, none before it did. */
  function Millis(now: int, base: int): nat {
    if now < base then 0 else (now - base) / NANOS_PER_MILLI
  }

  // ----- what one event makes of the table -----

  datatype Event =
    | Recorded(address: Address, ttl: nat, name: string, ms: nat)
    | Touched(address: Address, ms: nat)
    | Expired(ms: nat)

  /** No lease of the table expires sooner. */
  ghost predicate ExpiresFirst(h: Held, a: Address) {
    a in h && forall b :: b in h ==> h[a].expires <= h[b].expires
  }

  function Renewed(l: Lease, expires: nat): Lease {
    l.(expires := Max(l.expires, expires))
  }

  /** The step relation: a full table makes room by dropping some lease that expires first. */
  ghost predicate Step(h: Held, e: Event, r: Held) {
    match e
    case Recorded(a, ttl, name, ms) =>
      var expires := ms + Lifetime(ttl);
      if a in h then r == h[a := Renewed(h[a], expires).(names := h[a].names + {name})]
      else if |h| < MAX_LEASES then r == h[a := Lease(expires, {name})]
      else exists victim :: ExpiresFirst(h, victim) && r == (h - {victim})[a := Lease(expires, {name})]
    case Touched(a, ms) =>
      r == if a in h then h[a := Renewed(h[a], ms + MIN_LEASE_MS)] else h
    case Expired(ms) =>
      r == map a | a in h && h[a].expires > ms :: h[a]
  }

  /** A run of the table from empty: its events, and the tables before, between and after them. */
  ghost predicate Run(es: seq<Event>, hs: seq<Held>) {
    && |hs| == |es| + 1 && hs[0] == map[]
    && forall i :: 0 <= i < |es| ==> Step(hs[i], es[i], hs[i + 1])
  }

  /** Step `i` drops `a` to make room for another address. */
  ghost predicate Evicts(es: seq<Event>, hs: seq<Held>, a: Address, i: nat)
    requires Run(es, hs) && i < |es|
  {
    es[i].Recorded? && a in hs[i] && a !in hs[i + 1]
  }

  /** Event `e` renews address `a` if it is held, and records it if it is an answer. */
  predicate Concerns(e: Event, a: Address) {
    !e.Expired? && e.address == a
  }

  // ----- the table -----

  class Table {
    const base: int
    var held: Held

    /** The run so far. */
    ghost var events: seq<Event>
    ghost var tables: seq<Held>

    ghost predicate Valid()
      reads this
    {
      Run(events, tables) && tables[|events|] == held && |held| <= MAX_LEASES
    }

    constructor (base: int)
      ensures Valid() && held == map[] && events == [] && this.base == base
    {
      this.base := base;
      held := map[];
      events, tables := [], [map[]];
    }

    ghost method Note(e: Event)
      requires Run(events, tables) && Step(tables[|events|], e, held)
      modifies this`events, this`tables
      ensures Run(events, tables) && tables[|events|] == held
      ensures events == old(events) + [e] && old(tables) <= tables
    {
      RunNote(events, tables, e, held);
      events, tables := events + [e], tables + [held];
    }

    /** The address whose lease expires soonest. */
    method Soonest() returns (victim: Address)
      requires held != map[]
      ensures ExpiresFirst(held, victim)
    {
      victim :| victim in held;
      var rest := held.Keys - {victim};
      while rest != {}
        invariant rest <= held.Keys && victim in held
        invariant forall b :: b in held && b !in rest ==> held[victim].expires <= held[b].expires
        decreases |rest|
      {
        var a :| a in rest;
        if held[a].expires < held[victim].expires {
          victim := a;
        }
        rest := rest - {a};
      }
    }

    method RecordOne(name: string, record: Record, ms: nat) returns (changed: bool)
      requires Valid()
      modifies this`held, this`events, this`tables
      ensures Valid()
      ensures events == old(events) + [Recorded(record.address, record.ttl, name, ms)] && old(tables) <= tables
      ensures Step(old(held), Recorded(record.address, record.ttl, name, ms), held)
      ensures changed == (record.address !in old(held))
      ensures !changed ==> held.Keys == old(held.Keys)
    {
      var a := record.address;
      var expires := ms + Lifetime(record.ttl);
      changed := a !in held;
      if a in held {
        held := held[a := Renewed(held[a], expires).(names := held[a].names + {name})];
        assert held.Keys == old(held.Keys);
      } else {
        if |held| >= MAX_LEASES {
          SomethingHeld(held);
          var victim := Soonest();
          RemoveOne(held, victim);
          held := held - {victim};
        }
        AddOne(held, a, Lease(expires, {name}));
        held := held[a := Lease(expires, {name})];
      }
      Note(Recorded(a, record.ttl, name, ms));
    }

    /** Take in the records of an answer. `true` says exactly that one of them was about an address not
        held before. That is a change of the addresses held, unless the table was full and the last
        record is about an address held before: it may have been dropped and have come back. */
    method RecordAll(name: string, records: seq<Record>, now: int) returns (changed: bool)
      requires Valid()
      modifies this`held, this`events, this`tables
      ensures Valid() && old(tables) <= tables
      ensures |events| == |old(events)| + |records| && old(events) <= events
      ensures forall i :: 0 <= i < |records| ==>
                events[|old(events)| + i] ==
                Recorded(records[i].address, records[i].ttl, name, Millis(now, base))
      ensures changed <==> exists i :: 0 <= i < |records| && records[i].address !in old(held)
      ensures !changed ==> held.Keys == old(held.Keys)
      ensures SureToDiffer(old(held).Keys, AddressesOf(records)) ==> (changed <==> held.Keys != old(held.Keys))
    {
      hide Run;
      hide Step;
      var ms := Millis(now, base);
      changed := false;
      ghost var start := |events|;
      var i := 0;
      while i < |records|
        invariant 0 <= i <= |records|
        invariant Valid() && old(tables) <= tables && start == |old(events)|
        invariant |events| == start + i && old(events) <= events
        invariant forall k :: 0 <= k < i ==>
                    events[start + k] == Recorded(records[k].address, records[k].ttl, name, ms)
        invariant changed <==> exists k :: 0 <= k < i && records[k].address !in old(held)
        invariant !changed ==> held.Keys == old(held.Keys)
        invariant changed ==> |held| > |old(held)| || |held| == MAX_LEASES
        invariant i > 0 ==> records[i - 1].address in held
      {
        ghost var before, was := tables, held;
        var one := RecordOne(name, records[i], ms);
        assert tables[..|before|] == before;
        StepKeys(was, Recorded(records[i].address, records[i].ttl, name, ms), held);
        changed := changed || one;
        i := i + 1;
      }
      if changed && |old(held)| < MAX_LEASES {
        SizesTell(old(held), held);
      }
    }

    /** A packet goes to `a`: its lease, if there is one, gets at least the shortest time from now. */
    method Touch(a: Address, now: int)
      requires Valid()
      modifies this`held, this`events, this`tables
      ensures Valid() && events == old(events) + [Touched(a, Millis(now, base))] && old(tables) <= tables
      ensures Step(old(held), Touched(a, Millis(now, base)), held)
      ensures held.Keys == old(held.Keys)
    {
      if a in held {
        var renewed := held[a := Renewed(held[a], Millis(now, base) + MIN_LEASE_MS)];
        assert renewed.Keys == held.Keys;
        SameSize(held, renewed);
        held := renewed;
      }
      Note(Touched(a, Millis(now, base)));
    }

    /** Drop the leases that are over, and say whether there were some. */
    method Expire(now: int) returns (any: bool)
      requires Valid()
      modifies this`held, this`events, this`tables
      ensures Valid() && events == old(events) + [Expired(Millis(now, base))] && old(tables) <= tables
      ensures Step(old(held), Expired(Millis(now, base)), held)
      ensures any <==> held != old(held)
    {
      var ms := Millis(now, base);
      var before := held;
      held := map a | a in held && held[a].expires > ms :: held[a];
      Fewer(before, held);
      any := |held| != |before|;
      Note(Expired(ms));
    }
  }

  /** What a caller can see before the call: there is room for one more, or the last record is about
      an address not held. */
  predicate SureToDiffer(keys: set<Address>, answer: seq<Address>) {
    |keys| < MAX_LEASES || answer == [] || answer[|answer| - 1] !in keys
  }

  function AddressesOf(records: seq<Record>): seq<Address> {
    seq(|records|, i requires 0 <= i < |records| => records[i].address)
  }

  /** A record's address is held after it; a table only grows until it is full. */
  lemma StepKeys(h: Held, e: Event, r: Held)
    requires e.Recorded? && Step(h, e, r) && |h| <= MAX_LEASES
    ensures e.address in r
    ensures e.address in h ==> r.Keys == h.Keys && |r| == |h|
    ensures e.address !in h ==> |r| == if |h| < MAX_LEASES then |h| + 1 else MAX_LEASES
  {
    if e.address in h {
      SameSizeUpdate(h, e.address, r[e.address]);
    } else {
      var l := Lease(e.ms + Lifetime(e.ttl), {e.name});
      if |h| < MAX_LEASES {
        AddOne(h, e.address, l);
      } else {
        var victim :| ExpiresFirst(h, victim) && r == (h - {victim})[e.address := l];
        RemoveOne(h, victim);
        AddOne(h - {victim}, e.address, l);
      }
    }
  }

  lemma SizesTell(h: Held, r: Held)
    requires |h| != |r|
    ensures h.Keys != r.Keys
  {
    if h.Keys == r.Keys {
      SameSize(h, r);
    }
  }

  lemma RunShape(es: seq<Event>, hs: seq<Held>)
    requires Run(es, hs)
    ensures |hs| == |es| + 1
  {
  }

  lemma SomethingHeld(h: Held)
    requires |h| > 0
    ensures h != map[]
  {
  }

  lemma RemoveOne(h: Held, a: Address)
    requires a in h
    ensures |h - {a}| == |h| - 1
  {
    assert (h - {a}).Keys == h.Keys - {a};
  }

  lemma AddOne(h: Held, a: Address, l: Lease)
    requires a !in h
    ensures |h[a := l]| == |h| + 1
  {
    assert h[a := l].Keys == h.Keys + {a};
  }

  lemma SameSize(h: Held, r: Held)
    requires h.Keys == r.Keys
    ensures |h| == |r|
  {
    assert |h| == |h.Keys| && |r| == |r.Keys|;
  }

  /** A part of a table is smaller unless it is the whole. */
  lemma Fewer(h: Held, r: Held)
    requires forall a :: a in r ==> a in h && r[a] == h[a]
    ensures |r| <= |h| && (|r| == |h| <==> r == h)
  {
    assert r.Keys <= h.Keys;
    var gone := h.Keys - r.Keys;
    assert h.Keys == r.Keys + gone;
    assert |h.Keys| == |r.Keys| + |gone|;
    if gone == {} {
      assert r.Keys == h.Keys;
      assert r == h;
    }
  }

  // ----- promises over every run -----

  /** At most so many addresses are held, and an address held before and after a step expires no
      sooner after it. */
  lemma StepPromises(h: Held, e: Event, r: Held)
    requires Step(h, e, r) && |h| <= MAX_LEASES
    ensures |r| <= MAX_LEASES
    ensures forall a :: a in h && a in r ==> h[a].expires <= r[a].expires
  {
    match e
    case Recorded(a, ttl, name, ms) =>
      if a in h {
        SameSizeUpdate(h, a, r[a]);
      } else {
        NewAddress(h, a, Lease(ms + Lifetime(ttl), {name}), r);
      }
    case Touched(a, ms) =>
      if a in h {
        SameSizeUpdate(h, a, r[a]);
      }
    case Expired(ms) =>
      Fewer(h, r);
  }

  lemma NewAddress(h: Held, a: Address, l: Lease, r: Held)
    requires a !in h && |h| <= MAX_LEASES
    requires if |h| < MAX_LEASES then r == h[a := l]
             else exists victim :: ExpiresFirst(h, victim) && r == (h - {victim})[a := l]
    ensures |r| <= MAX_LEASES && forall b :: b in h && b in r ==> r[b] == h[b]
  {
    if |h| < MAX_LEASES {
      AddOne(h, a, l);
    } else {
      var victim :| ExpiresFirst(h, victim) && r == (h - {victim})[a := l];
      RemoveOne(h, victim);
      AddOne(h - {victim}, a, l);
    }
  }

  lemma SameSizeUpdate(h: Held, a: Address, l: Lease)
    requires a in h
    ensures |h[a := l]| == |h|
  {
    assert h[a := l].Keys == h.Keys;
    SameSize(h, h[a := l]);
  }

  /** The table never holds more than its bound. */
  lemma {:induction false} TheTableIsBounded(es: seq<Event>, hs: seq<Held>, i: nat)
    requires Run(es, hs) && i <= |es|
    ensures |hs[i]| <= MAX_LEASES
    decreases i
  {
    if i > 0 {
      TheTableIsBounded(es, hs, i - 1);
      StepPromises(hs[i - 1], es[i - 1], hs[i]);
    } else {
      assert |hs[0]| == 0;
    }
  }

  /** An expiry never decreases while its address stays held. */
  lemma {:induction false} ExpiriesNeverDecrease(es: seq<Event>, hs: seq<Held>, a: Address, i: nat, j: nat)
    requires Run(es, hs) && i <= j <= |es|
    requires forall k :: i <= k <= j ==> a in hs[k]
    ensures hs[i][a].expires <= hs[j][a].expires
    decreases j
  {
    if i < j {
      ExpiriesNeverDecrease(es, hs, a, i, j - 1);
      TheTableIsBounded(es, hs, j - 1);
      StepPromises(hs[j - 1], es[j - 1], hs[j]);
    }
  }

  /** Absent its eviction, an address recorded at `ms`, or touched then while held, survives every
      `expire` before `ms` and the shortest lease, whatever else happens. */
  lemma {:induction false} AddressesInUseSurvive(es: seq<Event>, hs: seq<Held>, a: Address, i: nat, j: nat)
    requires Run(es, hs) && i < j <= |es|
    requires Concerns(es[i], a) && (es[i].Touched? ==> a in hs[i])
    requires forall k: nat :: i < k < j ==> !Evicts(es, hs, a, k)
    requires forall k :: i < k < j && es[k].Expired? ==> es[k].ms < es[i].ms + MIN_LEASE_MS
    ensures a in hs[j] && hs[j][a].expires >= es[i].ms + MIN_LEASE_MS
    decreases j
  {
    if j == i + 1 {
      assert Step(hs[i], es[i], hs[i + 1]);
    } else {
      var k: nat := j - 1;
      AddressesInUseSurvive(es, hs, a, i, k);
      assert !Evicts(es, hs, a, k);
      assert Step(hs[k], es[k], hs[j]);
      TheTableIsBounded(es, hs, k);
      StepPromises(hs[k], es[k], hs[j]);
    }
  }

  /** An expiry is never further out than the longest lease from the last event about its address. */
  lemma {:induction false} ExpiriesAreBounded(es: seq<Event>, hs: seq<Held>, a: Address, last: nat, j: nat)
    requires Run(es, hs) && j <= |es|
    requires forall k :: 0 <= k < j && Concerns(es[k], a) ==> es[k].ms <= last
    ensures a in hs[j] ==> hs[j][a].expires <= last + MAX_LEASE_MS
    decreases j
  {
    if j > 0 {
      ExpiriesAreBounded(es, hs, a, last, j - 1);
      assert Step(hs[j - 1], es[j - 1], hs[j]);
    }
  }

  /** An address is gone after any `expire` at or after its last event and the longest lease. */
  lemma IdleAddressesGo(es: seq<Event>, hs: seq<Held>, a: Address, last: nat, j: nat)
    requires Run(es, hs) && j < |es|
    requires forall k :: 0 <= k < j && Concerns(es[k], a) ==> es[k].ms <= last
    requires es[j].Expired? && es[j].ms >= last + MAX_LEASE_MS
    ensures a !in hs[j + 1]
  {
    ExpiriesAreBounded(es, hs, a, last, j);
    assert Step(hs[j], es[j], hs[j + 1]);
  }

  /** Only a record of a new address into a full table evicts, and what it drops expires first. */
  lemma EvictionTakesTheSoonest(es: seq<Event>, hs: seq<Held>, a: Address, i: nat)
    requires Run(es, hs) && i < |es| && Evicts(es, hs, a, i)
    ensures |hs[i]| >= MAX_LEASES && es[i].address !in hs[i] && ExpiresFirst(hs[i], a)
    ensures hs[i + 1].Keys == hs[i].Keys - {a} + {es[i].address}
  {
    assert Step(hs[i], es[i], hs[i + 1]);
    var e := es[i];
    var lease := Lease(e.ms + Lifetime(e.ttl), {e.name});
    var victim :| ExpiresFirst(hs[i], victim) && hs[i + 1] == (hs[i] - {victim})[e.address := lease];
  }

  // ----- the millisecond clock -----

  /** An address just recorded, in a table with room. */
  ghost predicate NewlyRecorded(h: Held, a: Address, ttl: nat, name: string, ms: nat, r: Held) {
    a !in h && |h| < MAX_LEASES && Step(h, Recorded(a, ttl, name, ms), r)
  }

  /** In nanoseconds the shortest lease is not always kept: an address recorded late in a millisecond
      is gone after an `expire` less than that lease later, which falls early in its own. */
  lemma TheShortestLeaseCanEndEarly(a: Address) returns (recorded: int, now: int, h: Held, r: Held)
    ensures NewlyRecorded(map[], a, 30, "a.test", Millis(recorded, 0), h)
    ensures Step(h, Expired(Millis(now, 0)), r)
    ensures now < recorded + MIN_LEASE_MS * NANOS_PER_MILLI && a !in r
  {
    recorded, now := 999_999, 600_000_000_000;
    h, r := map[a := Lease(MIN_LEASE_MS, {"a.test"})], map[];
  }

  /** A lease left alone, neither renewed nor evicted, lasts unchanged through any events until the
      first `expire` at or past its expiry, and no longer. */
  lemma {:induction false} WhenALeaseLasts(es: seq<Event>, hs: seq<Held>, a: Address, i: nat, j: nat)
    requires Run(es, hs) && i <= j < |es| && a in hs[i]
    requires forall k: nat :: i <= k < j ==> !Concerns(es[k], a) && !Evicts(es, hs, a, k)
    requires forall k :: i <= k < j && es[k].Expired? ==> es[k].ms < hs[i][a].expires
    ensures a in hs[j] && hs[j][a] == hs[i][a]
    ensures es[j].Expired? ==> (a in hs[j + 1] <==> es[j].ms < hs[i][a].expires)
    decreases j
  {
    hide Step;
    if i < j {
      var k: nat := j - 1;
      WhenALeaseLasts(es, hs, a, i, k);
      assert !Evicts(es, hs, a, k) && !Concerns(es[k], a);
      assert Step(hs[k], es[k], hs[j]);
      LeftAlone(hs[k], es[k], hs[j], a);
    }
    assert Step(hs[j], es[j], hs[j + 1]);
    if es[j].Expired? {
      LeftAlone(hs[j], es[j], hs[j + 1], a);
    }
  }

  /** A step that does not renew a lease leaves it as it is, lets it go or evicts it. */
  lemma LeftAlone(h: Held, e: Event, r: Held, a: Address)
    requires Step(h, e, r) && a in h && !Concerns(e, a)
    ensures a in r ==> r[a] == h[a]
    ensures e.Expired? ==> (a in r <==> e.ms < h[a].expires)
    ensures e.Touched? ==> a in r
  {
  }

  /** Whether moments of nanoseconds are never mistaken: the shortest lease is kept to the nanosecond
      exactly when it was given before the table's start or on a whole millisecond of its clock, or
      was longer anyway. */
  lemma KeptToTheNanosecond(base: int, given: int, ttl: nat)
    ensures (forall now :: now < given + MIN_LEASE_MS * NANOS_PER_MILLI ==>
                             Millis(now, base) < Millis(given, base) + Lifetime(ttl)) <==>
            given <= base || (given - base) % NANOS_PER_MILLI == 0 || Lifetime(ttl) > MIN_LEASE_MS
  {
    if given > base && (given - base) % NANOS_PER_MILLI != 0 && Lifetime(ttl) <= MIN_LEASE_MS {
      var now := base + ((given - base) / NANOS_PER_MILLI + MIN_LEASE_MS) * NANOS_PER_MILLI;
      assert now < given + MIN_LEASE_MS * NANOS_PER_MILLI;
      assert Millis(now, base) == Millis(given, base) + MIN_LEASE_MS;
    }
  }

  /** The moment until which a lease given at `given` is kept at the least: the shortest lease after the
      start of the table's millisecond that `given` falls in. */
  function KeptUntil(base: int, given: int): int {
    base + (Millis(given, base) + MIN_LEASE_MS) * NANOS_PER_MILLI
  }

  /** An `expire` comes soon enough on the table's clock exactly when it comes before that moment. */
  lemma WhenItIsSoonEnough(base: int, given: int, now: int)
    ensures Millis(now, base) < Millis(given, base) + MIN_LEASE_MS <==> now < KeptUntil(base, given)
  {
  }

  /** In time itself: absent its eviction, an address recorded, or touched while held, survives every
      `expire` before the moment it is kept until, whatever else happens. */
  lemma AddressesSurviveInTime(es: seq<Event>, hs: seq<Held>, base: int, moments: seq<int>, a: Address, i: nat, j: nat)
    requires Run(es, hs) && i < j <= |es|
    requires |moments| == |es| && forall k :: 0 <= k < |es| ==> es[k].ms == Millis(moments[k], base)
    requires Concerns(es[i], a) && (es[i].Touched? ==> a in hs[i])
    requires forall k: nat :: i < k < j ==> !Evicts(es, hs, a, k)
    requires forall k :: i < k < j && es[k].Expired? ==> moments[k] < KeptUntil(base, moments[i])
    ensures a in hs[j]
  {
    forall k | i < k < j && es[k].Expired?
      ensures es[k].ms < es[i].ms + MIN_LEASE_MS
    {
      WhenItIsSoonEnough(base, moments[i], moments[k]);
    }
    AddressesInUseSurvive(es, hs, a, i, j);
  }

  // ----- when `true` changes nothing -----

  /** A full table all of whose leases are long but one. */
  function Lopsided(keys: set<Address>, weak: Address, name: string, ms: nat): Held {
    map a | a in keys :: Lease(ms + if a == weak then MIN_LEASE_MS else MAX_LEASE_MS, {name})
  }

  /** A table made up of long leases and one short one. */
  ghost predicate OneWeak(h: Held, strong: set<Address>, weak: Address, ms: nat) {
    && weak !in strong && h.Keys == strong + {weak}
    && h[weak].expires == ms + MIN_LEASE_MS
    && forall a :: a in strong ==> h[a].expires == ms + MAX_LEASE_MS
  }

  /** Records whose time to live asks for no more than the shortest lease. */
  function Brief(address: Address, name: string, ms: nat): Event {
    Recorded(address, 0, name, ms)
  }

  /** Recording any address into such a table leaves such a table: an address not held takes the weak
      one's place. */
  lemma WeakStep(h: Held, strong: set<Address>, weak: Address, a: Address, name: string, ms: nat) returns (r: Held)
    requires OneWeak(h, strong, weak, ms) && |h| == MAX_LEASES
    ensures Step(h, Brief(a, name, ms), r) && |r| == MAX_LEASES
    ensures OneWeak(r, strong, if a in strong then weak else a, ms)
  {
    var l := Lease(ms + MIN_LEASE_MS, {name});
    if a in h {
      r := h[a := Renewed(h[a], ms + MIN_LEASE_MS).(names := h[a].names + {name})];
      SameSizeUpdate(h, a, r[a]);
    } else {
      assert ExpiresFirst(h, weak);
      r := (h - {weak})[a := l];
      RemoveOne(h, weak);
      AddOne(h - {weak}, a, l);
    }
  }

  lemma RunNote(es: seq<Event>, hs: seq<Held>, e: Event, r: Held)
    requires Run(es, hs) && Step(hs[|es|], e, r)
    ensures Run(es + [e], hs + [r])
  {
    hide Step;
    var fs, gs := es + [e], hs + [r];
    forall i | 0 <= i < |fs|
      ensures Step(gs[i], fs[i], gs[i + 1])
    {
      if i < |es| {
        assert Step(hs[i], es[i], hs[i + 1]);
      }
    }
  }

  /** The weak one after an answer: the last address of it that is not strong, if there is one. */
  function WeakAfter(strong: set<Address>, weak: Address, answer: seq<Address>): Address {
    if answer == [] then weak
    else if answer[|answer| - 1] !in strong then answer[|answer| - 1]
    else WeakAfter(strong, weak, answer[..|answer| - 1])
  }

  /** A run goes on with an answer of brief records. */
  lemma {:induction false} WeakRun(es: seq<Event>, hs: seq<Held>, strong: set<Address>, weak: Address,
                                   answer: seq<Address>, name: string, ms: nat)
    returns (fs: seq<Event>, gs: seq<Held>)
    requires Run(es, hs) && OneWeak(hs[|es|], strong, weak, ms) && |hs[|es|]| == MAX_LEASES
    ensures Run(fs, gs) && es <= fs && hs <= gs && |fs| == |es| + |answer|
    ensures forall i :: 0 <= i < |answer| ==> fs[|es| + i] == Brief(answer[i], name, ms)
    ensures OneWeak(gs[|fs|], strong, WeakAfter(strong, weak, answer), ms) && |gs[|fs|]| == MAX_LEASES
    decreases |answer|
  {
    hide OneWeak, Step;
    if answer == [] {
      fs, gs := es, hs;
    } else {
      var front, last := answer[..|answer| - 1], answer[|answer| - 1];
      fs, gs := WeakRun(es, hs, strong, weak, front, name, ms);
      var r := WeakStep(gs[|fs|], strong, WeakAfter(strong, weak, front), last, name, ms);
      RunNote(fs, gs, Brief(last, name, ms), r);
      fs, gs := fs + [Brief(last, name, ms)], gs + [r];
    }
  }

  /** Any addresses can come to be held with one short lease among long ones. */
  lemma {:induction false} Fill(keys: set<Address>, weak: Address, name: string, ms: nat)
    returns (es: seq<Event>, hs: seq<Held>)
    requires |keys| <= MAX_LEASES
    ensures Run(es, hs) && hs[|es|] == Lopsided(keys, weak, name, ms)
    decreases |keys|
  {
    if keys == {} {
      es, hs := [], [map[]];
    } else {
      var a :| a in keys;
      var rest := keys - {a};
      es, hs := Fill(rest, weak, name, ms);
      var h, r := hs[|es|], Lopsided(keys, weak, name, ms);
      var e := Recorded(a, if a == weak then 0 else 3600, name, ms);
      assert h.Keys == rest && |h| == |rest|;
      assert r == h[a := Lease(ms + Lifetime(e.ttl), {name})];
      RunNote(es, hs, e, r);
      es, hs := es + [e], hs + [r];
    }
  }

  /** A run that ends with an answer about these addresses, taken in at one moment while `keys` are
      held. */
  ghost predicate Answered(es: seq<Event>, hs: seq<Held>, keys: set<Address>, answer: seq<Address>) {
    && Run(es, hs) && |answer| <= |es| && hs[|es| - |answer|].Keys == keys
    && exists ms: nat :: EndsWith(es, answer, ms)
  }

  /** The last events record these addresses, all at one moment. */
  predicate EndsWith(es: seq<Event>, answer: seq<Address>, ms: nat) {
    && |answer| <= |es|
    && forall k :: |es| - |answer| <= k < |es| ==> IsRecord(es[k], answer[k - (|es| - |answer|)], ms)
  }

  predicate IsRecord(e: Event, a: Address, ms: nat) {
    e.Recorded? && e.address == a && e.ms == ms
  }

  /** After an answer that has a new address, there are more addresses than before or the table is
      full, and the last record's is held. */
  lemma {:induction false} AnswerTells(es: seq<Event>, hs: seq<Held>, start: nat, n: nat)
    requires Run(es, hs) && start + n <= |es|
    requires forall k :: start <= k < start + n ==> es[k].Recorded?
    ensures |hs[start]| <= |hs[start + n]| <= MAX_LEASES
    ensures (exists k :: start <= k < start + n && es[k].address !in hs[start]) ==>
              |hs[start + n]| > |hs[start]| || |hs[start + n]| == MAX_LEASES
    ensures (forall k :: start <= k < start + n ==> es[k].address in hs[start]) ==> hs[start + n].Keys == hs[start].Keys
    ensures n > 0 ==> es[start + n - 1].address in hs[start + n]
    decreases n
  {
    hide Step;
    if n == 0 {
      TheTableIsBounded(es, hs, start);
    } else {
      AnswerTells(es, hs, start, n - 1);
      var i := start + n - 1;
      assert Step(hs[i], es[i], hs[i + 1]);
      StepKeys(hs[i], es[i], hs[i + 1]);
    }
  }

  /** `true` means that an answer had an address not held. Whatever the leases and times to live, the
      addresses held then differ, exactly when there was room for one more or the last record is about
      an address not held; in a full table with any other answer, they can come out the same. */
  lemma WhenTrueIsAChange(keys: set<Address>, answer: seq<Address>)
    requires |keys| <= MAX_LEASES && exists i :: 0 <= i < |answer| && answer[i] !in keys
    ensures (forall es: seq<Event>, hs: seq<Held> :: Answered(es, hs, keys, answer) ==> hs[|es|].Keys != keys) <==>
            SureToDiffer(keys, answer)
  {
    if SureToDiffer(keys, answer) {
      forall es: seq<Event>, hs: seq<Held> | Answered(es, hs, keys, answer)
        ensures hs[|es|].Keys != keys
      {
        SureIsSure(es, hs, keys, answer);
      }
    } else {
      var es, hs := TrueCanChangeNothing(keys, answer, "a.test", 0);
    }
  }

  lemma SureIsSure(es: seq<Event>, hs: seq<Held>, keys: set<Address>, answer: seq<Address>)
    requires Answered(es, hs, keys, answer) && SureToDiffer(keys, answer)
    requires exists i :: 0 <= i < |answer| && answer[i] !in keys
    ensures hs[|es|].Keys != keys
  {
    hide Step, Run;
    RunShape(es, hs);
    var ms: nat :| EndsWith(es, answer, ms);
    var start := |es| - |answer|;
    var i :| 0 <= i < |answer| && answer[i] !in keys;
    assert IsRecord(es[start + i], answer[start + i - start], ms);
    AnswerTells(es, hs, start, |answer|);
    assert IsRecord(es[|es| - 1], answer[|es| - 1 - start], ms);
    if |keys| < MAX_LEASES {
      SizesTell(hs[start], hs[|es|]);
    }
  }

  /** Into any full table, an answer with a new address that ends with a held one can leave the same
      addresses held: here the held one's lease is the shortest, so it makes room for the new one,
      whose lease is then the shortest, and comes back for it. */
  lemma TrueCanChangeNothing(keys: set<Address>, answer: seq<Address>, name: string, ms: nat)
    returns (es: seq<Event>, hs: seq<Held>)
    requires |keys| == MAX_LEASES && answer != [] && answer[|answer| - 1] in keys
    ensures Answered(es, hs, keys, answer) && hs[|es|].Keys == keys
  {
    hide Step, Run;
    var weak := answer[|answer| - 1];
    var strong := keys - {weak};
    var fs, gs := Fill(keys, weak, name, ms);
    RunShape(fs, gs);
    assert gs[|fs|].Keys == keys;
    es, hs := WeakRun(fs, gs, strong, weak, answer, name, ms);
    RunShape(es, hs);
    forall k | |fs| <= k < |es|
      ensures IsRecord(es[k], answer[k - |fs|], ms)
    {
      assert es[|fs| + (k - |fs|)] == Brief(answer[k - |fs|], name, ms);
    }
    assert EndsWith(es, answer, ms);
    assert strong + {weak} == keys;
  }

  // ----- what a lease says -----

  /** Until when the records and touches of `a`, from step `k` to step `i`, make a lease last. */
  function LastsUntil(es: seq<Event>, a: Address, k: nat, i: nat): nat
    requires k <= i <= |es|
    decreases i
  {
    if i == k then 0
    else
      var e := es[i - 1];
      var until :=
        match e
        case Recorded(b, ttl, _, ms) =>
          if b != a then 0
          else ms + Told(ttl)
        case Touched(b, ms) => if b == a then ms + 600_000 else 0
        case Expired(_) => 0;
      Max(LastsUntil(es, a, k, i - 1), until)
  }

  /** The names that answers, from step `k` to step `i`, had `a` for. */
  function NamesOf(es: seq<Event>, a: Address, k: nat, i: nat): set<string>
    requires k <= i <= |es|
    decreases i
  {
    if i == k then {}
    else NamesOf(es, a, k, i - 1) + if es[i - 1].Recorded? && es[i - 1].address == a then {es[i - 1].name} else {}
  }

  /** Over any run, a lease says what it was told since its address came to be held: it lasts until the latest
      moment any record or touch gave it, a record's time to live counting from ten minutes to an hour, and
      it has the names of every answer. */
  lemma {:induction false} ALeaseIsWhatItWasTold(es: seq<Event>, hs: seq<Held>, a: Address, i: nat) returns (k: nat)
    requires Run(es, hs) && i <= |es| && a in hs[i]
    ensures k < i && es[k].Recorded? && es[k].address == a && a !in hs[k] && forall m :: k < m <= i ==> a in hs[m]
    ensures hs[i][a] == Lease(LastsUntil(es, a, k, i), NamesOf(es, a, k, i))
    decreases i
  {
    hide Step, Lifetime;
    assert i > 0;
    var e := es[i - 1];
    assert Step(hs[i - 1], e, hs[i]);
    if a in hs[i - 1] {
      k := ALeaseIsWhatItWasTold(es, hs, a, i - 1);
      ToldOnce(hs[i - 1], e, hs[i], a);
    } else {
      k := i - 1;
      ToldFirst(hs[i - 1], e, hs[i], a);
      assert LastsUntil(es, a, k, k) == 0 && NamesOf(es, a, k, k) == {};
    }
  }

  lemma ToldFirst(h: Held, e: Event, r: Held, a: Address)
    requires Step(h, e, r) && a !in h && a in r
    ensures e.Recorded? && e.address == a && r[a] == Lease(e.ms + Told(e.ttl), {e.name})
  {
  }

  /** What a time to live of some seconds is worth, in milliseconds. */
  function Told(ttl: nat): nat {
    if ttl < 600 then 600_000 else if ttl > 3_600 then 3_600_000 else 1_000 * ttl
  }

  lemma ToldOnce(h: Held, e: Event, r: Held, a: Address)
    requires Step(h, e, r) && a in h && a in r
    ensures r[a] == match e
                    case Recorded(b, ttl, name, ms) =>
                      if b == a then Lease(Max(h[a].expires, ms + Told(ttl)), h[a].names + {name}) else h[a]
                    case Touched(b, ms) =>
                      if b == a then Lease(Max(h[a].expires, ms + 600_000), h[a].names) else h[a]
                    case Expired(_) => h[a]
  {
  }
}
