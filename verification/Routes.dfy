/** Making a routing table that may refuse any row agree with a set of prefixes (src/tun/mod.rs). */
module Routes {
  import opened Common
  import opened Addresses

  /** A destination and how many of its bits count. */
  datatype Prefix = Prefix(destination: Address, length: nat)

  /** The order in which sets of prefixes are gone through: by family, address and length. */
  predicate Before(p: Prefix, q: Prefix) {
    if p.destination.V4? != q.destination.V4? then p.destination.V4?
    else if p.destination.octets != q.destination.octets then p.destination.octets < q.destination.octets
    else p.length < q.length
  }

  type TunError = nat

  /** One row the table was asked to take or give up, and why it refused, if it did. */
  datatype Attempt = Attempt(adding: bool, row: Prefix, refused: Option<TunError>)

  /** The system's routing table, as far as the tunnel is concerned. Any row may be refused at any
      time; a row already as asked is as asked. */
  class RouteTable {
    var rows: set<Prefix>

    /** Every attempt so far. */
    ghost var attempts: seq<Attempt>

    constructor ()
      ensures rows == {} && attempts == []
    {
      rows := {};
      attempts := [];
    }

    method Add(row: Prefix) returns (refused: Option<TunError>)
      modifies this
      ensures rows == if refused.None? then old(rows) + {row} else old(rows)
      ensures attempts == old(attempts) + [Attempt(true, row, refused)]
    {
      refused := Whim();
      if refused.None? {
        rows := rows + {row};
      }
      attempts := attempts + [Attempt(true, row, refused)];
    }

    method Remove(row: Prefix) returns (refused: Option<TunError>)
      modifies this
      ensures rows == if refused.None? then old(rows) - {row} else old(rows)
      ensures attempts == old(attempts) + [Attempt(false, row, refused)]
    {
      refused := Whim();
      if refused.None? {
        rows := rows - {row};
      }
      attempts := attempts + [Attempt(false, row, refused)];
    }

    /** Whether the system refuses is not known here. */
    method Whim() returns (refused: Option<TunError>)
    {
      refused := *;
    }
  }

  datatype Change = Change(added: seq<Prefix>, removed: seq<Prefix>)

  /** A run of attempts of one kind, one for each row of a set. */
  ghost predicate Covers(es: seq<Attempt>, adding: bool, rows: set<Prefix>) {
    && (forall i :: 0 <= i < |es| ==> es[i].adding == adding)
    && (forall i, j :: 0 <= i < j < |es| ==> es[i].row != es[j].row)
    && (forall p :: p in rows <==> exists i :: 0 <= i < |es| && es[i].row == p)
  }

  /** The attempts of a run go through their rows in order. */
  ghost predicate Ordered(es: seq<Attempt>) {
    forall i, j :: 0 <= i < j < |es| ==> Before(es[i].row, es[j].row)
  }

  /** The rows of a run of attempts that the table refused. */
  ghost function Refused(es: seq<Attempt>): set<Prefix> {
    set i | 0 <= i < |es| && es[i].refused.Some? :: es[i].row
  }

  ghost function Moved(es: seq<Attempt>): seq<Prefix> {
    if es == [] then []
    else Moved(es[..|es| - 1]) + if es[|es| - 1].refused.None? then [es[|es| - 1].row] else []
  }

  /** The first refusal of a run of attempts. */
  ghost function FirstRefusal(es: seq<Attempt>): Option<TunError> {
    if es == [] then None
    else if FirstRefusal(es[..|es| - 1]).Some? then FirstRefusal(es[..|es| - 1])
    else es[|es| - 1].refused
  }

  lemma AttemptNext(es: seq<Attempt>, e: Attempt)
    ensures Refused(es + [e]) == Refused(es) + if e.refused.Some? then {e.row} else {}
    ensures Moved(es + [e]) == Moved(es) + if e.refused.None? then [e.row] else []
    ensures FirstRefusal(es + [e]) == if FirstRefusal(es).Some? then FirstRefusal(es) else e.refused
  {
    assert (es + [e])[..|es|] == es;
    forall p | p in Refused(es)
      ensures p in Refused(es + [e])
    {
      var i :| 0 <= i < |es| && es[i].refused.Some? && es[i].row == p;
      assert (es + [e])[i] == es[i];
    }
    if e.refused.Some? {
      assert (es + [e])[|es|] == e;
    }
  }

  lemma CoversNext(es: seq<Attempt>, e: Attempt, adding: bool, rows: set<Prefix>)
    requires Covers(es, adding, rows) && e.adding == adding && e.row !in rows
    ensures Covers(es + [e], adding, rows + {e.row})
  {
    var more := es + [e];
    forall p
      ensures p in rows + {e.row} <==> exists i :: 0 <= i < |more| && more[i].row == p
    {
      if p in rows {
        var i :| 0 <= i < |es| && es[i].row == p;
        assert more[i].row == p;
      }
      if p == e.row {
        assert more[|es|].row == p;
      }
    }
  }

  lemma NothingAttempted(adding: bool)
    ensures Covers([], adding, {}) && Refused([]) == {} && Moved([]) == [] && FirstRefusal([]).None?
  {
  }

  /** One row more was attempted: it moved, or it was refused. */
  lemma OneMoreDone(start: set<Prefix>, done: set<Prefix>, refused: set<Prefix>, row: Prefix)
    requires row !in done && refused <= done
    ensures start - (done - refused) - {row} == start - (done + {row} - refused)
    ensures start - (done - refused) == start - (done + {row} - (refused + {row}))
    ensures start + (done - refused) + {row} == start + (done + {row} - refused)
    ensures start + (done - refused) == start + (done + {row} - (refused + {row}))
    ensures refused + {row} <= done + {row} && refused <= done + {row}
    ensures refused + {} == refused
  {
  }

  class InstalledRoutes {
    var installed: set<Prefix>

    constructor ()
      ensures installed == {}
    {
      installed := {};
    }

    /** The rows of `done` were attempted, `es` says how, and the installed set follows. */
    ghost predicate Attempted(table: RouteTable, adding: bool, start: set<Prefix>, first: seq<Attempt>,
                              done: set<Prefix>, es: seq<Attempt>)
      reads this, table
    {
      && Covers(es, adding, done) && Refused(es) <= done && table.attempts == first + es
      && table.rows == installed
      && installed == if adding then start + (done - Refused(es)) else start - (done - Refused(es))
    }

    /** Attempt one row more. */
    method Try(table: RouteTable, adding: bool, row: Prefix,
               ghost start: set<Prefix>, ghost first: seq<Attempt>, ghost done: set<Prefix>, ghost es: seq<Attempt>)
      returns (problem: Option<TunError>)
      requires Attempted(table, adding, start, first, done, es) && row !in done
      modifies this, table
      ensures Attempted(table, adding, start, first, done + {row}, es + [Attempt(adding, row, problem)])
    {
      hide Covers, Refused;
      if adding {
        problem := table.Add(row);
      } else {
        problem := table.Remove(row);
      }
      ghost var e := Attempt(adding, row, problem);
      AttemptNext(es, e);
      CoversNext(es, e, adding, done);
      OneMoreDone(start, done, Refused(es), row);
      assert first + (es + [e]) == first + es + [e];
      if problem.None? {
        installed := if adding then installed + {row} else installed - {row};
      }
    }

    lemma NoneAttempted(table: RouteTable, adding: bool)
      requires table.rows == installed
      ensures Attempted(table, adding, installed, table.attempts, {}, [])
    {
      NothingAttempted(adding);
      assert table.attempts + [] == table.attempts;
    }

    /** The row that comes first. */
    method First(rows: set<Prefix>) returns (row: Prefix)
      requires rows != {}
      ensures row in rows && forall p :: p in rows && p != row ==> Before(row, p)
    {
      row :| row in rows;
      var rest := rows - {row};
      while rest != {}
        invariant rest <= rows && row in rows
        invariant forall p :: p in rows && p !in rest && p != row ==> Before(row, p)
        decreases |rest|
      {
        var p :| p in rest;
        if Before(p, row) {
          row := p;
        }
        rest := rest - {p};
      }
    }

    /** Attempt every row of a set in order: take out what is no longer wanted, or put in what is
        missing. */
    method TryAll(table: RouteTable, adding: bool, rows: set<Prefix>)
      returns (moved: seq<Prefix>, refused: Option<TunError>, ghost es: seq<Attempt>)
      requires table.rows == installed
      modifies this, table
      ensures Attempted(table, adding, old(installed), old(table.attempts), rows, es)
      ensures moved == Moved(es) && refused == FirstRefusal(es) && Ordered(es)
    {
      hide Attempted, Covers, Refused, Moved, FirstRefusal;
      moved, refused, es := [], None, [];
      ghost var done: set<Prefix> := {};
      var rest := rows;
      NothingAttempted(adding);
      NoneAttempted(table, adding);
      while rest != {}
        invariant done == rows - rest && rest <= rows
        invariant Attempted(table, adding, old(installed), old(table.attempts), done, es)
        invariant moved == Moved(es) && refused == FirstRefusal(es)
        invariant Ordered(es) && forall i, p :: 0 <= i < |es| && p in rest ==> Before(es[i].row, p)
        decreases |rest|
      {
        var row := First(rest);
        var problem := Try(table, adding, row, old(installed), old(table.attempts), done, es);
        ghost var e := Attempt(adding, row, problem);
        AttemptNext(es, e);
        if problem.None? {
          moved := moved + [row];
        } else if refused.None? {
          refused := problem;
        }
        es, done := es + [e], done + {row};
        rest := rest - {row};
      }
      assert done == rows;
    }

    /** Make the installed set match `wanted`, removals first, attempting every row that differs once,
        and say what moved or the first refusal. The installed set names exactly the table's rows
        whatever is refused, and differs from what is wanted in exactly the refused rows. */
    method Apply(table: RouteTable, wanted: set<Prefix>)
      returns (r: Result<Change, TunError>, ghost going: seq<Attempt>, ghost coming: seq<Attempt>)
      requires table.rows == installed
      modifies this, table
      ensures table.rows == installed
      ensures table.attempts == old(table.attempts) + going + coming
      ensures Covers(going, false, old(installed) - wanted) && Covers(coming, true, wanted - old(installed))
      ensures Ordered(going) && Ordered(coming)
      ensures Refused(going) <= old(installed) - wanted && Refused(coming) <= wanted - old(installed)
      ensures installed == wanted + Refused(going) - Refused(coming)
      ensures r.Ok? <==> Refused(going) == {} && Refused(coming) == {}
      ensures r.Ok? ==> installed == wanted && r.value == Change(Moved(coming), Moved(going))
      ensures r.Err? ==> FirstRefusal(going + coming) == Some(r.error)
      ensures old(installed) * wanted <= installed
    {
      hide Moved, FirstRefusal, Refused;
      ghost var before := installed;
      var removed, first;
      removed, first, going := TryAll(table, false, installed - wanted);
      RefusedCovered(going, false, before - wanted);
      assert wanted - installed == wanted - before;
      var added, second;
      added, second, coming := TryAll(table, true, wanted - installed);
      RefusedCovered(coming, true, wanted - before);
      RefusalsAppend(going, coming);
      RefusalMeans(going);
      RefusalMeans(coming);
      var refused := if first.Some? then first else second;
      r := match refused
        case Some(problem) => Err(problem)
        case None => Ok(Change(added, removed));
    }
  }

  lemma RefusedCovered(es: seq<Attempt>, adding: bool, rows: set<Prefix>)
    requires Covers(es, adding, rows)
    ensures Refused(es) <= rows
  {
  }

  lemma {:induction false} RefusalMeans(es: seq<Attempt>)
    ensures FirstRefusal(es).None? <==> Refused(es) == {}
  {
    if es != [] {
      var front, e := es[..|es| - 1], es[|es| - 1];
      assert es == front + [e];
      AttemptNext(front, e);
      RefusalMeans(front);
    }
  }

  lemma {:induction false} RefusalsAppend(a: seq<Attempt>, b: seq<Attempt>)
    ensures FirstRefusal(a + b) == if FirstRefusal(a).Some? then FirstRefusal(a) else FirstRefusal(b)
    decreases |b|
  {
    if b == [] {
      assert a + b == a;
    } else {
      RefusalsAppend(a, b[..|b| - 1]);
      assert (a + b)[..|a + b| - 1] == a + b[..|b| - 1];
    }
  }
}

/** The two halves of the routing, prefixes the application asked for and addresses names resolved to
    (src/core.rs). */
module RoutingCore {
  import opened Common
  import opened Addresses
  import opened Routes

  datatype Ipv6Support = Unknown | Carries | DoesNot

  function HostRoute(a: Address): Prefix {
    Prefix(a, if a.V4? then 32 else 128)
  }

  /** A v6 prefix may be routed only when the application wants v6 and the tunnel was measured
      carrying it. */
  predicate Allowed(p: Prefix, wantsV6: bool, v6: Ipv6Support) {
    p.destination.V4? || (wantsV6 && v6 == Carries)
  }

  /** Both halves together, as far as their families may be routed. */
  function Union(asked: set<Prefix>, leased: set<Address>, wantsV6: bool, v6: Ipv6Support): set<Prefix> {
    set p | p in asked + (set a | a in leased :: HostRoute(a)) && Allowed(p, wantsV6, v6)
  }

  datatype State = State(
    asked: set<Prefix>,
    leased: set<Address>,
    wantsV6: bool,
    v6: Ipv6Support,
    installed: set<Prefix>,
    rows: set<Prefix>)

  function Wanted(s: State): set<Prefix> {
    Union(s.asked, s.leased, s.wantsV6, s.v6)
  }

  /** What is wanted: every prefix asked for and a host route to every address leased, of IPv4, or of IPv6
      if that is wanted and the tunnel was found to carry it. */
  lemma WantedIsExact(s: State, p: Prefix)
    ensures p in Wanted(s) <==>
            && (|| p in s.asked
                || (p.destination in s.leased && p.length == if p.destination.V4? then 32 else 128))
            && (p.destination.V6? ==> s.wantsV6 && s.v6 == Carries)
  {
    if p.destination in s.leased && p.length == (if p.destination.V4? then 32 else 128) {
      assert p == HostRoute(p.destination);
    }
  }

  /** What the core may be told. */
  datatype Call =
    | SetRoutes(wanted: set<Prefix>)
    | LeasesChanged(now: set<Address>)
    | SetWantsIpv6(wants: bool)
    | SetCarriesIpv6(carries: bool)

  function Finding(carries: bool): Ipv6Support {
    if carries then Carries else DoesNot
  }

  function Told(s: State, call: Call): State {
    match call
    case SetRoutes(wanted) => s.(asked := wanted)
    case LeasesChanged(now) => s.(leased := now)
    case SetWantsIpv6(wants) => s.(wantsV6 := wants)
    case SetCarriesIpv6(carries) => s.(v6 := Finding(carries))
  }

  /** Whether a call makes the table agree: a finding that changes nothing does not, nor does merely
      wanting IPv6. */
  predicate Installs(s: State, call: Call) {
    call.SetRoutes? || call.LeasesChanged? || (call.SetCarriesIpv6? && s.v6 != Finding(call.carries))
  }

  /** Every row is as wanted, but for the refused ones, which are as they were. */
  function Installed(before: set<Prefix>, wanted: set<Prefix>, refused: set<Prefix>): set<Prefix> {
    before * refused + (wanted - refused)
  }

  /** Only rows that had to move can be refused. */
  predicate CanRefuse(before: set<Prefix>, wanted: set<Prefix>, refused: set<Prefix>) {
    refused <= (before - wanted) + (wanted - before)
  }

  /** One call, some rows of which were refused. */
  ghost predicate Serves(s: State, call: Call, refused: set<Prefix>, t: State) {
    var told := Told(s, call);
    if Installs(s, call) then
      var after := Installed(s.installed, Wanted(told), refused);
      CanRefuse(s.installed, Wanted(told), refused) && t == told.(installed := after, rows := after)
    else refused == {} && t == told
  }

  class Core {
    const table: RouteTable
    const routes: InstalledRoutes
    var asked: set<Prefix>
    /** The addresses leased at the moment. */
    var leased: set<Address>
    var wantsV6: bool
    var v6: Ipv6Support

    /** The installed set names exactly the table's rows. */
    ghost predicate Valid()
      reads this, table, routes
    {
      table.rows == routes.installed
    }

    ghost function Now(): State
      reads this, table, routes
    {
      State(asked, leased, wantsV6, v6, routes.installed, table.rows)
    }

    constructor ()
      ensures Valid() && fresh(table) && fresh(routes)
      ensures Now() == State({}, {}, false, Unknown, {}, {})
    {
      table := new RouteTable();
      routes := new InstalledRoutes();
      asked, leased := {}, {};
      wantsV6, v6 := false, Unknown;
    }

    /** Make the routing table agree with both halves: every row that is not refused. */
    method InstallUnion() returns (r: Result<Change, TunError>, ghost refused: set<Prefix>)
      requires Valid()
      modifies table, routes
      ensures Valid() && CanRefuse(old(routes.installed), Wanted(Now()), refused)
      ensures routes.installed == Installed(old(routes.installed), Wanted(Now()), refused)
      ensures r.Ok? <==> refused == {}
      ensures r.Ok? ==> routes.installed == Wanted(Now())
    {
      hide Covers, Refused, Moved, FirstRefusal, Ordered;
      var wanted := asked + (set a | a in leased :: HostRoute(a));
      wanted := set p | p in wanted && Allowed(p, wantsV6, v6);
      ghost var going, coming;
      r, going, coming := routes.Apply(table, wanted);
      refused := Refused(going) + Refused(coming);
    }

    /** The application asks for another set. */
    method SetRoutes(wanted: set<Prefix>) returns (r: Result<Change, TunError>, ghost refused: set<Prefix>)
      requires Valid()
      modifies this`asked, table, routes
      ensures Valid() && Serves(old(Now()), Call.SetRoutes(wanted), refused, Now())
      ensures asked == wanted
      ensures CanRefuse(old(routes.installed), Wanted(Now()), refused)
      ensures routes.installed == Installed(old(routes.installed), Wanted(Now()), refused)
      ensures r.Ok? <==> refused == {}
    {
      asked := wanted;
      r, refused := InstallUnion();
    }

    /** The leases changed: some addresses came to be held, others were let go. */
    method LeasesChanged(now: set<Address>) returns (r: Result<Change, TunError>, ghost refused: set<Prefix>)
      requires Valid()
      modifies this`leased, table, routes
      ensures Valid() && Serves(old(Now()), Call.LeasesChanged(now), refused, Now())
      ensures leased == now
      ensures CanRefuse(old(routes.installed), Wanted(Now()), refused)
      ensures routes.installed == Installed(old(routes.installed), Wanted(Now()), refused)
      ensures r.Ok? <==> refused == {}
    {
      leased := now;
      r, refused := InstallUnion();
    }

    method SetWantsIpv6(wanted: bool)
      requires Valid()
      modifies this`wantsV6
      ensures Valid() && Serves(old(Now()), Call.SetWantsIpv6(wanted), {}, Now())
      ensures wantsV6 == wanted
    {
      wantsV6 := wanted;
    }

    /** Learn whether the tunnel carries IPv6. What was known already changes nothing; a refusal waits
        for the next install. */
    method SetCarriesIpv6(carries: bool) returns (ghost refused: set<Prefix>)
      requires Valid()
      modifies this`v6, table, routes
      ensures Valid() && Serves(old(Now()), Call.SetCarriesIpv6(carries), refused, Now())
      ensures v6 == if carries then Carries else DoesNot
      ensures routes.installed == if v6 == old(v6) then old(routes.installed)
                                  else Installed(old(routes.installed), Wanted(Now()), refused)
    {
      var state := if carries then Carries else DoesNot;
      refused := {};
      if v6 == state {
        return;
      }
      v6 := state;
      var r;
      r, refused := InstallUnion();
    }

    /** Only a no is final. */
    method ShouldProbeIpv6() returns (probe: bool)
      ensures probe <==> v6 != DoesNot
    {
      probe := v6 != DoesNot;
    }
  }

  // ----- runs -----

  /** A run of the core: its calls, what was refused in each, and the states before, between and after
      them. */
  ghost predicate RouteRun(calls: seq<Call>, refusals: seq<set<Prefix>>, ss: seq<State>) {
    && |ss| == |calls| + 1 && |refusals| == |calls| && ss[0].installed == ss[0].rows
    && forall i :: 0 <= i < |calls| ==> Serves(ss[i], calls[i], refusals[i], ss[i + 1])
  }

  /** After any calls under any refusals, the installed set names exactly the table's rows; and after a
      call that installs, it differs from what is wanted in exactly the rows refused. */
  lemma {:induction false} OnlyRefusedRowsDiffer(calls: seq<Call>, refusals: seq<set<Prefix>>, ss: seq<State>, i: nat)
    requires RouteRun(calls, refusals, ss) && i <= |calls|
    ensures ss[i].installed == ss[i].rows
    ensures i > 0 && Installs(ss[i - 1], calls[i - 1]) ==>
              (ss[i].installed - Wanted(ss[i])) + (Wanted(ss[i]) - ss[i].installed) == refusals[i - 1]
    decreases i
  {
    hide Union;
    if i > 0 {
      OnlyRefusedRowsDiffer(calls, refusals, ss, i - 1);
      assert Serves(ss[i - 1], calls[i - 1], refusals[i - 1], ss[i]);
      ToldKeepsRows(ss[i - 1], calls[i - 1], ss[i].installed, ss[i].rows);
    }
  }

  /** What is wanted does not depend on what is installed. */
  lemma ToldKeepsRows(s: State, call: Call, installed: set<Prefix>, rows: set<Prefix>)
    ensures Wanted(Told(s, call).(installed := installed, rows := rows)) == Wanted(Told(s, call))
    ensures Told(s, call).installed == s.installed && Told(s, call).rows == s.rows
  {
  }

  /** Neither half takes away what is still needed: over any calls, whatever is refused, a row that is
      installed and that some half wants at every call that installs is installed at the end. */
  lemma {:induction false} WantedRowsStay(calls: seq<Call>, refusals: seq<set<Prefix>>, ss: seq<State>, p: Prefix,
                                          i: nat, j: nat)
    requires RouteRun(calls, refusals, ss) && i <= j <= |calls| && p in ss[i].installed
    requires forall k :: i <= k < j && Installs(ss[k], calls[k]) ==> p in Wanted(ss[k + 1])
    ensures p in ss[j].installed
    decreases j
  {
    if i < j {
      var k := j - 1;
      WantedRowsStay(calls, refusals, ss, p, i, k);
      assert Serves(ss[k], calls[k], refusals[k], ss[j]);
      ServedRowStays(ss[k], calls[k], refusals[k], ss[j], p);
    }
  }

  lemma ServedRowStays(s: State, call: Call, refused: set<Prefix>, t: State, p: Prefix)
    requires Serves(s, call, refused, t) && p in s.installed
    requires Installs(s, call) ==> p in Wanted(t)
    ensures p in t.installed
  {
    hide Union;
    ToldKeepsRows(s, call, t.installed, t.rows);
  }
}

/** Leases and routes together: an address that carries traffic keeps its route. */
module Traffic {
  import opened Addresses
  import opened Leases
  import opened Routes
  import opened RoutingCore

  datatype Act = OfLeases(e: Event) | OfCore(call: Call, refused: set<Prefix>)

  /** A run of the lease table and the core side by side, from a moment at which the bookkeeping is
      right: whenever the core looks, the addresses leased are those the table holds. */
  ghost predicate JointRun(acts: seq<Act>, hs: seq<Held>, ss: seq<State>) {
    && |hs| == |ss| == |acts| + 1 && ss[0].installed == ss[0].rows
    && forall i :: 0 <= i < |acts| ==> JointStep(acts[i], hs[i], ss[i], hs[i + 1], ss[i + 1])
  }

  ghost predicate JointStep(act: Act, h: Held, s: State, h': Held, s': State) {
    && s.leased == h.Keys && s'.leased == h'.Keys
    && match act
       case OfLeases(e) => Step(h, e, h') && s' == s.(leased := h'.Keys)
       case OfCore(call, refused) =>
         h' == h && Serves(s, call, refused, s') && (call.LeasesChanged? ==> call.now == h.Keys)
  }

  /** Address `a` was recorded or touched at step `t`, less than the shortest lease before `ms`. */
  predicate Lately(acts: seq<Act>, a: Address, t: nat, ms: nat) {
    t < |acts| && acts[t].OfLeases? && Leases.Concerns(acts[t].e, a) && ms < acts[t].e.ms + MIN_LEASE_MS
  }

  /** At step `since`, address `a` was recorded, or touched while it was held. */
  predicate Began(acts: seq<Act>, hs: seq<Held>, a: Address, since: nat)
    requires since < |acts| < |hs|
  {
    && acts[since].OfLeases? && Leases.Concerns(acts[since].e, a)
    && (acts[since].e.Touched? ==> a in hs[since])
  }

  /** At step `k`, the lease of `a` is not let go: not for its age, having been recorded or touched
      lately, though no earlier than `since`, nor for its place. */
  ghost predicate InUse(acts: seq<Act>, hs: seq<Held>, a: Address, since: nat, k: nat)
    requires k < |acts| && |hs| == |acts| + 1
  {
    acts[k].OfLeases? ==>
      && (acts[k].e.Expired? ==> exists t: nat :: since <= t < k && Lately(acts, a, t, acts[k].e.ms))
      && (acts[k].e.Recorded? && a in hs[k] ==> a in hs[k + 1])
  }

  /** A lease in use is renewed and never shortened. */
  lemma LeaseStep(h: Held, e: Event, r: Held, a: Address)
    requires Step(h, e, r) && a in h && (e.Recorded? ==> a in r) && (e.Expired? ==> e.ms < h[a].expires)
    ensures a in r && r[a].expires >= h[a].expires
    ensures Leases.Concerns(e, a) ==> r[a].expires >= e.ms + MIN_LEASE_MS
  {
  }

  /** Being recorded, or touched while held, makes the lease last the shortest lease. */
  lemma BeginningHolds(h: Held, e: Event, r: Held, a: Address)
    requires Step(h, e, r) && Leases.Concerns(e, a) && (e.Touched? ==> a in h)
    ensures a in r && r[a].expires >= e.ms + MIN_LEASE_MS
  {
  }

  /** From a record or touch on, while it is in use, an address stays held, with at least the shortest
      lease from every time it was recorded or touched. */
  lemma {:induction false} InUseStaysHeld(acts: seq<Act>, hs: seq<Held>, ss: seq<State>, a: Address,
                                          since: nat, j: nat)
    requires JointRun(acts, hs, ss) && since < j <= |acts| && Began(acts, hs, a, since)
    requires forall k: nat :: since < k < j ==> InUse(acts, hs, a, since, k)
    ensures a in hs[j]
    ensures forall t: nat, ms: nat :: since <= t < j && Lately(acts, a, t, ms) ==> ms < hs[j][a].expires
    decreases j
  {
    hide Step, Serves;
    var k: nat := j - 1;
    assert JointStep(acts[k], hs[k], ss[k], hs[j], ss[j]);
    if k == since {
      BeginningHolds(hs[k], acts[k].e, hs[j], a);
    } else {
      InUseStaysHeld(acts, hs, ss, a, since, k);
      assert InUse(acts, hs, a, since, k);
      if acts[k].OfLeases? {
        LeaseStep(hs[k], acts[k].e, hs[j], a);
      }
    }
  }

  /** Whatever the leases and the core do, the installed set names exactly the table's rows. */
  lemma {:induction false} BookkeepingIsRight(acts: seq<Act>, hs: seq<Held>, ss: seq<State>, i: nat)
    requires JointRun(acts, hs, ss) && i <= |acts|
    ensures ss[i].installed == ss[i].rows
    decreases i
  {
    hide Step, Union;
    if i > 0 {
      BookkeepingIsRight(acts, hs, ss, i - 1);
      assert JointStep(acts[i - 1], hs[i - 1], ss[i - 1], hs[i], ss[i]);
    }
  }

  /** An address that keeps carrying traffic is never unrouted. It was recorded or touched at `since`;
      from any later moment at which its host route is in the table, the route stays there, through any
      records, expiries, calls and refusals, as long as its family may be routed whenever rows are
      installed, it is not evicted, and no `expire` comes the shortest lease or more after it was last
      recorded or touched. */
  lemma {:induction false} TrafficKeepsItsRoute(acts: seq<Act>, hs: seq<Held>, ss: seq<State>, a: Address,
                                                since: nat, i: nat, j: nat)
    requires JointRun(acts, hs, ss) && since < i <= j <= |acts| && Began(acts, hs, a, since)
    requires HostRoute(a) in ss[i].rows
    requires forall k: nat :: since < k < j ==> InUse(acts, hs, a, since, k)
    requires forall k: nat :: i <= k < j && acts[k].OfCore? && Installs(ss[k], acts[k].call) ==>
                                Allowed(HostRoute(a), ss[k + 1].wantsV6, ss[k + 1].v6)
    ensures a in hs[j] && HostRoute(a) in ss[j].rows
    decreases j
  {
    hide Step, Serves, Union, Allowed, Installs;
    InUseStaysHeld(acts, hs, ss, a, since, j);
    BookkeepingIsRight(acts, hs, ss, j);
    if i < j {
      var k: nat := j - 1;
      TrafficKeepsItsRoute(acts, hs, ss, a, since, i, k);
      BookkeepingIsRight(acts, hs, ss, k);
      assert JointStep(acts[k], hs[k], ss[k], hs[j], ss[j]);
      if acts[k].OfCore? {
        if Installs(ss[k], acts[k].call) {
          HostRouteWanted(ss[j], a);
        }
        ServedRowStays(ss[k], acts[k].call, acts[k].refused, ss[j], HostRoute(a));
      }
    }
  }

  lemma HostRouteWanted(s: State, a: Address)
    requires a in s.leased && Allowed(HostRoute(a), s.wantsV6, s.v6)
    ensures HostRoute(a) in Wanted(s)
  {
  }
}
