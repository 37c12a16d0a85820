/** What the engine's loop makes of whatever the connections do (src/engine.rs), and what it promises
    over every run. Times are milliseconds. */
module EngineModel {
  import opened Common
  import opened Carriers

  const BACKOFF: seq<nat> := [1_000, 2_000, 4_000, 8_000, 15_000]
  const CONNECT_TIMEOUT: nat := 20_000
  const UPGRADE_EVERY: nat := 30_000
  const CUT_SHORT_BYTES: nat := 256 * 1024
  const CUT_SHORT_WITHIN: nat := 60_000
  const CUT_SHORT_RUN: nat := 3

  function Backoff(failures: nat): nat {
    BACKOFF[Min(failures, |BACKOFF| - 1)]
  }

  predicate CutShortLife(lived: int, carried: nat) {
    lived < CUT_SHORT_WITHIN && carried < CUT_SHORT_BYTES
  }

  // ----- what the world does -----

  /** Opening HTTP/2: after a while it opens or fails, unless the attempt is given up first. */
  datatype Try = Opens(after: nat) | Fails(after: nat)

  datatype Opening = Opening(h3: Quic, h2: Try)

  /** How long a tunnel lives. The line under it moves now and then, each time a while after the last;
      at the end it breaks or a reconnect is asked for. `h3` is what an HTTP/3 try started beside it
      at some moment would meet. */
  datatype Life = Life(moves: seq<nat>, lasts: nat, asked: bool, h3: int -> Quic)

  /** What may end the wait between attempts before its time. */
  datatype Wait = Undisturbed | AskedFor(after: nat) | LineChanged(after: nat, moved: bool)

  /** What one turn of the loop meets. */
  datatype Turn = Turn(opening: Opening, life: Life, carried: nat, wait: Wait)

  // ----- what the engine says and does -----

  datatype Phase = Connecting(attempt: nat) | Up(carrier: Carrier) | Lost(retryIn: nat)

  /** An HTTP/3 try begun and how it ended, by opening, by failing or by being dropped; HTTP/3 parked and
      let go; and a tunnel that came up, and was over, or handed over to one over HTTP/3. */
  datatype Deed =
    | Tried(at: int)
    | Opened(at: int)
    | Failed(at: int)
    | Dropped(at: int)
    | ParkedAt(at: int)
    | Unparked(at: int)
    | Began(at: int, carrier: Carrier)
    | Over(at: int, carrier: Carrier, lasted: int, carried: nat)
    | HandedOver(at: int)

  /** What a run is told to use. */
  datatype Setup = Setup(choice: Choice, worksOverQuic: bool)

  datatype State = State(
    clock: int,
    failures: nat,
    cutShort: nat,
    handed: bool,
    until: Option<int>,
    phases: seq<Phase>,
    deeds: seq<Deed>)

  /** Nothing but time, the parking and the deeds differs. */
  predicate SameTurn(s: State, t: State) {
    (t.phases, t.failures, t.cutShort, t.handed) == (s.phases, s.failures, s.cutShort, s.handed)
  }

  function Start(clock: int): State {
    State(clock, 0, 0, false, None, [], [])
  }

  function Tick(s: State, after: nat): State {
    s.(clock := s.clock + after)
  }

  function Note(s: State, d: Deed): State {
    s.(deeds := s.deeds + [d])
  }

  function Say(s: State, p: Phase): State {
    s.(phases := s.phases + [p])
  }

  function Park(s: State): State {
    Note(s.(until := Some(s.clock + PARK_FOR)), ParkedAt(s.clock))
  }

  function Unpark(s: State): State {
    Note(s.(until := None), Unparked(s.clock))
  }

  function ParkAfterFailure(s: State): State {
    Park(Note(s, Failed(s.clock)))
  }

  function PlanNow(c: Setup, s: State): Plan {
    PlanFor(c.choice, c.worksOverQuic, Parked(s.until, s.clock))
  }

  // ----- one attempt -----

  function OpenH2(s: State, t: Try, left: nat): (State, Option<Carrier>) {
    (Tick(s, Min(t.after, left)), if t.Opens? && t.after <= left then Some(H2) else None)
  }

  /** One attempt over the carriers its plan names, within the time allowed for all of it. */
  function Connect(c: Setup, s: State, o: Opening): (r: (State, Option<Carrier>))
    ensures SameTurn(s, r.0)
  {
    var plan := PlanNow(c, s);
    if plan == Only(H2) then OpenH2(s, o.h2, CONNECT_TIMEOUT)
    else
      var tried := Tick(Note(s, Tried(s.clock)), Took(o.h3));
      if Works(o.h3) then (Note(tried, Opened(tried.clock)), Some(H3))
      else if plan == H3ThenH2 then OpenH2(ParkAfterFailure(tried), o.h2, CONNECT_TIMEOUT - Took(o.h3))
      else (Note(tried, Failed(tried.clock)), None)
  }

  // ----- carrying -----

  /** Where the pump stands: when the line last moved or the pump began, when it next looks whether
      HTTP/3 may be tried, and the try under way, when it ends and how. */
  datatype Watch = Watch(at: int, look: int, trying: Option<(int, bool)>)

  /** When something next happens to the tunnel from outside. */
  function Outside(w: Watch, moves: seq<nat>, life: Life): int {
    w.at + if moves == [] then life.lasts else moves[0]
  }

  /** When the upgrading side next does something: look, or see its try end. */
  function Inside(w: Watch): int {
    if w.trying.Some? then w.trying.value.0 else w.look
  }

  function Left(inside: int, outside: int): nat {
    if inside > outside then 0 else outside - inside + 1
  }

  /** One step of the upgrading side, at its moment: `true` when HTTP/3 takes over. */
  function Upgrade(c: Setup, s: State, w: Watch, life: Life): (r: (State, Watch, bool))
    ensures SameTurn(s, r.0)
  {
    var t := s.(clock := Inside(w));
    match w.trying
    case Some((_, true)) => (Note(t, Opened(t.clock)), w.(trying := None), true)
    case Some((_, false)) => (ParkAfterFailure(t), Watch(w.at, t.clock + UPGRADE_EVERY, None), false)
    case None =>
      if PlanNow(c, t) == H3ThenH2 then
        var q := life.h3(t.clock);
        (Note(t, Tried(t.clock)), w.(trying := Some((t.clock + Took(q), Works(q)))), false)
      else (t, w.(look := t.clock + UPGRADE_EVERY), false)
  }

  /** The tunnel stops, and with it whatever was being opened beside it. */
  function Stop(s: State, w: Watch, life: Life): State {
    var t := s.(clock := Outside(w, [], life));
    var u := if life.asked then Unpark(t) else t;
    if w.trying.Some? then Note(u, Dropped(u.clock)) else u
  }

  /** Carry until something stops it: `true` when HTTP/3 opened beside a tunnel over HTTP/2. */
  function PumpFrom(c: Setup, s: State, carrier: Carrier, w: Watch, moves: seq<nat>, life: Life)
    : (r: (State, bool))
    ensures SameTurn(s, r.0) && (r.1 ==> carrier == H2)
    decreases |moves|, Left(Inside(w), Outside(w, moves, life)), if w.trying.None? then 1 else 0
  {
    var outside := Outside(w, moves, life);
    if carrier == H2 && Inside(w) <= outside then
      var (t, v, swapped) := Upgrade(c, s, w, life);
      if swapped then (t, true) else PumpFrom(c, t, carrier, v, moves, life)
    else if moves != [] then
      PumpFrom(c, Unpark(s.(clock := outside)), carrier, w.(at := outside), moves[1..], life)
    else (Stop(s, w, life), false)
  }

  function FreshWatch(clock: int): Watch {
    Watch(clock, clock + UPGRADE_EVERY, None)
  }

  function Pump(c: Setup, s: State, carrier: Carrier, life: Life): (State, bool) {
    PumpFrom(c, s, carrier, FreshWatch(s.clock), life.moves, life)
  }

  // ----- a turn of the loop -----

  /** Short lives are counted; enough in a row, or one right after HTTP/2 carried, park HTTP/3. */
  function CountLife(s: State, lived: int, carried: nat, carrier: Carrier, upgraded: bool): State {
    var over := Note(s, Over(s.clock, carrier, lived, carried));
    if !CutShortLife(lived, carried) then over.(cutShort := 0)
    else
      var t := over.(cutShort := s.cutShort + 1);
      if (t.cutShort >= CUT_SHORT_RUN || upgraded) && carrier == H3 then Park(t) else t
  }

  /** The wait lasts as long as was said, or until a reconnect is asked for or the line changes. */
  function WaitOut(s: State, retryIn: nat, wait: Wait): State {
    if wait.Undisturbed? || wait.after >= retryIn then Tick(s, retryIn)
    else
      var t := Tick(s, wait.after);
      if wait.AskedFor? || wait.moved then Unpark(t) else t
  }

  function Fall(s: State, wait: Wait): State {
    var retryIn := Backoff(s.failures);
    WaitOut(Say(s, Lost(retryIn)).(failures := s.failures + 1), retryIn, wait)
  }

  /** Take the tunnel handed over, or say that one is being opened and open it. */
  function TakeOrConnect(c: Setup, s: State, o: Opening): (State, Option<Carrier>) {
    if s.handed then (s.(handed := false), Some(H3)) else Connect(c, Say(s, Connecting(s.failures + 1)), o)
  }

  /** Carry, and say what became of it; a tunnel handed over starts the next turn at once. */
  function Carry(c: Setup, s: State, carrier: Carrier, upgraded: bool, turn: Turn): State {
    var (t, swapped) := Pump(c, s, carrier, turn.life);
    if swapped then Note(t.(handed := true), HandedOver(t.clock))
    else Fall(CountLife(t, t.clock - s.clock, turn.carried, carrier, upgraded), turn.wait)
  }

  function Begin(s: State, carrier: Carrier): State {
    Note(Say(s, Up(carrier)).(failures := 0), Began(s.clock, carrier))
  }

  function OneTurn(c: Setup, s: State, turn: Turn): State {
    match TakeOrConnect(c, s, turn.opening)
    case (t, Some(carrier)) => Carry(c, Begin(t, carrier), carrier, s.handed, turn)
    case (t, None) => Fall(t, turn.wait)
  }

  function Run(c: Setup, s: State, turns: seq<Turn>): State {
    if turns == [] then s else OneTurn(c, Run(c, s, turns[..|turns| - 1]), turns[|turns| - 1])
  }

  // ----- what the deeds tell -----

  /** Until when the deeds so far leave HTTP/3 alone. */
  function UntilOf(deeds: seq<Deed>): Option<int> {
    if deeds == [] then None
    else
      match deeds[|deeds| - 1]
      case ParkedAt(at) => Some(at + PARK_FOR)
      case Unparked(_) => None
      case _ => UntilOf(deeds[..|deeds| - 1])
  }

  /** Deeds come in order of time. */
  ghost predicate Timely(deeds: seq<Deed>, clock: int) {
    && (forall i, j :: 0 <= i < j < |deeds| ==> deeds[i].at <= deeds[j].at)
    && (forall i :: 0 <= i < |deeds| ==> deeds[i].at <= clock)
  }

  /** Under `auto`, HTTP/3 is tried only when it is not parked, and parked as soon as it failed. */
  ghost predicate Dutiful(deeds: seq<Deed>, i: nat)
    requires i < |deeds|
  {
    && (deeds[i].Tried? ==> !Parked(UntilOf(deeds[..i]), deeds[i].at))
    && (deeds[i].Failed? ==> i + 1 < |deeds| && deeds[i + 1] == ParkedAt(deeds[i].at))
  }

  predicate IsEnd(d: Deed) {
    d.Opened? || d.Failed? || d.Dropped?
  }

  /** The try begun at `i` ended at `j`: nothing but a letting go came in between, and it took no
      longer than its waits. */
  ghost predicate Settles(deeds: seq<Deed>, i: nat, j: nat) {
    && i < j < |deeds| && deeds[i].Tried? && IsEnd(deeds[j])
    && (forall k :: i < k < j ==> deeds[k].Unparked?)
    && deeds[j].at <= deeds[i].at + H3_LIMIT
  }

  /** The try begun at `i` has not ended. */
  ghost predicate Pending(deeds: seq<Deed>, i: nat) {
    i < |deeds| && deeds[i].Tried? && forall k :: i < k < |deeds| ==> deeds[k].Unparked?
  }

  ghost predicate Ends(deeds: seq<Deed>, i: nat) {
    exists j: nat :: Settles(deeds, i, j)
  }

  /** Every try has ended, but for the one that is under way. */
  ghost predicate Settled(deeds: seq<Deed>, pending: Option<nat>) {
    && (forall i: nat :: i < |deeds| && deeds[i].Tried? && pending != Some(i) ==> Ends(deeds, i))
    && (pending.Some? ==> Pending(deeds, pending.value))
  }

  ghost predicate AllDutiful(deeds: seq<Deed>) {
    forall i: nat :: i < |deeds| ==> Dutiful(deeds, i)
  }

  ghost predicate Parking(c: Setup, s: State, pending: Option<nat>) {
    && s.until == UntilOf(s.deeds) && Timely(s.deeds, s.clock)
    && (c.choice == Auto ==> AllDutiful(s.deeds))
    && Settled(s.deeds, pending)
  }

  // ----- one deed more -----

  lemma UntilNote(deeds: seq<Deed>, d: Deed)
    ensures UntilOf(deeds + [d]) ==
            match d
            case ParkedAt(at) => Some(at + PARK_FOR)
            case Unparked(_) => None
            case _ => UntilOf(deeds)
  {
    assert (deeds + [d])[..|deeds|] == deeds;
  }

  lemma DutyGoesOn(deeds: seq<Deed>, d: Deed)
    requires AllDutiful(deeds) && !d.Failed? && (d.Tried? ==> !Parked(UntilOf(deeds), d.at))
    ensures AllDutiful(deeds + [d])
  {
    hide UntilOf;
    var more := deeds + [d];
    forall i: nat | i < |more|
      ensures Dutiful(more, i)
    {
      if i < |deeds| {
        assert Dutiful(deeds, i);
        assert more[..i] == deeds[..i];
      } else {
        assert more[..i] == deeds;
      }
    }
  }

  lemma DutyAfterFailure(deeds: seq<Deed>, at: int)
    requires AllDutiful(deeds)
    ensures AllDutiful(deeds + [Failed(at)] + [ParkedAt(at)])
  {
    hide UntilOf;
    var more := deeds + [Failed(at)] + [ParkedAt(at)];
    forall i: nat | i < |more|
      ensures Dutiful(more, i)
    {
      if i < |deeds| {
        assert Dutiful(deeds, i);
        assert more[..i] == deeds[..i];
      }
    }
  }

  /** Tries that ended stay ended. */
  lemma EndsStay(deeds: seq<Deed>, more: seq<Deed>, i: nat)
    requires Ends(deeds, i) && deeds <= more
    ensures Ends(more, i)
  {
    var j: nat :| Settles(deeds, i, j);
    assert Settles(more, i, j);
  }

  /** A deed that is no try and no end: a parking only while nothing is pending. */
  lemma SettledNote(deeds: seq<Deed>, pending: Option<nat>, d: Deed)
    requires Settled(deeds, pending) && !d.Tried? && (d.Unparked? || pending.None?)
    ensures Settled(deeds + [d], pending)
  {
    hide Ends;
    var more := deeds + [d];
    forall i: nat | i < |more| && more[i].Tried? && pending != Some(i)
      ensures Ends(more, i)
    {
      EndsStay(deeds, more, i);
    }
  }

  lemma SettledBegins(deeds: seq<Deed>, at: int)
    requires Settled(deeds, None)
    ensures Settled(deeds + [Tried(at)], Some(|deeds|))
  {
    hide Ends;
    var more := deeds + [Tried(at)];
    forall i: nat | i < |more| && more[i].Tried? && Some(|deeds|) != Some(i)
      ensures Ends(more, i)
    {
      EndsStay(deeds, more, i);
    }
  }

  lemma SettledEnds(deeds: seq<Deed>, p: nat, d: Deed)
    requires Settled(deeds, Some(p)) && IsEnd(d) && d.at <= deeds[p].at + H3_LIMIT
    ensures Settled(deeds + [d], None)
  {
    hide Ends;
    var more := deeds + [d];
    assert Settles(more, p, |deeds|);
    forall i: nat | i < |more| && more[i].Tried?
      ensures Ends(more, i)
    {
      if i == p {
        EndsAt(more, p, |deeds|);
      } else {
        EndsStay(deeds, more, i);
      }
    }
  }

  lemma EndsAt(deeds: seq<Deed>, i: nat, j: nat)
    requires Settles(deeds, i, j)
    ensures Ends(deeds, i)
  {
  }

  // ----- each step keeps the parking -----

  lemma TickKeeps(c: Setup, s: State, pending: Option<nat>, clock: int)
    requires Parking(c, s, pending) && s.clock <= clock
    ensures Parking(c, s.(clock := clock), pending)
  {
  }

  lemma UnparkKeeps(c: Setup, s: State, pending: Option<nat>)
    requires Parking(c, s, pending)
    ensures Parking(c, Unpark(s), pending)
  {
    hide UntilOf, Settled, AllDutiful;
    UntilNote(s.deeds, Unparked(s.clock));
    SettledNote(s.deeds, pending, Unparked(s.clock));
    if c.choice == Auto {
      DutyGoesOn(s.deeds, Unparked(s.clock));
    }
  }

  lemma ParkKeeps(c: Setup, s: State)
    requires Parking(c, s, None)
    ensures Parking(c, Park(s), None)
  {
    hide UntilOf, Settled, AllDutiful;
    UntilNote(s.deeds, ParkedAt(s.clock));
    SettledNote(s.deeds, None, ParkedAt(s.clock));
    if c.choice == Auto {
      DutyGoesOn(s.deeds, ParkedAt(s.clock));
    }
  }

  /** A tunnel that came up, was over or handed over, while no try is under way. */
  lemma LifeKeeps(c: Setup, s: State, d: Deed)
    requires Parking(c, s, None) && d.at == s.clock && (d.Began? || d.Over? || d.HandedOver?)
    ensures Parking(c, Note(s, d), None)
  {
    hide UntilOf, Settled, AllDutiful;
    UntilNote(s.deeds, d);
    SettledNote(s.deeds, None, d);
    if c.choice == Auto {
      DutyGoesOn(s.deeds, d);
    }
  }

  lemma TriedKeeps(c: Setup, s: State)
    requires Parking(c, s, None) && (c.choice == Auto ==> !Parked(s.until, s.clock))
    ensures Parking(c, Note(s, Tried(s.clock)), Some(|s.deeds|))
  {
    hide UntilOf, Settled, AllDutiful;
    UntilNote(s.deeds, Tried(s.clock));
    SettledBegins(s.deeds, s.clock);
    if c.choice == Auto {
      DutyGoesOn(s.deeds, Tried(s.clock));
    }
  }

  /** The try under way began no longer ago than its waits. */
  ghost predicate InTime(s: State, p: nat, now: int) {
    p < |s.deeds| && now <= s.deeds[p].at + H3_LIMIT
  }

  lemma EndKeeps(c: Setup, s: State, p: nat, d: Deed)
    requires Parking(c, s, Some(p)) && InTime(s, p, s.clock) && IsEnd(d) && d.at == s.clock
    requires d.Failed? ==> c.choice != Auto
    ensures Parking(c, Note(s, d), None)
  {
    hide UntilOf, Settled, AllDutiful;
    UntilNote(s.deeds, d);
    SettledEnds(s.deeds, p, d);
    if c.choice == Auto {
      DutyGoesOn(s.deeds, d);
    }
  }

  lemma FailureKeeps(c: Setup, s: State, p: nat)
    requires Parking(c, s, Some(p)) && InTime(s, p, s.clock)
    ensures Parking(c, ParkAfterFailure(s), None)
  {
    hide UntilOf, Settled, AllDutiful;
    var failed := s.deeds + [Failed(s.clock)];
    UntilNote(s.deeds, Failed(s.clock));
    UntilNote(failed, ParkedAt(s.clock));
    SettledEnds(s.deeds, p, Failed(s.clock));
    SettledNote(failed, None, ParkedAt(s.clock));
    if c.choice == Auto {
      DutyAfterFailure(s.deeds, s.clock);
    }
  }

  lemma ConnectKeeps(c: Setup, s: State, o: Opening)
    requires Parking(c, s, None)
    ensures Parking(c, Connect(c, s, o).0, None)
    ensures s.clock <= Connect(c, s, o).0.clock <= s.clock + CONNECT_TIMEOUT
  {
    hide Parking, Took, Works;
    var plan := PlanNow(c, s);
    if plan == Only(H2) {
      TickKeeps(c, s, None, Connect(c, s, o).0.clock);
    } else {
      var p := |s.deeds|;
      TriedKeeps(c, s);
      var begun := Note(s, Tried(s.clock));
      var tried := Tick(begun, Took(o.h3));
      TickKeeps(c, begun, Some(p), tried.clock);
      if Works(o.h3) {
        EndKeeps(c, tried, p, Opened(tried.clock));
      } else if plan == H3ThenH2 {
        FailureKeeps(c, tried, p);
        TickKeeps(c, ParkAfterFailure(tried), None, Connect(c, s, o).0.clock);
      } else {
        EndKeeps(c, tried, p, Failed(tried.clock));
      }
    }
  }

  /** The pump's watch agrees with the deeds and the clock. */
  ghost predicate Watching(c: Setup, s: State, carrier: Carrier, w: Watch, outside: int, pending: Option<nat>) {
    && Parking(c, s, pending) && s.clock <= outside
    && (w.trying.Some? <==> pending.Some?)
    && (pending.Some? ==> InTime(s, pending.value, w.trying.value.0))
    && (carrier == H2 ==> s.clock <= Inside(w))
    && (carrier == H3 ==> pending.None?)
  }

  lemma UpgradeKeeps(c: Setup, s: State, w: Watch, outside: int, pending: Option<nat>, life: Life)
    returns (then_: Option<nat>)
    requires Watching(c, s, H2, w, outside, pending) && Inside(w) <= outside
    ensures var (t, v, swapped) := Upgrade(c, s, w, life);
            if swapped then Parking(c, t, None) && s.clock <= t.clock
            else Watching(c, t, H2, v, outside, then_) && s.clock <= t.clock
  {
    hide Parking, Took, Works;
    var t := s.(clock := Inside(w));
    TickKeeps(c, s, pending, t.clock);
    then_ := None;
    if w.trying.Some? {
      if w.trying.value.1 {
        EndKeeps(c, t, pending.value, Opened(t.clock));
      } else {
        FailureKeeps(c, t, pending.value);
      }
    } else if PlanNow(c, t) == H3ThenH2 {
      TriedKeeps(c, t);
      then_ := Some(|t.deeds|);
    }
  }

  lemma StopKeeps(c: Setup, s: State, carrier: Carrier, w: Watch, life: Life, pending: Option<nat>)
    requires Watching(c, s, carrier, w, Outside(w, [], life), pending)
    requires carrier == H2 ==> Outside(w, [], life) < Inside(w)
    ensures Parking(c, Stop(s, w, life), None) && s.clock <= Stop(s, w, life).clock
  {
    hide Parking;
    var t := s.(clock := Outside(w, [], life));
    TickKeeps(c, s, pending, t.clock);
    var u := if life.asked then Unpark(t) else t;
    UnparkKeeps(c, t, pending);
    if pending.Some? {
      EndKeeps(c, u, pending.value, Dropped(u.clock));
    }
  }

  lemma {:induction false} PumpKeeps(c: Setup, s: State, carrier: Carrier, w: Watch, moves: seq<nat>, life: Life,
                                     pending: Option<nat>)
    requires Watching(c, s, carrier, w, Outside(w, moves, life), pending)
    ensures Parking(c, PumpFrom(c, s, carrier, w, moves, life).0, None)
    ensures s.clock <= PumpFrom(c, s, carrier, w, moves, life).0.clock
    decreases |moves|, Left(Inside(w), Outside(w, moves, life)), if w.trying.None? then 1 else 0
  {
    hide Parking, Upgrade, Stop;
    var outside := Outside(w, moves, life);
    if carrier == H2 && Inside(w) <= outside {
      var then_ := UpgradeKeeps(c, s, w, outside, pending, life);
      UpgradeGoesOn(c, s, w, moves, life);
      var (t, v, swapped) := Upgrade(c, s, w, life);
      if !swapped {
        PumpKeeps(c, t, carrier, v, moves, life, then_);
      }
    } else if moves != [] {
      var t := s.(clock := outside);
      TickKeeps(c, s, pending, outside);
      UnparkKeeps(c, t, pending);
      PumpKeeps(c, Unpark(t), carrier, w.(at := outside), moves[1..], life, pending);
    } else {
      StopKeeps(c, s, carrier, w, life, pending);
    }
  }

  /** Upgrading always gets closer to what happens outside. */
  lemma UpgradeGoesOn(c: Setup, s: State, w: Watch, moves: seq<nat>, life: Life)
    requires Inside(w) <= Outside(w, moves, life)
    ensures var (t, v, swapped) := Upgrade(c, s, w, life);
            && v.at == w.at
            && (!swapped ==>
                  || Left(Inside(v), Outside(v, moves, life)) < Left(Inside(w), Outside(w, moves, life))
                  || (Left(Inside(v), Outside(v, moves, life)) == Left(Inside(w), Outside(w, moves, life))
                      && w.trying.None? && v.trying.Some?))
  {
    hide Took, Works;
  }

  lemma CountLifeKeeps(c: Setup, s: State, lived: int, carried: nat, carrier: Carrier, upgraded: bool)
    requires Parking(c, s, None)
    ensures Parking(c, CountLife(s, lived, carried, carrier, upgraded), None)
  {
    hide Parking;
    var over := Note(s, Over(s.clock, carrier, lived, carried));
    LifeKeeps(c, s, Over(s.clock, carrier, lived, carried));
    CountKeeps(c, over, s.cutShort + 1);
    CountKeeps(c, over, 0);
    ParkKeeps(c, over.(cutShort := s.cutShort + 1));
  }

  lemma CountKeeps(c: Setup, s: State, cutShort: nat)
    requires Parking(c, s, None)
    ensures Parking(c, s.(cutShort := cutShort), None)
  {
  }

  lemma WaitOutKeeps(c: Setup, s: State, retryIn: nat, wait: Wait)
    requires Parking(c, s, None)
    ensures Parking(c, WaitOut(s, retryIn, wait), None)
  {
    hide Parking;
    if wait.Undisturbed? || wait.after >= retryIn {
      TickKeeps(c, s, None, s.clock + retryIn);
    } else {
      TickKeeps(c, s, None, s.clock + wait.after);
      UnparkKeeps(c, Tick(s, wait.after), None);
    }
  }

  // ----- what the phases tell -----

  /** Losses since the last tunnel came up, or since the start. */
  function Losses(phases: seq<Phase>): nat {
    if phases == [] then 0
    else
      match phases[|phases| - 1]
      case Up(_) => 0
      case Lost(_) => Losses(phases[..|phases| - 1]) + 1
      case Connecting(_) => Losses(phases[..|phases| - 1])
  }

  /** The number a phase carries follows from the losses before it. */
  ghost predicate Numbered(phases: seq<Phase>, i: nat)
    requires i < |phases|
  {
    match phases[i]
    case Connecting(attempt) => attempt == Losses(phases[..i]) + 1
    case Up(_) => true
    case Lost(retryIn) => retryIn == Backoff(Losses(phases[..i]))
  }

  ghost predicate AllNumbered(phases: seq<Phase>) {
    forall i: nat :: i < |phases| ==> Numbered(phases, i)
  }

  /** Where in a round a trace of phases stands. */
  datatype Standing = Between | Trying | CarryingH2 | Carrying | Astray

  function Next(s: Standing, p: Phase): Standing {
    match (s, p)
    case (Between, Connecting(_)) => Trying
    case (Trying, Up(H2)) => CarryingH2
    case (Trying, Up(H3)) => Carrying
    case (Trying, Lost(_)) => Between
    case (CarryingH2, Up(H3)) => Carrying
    case (CarryingH2, Lost(_)) => Between
    case (Carrying, Lost(_)) => Between
    case _ => Astray
  }

  function StandingOf(phases: seq<Phase>): Standing {
    if phases == [] then Between else Next(StandingOf(phases[..|phases| - 1]), phases[|phases| - 1])
  }

  ghost predicate Phased(s: State, standing: Standing) {
    s.failures == Losses(s.phases) && AllNumbered(s.phases) && StandingOf(s.phases) == standing
  }

  ghost predicate Good(c: Setup, s: State) {
    Parking(c, s, None) && Phased(s, if s.handed then CarryingH2 else Between)
  }

  lemma PhasesNote(phases: seq<Phase>, p: Phase)
    requires AllNumbered(phases)
    requires p.Connecting? ==> p.attempt == Losses(phases) + 1
    requires p.Lost? ==> p.retryIn == Backoff(Losses(phases))
    ensures AllNumbered(phases + [p])
    ensures Losses(phases + [p]) == match p
                                    case Up(_) => 0
                                    case Lost(_) => Losses(phases) + 1
                                    case Connecting(_) => Losses(phases)
    ensures StandingOf(phases + [p]) == Next(StandingOf(phases), p)
  {
    var more := phases + [p];
    assert more[..|phases|] == phases;
    forall i: nat | i < |more|
      ensures Numbered(more, i)
    {
      if i < |phases| {
        assert Numbered(phases, i);
        assert more[..i] == phases[..i];
      }
    }
  }

  lemma SayKeeps(c: Setup, s: State, p: Phase, failures: nat)
    requires Parking(c, s, None)
    ensures Parking(c, Say(s, p).(failures := failures), None)
  {
  }

  lemma FallKeeps(c: Setup, s: State, standing: Standing, wait: Wait)
    requires Parking(c, s, None) && Phased(s, standing) && !s.handed
    requires standing == Trying || standing == CarryingH2 || standing == Carrying
    ensures Good(c, Fall(s, wait))
  {
    hide Parking, Losses, AllNumbered, StandingOf;
    var retryIn := Backoff(s.failures);
    PhasesNote(s.phases, Lost(retryIn));
    SayKeeps(c, s, Lost(retryIn), s.failures + 1);
    WaitOutKeeps(c, Say(s, Lost(retryIn)).(failures := s.failures + 1), retryIn, wait);
  }

  lemma TakeOrConnectKeeps(c: Setup, s: State, o: Opening)
    requires Good(c, s)
    ensures var (t, up) := TakeOrConnect(c, s, o);
            && Parking(c, t, None) && !t.handed && Phased(t, if s.handed then CarryingH2 else Trying)
            && (s.handed ==> up == Some(H3))
  {
    hide Losses, AllNumbered, StandingOf, Connect, UntilOf, Timely, AllDutiful, Settled;
    if !s.handed {
      PhasesNote(s.phases, Connecting(s.failures + 1));
      SayKeeps(c, s, Connecting(s.failures + 1), s.failures);
      ConnectKeeps(c, Say(s, Connecting(s.failures + 1)), o);
    }
  }

  lemma HandingKeeps(c: Setup, s: State)
    requires Parking(c, s, None)
    ensures Parking(c, Note(s.(handed := true), HandedOver(s.clock)), None)
  {
    LifeKeeps(c, s.(handed := true), HandedOver(s.clock));
  }

  lemma CarryKeeps(c: Setup, s: State, carrier: Carrier, upgraded: bool, turn: Turn)
    requires Parking(c, s, None) && !s.handed
    requires Phased(s, if carrier == H2 then CarryingH2 else Carrying)
    ensures Good(c, Carry(c, s, carrier, upgraded, turn))
  {
    hide Losses, AllNumbered, StandingOf, PumpFrom, UntilOf, Timely, AllDutiful, Settled;
    PumpKeeps(c, s, carrier, FreshWatch(s.clock), turn.life.moves, turn.life, None);
    var (t, swapped) := Pump(c, s, carrier, turn.life);
    if !swapped {
      CountLifeKeeps(c, t, t.clock - s.clock, turn.carried, carrier, upgraded);
      FallKeeps(c, CountLife(t, t.clock - s.clock, turn.carried, carrier, upgraded),
                if carrier == H2 then CarryingH2 else Carrying, turn.wait);
    } else {
      HandingKeeps(c, t);
    }
  }

  lemma TurnKeeps(c: Setup, s: State, turn: Turn)
    requires Good(c, s)
    ensures Good(c, OneTurn(c, s, turn))
  {
    hide Losses, AllNumbered, StandingOf, Parking, TakeOrConnect, Carry, Fall;
    TakeOrConnectKeeps(c, s, turn.opening);
    var (t, up) := TakeOrConnect(c, s, turn.opening);
    match up
    case Some(carrier) =>
      PhasesNote(t.phases, Up(carrier));
      SayKeeps(c, t, Up(carrier), 0);
      LifeKeeps(c, Say(t, Up(carrier)).(failures := 0), Began(t.clock, carrier));
      CarryKeeps(c, Begin(t, carrier), carrier, s.handed, turn);
    case None =>
      FallKeeps(c, t, Trying, turn.wait);
  }

  lemma {:induction false} RunKeeps(c: Setup, start: int, turns: seq<Turn>)
    ensures Good(c, Run(c, Start(start), turns))
    decreases |turns|
  {
    hide OneTurn;
    if turns != [] {
      RunKeeps(c, start, turns[..|turns| - 1]);
      TurnKeeps(c, Run(c, Start(start), turns[..|turns| - 1]), turns[|turns| - 1]);
    }
  }

  // ----- what a trace of phases looks like -----

  /** A round: connecting, then optionally up, or up over HTTP/2 and then over HTTP/3, then lost. */
  predicate IsRound(r: seq<Phase>) {
    || (|r| == 2 && r[0].Connecting? && r[1].Lost?)
    || (|r| == 3 && r[0].Connecting? && r[1].Up? && r[2].Lost?)
    || (|r| == 4 && r[0].Connecting? && r[1] == Up(H2) && r[2] == Up(H3) && r[3].Lost?)
  }

  /** The start of a round that is not over. */
  predicate IsStart(r: seq<Phase>, s: Standing) {
    match s
    case Between => r == []
    case Trying => |r| == 1 && r[0].Connecting?
    case CarryingH2 => |r| == 2 && r[0].Connecting? && r[1] == Up(H2)
    case Carrying =>
      || (|r| == 2 && r[0].Connecting? && r[1] == Up(H3))
      || (|r| == 3 && r[0].Connecting? && r[1] == Up(H2) && r[2] == Up(H3))
    case Astray => false
  }

  /** A trace that never goes astray is whole rounds and the start of one more. */
  lemma {:induction false} TracesAreRounds(phases: seq<Phase>) returns (rounds: seq<seq<Phase>>, last: seq<Phase>)
    requires StandingOf(phases) != Astray
    ensures phases == Flatten(rounds) + last
    ensures forall i :: 0 <= i < |rounds| ==> IsRound(rounds[i])
    ensures IsStart(last, StandingOf(phases))
    decreases |phases|
  {
    if phases == [] {
      rounds, last := [], [];
    } else {
      var front, p := phases[..|phases| - 1], phases[|phases| - 1];
      rounds, last := TracesAreRounds(front);
      var more := last + [p];
      assert phases == Flatten(rounds) + more;
      if StandingOf(phases) == Between {
        assert IsRound(more);
        FlattenAppend(rounds, [more]);
        assert Flatten([more]) == more + Flatten([][..]);
        assert more + [] == more;
        rounds, last := rounds + [more], [];
        assert phases == Flatten(rounds) + [];
      } else {
        last := more;
      }
    }
  }

  /** The phases of any run are repetitions of Connecting, then optionally Up, or Up over HTTP/2
      followed by Up over HTTP/3, then Lost; each attempt is numbered, and each wait chosen, by the
      losses since a tunnel last came up. */
  lemma PhasesOfARun(c: Setup, start: int, turns: seq<Turn>) returns (rounds: seq<seq<Phase>>, last: seq<Phase>)
    ensures var s := Run(c, Start(start), turns);
            && s.phases == Flatten(rounds) + last
            && (forall i :: 0 <= i < |rounds| ==> IsRound(rounds[i]))
            && (last == [] || (|last| == 2 && last[0].Connecting? && last[1] == Up(H2) && s.handed))
            && AllNumbered(s.phases)
  {
    hide Run;
    RunKeeps(c, start, turns);
    rounds, last := TracesAreRounds(Run(c, Start(start), turns).phases);
  }

  // ----- parking holds -----

  /** Under `auto`, with HTTP/3 not parked, an attempt ends without HTTP/3 exactly when HTTP/3 was
      parked on the way, and it is parked still: a try always settles within its own waits. HTTP/2 has
      what is left of twenty seconds. */
  lemma AnAttemptOpensOrParks(c: Setup, s: State, o: Opening)
    requires c.choice == Auto && c.worksOverQuic && !Parked(s.until, s.clock)
    ensures var (t, up) := Connect(c, s, o);
            && (up == Some(H3) <==> Works(o.h3))
            && (up != Some(H3) <==> Parked(t.until, t.clock))
            && (up == Some(H2) <==> !Works(o.h3) && o.h2.Opens? && Took(o.h3) + o.h2.after <= 20_000)
            && t.until == (if Works(o.h3) then s.until else Some(s.clock + Took(o.h3) + PARK_FOR))
            && t.clock == s.clock + if Works(o.h3) then Took(o.h3) else Min(Took(o.h3) + o.h2.after, 20_000)
  {
    hide Took, Works;
  }

  /** With HTTP/3 parked or no way to use it, an attempt is over HTTP/2 alone, and opens exactly if that does
      within twenty seconds; told HTTP/3, it is over that alone. Neither parks anything. */
  lemma AnAttemptOverOne(c: Setup, s: State, o: Opening)
    requires OneCarrier(c) || Parked(s.until, s.clock)
    ensures var (t, up) := Connect(c, s, o);
            && t.until == s.until
            && if OneCarrier(c) && Chosen(c) == H3
               then up == (if Works(o.h3) then Some(H3) else None) && t.clock == s.clock + Took(o.h3)
               else up == (if o.h2.Opens? && o.h2.after <= 20_000 then Some(H2) else None) &&
                    t == s.(clock := s.clock + Min(o.h2.after, 20_000))
  {
    hide Took, Works;
  }

  /** The time left alone: fifteen seconds at most, and up to there twice as long each time. */
  function Doubled(n: nat): nat {
    if n == 0 then 1_000 else 2 * Doubled(n - 1)
  }

  lemma {:induction false} WaitsDouble(n: nat)
    ensures Backoff(n) == Min(Doubled(n), 15_000)
    ensures n >= 4 ==> Doubled(n) >= 16_000
    decreases n
  {
    if n > 0 {
      WaitsDouble(n - 1);
    }
  }

  /** Beside a tunnel over HTTP/2, with nothing being tried, HTTP/3 is looked at again thirty seconds after a
      look that found it parked, and thirty seconds after a try that failed. */
  lemma LooksComeAround(c: Setup, s: State, w: Watch, moves: seq<nat>, life: Life)
    requires Inside(w) <= Outside(w, moves, life)
    ensures w.trying.None? && Parked(s.until, w.look) ==>
              PumpFrom(c, s, H2, w, moves, life) ==
              PumpFrom(c, s.(clock := w.look), H2, w.(look := w.look + 30_000), moves, life)
    ensures w.trying.Some? && !w.trying.value.1 ==>
              var at := w.trying.value.0;
              PumpFrom(c, s, H2, w, moves, life) ==
              PumpFrom(c, ParkAfterFailure(s.(clock := at)), H2, Watch(w.at, at + 30_000, None), moves, life)
  {
    hide Took, Works;
    UpgradeGoesOn(c, s, w, moves, life);
  }

  /** From a park on, without a letting go, HTTP/3 stays parked at least that long. */
  lemma {:induction false} StaysParked(deeds: seq<Deed>, clock: int, i: nat, j: nat)
    requires Timely(deeds, clock) && i < j <= |deeds| && deeds[i].ParkedAt?
    requires forall k :: i < k < j ==> !deeds[k].Unparked?
    ensures UntilOf(deeds[..j]).Some? && UntilOf(deeds[..j]).value >= deeds[i].at + PARK_FOR
    decreases j
  {
    var front := deeds[..j];
    assert front[..j - 1] == deeds[..j - 1];
    if j > i + 1 {
      StaysParked(deeds, clock, i, j - 1);
    }
  }

  /** HTTP/3 not parked stays so while it is only let go. */
  lemma {:induction false} StaysUnparked(deeds: seq<Deed>, clock: int, i: nat, j: nat)
    requires Timely(deeds, clock) && i < j <= |deeds| && !Parked(UntilOf(deeds[..i]), deeds[i].at)
    requires forall k :: i <= k < j ==> !deeds[k].ParkedAt?
    ensures !Parked(UntilOf(deeds[..j]), deeds[j - 1].at)
    decreases j
  {
    var front := deeds[..j];
    assert front[..j - 1] == deeds[..j - 1];
    if j > i + 1 {
      StaysUnparked(deeds, clock, i, j - 1);
    }
  }

  /** Under `auto`, every HTTP/3 try but the last ended before the next, within its waits. After one
      that failed, the next comes no sooner than ten minutes later, unless HTTP/3 was let go in
      between: the line moved or a reconnect was asked for. One that opened, or was dropped with the
      tunnel it was opening beside, leaves HTTP/3 free. */
  lemma ParkingHolds(c: Setup, start: int, turns: seq<Turn>, i: nat, k: nat) returns (j: nat)
    requires c.choice == Auto && i < k < |Run(c, Start(start), turns).deeds|
    requires Run(c, Start(start), turns).deeds[i].Tried? && Run(c, Start(start), turns).deeds[k].Tried?
    ensures var deeds := Run(c, Start(start), turns).deeds;
            && j < k && Settles(deeds, i, j)
            && (deeds[j].Failed? ==>
                  || (exists m :: j < m < k && deeds[m].Unparked?)
                  || deeds[k].at >= deeds[j].at + PARK_FOR)
            && (!deeds[j].Failed? ==> !Parked(UntilOf(deeds[..j + 1]), deeds[j].at))
  {
    hide Run, UntilOf;
    RunKeeps(c, start, turns);
    var s := Run(c, Start(start), turns);
    var deeds := s.deeds;
    assert Ends(deeds, i) && Dutiful(deeds, i) && Dutiful(deeds, k);
    j :| Settles(deeds, i, j);
    assert j < k;
    assert Dutiful(deeds, j);
    if deeds[j].Failed? {
      if forall m :: j < m < k ==> !deeds[m].Unparked? {
        StaysParked(deeds, s.clock, j + 1, k);
      }
    } else {
      StaysUnparked(deeds, s.clock, i, j + 1);
    }
  }

  // ----- short lives -----

  /** Over in less than a minute, with less than 256 KiB carried. */
  predicate IsShort(d: Deed) {
    d.Over? && d.lasted < 60_000 && d.carried < 262_144
  }

  /** How many tunnels have been over shortly, one after another, since one that was not. */
  function ShortLives(deeds: seq<Deed>): nat {
    if deeds == [] then 0
    else
      var front, d := deeds[..|deeds| - 1], deeds[|deeds| - 1];
      if !d.Over? then ShortLives(front) else if IsShort(d) then ShortLives(front) + 1 else 0
  }

  /** A tunnel handed over, and the one it handed over to is not over yet. */
  predicate TakenOver(deeds: seq<Deed>) {
    if deeds == [] then false
    else
      var front, d := deeds[..|deeds| - 1], deeds[|deeds| - 1];
      if d.Over? || d.HandedOver? then d.HandedOver? else TakenOver(front)
  }

  /** The last tunnel that came up. */
  function BeganLast(deeds: seq<Deed>): Option<Deed> {
    if deeds == [] then None
    else if deeds[|deeds| - 1].Began? then Some(deeds[|deeds| - 1])
    else BeganLast(deeds[..|deeds| - 1])
  }

  /** When a tunnel is over, HTTP/3 is parked at once exactly if the tunnel was over HTTP/3 and short, and
      either the third such life in a row or right after HTTP/2 had carried; it had lasted since it came up. */
  ghost predicate Counted(deeds: seq<Deed>, i: nat)
    requires i < |deeds|
  {
    deeds[i].Over? ==>
      ((i + 1 < |deeds| && deeds[i + 1] == ParkedAt(deeds[i].at)) <==>
       deeds[i].carrier == H3 && IsShort(deeds[i]) && (ShortLives(deeds[..i + 1]) >= 3 || TakenOver(deeds[..i])))
      && BeganLast(deeds[..i]) == Some(Began(deeds[i].at - deeds[i].lasted, deeds[i].carrier))
  }

  /** HTTP/3 is parked only straight after a try that failed or a tunnel that is over. */
  ghost predicate Deserved(deeds: seq<Deed>, k: nat)
    requires k < |deeds|
  {
    deeds[k].ParkedAt? ==>
      k > 0 && deeds[k - 1].at == deeds[k].at && (deeds[k - 1].Failed? || deeds[k - 1].Over?)
  }

  ghost predicate AllCounted(deeds: seq<Deed>) {
    forall i: nat :: i < |deeds| ==> Counted(deeds, i) && Deserved(deeds, i)
  }

  /** Between turns, the count is that of the short lives, and a tunnel was handed over if it is held. */
  ghost predicate Counting(s: State, upgraded: bool, since: Option<Deed>) {
    && AllCounted(s.deeds) && s.cutShort == ShortLives(s.deeds)
    && (upgraded <==> TakenOver(s.deeds)) && since == BeganLast(s.deeds)
  }

  lemma LivesNote(deeds: seq<Deed>, d: Deed)
    ensures ShortLives(deeds + [d]) ==
            if !d.Over? then ShortLives(deeds) else if IsShort(d) then ShortLives(deeds) + 1 else 0
    ensures BeganLast(deeds + [d]) == if d.Began? then Some(d) else BeganLast(deeds)
    ensures TakenOver(deeds + [d]) == if d.Over? || d.HandedOver? then d.HandedOver? else TakenOver(deeds)
  {
    assert (deeds + [d])[..|deeds|] == deeds;
  }

  /** What follows the end of a tunnel is settled unless the end is the last deed and a parking comes. */
  lemma CountedStays(deeds: seq<Deed>, more: seq<Deed>)
    requires AllCounted(deeds) && deeds <= more
    requires |deeds| < |more| && more[|deeds|].ParkedAt? ==> |deeds| == 0 || !deeds[|deeds| - 1].Over?
    ensures forall i: nat :: i < |deeds| ==> Counted(more, i) && Deserved(more, i)
  {
    hide ShortLives, TakenOver, BeganLast;
    forall i: nat | i < |deeds|
      ensures Counted(more, i) && Deserved(more, i)
    {
      assert Counted(deeds, i) && Deserved(deeds, i);
      assert more[..i + 1] == deeds[..i + 1] && more[..i] == deeds[..i];
    }
  }

  /** A deed that is neither a parking nor the end of a tunnel. */
  lemma OtherCounts(s: State, upgraded: bool, t: State, d: Deed, since: Option<Deed>)
    requires Counting(s, upgraded, since) && t.deeds == s.deeds + [d] && t.cutShort == s.cutShort
    requires !d.ParkedAt? && !d.Over? && !d.HandedOver?
    ensures Counting(t, upgraded, if d.Began? then Some(d) else since)
  {
    hide ShortLives, TakenOver, BeganLast;
    LivesNote(s.deeds, d);
    CountedStays(s.deeds, t.deeds);
  }

  lemma FailureCounts(s: State, upgraded: bool, since: Option<Deed>)
    requires Counting(s, upgraded, since)
    ensures Counting(ParkAfterFailure(s), upgraded, since)
  {
    hide ShortLives, TakenOver, BeganLast;
    var failed := Note(s, Failed(s.clock));
    OtherCounts(s, upgraded, failed, Failed(s.clock), since);
    var t := ParkAfterFailure(s);
    LivesNote(failed.deeds, ParkedAt(s.clock));
    CountedStays(failed.deeds, t.deeds);
  }

  lemma HandingCounts(s: State, since: Option<Deed>)
    requires Counting(s, false, since)
    ensures Counting(Note(s.(handed := true), HandedOver(s.clock)), true, since)
  {
    hide ShortLives, TakenOver, BeganLast;
    var t := Note(s.(handed := true), HandedOver(s.clock));
    LivesNote(s.deeds, HandedOver(s.clock));
    CountedStays(s.deeds, t.deeds);
  }

  /** The end of a tunnel, with the parking it calls for. */
  lemma EndCounted(deeds: seq<Deed>, over: Deed, parks: bool)
    requires AllCounted(deeds) && over.Over? && BeganLast(deeds) == Some(Began(over.at - over.lasted, over.carrier))
    requires parks <==> over.carrier == H3 && IsShort(over) && (ShortLives(deeds) >= 2 || TakenOver(deeds))
    ensures AllCounted(deeds + [over] + if parks then [ParkedAt(over.at)] else [])
  {
    hide ShortLives, TakenOver, BeganLast;
    var ended := deeds + [over];
    var more := ended + if parks then [ParkedAt(over.at)] else [];
    LivesNote(deeds, over);
    CountedStays(deeds, more);
    var n := |deeds|;
    assert more[..n] == deeds && more[..n + 1] == ended;
    assert more[n] == over && (parks ==> more[n + 1] == ParkedAt(over.at));
    assert Counted(more, n) && Deserved(more, n);
    if parks {
      assert Counted(more, n + 1) && Deserved(more, n + 1);
    }
  }

  lemma LifeCounts(s: State, lived: int, carried: nat, carrier: Carrier, upgraded: bool, since: Option<Deed>)
    requires Counting(s, upgraded, since) && since == Some(Began(s.clock - lived, carrier))
    ensures CountLife(s, lived, carried, carrier, upgraded).handed == s.handed
    ensures Counting(CountLife(s, lived, carried, carrier, upgraded), false, since)
  {
    hide ShortLives, TakenOver, BeganLast, AllCounted;
    var over := Over(s.clock, carrier, lived, carried);
    var t := CountLife(s, lived, carried, carrier, upgraded);
    LivesNote(s.deeds, over);
    LivesNote(s.deeds + [over], ParkedAt(s.clock));
    var parks := carrier == H3 && IsShort(over) && (ShortLives(s.deeds) >= 2 || TakenOver(s.deeds));
    EndCounted(s.deeds, over, parks);
    assert t.deeds == s.deeds + [over] + if parks then [ParkedAt(s.clock)] else [];
  }

  lemma ConnectCounts(c: Setup, s: State, o: Opening, since: Option<Deed>)
    requires Counting(s, false, since)
    ensures Counting(Connect(c, s, o).0, false, since)
  {
    hide Counting, Took, Works;
    TickCounts(s, false, Connect(c, s, o).0.clock, since);
    var plan := PlanNow(c, s);
    if plan != Only(H2) {
      var begun := Note(s, Tried(s.clock));
      var tried := Tick(begun, Took(o.h3));
      OtherCounts(s, false, begun, Tried(s.clock), since);
      TickCounts(begun, false, tried.clock, since);
      if Works(o.h3) {
        OtherCounts(tried, false, Note(tried, Opened(tried.clock)), Opened(tried.clock), since);
      } else if plan == H3ThenH2 {
        FailureCounts(tried, false, since);
        TickCounts(ParkAfterFailure(tried), false, Connect(c, s, o).0.clock, since);
      } else {
        OtherCounts(tried, false, Note(tried, Failed(tried.clock)), Failed(tried.clock), since);
      }
    }
  }

  lemma TickCounts(s: State, upgraded: bool, clock: int, since: Option<Deed>)
    requires Counting(s, upgraded, since)
    ensures Counting(s.(clock := clock), upgraded, since)
  {
  }

  lemma UnparkCounts(s: State, upgraded: bool, since: Option<Deed>)
    requires Counting(s, upgraded, since)
    ensures Counting(Unpark(s), upgraded, since)
  {
    hide Counting;
    OtherCounts(s, upgraded, Unpark(s), Unparked(s.clock), since);
  }

  lemma UpgradeCounts(c: Setup, s: State, w: Watch, life: Life, upgraded: bool, since: Option<Deed>)
    requires Counting(s, upgraded, since)
    ensures Counting(Upgrade(c, s, w, life).0, upgraded, since)
  {
    hide Counting, Took, Works;
    var t := s.(clock := Inside(w));
    TickCounts(s, upgraded, t.clock, since);
    if w.trying.Some? {
      if w.trying.value.1 {
        OtherCounts(t, upgraded, Note(t, Opened(t.clock)), Opened(t.clock), since);
      } else {
        FailureCounts(t, upgraded, since);
      }
    } else {
      OtherCounts(t, upgraded, Note(t, Tried(t.clock)), Tried(t.clock), since);
    }
  }

  lemma StopCounts(s: State, w: Watch, life: Life, upgraded: bool, since: Option<Deed>)
    requires Counting(s, upgraded, since)
    ensures Counting(Stop(s, w, life), upgraded, since)
  {
    hide Counting;
    var t := s.(clock := Outside(w, [], life));
    TickCounts(s, upgraded, t.clock, since);
    UnparkCounts(t, upgraded, since);
    var u := if life.asked then Unpark(t) else t;
    OtherCounts(u, upgraded, Note(u, Dropped(u.clock)), Dropped(u.clock), since);
  }

  lemma {:induction false} PumpCounts(c: Setup, s: State, carrier: Carrier, w: Watch, moves: seq<nat>, life: Life,
                                      upgraded: bool, since: Option<Deed>)
    requires Counting(s, upgraded, since)
    ensures Counting(PumpFrom(c, s, carrier, w, moves, life).0, upgraded, since)
    decreases |moves|, Left(Inside(w), Outside(w, moves, life)), if w.trying.None? then 1 else 0
  {
    hide Counting, Upgrade, Stop;
    var outside := Outside(w, moves, life);
    if carrier == H2 && Inside(w) <= outside {
      UpgradeCounts(c, s, w, life, upgraded, since);
      UpgradeGoesOn(c, s, w, moves, life);
      var (t, v, swapped) := Upgrade(c, s, w, life);
      if !swapped {
        PumpCounts(c, t, carrier, v, moves, life, upgraded, since);
      }
    } else if moves != [] {
      var t := s.(clock := outside);
      TickCounts(s, upgraded, outside, since);
      UnparkCounts(t, upgraded, since);
      PumpCounts(c, Unpark(t), carrier, w.(at := outside), moves[1..], life, upgraded, since);
    } else {
      StopCounts(s, w, life, upgraded, since);
    }
  }

  lemma FallCounts(s: State, wait: Wait, since: Option<Deed>)
    requires Counting(s, false, since)
    ensures Counting(Fall(s, wait), false, since) && Fall(s, wait).handed == s.handed
  {
    hide Counting;
    var retryIn := Backoff(s.failures);
    var said := Say(s, Lost(retryIn)).(failures := s.failures + 1);
    SaidCounts(s, said, false, since);
    TickCounts(said, false, Fall(s, wait).clock, since);
    UnparkCounts(said.(clock := Fall(s, wait).clock), false, since);
  }

  /** Only the deeds and the count matter. */
  lemma SaidCounts(s: State, t: State, upgraded: bool, since: Option<Deed>)
    requires Counting(s, upgraded, since) && t.deeds == s.deeds && t.cutShort == s.cutShort
    ensures Counting(t, upgraded, since)
  {
  }

  lemma TurnCounts(c: Setup, s: State, turn: Turn, since: Option<Deed>) returns (then_: Option<Deed>)
    requires Good(c, s) && Counting(s, s.handed, since)
    ensures var t := OneTurn(c, s, turn); Counting(t, t.handed, then_)
  {
    hide Good, Counting, Connect, PumpFrom, Fall, CountLife;
    SaidCounts(s, Say(s, Connecting(s.failures + 1)), s.handed, since);
    SaidCounts(s, s.(handed := false), s.handed, since);
    if !s.handed {
      ConnectCounts(c, Say(s, Connecting(s.failures + 1)), turn.opening, since);
    }
    var (t, up) := TakeOrConnect(c, s, turn.opening);
    match up
    case None =>
      then_ := since;
      FallCounts(t, turn.wait, since);
    case Some(carrier) =>
      var u := Begin(t, carrier);
      then_ := Some(Began(u.clock, carrier));
      SaidCounts(t, Say(t, Up(carrier)).(failures := 0), s.handed, since);
      OtherCounts(Say(t, Up(carrier)).(failures := 0), s.handed, u, Began(u.clock, carrier), since);
      PumpCounts(c, u, carrier, FreshWatch(u.clock), turn.life.moves, turn.life, s.handed, then_);
      var (v, swapped) := Pump(c, u, carrier, turn.life);
      if swapped {
        HandingCounts(v, then_);
      } else {
        LifeCounts(v, v.clock - u.clock, turn.carried, carrier, s.handed, then_);
        FallCounts(CountLife(v, v.clock - u.clock, turn.carried, carrier, s.handed), turn.wait, then_);
      }
  }

  lemma {:induction false} RunCounts(c: Setup, start: int, turns: seq<Turn>) returns (since: Option<Deed>)
    ensures var s := Run(c, Start(start), turns); Counting(s, s.handed, since)
    decreases |turns|
  {
    hide OneTurn, Good;
    since := None;
    if turns != [] {
      var front := turns[..|turns| - 1];
      since := RunCounts(c, start, front);
      RunKeeps(c, start, front);
      since := TurnCounts(c, Run(c, Start(start), front), turns[|turns| - 1], since);
    }
  }

  /** Over any run, when a tunnel is over, and not by handing over, HTTP/3 is parked at that moment exactly
      if the tunnel was over HTTP/3, lasted less than a minute and carried less than 256 KiB, and the two
      before it since a longer one were short too, or HTTP/2 had carried right before it. And HTTP/3 is
      parked at no other moment but when a try of it has failed. */
  lemma ShortLivesPark(c: Setup, start: int, turns: seq<Turn>, i: nat)
    requires i < |Run(c, Start(start), turns).deeds|
    ensures Counted(Run(c, Start(start), turns).deeds, i) && Deserved(Run(c, Start(start), turns).deeds, i)
  {
    hide Run, Counted, Deserved;
    var _ := RunCounts(c, start, turns);
  }

  // ----- a try dropped with its tunnel -----

  /** When the tunnel stops, if nothing takes over. */
  function StopsAt(at: int, moves: seq<nat>, life: Life): int
    decreases |moves|
  {
    if moves == [] then at + life.lasts else StopsAt(at + moves[0], moves[1..], life)
  }

  lemma {:induction false} StopsLast(w: Watch, moves: seq<nat>, life: Life)
    ensures Outside(w, moves, life) <= StopsAt(w.at, moves, life)
    decreases |moves|
  {
    if moves != [] {
      StopsLast(w.(at := w.at + moves[0]), moves[1..], life);
    }
  }

  /** What was done stays done. */
  lemma {:induction false} DeedsGrow(c: Setup, s: State, carrier: Carrier, w: Watch, moves: seq<nat>, life: Life)
    ensures s.deeds <= PumpFrom(c, s, carrier, w, moves, life).0.deeds
    decreases |moves|, Left(Inside(w), Outside(w, moves, life)), if w.trying.None? then 1 else 0
  {
    hide Took, Works;
    var outside := Outside(w, moves, life);
    if carrier == H2 && Inside(w) <= outside {
      UpgradeGoesOn(c, s, w, moves, life);
      var (t, v, swapped) := Upgrade(c, s, w, life);
      if !swapped {
        DeedsGrow(c, t, carrier, v, moves, life);
      }
    } else if moves != [] {
      DeedsGrow(c, Unpark(s.(clock := outside)), carrier, w.(at := outside), moves[1..], life);
    }
  }

  /** A try under way ends at its own moment, or is dropped when the tunnel stops before. */
  function EndOf(trying: (int, bool), stops: int): Deed {
    if stops < trying.0 then Dropped(stops) else if trying.1 then Opened(trying.0) else Failed(trying.0)
  }

  lemma {:induction false} TryEnds(c: Setup, s: State, w: Watch, moves: seq<nat>, life: Life) returns (n: nat)
    requires w.trying.Some?
    ensures var deeds := PumpFrom(c, s, H2, w, moves, life).0.deeds;
            && s.deeds <= deeds && |s.deeds| <= n < |deeds|
            && (forall k :: |s.deeds| <= k < n ==> deeds[k].Unparked?)
            && deeds[n] == EndOf(w.trying.value, StopsAt(w.at, moves, life))
    decreases |moves|
  {
    hide Took, Works;
    var outside := Outside(w, moves, life);
    DeedsGrow(c, s, H2, w, moves, life);
    StopsLast(w, moves, life);
    if Inside(w) <= outside {
      n := |s.deeds|;
      UpgradeGoesOn(c, s, w, moves, life);
      var (t, v, swapped) := Upgrade(c, s, w, life);
      if !swapped {
        DeedsGrow(c, t, H2, v, moves, life);
      }
    } else if moves != [] {
      n := TryEnds(c, Unpark(s.(clock := outside)), w.(at := outside), moves[1..], life);
    } else {
      n := |s.deeds| + if life.asked then 1 else 0;
    }
  }

  /** A try begun at `t` beside a tunnel over HTTP/2 is dropped exactly when the tunnel stops before the
      try would end, at `t + Took(q)`; otherwise it opens or fails then. Only letting HTTP/3 go comes in
      between. */
  lemma WhenATryIsDropped(c: Setup, s: State, w: Watch, moves: seq<nat>, life: Life) returns (n: nat)
    requires w.trying.None? && w.look <= Outside(w, moves, life)
    requires c.choice == Auto && c.worksOverQuic && !Parked(s.until, w.look)
    ensures var deeds := PumpFrom(c, s, H2, w, moves, life).0.deeds;
            var t, q, stops := w.look, life.h3(w.look), StopsAt(w.at, moves, life);
            && |s.deeds| < n < |deeds| && deeds[..|s.deeds| + 1] == s.deeds + [Tried(t)]
            && (forall k :: |s.deeds| < k < n ==> deeds[k].Unparked?)
            && (deeds[n].Dropped? <==> stops < t + Took(q))
            && deeds[n] == EndOf((t + Took(q), Works(q)), stops)
  {
    hide Took, Works;
    UpgradeGoesOn(c, s, w, moves, life);
    var (t, v, swapped) := Upgrade(c, s, w, life);
    n := TryEnds(c, t, v, moves, life);
  }

  /** A try that fails at once, and one that is still shaking hands after a second. */
  function Refused(): Quic {
    Quic(Stage(0, false), Stage(0, false), Stage(0, false))
  }

  function Slow(): Quic {
    Quic(Stage(1_000, true), Stage(0, true), Stage(0, true))
  }

  /** HTTP/3 refused and HTTP/2 open; the line moves after a millisecond and breaks thirty seconds
      later, a millisecond after an upgrade was begun. */
  function BreaksWhileUpgrading(): Turn {
    Turn(Opening(Refused(), Opens(0)), Life([1], 30_000, false, _ => Slow()), CUT_SHORT_BYTES, Undisturbed)
  }

  lemma FirstAttempt()
    ensures var c := Setup(Auto, true);
            var s := Say(Start(0), Connecting(1));
            Connect(c, s, BreaksWhileUpgrading().opening) ==
            (s.(until := Some(PARK_FOR), deeds := [Tried(0), Failed(0), ParkedAt(0)]), Some(H2))
  {
    assert Took(Refused()) == 0 && !Works(Refused());
    assert [] + [Tried(0)] + [Failed(0)] + [ParkedAt(0)] == [Tried(0), Failed(0), ParkedAt(0)];
  }

  lemma FirstPump(s: State)
    requires s.clock == 0
    ensures var c := Setup(Auto, true);
            var life := BreaksWhileUpgrading().life;
            Pump(c, s, H2, life) ==
            (s.(clock := 30_001, until := None,
                deeds := s.deeds + [Unparked(1)] + [Tried(30_000)] + [Dropped(30_001)]), false)
  {
    var c := Setup(Auto, true);
    var life := BreaksWhileUpgrading().life;
    assert Took(Slow()) >= 1_000;
    var moved := Unpark(s.(clock := 1));
    var w := FreshWatch(0).(at := 1);
    assert life.moves[1..] == [];
    assert PumpFrom(c, s, H2, FreshWatch(0), life.moves, life) == PumpFrom(c, moved, H2, w, [], life);
    var (tried, v, swapped) := Upgrade(c, moved, w, life);
    assert !swapped && v.trying.Some? && Inside(v) >= 31_000;
    assert PumpFrom(c, moved, H2, w, [], life) == PumpFrom(c, tried, H2, v, [], life);
    assert PumpFrom(c, tried, H2, v, [], life) == (Stop(tried, v, life), false);
  }

  function NothingOpens(): Turn {
    BreaksWhileUpgrading().(opening := Opening(Refused(), Fails(0)))
  }

  function AfterFirstTurn(): State {
    State(31_001, 1, 0, false, None, [Connecting(1), Up(H2), Lost(1_000)],
          [Tried(0), Failed(0), ParkedAt(0), Began(0, H2), Unparked(1), Tried(30_000), Dropped(30_001),
           Over(30_001, H2, 30_001, CUT_SHORT_BYTES)])
  }

  lemma FirstTurn()
    ensures OneTurn(Setup(Auto, true), Start(0), BreaksWhileUpgrading()) == AfterFirstTurn()
  {
    hide Connect, PumpFrom;
    var c, turn := Setup(Auto, true), BreaksWhileUpgrading();
    FirstAttempt();
    var t := TakeOrConnect(c, Start(0), turn.opening).0;
    var s := Begin(t, H2);
    FirstPump(s);
    assert s.deeds == [Tried(0), Failed(0), ParkedAt(0)] + [Began(0, H2)];
    var deeds := s.deeds + [Unparked(1)] + [Tried(30_000)] + [Dropped(30_001)];
    assert deeds + [Over(30_001, H2, 30_001, CUT_SHORT_BYTES)] == AfterFirstTurn().deeds;
    assert Pump(c, s, H2, turn.life) == (s.(clock := 30_001, until := None, deeds := deeds), false);
    assert Carry(c, s, H2, false, turn) == AfterFirstTurn();
  }

  lemma SecondTurn()
    ensures OneTurn(Setup(Auto, true), AfterFirstTurn(), NothingOpens()).deeds ==
            AfterFirstTurn().deeds + [Tried(31_001), Failed(31_001), ParkedAt(31_001)]
  {
    var s := Say(AfterFirstTurn(), Connecting(2));
    assert Took(Refused()) == 0 && !Works(Refused());
    var (t, up) := Connect(Setup(Auto, true), s, NothingOpens().opening);
    assert up == None;
    assert t.deeds == AfterFirstTurn().deeds + [Tried(31_001), Failed(31_001), ParkedAt(31_001)];
  }

  /** The one way a try that did not open goes unparked: the tunnel it was opening beside stops first.
      Here the next attempt tries HTTP/3 again a second later, although nothing let it go. */
  lemma ADroppedUpgradeIsNotParked()
    ensures Run(Setup(Auto, true), Start(0), [BreaksWhileUpgrading(), NothingOpens()]).deeds ==
            [Tried(0), Failed(0), ParkedAt(0), Began(0, H2), Unparked(1), Tried(30_000), Dropped(30_001),
             Over(30_001, H2, 30_001, CUT_SHORT_BYTES), Tried(31_001), Failed(31_001), ParkedAt(31_001)]
  {
    hide OneTurn;
    var turns := [BreaksWhileUpgrading(), NothingOpens()];
    FirstTurn();
    SecondTurn();
    var c, start := Setup(Auto, true), Start(0);
    assert turns[..1] == [BreaksWhileUpgrading()] && turns[..1][..0] == [];
    assert Run(c, start, turns[..1][..0]) == start;
    assert Run(c, start, turns[..1]) == AfterFirstTurn();
  }

  // ----- letting HTTP/3 go -----

  /** The moments at which HTTP/3 was let go. */
  function LetGo(deeds: seq<Deed>): seq<int> {
    if deeds == [] then []
    else LetGo(deeds[..|deeds| - 1]) + if deeds[|deeds| - 1].Unparked? then [deeds[|deeds| - 1].at] else []
  }

  lemma LetGoNote(deeds: seq<Deed>, d: Deed)
    ensures LetGo(deeds + [d]) == LetGo(deeds) + if d.Unparked? then [d.at] else []
  {
    assert (deeds + [d])[..|deeds|] == deeds;
  }

  /** The moments at which the line moves. */
  function MovesAt(at: int, moves: seq<nat>): seq<int>
    decreases |moves|
  {
    if moves == [] then [] else [at + moves[0]] + MovesAt(at + moves[0], moves[1..])
  }

  lemma {:induction false} MovesCome(at: int, moves: seq<nat>)
    ensures forall t :: t in MovesAt(at, moves) ==> at <= t && moves != [] && at + moves[0] <= t
    decreases |moves|
  {
    if moves != [] {
      MovesCome(at + moves[0], moves[1..]);
    }
  }

  /** Those of some moments that come before another. */
  function Earlier(ts: seq<int>, t: int): seq<int> {
    if ts == [] then [] else (if ts[0] < t then [ts[0]] else []) + Earlier(ts[1..], t)
  }

  lemma {:induction false} NoneEarlier(ts: seq<int>, t: int)
    requires forall u :: u in ts ==> t <= u
    ensures Earlier(ts, t) == []
  {
    if ts != [] {
      assert ts[0] in ts && forall u :: u in ts[1..] ==> u in ts;
      NoneEarlier(ts[1..], t);
    }
  }

  lemma UpgradeLetsNothingGo(c: Setup, s: State, w: Watch, life: Life)
    ensures LetGo(Upgrade(c, s, w, life).0.deeds) == LetGo(s.deeds)
    ensures Upgrade(c, s, w, life).0.clock == Inside(w)
    ensures !Upgrade(c, s, w, life).2 ==> Inside(Upgrade(c, s, w, life).1) >= Inside(w)
  {
    hide LetGo, Took, Works;
    var t := s.(clock := Inside(w));
    LetGoNote(s.deeds, Opened(t.clock));
    LetGoNote(s.deeds, Tried(t.clock));
    LetGoNote(s.deeds, Failed(t.clock));
    LetGoNote(s.deeds + [Failed(t.clock)], ParkedAt(t.clock));
  }

  lemma StopLetsGo(s: State, w: Watch, life: Life)
    ensures var t := Stop(s, w, life);
            LetGo(t.deeds) == LetGo(s.deeds) + if life.asked then [Outside(w, [], life)] else []
  {
    hide LetGo;
    var at := Outside(w, [], life);
    LetGoNote(s.deeds, Unparked(at));
    LetGoNote(s.deeds, Dropped(at));
    LetGoNote(s.deeds + [Unparked(at)], Dropped(at));
  }

  /** The moments at which HTTP/3 is let go while a tunnel carries: each move of the line, up to a
      hand-over at `clock` if that is how it ends, and a reconnect that is asked for. */
  function LetGoWhile(at: int, moves: seq<nat>, life: Life, swapped: bool, clock: int): seq<int> {
    if swapped then Earlier(MovesAt(at, moves), clock)
    else MovesAt(at, moves) + if life.asked then [StopsAt(at, moves, life)] else []
  }

  lemma LetGoAfterMove(at: int, moves: seq<nat>, life: Life, swapped: bool, clock: int)
    requires moves != [] && (swapped ==> clock > at + moves[0])
    ensures LetGoWhile(at, moves, life, swapped, clock) ==
            [at + moves[0]] + LetGoWhile(at + moves[0], moves[1..], life, swapped, clock)
  {
    var rest := MovesAt(at + moves[0], moves[1..]);
    assert ([at + moves[0]] + rest)[1..] == rest;
  }

  lemma LetGoNoMore(at: int, moves: seq<nat>, life: Life, clock: int)
    requires clock <= at + if moves == [] then life.lasts else moves[0]
    ensures LetGoWhile(at, moves, life, true, clock) == []
  {
    MovesCome(at, moves);
    NoneEarlier(MovesAt(at, moves), clock);
  }

  lemma {:induction false} PumpLetsGo(c: Setup, s: State, carrier: Carrier, w: Watch, moves: seq<nat>, life: Life)
    ensures var (t, swapped) := PumpFrom(c, s, carrier, w, moves, life);
            && (swapped ==> t.clock >= Inside(w))
            && LetGo(t.deeds) == LetGo(s.deeds) + LetGoWhile(w.at, moves, life, swapped, t.clock)
    decreases |moves|, Left(Inside(w), Outside(w, moves, life)), if w.trying.None? then 1 else 0
  {
    hide LetGo, LetGoWhile, Upgrade, Stop, StopsAt, MovesAt, Earlier;
    var outside := Outside(w, moves, life);
    if carrier == H2 && Inside(w) <= outside {
      UpgradeLetsNothingGo(c, s, w, life);
      UpgradeGoesOn(c, s, w, moves, life);
      var (t, v, swapped) := Upgrade(c, s, w, life);
      if swapped {
        LetGoNoMore(w.at, moves, life, t.clock);
        assert LetGo(s.deeds) + [] == LetGo(s.deeds);
      } else {
        PumpLetsGo(c, t, carrier, v, moves, life);
      }
    } else if moves != [] {
      var u := Unpark(s.(clock := outside));
      LetGoNote(s.deeds, Unparked(outside));
      PumpLetsGo(c, u, carrier, w.(at := outside), moves[1..], life);
      var (t, swapped) := PumpFrom(c, s, carrier, w, moves, life);
      LetGoAfterMove(w.at, moves, life, swapped, t.clock);
    } else {
      StopLetsGo(s, w, life);
      LetGoAtTheEnd(w, moves, life, Stop(s, w, life).clock);
    }
  }

  lemma LetGoAtTheEnd(w: Watch, moves: seq<nat>, life: Life, clock: int)
    requires moves == []
    ensures LetGoWhile(w.at, moves, life, false, clock) == if life.asked then [Outside(w, [], life)] else []
  {
    assert MovesAt(w.at, moves) == [];
  }

  /** The moment at which the wait between attempts lets HTTP/3 go, if it does: when a reconnect is asked
      for, or the line changes and has moved, before the wait is over. */
  function WaitLetsGo(from: int, retryIn: nat, wait: Wait): seq<int> {
    match wait
    case Undisturbed => []
    case AskedFor(after) => if after < retryIn then [from + after] else []
    case LineChanged(after, moved) => if after < retryIn && moved then [from + after] else []
  }

  lemma FallLetsGo(s: State, wait: Wait)
    ensures LetGo(Fall(s, wait).deeds) == LetGo(s.deeds) + WaitLetsGo(s.clock, Backoff(s.failures), wait)
  {
    hide LetGo;
    assert LetGo(s.deeds) + [] == LetGo(s.deeds);
    if !wait.Undisturbed? {
      LetGoNote(s.deeds, Unparked(s.clock + wait.after));
    }
  }

  lemma ConnectLetsNothingGo(c: Setup, s: State, o: Opening)
    ensures LetGo(Connect(c, s, o).0.deeds) == LetGo(s.deeds)
  {
    hide LetGo, Took, Works;
    var at := s.clock + Took(o.h3);
    var tried := s.deeds + [Tried(s.clock)];
    LetGoNote(s.deeds, Tried(s.clock));
    LetGoNote(tried, Opened(at));
    LetGoNote(tried, Failed(at));
    LetGoNote(tried + [Failed(at)], ParkedAt(at));
  }

  /** HTTP/3 is let go only when told. One turn of the loop lets it go at each move of the line while the
      tunnel it brought up carries (up to a hand-over, if that is how it ends), when a reconnect is asked
      for while it carries, and when one is asked for or the line moves in the wait that follows; and at
      no other moment. */
  lemma LetGoWhenTold(c: Setup, s: State, turn: Turn)
    ensures var (t, up) := TakeOrConnect(c, s, turn.opening);
            var r := OneTurn(c, s, turn);
            LetGo(r.deeds) == LetGo(s.deeds) +
              if up.None? then WaitLetsGo(t.clock, Backoff(s.failures), turn.wait)
              else
                LetGoWhile(t.clock, turn.life.moves, turn.life, r.handed, r.clock) +
                if r.handed then []
                else WaitLetsGo(StopsAt(t.clock, turn.life.moves, turn.life), 1_000, turn.wait)
  {
    hide LetGo, Connect, Carry, Fall, LetGoWhile, StopsAt, WaitLetsGo;
    ConnectLetsNothingGo(c, Say(s, Connecting(s.failures + 1)), turn.opening);
    var (t, up) := TakeOrConnect(c, s, turn.opening);
    match up
    case None =>
      FallLetsGo(t, turn.wait);
    case Some(carrier) =>
      LetGoNote(t.deeds, Began(t.clock, carrier));
      CarryLetsGo(c, Begin(t, carrier), carrier, s.handed, turn);
  }

  lemma CarryLetsGo(c: Setup, s: State, carrier: Carrier, upgraded: bool, turn: Turn)
    requires !s.handed && s.failures == 0
    ensures var r := Carry(c, s, carrier, upgraded, turn);
            LetGo(r.deeds) == LetGo(s.deeds) +
              (LetGoWhile(s.clock, turn.life.moves, turn.life, r.handed, r.clock) +
               if r.handed then [] else WaitLetsGo(StopsAt(s.clock, turn.life.moves, turn.life), 1_000, turn.wait))
  {
    hide LetGo, PumpFrom, Fall, LetGoWhile, StopsAt, WaitLetsGo;
    PumpLetsGo(c, s, carrier, FreshWatch(s.clock), turn.life.moves, turn.life);
    var (v, swapped) := Pump(c, s, carrier, turn.life);
    if swapped {
      LetGoNote(v.deeds, HandedOver(v.clock));
    } else {
      PumpStops(c, s, carrier, FreshWatch(s.clock), turn.life.moves, turn.life);
      var over := Over(v.clock, carrier, v.clock - s.clock, turn.carried);
      LetGoNote(v.deeds, over);
      LetGoNote(v.deeds + [over], ParkedAt(v.clock));
      var counted := CountLife(v, v.clock - s.clock, turn.carried, carrier, upgraded);
      FallLetsGo(counted, turn.wait);
      FallHandsNothing(counted, turn.wait);
      LetGoWhileAny(s.clock, turn.life.moves, turn.life, v.clock, Fall(counted, turn.wait).clock);
    }
  }

  lemma LetGoWhileAny(at: int, moves: seq<nat>, life: Life, clock: int, other: int)
    ensures LetGoWhile(at, moves, life, false, clock) == LetGoWhile(at, moves, life, false, other)
  {
  }

  lemma FallHandsNothing(s: State, wait: Wait)
    ensures Fall(s, wait).handed == s.handed
  {
  }

  /** A tunnel that hands nothing over lasts until it stops. */
  lemma {:induction false} PumpStops(c: Setup, s: State, carrier: Carrier, w: Watch, moves: seq<nat>, life: Life)
    ensures var (t, swapped) := PumpFrom(c, s, carrier, w, moves, life);
            && !swapped ==> t.clock == StopsAt(w.at, moves, life)
    decreases |moves|, Left(Inside(w), Outside(w, moves, life)), if w.trying.None? then 1 else 0
  {
    hide Upgrade;
    var outside := Outside(w, moves, life);
    if carrier == H2 && Inside(w) <= outside {
      UpgradeGoesOn(c, s, w, moves, life);
      var (t, v, swapped) := Upgrade(c, s, w, life);
      if !swapped {
        PumpStops(c, t, carrier, v, moves, life);
      }
    } else if moves != [] {
      PumpStops(c, Unpark(s.(clock := outside)), carrier, w.(at := outside), moves[1..], life);
    }
  }

  // ----- the choice is kept -----

  /** How often HTTP/3 was tried, and how often a tunnel was asked for. */
  function Tries(deeds: seq<Deed>): nat {
    if deeds == [] then 0 else Tries(deeds[..|deeds| - 1]) + if deeds[|deeds| - 1].Tried? then 1 else 0
  }

  function Attempts(phases: seq<Phase>): nat {
    if phases == [] then 0 else Attempts(phases[..|phases| - 1]) + if phases[|phases| - 1].Connecting? then 1 else 0
  }

  lemma TriesNote(deeds: seq<Deed>, d: Deed)
    ensures Tries(deeds + [d]) == Tries(deeds) + if d.Tried? then 1 else 0
  {
    assert (deeds + [d])[..|deeds|] == deeds;
  }

  lemma AttemptsNote(phases: seq<Phase>, p: Phase)
    ensures Attempts(phases + [p]) == Attempts(phases) + if p.Connecting? then 1 else 0
  {
    assert (phases + [p])[..|phases|] == phases;
  }

  /** Told one carrier, or unable to use HTTP/3, the engine uses just that. */
  predicate OneCarrier(c: Setup) {
    !c.worksOverQuic || c.choice != Auto
  }

  function Chosen(c: Setup): Carrier {
    if c.worksOverQuic && c.choice == OnlyH3 then H3 else H2
  }

  /** Every tunnel is over the chosen carrier, and HTTP/3 is tried in every attempt or in none. */
  ghost predicate KeepsTo(c: Setup, s: State) {
    && !s.handed && (forall p :: p in s.phases && p.Up? ==> p.carrier == Chosen(c))
    && Tries(s.deeds) == if Chosen(c) == H3 then Attempts(s.phases) else 0
  }

  lemma {:induction false} PumpTriesNothing(c: Setup, s: State, carrier: Carrier, w: Watch, moves: seq<nat>, life: Life)
    requires OneCarrier(c) && w.trying.None?
    ensures var (t, swapped) := PumpFrom(c, s, carrier, w, moves, life); !swapped && Tries(t.deeds) == Tries(s.deeds)
    decreases |moves|, Left(Inside(w), Outside(w, moves, life)), if w.trying.None? then 1 else 0
  {
    hide Tries, Took, Works;
    var outside := Outside(w, moves, life);
    if carrier == H2 && Inside(w) <= outside {
      UpgradeGoesOn(c, s, w, moves, life);
      var (t, v, swapped) := Upgrade(c, s, w, life);
      PumpTriesNothing(c, t, carrier, v, moves, life);
    } else if moves != [] {
      TriesNote(s.deeds, Unparked(outside));
      PumpTriesNothing(c, Unpark(s.(clock := outside)), carrier, w.(at := outside), moves[1..], life);
    } else {
      TriesNote(s.deeds, Unparked(outside));
    }
  }

  lemma ConnectTries(c: Setup, s: State, o: Opening)
    requires OneCarrier(c)
    ensures var (t, up) := Connect(c, s, o);
            && Tries(t.deeds) == Tries(s.deeds) + (if Chosen(c) == H3 then 1 else 0)
            && (up.Some? ==> up == Some(Chosen(c)))
  {
    hide Tries, Took, Works;
    var at := s.clock + Took(o.h3);
    TriesNote(s.deeds, Tried(s.clock));
    TriesNote(s.deeds + [Tried(s.clock)], Opened(at));
    TriesNote(s.deeds + [Tried(s.clock)], Failed(at));
  }

  lemma FallTries(s: State, wait: Wait)
    ensures var t := Fall(s, wait);
            && Tries(t.deeds) == Tries(s.deeds) && t.handed == s.handed
            && exists retryIn: nat :: t.phases == s.phases + [Lost(retryIn)]
  {
    hide Tries, Backoff;
    var retryIn := Backoff(s.failures);
    if !wait.Undisturbed? {
      TriesNote(s.deeds, Unparked(s.clock + wait.after));
    }
    assert Fall(s, wait).phases == s.phases + [Lost(retryIn)];
  }

  lemma CarryTries(c: Setup, s: State, carrier: Carrier, turn: Turn)
    requires OneCarrier(c) && !s.handed
    ensures var t := Carry(c, s, carrier, false, turn);
            && Tries(t.deeds) == Tries(s.deeds) && !t.handed
            && exists retryIn: nat :: t.phases == s.phases + [Lost(retryIn)]
  {
    hide Tries, PumpFrom, Fall;
    PumpTriesNothing(c, s, carrier, FreshWatch(s.clock), turn.life.moves, turn.life);
    var v := Pump(c, s, carrier, turn.life).0;
    var over := Over(v.clock, carrier, v.clock - s.clock, turn.carried);
    TriesNote(v.deeds, over);
    TriesNote(v.deeds + [over], ParkedAt(v.clock));
    FallTries(CountLife(v, v.clock - s.clock, turn.carried, carrier, false), turn.wait);
  }

  lemma TurnKeepsTo(c: Setup, s: State, turn: Turn)
    requires OneCarrier(c) && KeepsTo(c, s)
    ensures KeepsTo(c, OneTurn(c, s, turn))
  {
    hide Tries, Attempts, Connect, Carry, Fall;
    var said := Say(s, Connecting(s.failures + 1));
    AttemptsNote(s.phases, Connecting(s.failures + 1));
    ConnectTries(c, said, turn.opening);
    var (t, up) := TakeOrConnect(c, s, turn.opening);
    match up
    case None =>
      FallTries(t, turn.wait);
      var retryIn: nat :| Fall(t, turn.wait).phases == t.phases + [Lost(retryIn)];
      AttemptsNote(t.phases, Lost(retryIn));
    case Some(carrier) =>
      var u := Begin(t, carrier);
      TriesNote(t.deeds, Began(t.clock, carrier));
      AttemptsNote(t.phases, Up(carrier));
      CarryTries(c, u, carrier, turn);
      var retryIn: nat :| Carry(c, u, carrier, false, turn).phases == u.phases + [Lost(retryIn)];
      AttemptsNote(u.phases, Lost(retryIn));
  }

  /** Over any run that is told one carrier, or cannot use HTTP/3, every tunnel is over that carrier; told
      HTTP/3, every attempt tries it, parked or not, and otherwise none does. */
  lemma {:induction false} TheChoiceIsKept(c: Setup, start: int, turns: seq<Turn>)
    requires OneCarrier(c)
    ensures KeepsTo(c, Run(c, Start(start), turns))
    decreases |turns|
  {
    hide OneTurn;
    if turns != [] {
      TheChoiceIsKept(c, start, turns[..|turns| - 1]);
      TurnKeepsTo(c, Run(c, Start(start), turns[..|turns| - 1]), turns[|turns| - 1]);
    }
  }
}
