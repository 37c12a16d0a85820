/** The engine as an object, and its loop (src/engine.rs). */
module Engine {
  import opened Common
  import opened Carriers
  import opened EngineModel

  class Runner {
    const setup: Setup
    var clock: int
    var failures: nat
    var cutShort: nat
    var handed: bool
    /** Until when HTTP/3 is left alone. */
    var until: Option<int>

    ghost var phases: seq<Phase>
    ghost var deeds: seq<Deed>

    ghost function Now(): State
      reads this
    {
      State(clock, failures, cutShort, handed, until, phases, deeds)
    }

    constructor (setup: Setup, start: int)
      ensures Now() == Start(start) && this.setup == setup
    {
      this.setup := setup;
      clock := start;
      failures, cutShort, handed, until := 0, 0, false, None;
      phases, deeds := [], [];
    }

    method Park()
      modifies this`until, this`deeds
      ensures Now() == EngineModel.Park(old(Now()))
    {
      until := Some(clock + PARK_FOR);
      deeds := deeds + [ParkedAt(clock)];
    }

    method Unpark()
      modifies this`until, this`deeds
      ensures Now() == EngineModel.Unpark(old(Now()))
    {
      until := None;
      deeds := deeds + [Unparked(clock)];
    }

    method OpenH2(t: Try, left: nat) returns (up: Option<Carrier>)
      modifies this`clock
      ensures (Now(), up) == EngineModel.OpenH2(old(Now()), t, left)
    {
      clock := clock + Min(t.after, left);
      return if t.Opens? && t.after <= left then Some(H2) else None;
    }

    method OpenH3(q: Quic) returns (opens: bool)
      modifies this`clock, this`deeds
      ensures Now() == Tick(Note(old(Now()), Tried(old(clock))), Took(q)) && (opens <==> Works(q))
    {
      deeds := deeds + [Tried(clock)];
      var took;
      took, opens := Carriers.OpenH3(q);
      clock := clock + took;
    }

    /** One attempt, as its plan says. */
    method Connect(o: Opening) returns (up: Option<Carrier>)
      modifies this`clock, this`until, this`deeds
      ensures (Now(), up) == EngineModel.Connect(setup, old(Now()), o)
    {
      hide Took, Works;
      var plan := PlanFor(setup.choice, setup.worksOverQuic, Parked(until, clock));
      match plan {
        case Only(H2) =>
          up := OpenH2(o.h2, CONNECT_TIMEOUT);
        case Only(H3) =>
          var opens := OpenH3(o.h3);
          up := if opens then Some(H3) else None;
          deeds := deeds + [if opens then Opened(clock) else Failed(clock)];
        case H3ThenH2 =>
          var opens := OpenH3(o.h3);
          if opens {
            deeds := deeds + [Opened(clock)];
            return Some(H3);
          }
          deeds := deeds + [Failed(clock)];
          Park();
          up := OpenH2(o.h2, CONNECT_TIMEOUT - Took(o.h3));
      }
    }

    /** Carry until something stops it: `true` when HTTP/3 opened beside a tunnel over HTTP/2. What
        happens outside and what the upgrading side does are taken in order of time. */
    method Pump(carrier: Carrier, life: Life) returns (upgraded: bool)
      modifies this`clock, this`until, this`deeds
      ensures (Now(), upgraded) == EngineModel.Pump(setup, old(Now()), carrier, life)
    {
      hide EngineModel.Upgrade, EngineModel.Stop;
      var at, look, i := clock, clock + UPGRADE_EVERY, 0;
      var trying: Option<(int, bool)> := None;
      ghost var w := FreshWatch(clock);
      assert life.moves[0..] == life.moves;
      while true
        invariant 0 <= i <= |life.moves| && w == Watch(at, look, trying)
        invariant PumpFrom(setup, Now(), carrier, w, life.moves[i..], life)
               == EngineModel.Pump(setup, old(Now()), carrier, life)
        decreases |life.moves| - i, Left(Inside(w), Outside(w, life.moves[i..], life)), if trying.None? then 1 else 0
      {
        var outside := at + if i == |life.moves| then life.lasts else life.moves[i];
        assert outside == Outside(w, life.moves[i..], life);
        var inside := if trying.Some? then trying.value.0 else look;
        if carrier == H2 && inside <= outside {
          UpgradeGoesOn(setup, Now(), w, life.moves[i..], life);
          ghost var v;
          look, trying, upgraded, v := Upgrade(at, look, trying, life);
          w := v;
          if upgraded {
            return true;
          }
        } else if i < |life.moves| {
          clock, at := outside, outside;
          Unpark();
          w := w.(at := outside);
          assert life.moves[i..][1..] == life.moves[i + 1..];
          i := i + 1;
        } else {
          Stop(outside, trying, life.asked, w, life);
          return false;
        }
      }
    }

    /** The upgrading side does what is due: it looks, or its try ends. */
    method Upgrade(at: int, look: int, trying: Option<(int, bool)>, life: Life)
      returns (next: int, still: Option<(int, bool)>, upgraded: bool, ghost v: Watch)
      modifies this`clock, this`until, this`deeds
      ensures (Now(), v, upgraded) == EngineModel.Upgrade(setup, old(Now()), Watch(at, look, trying), life)
      ensures v == Watch(at, next, still)
    {
      hide Took, Works;
      next, still, upgraded := look, None, false;
      if trying.Some? {
        clock := trying.value.0;
        if trying.value.1 {
          deeds := deeds + [Opened(clock)];
          upgraded := true;
        } else {
          deeds := deeds + [Failed(clock)];
          Park();
          next := clock + UPGRADE_EVERY;
        }
      } else {
        clock := look;
        if PlanFor(setup.choice, setup.worksOverQuic, Parked(until, clock)) == H3ThenH2 {
          var took, opens := Carriers.OpenH3(life.h3(clock));
          deeds := deeds + [Tried(clock)];
          still := Some((clock + took, opens));
        } else {
          next := clock + UPGRADE_EVERY;
        }
      }
      v := Watch(at, next, still);
    }

    /** The tunnel is over; a try still under way goes with it. */
    method Stop(outside: int, trying: Option<(int, bool)>, asked: bool, ghost w: Watch, ghost life: Life)
      requires outside == Outside(w, [], life) && w.trying == trying && life.asked == asked
      modifies this`clock, this`until, this`deeds
      ensures Now() == EngineModel.Stop(old(Now()), w, life)
    {
      clock := outside;
      if asked {
        Unpark();
      }
      if trying.Some? {
        deeds := deeds + [Dropped(clock)];
      }
    }

    method CountLife(lived: int, carried: nat, carrier: Carrier, upgraded: bool)
      modifies this`cutShort, this`until, this`deeds
      ensures Now() == EngineModel.CountLife(old(Now()), lived, carried, carrier, upgraded)
    {
      deeds := deeds + [Over(clock, carrier, lived, carried)];
      if CutShortLife(lived, carried) {
        cutShort := cutShort + 1;
        if (cutShort >= CUT_SHORT_RUN || upgraded) && carrier == H3 {
          Park();
        }
      } else {
        cutShort := 0;
      }
    }

    method WaitOut(retryIn: nat, wait: Wait)
      modifies this`clock, this`until, this`deeds
      ensures Now() == EngineModel.WaitOut(old(Now()), retryIn, wait)
    {
      if wait.Undisturbed? || wait.after >= retryIn {
        clock := clock + retryIn;
        return;
      }
      clock := clock + wait.after;
      if wait.AskedFor? || wait.moved {
        Unpark();
      }
    }

    /** One turn of the loop. */
    method OneTurn(turn: Turn)
      modifies this
      ensures Now() == EngineModel.OneTurn(setup, old(Now()), turn)
    {
      hide EngineModel.Connect, EngineModel.PumpFrom, EngineModel.CountLife, EngineModel.WaitOut;
      var upgraded := handed;
      var up: Option<Carrier>;
      if handed {
        handed := false;
        up := Some(H3);
      } else {
        phases := phases + [Connecting(failures + 1)];
        up := Connect(turn.opening);
      }
      if up.Some? {
        phases := phases + [Up(up.value)];
        failures := 0;
        deeds := deeds + [Began(clock, up.value)];
        var openedAt := clock;
        var swapped := Pump(up.value, turn.life);
        if swapped {
          handed := true;
          deeds := deeds + [HandedOver(clock)];
          return;
        }
        CountLife(clock - openedAt, turn.carried, up.value, upgraded);
      }
      var retryIn := Backoff(failures);
      phases := phases + [Lost(retryIn)];
      failures := failures + 1;
      WaitOut(retryIn, turn.wait);
    }

    /** The engine never stops on its own: any number of turns, whatever they meet. */
    method Run(turns: seq<Turn>)
      modifies this
      ensures Now() == EngineModel.Run(setup, old(Now()), turns)
    {
      hide EngineModel.OneTurn;
      var i := 0;
      while i < |turns|
        invariant 0 <= i <= |turns|
        invariant Now() == EngineModel.Run(setup, old(Now()), turns[..i])
      {
        OneTurn(turns[i]);
        assert turns[..i + 1][..i] == turns[..i];
        i := i + 1;
      }
      assert turns[..i] == turns;
    }
  }
}
