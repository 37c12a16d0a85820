/** Which carrier an attempt tries, when HTTP/3 is left alone (src/transport/carrier.rs), and how long
    opening HTTP/3 can take (src/transport/quic.rs). Times are milliseconds. */
module Carriers {
  import opened Common

  datatype Carrier = H2 | H3

  datatype Choice = Auto | OnlyH3 | OnlyH2

  datatype Plan = Only(carrier: Carrier) | H3ThenH2

  const PARK_FOR: nat := 600_000

  predicate Parked(until: Option<int>, now: int) {
    until.Some? && now < until.value
  }

  /** What an attempt tries, in order. A handshake split across TCP segments means something only on
      HTTP/2. */
  function PlanFor(choice: Choice, worksOverQuic: bool, parked: bool): Plan {
    if !worksOverQuic then Only(H2)
    else
      match choice
      case OnlyH2 => Only(H2)
      case OnlyH3 => Only(H3)
      case Auto => if parked then Only(H2) else H3ThenH2
  }

  // ----- opening HTTP/3 -----

  const HANDSHAKE_WAIT: nat := 4_000
  const EXCHANGE_WAIT: nat := 4_000
  const PATH_WAIT: nat := 2_000
  const PATH_POLL: nat := 20

  /** All the waits of one try together. */
  const H3_LIMIT: nat := HANDSHAKE_WAIT + EXCHANGE_WAIT + PATH_WAIT

  /** What the network does about one stage: when it answers, and whether that is what was wanted. */
  datatype Stage = Stage(after: nat, ok: bool)

  datatype Quic = Quic(handshake: Stage, exchange: Stage, path: Stage)

  /** When a look every `PATH_POLL` sees what happened `after`. */
  function Noticed(after: nat): nat {
    (after + PATH_POLL - 1) / PATH_POLL * PATH_POLL
  }

  predicate ShakesHands(q: Quic) {
    q.handshake.ok && q.handshake.after <= HANDSHAKE_WAIT
  }

  predicate Exchanges(q: Quic) {
    ShakesHands(q) && q.exchange.ok && q.exchange.after <= EXCHANGE_WAIT
  }

  /** Whether a try opens: every stage answers as wanted within its wait. */
  predicate Works(q: Quic) {
    Exchanges(q) && q.path.ok && q.path.after <= PATH_WAIT
  }

  /** How long a try takes, whatever becomes of it. */
  function Took(q: Quic): (t: nat)
    ensures t <= H3_LIMIT
  {
    Min(q.handshake.after, HANDSHAKE_WAIT) +
    (if ShakesHands(q) then Min(q.exchange.after, EXCHANGE_WAIT) else 0) +
    (if Exchanges(q) then Min(Noticed(q.path.after), PATH_WAIT) else 0)
  }

  /** Look again and again until the path has room, the link is lost, or the wait is over. */
  method WaitForRoom(path: Stage) returns (waited: nat, ok: bool)
    ensures waited == Min(Noticed(path.after), PATH_WAIT)
    ensures ok <==> path.ok && path.after <= PATH_WAIT
  {
    waited := 0;
    while waited < path.after && waited < PATH_WAIT
      invariant waited % PATH_POLL == 0 && waited <= PATH_WAIT
      invariant waited < path.after + PATH_POLL
    {
      waited := waited + PATH_POLL;
    }
    return waited, path.ok && path.after <= waited;
  }

  /** One try, stage by stage: every stage is timed, so a try never outlasts their waits. */
  method OpenH3(q: Quic) returns (took: nat, opens: bool)
    ensures took == Took(q) && (opens <==> Works(q))
  {
    if q.handshake.after > HANDSHAKE_WAIT {
      return HANDSHAKE_WAIT, false;
    }
    took := q.handshake.after;
    if !q.handshake.ok {
      return took, false;
    }
    if q.exchange.after > EXCHANGE_WAIT {
      return took + EXCHANGE_WAIT, false;
    }
    took := took + q.exchange.after;
    if !q.exchange.ok {
      return took, false;
    }
    var waited, room := WaitForRoom(q.path);
    return took + waited, room;
  }
}
