/**
 The receive path: `GameEventReceived`, `ProcessSecurityGameEvent` and the
 dictionary step of `InstantiatePlayer`.
 */
module Dispatch {
  import opened Common
  import opened Wire
  import opened Node

  /** The identity a delivered body asks the node to register: it decodes to
      a `Security` envelope whose present security payload is tagged `Join`. */
  function JoinRequest(body: Body): Option<string>
  {
    match Decode(body)
    case Success(cb) =>
      if cb.tag == Security && cb.security.Some? && cb.security.value.tag == Join
      then Some(cb.security.value.uuid) else None
    case Failure(_) => None
  }

  /** `JoinRequest` as a sequence of zero or one identity. */
  function JoinRequestSeq(body: Body): seq<string>
  {
    match JoinRequest(body)
    case Some(u) => [u]
    case None => []
  }

  /** The body decodes to a `Security` envelope whose security payload is null. */
  predicate LacksSecurityPayload(body: Body)
  {
    Decode(body).Success? && Decode(body).value.tag == Security && Decode(body).value.security.None?
  }

  /** The map step of `InstantiatePlayer`: `Dictionary.Add` followed by
      adding the labelled instance to the scene. `Add` throws on a key that
      is already present, before anything else happens. */
  function InstantiatePlayer(srv: Server, uuid: string): (r: Outcome)
    ensures uuid in srv.players ==> r == Outcome(srv, Some(DuplicateKey(uuid)))
    ensures uuid !in srv.players ==>
      && r.failure.None?
      && AddsExactly(srv.players, r.server.players, uuid)
      && r.server.trace == srv.trace + [Spawn(uuid)]
  {
    if uuid in srv.players then Outcome(srv, Some(DuplicateKey(uuid)))
    else Outcome(Server(srv.players[uuid := Player(uuid)], srv.trace + [Spawn(uuid)]), None)
  }

  /** Routes a security payload by its tag. A null payload is dereferenced
      by the `switch` and raises; `Leave` and undeclared tags only log. */
  function ProcessSecurityGameEvent(srv: Server, scb: Option<SecurityCommandBuffer>): (r: Outcome)
    ensures scb.None? ==> r == Outcome(srv, Some(NullSecurityPayload))
    ensures scb.Some? && scb.value.tag == Join && scb.value.uuid !in srv.players ==>
      && r.failure.None?
      && AddsExactly(srv.players, r.server.players, scb.value.uuid)
      && r.server.trace == srv.trace + [Spawn(scb.value.uuid)]
    ensures scb.Some? && scb.value.tag == Join && scb.value.uuid in srv.players ==>
      r == Outcome(srv, Some(DuplicateKey(scb.value.uuid)))
    ensures scb.Some? && scb.value.tag != Join ==> r == Outcome(srv, None)
  {
    match scb
    case None => Outcome(srv, Some(NullSecurityPayload))
    case Some(s) =>
      match s.tag
      case Join => InstantiatePlayer(srv, s.uuid)
      case Leave => Outcome(srv, None)
      case SecurityUnknown(_) => Outcome(srv, None)
  }

  /** The receive callback. The message is settled first, so the trace gains
      `Accept` whatever happens next; then the body is decoded and routed by
      its top-level tag. `Rawinput` and undeclared tags only log. */
  function GameEventReceived(srv: Server, body: Body): (r: Outcome)
    ensures |r.server.trace| > |srv.trace|
    ensures r.server.trace[..|srv.trace| + 1] == srv.trace + [Accept]
    ensures body.Undecodable? ==>
      r == Outcome(Server(srv.players, srv.trace + [Accept]), Some(MalformedMessage))
    ensures LacksSecurityPayload(body) ==>
      r == Outcome(Server(srv.players, srv.trace + [Accept]), Some(NullSecurityPayload))
    ensures JoinRequest(body).Some? && JoinRequest(body).value !in srv.players ==>
      && r.failure.None?
      && AddsExactly(srv.players, r.server.players, JoinRequest(body).value)
      && r.server.trace == srv.trace + [Accept, Spawn(JoinRequest(body).value)]
    ensures JoinRequest(body).Some? && JoinRequest(body).value in srv.players ==>
      r == Outcome(Server(srv.players, srv.trace + [Accept]),
                   Some(DuplicateKey(JoinRequest(body).value)))
    ensures !body.Undecodable? && !LacksSecurityPayload(body) && JoinRequest(body).None? ==>
      r == Outcome(Server(srv.players, srv.trace + [Accept]), None)
  {
    var accepted := Server(srv.players, srv.trace + [Accept]);
    match Decode(body)
    case Failure(_) => Outcome(accepted, Some(MalformedMessage))
    case Success(cb) =>
      match cb.tag
      case Security => ProcessSecurityGameEvent(accepted, cb.security)
      case Rawinput => Outcome(accepted, None)
      case CommandUnknown(_) => Outcome(accepted, None)
  }

  /** `Leave`, `Rawinput` and any undeclared tag settle the message and
      change nothing else. */
  lemma NonJoinKeepsPlayers(srv: Server, cb: CommandBuffer)
    requires || cb.tag == Rawinput
             || cb.tag.CommandUnknown?
             || (cb.tag == Security && cb.security.Some? && cb.security.value.tag != Join)
    ensures GameEventReceived(srv, Encode(cb)) == Outcome(Server(srv.players, srv.trace + [Accept]), None)
  {
  }

  /** The identities that a sequence of bodies asks to register, in order. */
  function JoinRequests(bodies: seq<Body>): (us: seq<string>)
    ensures |us| <= |bodies|
  {
    if |bodies| == 0 then []
    else JoinRequestSeq(bodies[0]) + JoinRequests(bodies[1..])
  }

  /** An identity is requested by a run exactly when some body of the run
      is a join for it. */
  lemma {:induction false} JoinRequestsMembers(bodies: seq<Body>, u: string)
    ensures u in JoinRequests(bodies) <==> exists i :: 0 <= i < |bodies| && JoinRequest(bodies[i]) == Some(u)
  {
    if |bodies| > 0 {
      JoinRequestsMembers(bodies[1..], u);
      if u in JoinRequests(bodies[1..]) {
        var i :| 0 <= i < |bodies[1..]| && JoinRequest(bodies[1..][i]) == Some(u);
        assert JoinRequest(bodies[i + 1]) == Some(u);
      }
      if exists i :: 0 <= i < |bodies| && JoinRequest(bodies[i]) == Some(u) {
        var i :| 0 <= i < |bodies| && JoinRequest(bodies[i]) == Some(u);
        if i > 0 {
          assert JoinRequest(bodies[1..][i - 1]) == Some(u);
        }
      }
    }
  }

  /** The requests of two runs back to back are the first's, then the second's. */
  lemma {:induction false} JoinRequestsAppend(a: seq<Body>, b: seq<Body>)
    ensures JoinRequests(a + b) == JoinRequests(a) + JoinRequests(b)
    decreases |a|
  {
    if |a| == 0 {
      assert a + b == b;
    } else {
      assert (a + b)[1..] == a[1..] + b;
      JoinRequestsAppend(a[1..], b);
    }
  }

  /** Messages delivered one at a time to the single callback, as the
      receiver link does. An exception escaping the callback ends the run;
      what the AMQP library does after that is not modelled. */
  function ReceiveAll(srv: Server, bodies: seq<Body>): (r: Outcome)
    decreases |bodies|
    ensures Keeps(srv.players, r.server.players)
    ensures |r.server.trace| >= |srv.trace| && r.server.trace[..|srv.trace|] == srv.trace
    ensures |bodies| == 0 ==> r == Outcome(srv, None)
  {
    if |bodies| == 0 then Outcome(srv, None)
    else
      var o := GameEventReceived(srv, bodies[0]);
      if o.failure.Some? then o else ReceiveAll(o.server, bodies[1..])
  }

  /** Every body decodes, carries the payload its tag selects, and the
      identities the run asks to register are distinct and not yet present. */
  ghost predicate Registrable(players: map<string, Player>, bodies: seq<Body>)
  {
    && (forall i :: 0 <= i < |bodies| ==> !bodies[i].Undecodable? && !LacksSecurityPayload(bodies[i]))
    && Distinct(JoinRequests(bodies))
    && (forall u :: u in JoinRequests(bodies) ==> u !in players)
  }

  /** One callback of a registrable run succeeds and leaves the rest of the
      run registrable. */
  lemma RegistrableStep(srv: Server, bodies: seq<Body>)
    requires |bodies| > 0 && Registrable(srv.players, bodies)
    ensures GameEventReceived(srv, bodies[0]).failure.None?
    ensures Registrable(GameEventReceived(srv, bodies[0]).server.players, bodies[1..])
  {
    var o := GameEventReceived(srv, bodies[0]);
    var rest := bodies[1..];
    assert forall i :: 0 <= i < |rest| ==> rest[i] == bodies[i + 1];
    var all := JoinRequests(bodies);
    var tail := JoinRequests(rest);
    match JoinRequest(bodies[0])
    case Some(u) =>
      assert all == [u] + tail;
      forall i, j | 0 <= i < j < |tail| ensures tail[i] != tail[j] {
        assert all[i + 1] == tail[i] && all[j + 1] == tail[j];
      }
      forall v | v in tail ensures v !in o.server.players {
        var j :| 0 <= j < |tail| && tail[j] == v;
        assert all[j + 1] == v && all[0] == u;
      }
    case None =>
      assert all == tail;
  }

  /** A callback that raises nothing spawns exactly the identity the body
      asks to register, if any. */
  lemma StepEvents(srv: Server, body: Body)
    requires GameEventReceived(srv, body).failure.None?
    ensures Spawned(GameEventReceived(srv, body).server.trace) == Spawned(srv.trace) + JoinRequestSeq(body)
  {
    if JoinRequest(body).Some? {
      var u := JoinRequest(body).value;
      var added := [Accept, Spawn(u)];
      assert added[1..] == [Spawn(u)] && added[1..][1..] == [];
      SpawnedAppend(srv.trace, added);
    } else {
      assert [Accept][1..] == [];
      SpawnedAppend(srv.trace, [Accept]);
    }
  }

  /** A registrable run completes and registers exactly the identities it
      asks for, each labelled with its own identity. */
  lemma {:induction false} ReceiveAllRegisters(srv: Server, bodies: seq<Body>)
    requires Registrable(srv.players, bodies)
    ensures ReceiveAll(srv, bodies).failure.None?
    ensures forall k :: k in ReceiveAll(srv, bodies).server.players <==>
      k in srv.players || k in JoinRequests(bodies)
    ensures forall u :: u in JoinRequests(bodies) ==> ReceiveAll(srv, bodies).server.players[u] == Player(u)
    decreases |bodies|
  {
    if |bodies| > 0 {
      var o := GameEventReceived(srv, bodies[0]);
      RegistrableStep(srv, bodies);
      ReceiveAllRegisters(o.server, bodies[1..]);
      var rest := bodies[1..];
      assert forall i :: 0 <= i < |rest| ==> rest[i] == bodies[i + 1];
      match JoinRequest(bodies[0])
      case Some(u) =>
        assert JoinRequests(bodies) == [u] + JoinRequests(rest);
      case None =>
        assert JoinRequests(bodies) == JoinRequests(rest);
    }
  }

  /** A run in which no callback raises spawns the requested players in
      message order. */
  lemma {:induction false} ReceiveAllSpawns(srv: Server, bodies: seq<Body>)
    requires ReceiveAll(srv, bodies).failure.None?
    ensures Spawned(ReceiveAll(srv, bodies).server.trace) == Spawned(srv.trace) + JoinRequests(bodies)
    decreases |bodies|
  {
    if |bodies| > 0 {
      var o := GameEventReceived(srv, bodies[0]);
      assert o.failure.None?;
      ReceiveAllStep(srv, bodies);
      StepEvents(srv, bodies[0]);
      ReceiveAllSpawns(o.server, bodies[1..]);
      JoinRequestsCons(bodies);
      AppendTwice(Spawned(srv.trace), JoinRequestSeq(bodies[0]), JoinRequests(bodies[1..]), JoinRequests(bodies));
    }
  }

  /** A run in which no callback raises settles every message. */
  lemma {:induction false} ReceiveAllAccepts(srv: Server, bodies: seq<Body>)
    requires ReceiveAll(srv, bodies).failure.None?
    ensures Accepted(ReceiveAll(srv, bodies).server.trace) == Accepted(srv.trace) + |bodies|
    decreases |bodies|
  {
    if |bodies| > 0 {
      var o := GameEventReceived(srv, bodies[0]);
      assert o.failure.None?;
      ReceiveAllStep(srv, bodies);
      StepAccepts(srv, bodies[0]);
      ReceiveAllAccepts(o.server, bodies[1..]);
    }
  }

  /** A callback that raises nothing hands the rest of the run to the next one. */
  lemma ReceiveAllStep(srv: Server, bodies: seq<Body>)
    requires |bodies| > 0 && GameEventReceived(srv, bodies[0]).failure.None?
    ensures ReceiveAll(srv, bodies) == ReceiveAll(GameEventReceived(srv, bodies[0]).server, bodies[1..])
  {
  }

  /** The requests of a run are those of its first body followed by the rest's. */
  lemma JoinRequestsCons(bodies: seq<Body>)
    requires |bodies| > 0
    ensures JoinRequests(bodies) == JoinRequestSeq(bodies[0]) + JoinRequests(bodies[1..])
  {
  }

  /** A callback never removes or replaces a player that was there before. */
  lemma StepKeeps(players: map<string, Player>, cur: Server, body: Body)
    requires Keeps(players, cur.players)
    ensures Keeps(players, GameEventReceived(cur, body).server.players)
  {
    var o := GameEventReceived(cur, body);
    if JoinRequest(body).Some? && JoinRequest(body).value !in cur.players {
      assert AddsExactly(cur.players, o.server.players, JoinRequest(body).value);
    } else {
      assert o.server.players == cur.players;
    }
  }

  /** A callback settles exactly one message, whether or not it raises. */
  lemma StepAccepts(cur: Server, body: Body)
    ensures Accepted(GameEventReceived(cur, body).server.trace) == Accepted(cur.trace) + 1
  {
    var o := GameEventReceived(cur, body);
    var added := o.server.trace[|cur.trace|..];
    assert o.server.trace == cur.trace + added;
    AcceptedAppend(cur.trace, added);
    if o.failure.None? && JoinRequest(body).Some? {
      var u := JoinRequest(body).value;
      assert added == [Accept, Spawn(u)];
      assert added[1..] == [Spawn(u)] && added[1..][1..] == [];
    } else {
      assert added == [Accept];
      assert added[1..] == [];
    }
  }

  /** What one callback does to the quantities the receive loop tracks. */
  lemma StepSummary(players: map<string, Player>, cur: Server, body: Body)
    requires Keeps(players, cur.players)
    ensures Keeps(players, GameEventReceived(cur, body).server.players)
    ensures Accepted(GameEventReceived(cur, body).server.trace) == Accepted(cur.trace) + 1
    ensures GameEventReceived(cur, body).failure.None? ==>
      Spawned(GameEventReceived(cur, body).server.trace) == Spawned(cur.trace) + JoinRequestSeq(body)
  {
    StepKeeps(players, cur, body);
    StepAccepts(cur, body);
    if GameEventReceived(cur, body).failure.None? {
      StepEvents(cur, body);
    }
  }

  /** The receive loop as it runs: one callback per message, stopping at the
      first one that raises. `delivered` counts the callbacks that ran. */
  method Pump(srv: Server, bodies: seq<Body>) returns (r: Outcome, delivered: nat)
    ensures delivered <= |bodies|
    ensures r.failure.None? ==> delivered == |bodies|
    ensures r.failure.Some? ==> delivered > 0
    ensures Keeps(srv.players, r.server.players)
    ensures Accepted(r.server.trace) == Accepted(srv.trace) + delivered
    ensures r.failure.None? ==> Spawned(r.server.trace) == Spawned(srv.trace) + JoinRequests(bodies)
    ensures r == ReceiveAll(srv, bodies)
  {
    r := Outcome(srv, None);
    delivered := 0;
    while delivered < |bodies| && r.failure.None?
      invariant delivered <= |bodies|
      invariant r.failure.Some? ==> delivered > 0
      invariant Keeps(srv.players, r.server.players)
      invariant Accepted(r.server.trace) == Accepted(srv.trace) + delivered
      invariant r.failure.None? ==>
        Spawned(r.server.trace) + JoinRequests(bodies[delivered..]) == Spawned(srv.trace) + JoinRequests(bodies)
      invariant ReceiveAll(srv, bodies) == (if r.failure.Some? then r else ReceiveAll(r.server, bodies[delivered..]))
      decreases |bodies| - delivered
    {
      var o := GameEventReceived(r.server, bodies[delivered]);
      StepSummary(srv.players, r.server, bodies[delivered]);
      if o.failure.None? {
        var rest := bodies[delivered..];
        assert rest[0] == bodies[delivered] && rest[1..] == bodies[delivered + 1..];
        JoinRequestsCons(rest);
        AppendTwice(Spawned(r.server.trace), JoinRequestSeq(rest[0]), JoinRequests(rest[1..]), JoinRequests(rest));
        ReceiveAllStep(r.server, rest);
      }
      r := o;
      delivered := delivered + 1;
    }
    if r.failure.None? {
      assert bodies[delivered..] == [];
    }
  }
}
