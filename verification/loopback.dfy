/**
 The debug sender and the receiver of the node share the command queue:
 what the join button and the per-frame emitter send is what the receive
 callback later dispatches. The broker hands each body through unchanged.
 */
module Loopback {
  import opened Common
  import opened Wire
  import opened Node
  import opened Dispatch
  import opened Emitter

  /** On a well-formed envelope the dispatcher's reading agrees with the
      intent it carries: it registers an identity exactly for a join, and it
      never meets a null security payload. */
  lemma DispatcherReadsIntent(cb: CommandBuffer, u: string)
    requires WellFormed(cb)
    ensures JoinRequest(Encode(cb)) == Some(u) <==> View(cb) == Some(PlayerJoin(u))
    ensures !LacksSecurityPayload(Encode(cb))
  {
  }

  /** Pressing the join button and receiving what it sent registers the
      field's identity when it is new, and raises a duplicate-key error,
      leaving the map as it was, when it is not. */
  lemma JoinLoopback(srv: Server, text: string)
    ensures var sent := JoinPressed(srv, text);
      var o := GameEventReceived(sent, sent.trace[|srv.trace|].body);
      && (text !in srv.players ==>
            && o.failure.None?
            && AddsExactly(srv.players, o.server.players, text)
            && o.server.trace == sent.trace + [Accept, Spawn(text)])
      && (text in srv.players ==>
            && o.failure == Some(DuplicateKey(text))
            && o.server.players == srv.players
            && o.server.trace == sent.trace + [Accept])
  {
    var sent := JoinPressed(srv, text);
    var cb := Decode(sent.trace[|srv.trace|].body).value;
    DispatcherReadsIntent(cb, text);
  }

  /** A frame's movement message, once received, changes no player. */
  lemma MoveLoopback(srv: Server, keys: Keys, text: string)
    requires Velocity(keys) != Zero
    ensures var sent := Process(srv, keys, text);
      var o := GameEventReceived(sent, sent.trace[|srv.trace|].body);
      o == Outcome(Server(srv.players, sent.trace + [Accept]), None)
  {
    var sent := Process(srv, keys, text);
    var cb := Decode(sent.trace[|srv.trace|].body).value;
    DispatcherReadsIntent(cb, text);
  }

  /** What the local operator does on the node: press the join button, or
      let one frame pass with some keys held. */
  datatype UiAction = PressJoin(text: string) | Frame(keys: Keys, text: string)

  function Act(srv: Server, a: UiAction): Server
  {
    match a
    case PressJoin(text) => JoinPressed(srv, text)
    case Frame(keys, text) => Process(srv, keys, text)
  }

  /** Every body decodes to a well-formed envelope. */
  ghost predicate WellFormedBodies(bodies: seq<Body>)
  {
    forall i :: 0 <= i < |bodies| ==> Decode(bodies[i]).Success? && WellFormed(Decode(bodies[i]).value)
  }

  /** Two runs of well-formed bodies, back to back, are one. */
  lemma WellFormedBodiesAppend(head: seq<Body>, tail: seq<Body>)
    requires WellFormedBodies(head) && WellFormedBodies(tail)
    ensures WellFormedBodies(head + tail)
  {
    assert forall i :: 0 <= i < |tail| ==> (head + tail)[|head| + i] == tail[i];
  }

  /** The bodies one action leaves on the command queue. */
  function ActOutbox(srv: Server, a: UiAction): seq<Body>
  {
    Outbox(Act(srv, a).trace[|srv.trace|..], CommandIn)
  }

  /** A single send carrying `i` adds one well-formed body to the command
      queue, spawns nothing, and asks to register an identity exactly when
      `i` is a join. */
  lemma OneSendOutbox(srv: Server, s1: Server, i: Intent)
    requires SendsOne(srv, s1, i)
    ensures Spawned(s1.trace) == Spawned(srv.trace)
    ensures WellFormedBodies(Outbox(s1.trace[|srv.trace|..], CommandIn))
    ensures JoinRequests(Outbox(s1.trace[|srv.trace|..], CommandIn)) == (if i.PlayerJoin? then [i.uuid] else [])
    ensures Outbox(s1.trace[|srv.trace|..], CommandIn) == [Encode(Envelope(i))]
  {
    var e := s1.trace[|srv.trace|];
    var added := s1.trace[|srv.trace|..];
    assert added == [e] && added[1..] == [];
    assert s1.trace == srv.trace + added;
    SpawnedAppend(srv.trace, added);
    assert Spawned(added) == [];
    assert Outbox(added, CommandIn) == [e.body];
    DispatcherReadsIntent(Decode(e.body).value, i.uuid);
    assert [e.body][1..] == [];
    assert JoinRequests([e.body]) == JoinRequestSeq(e.body);
    EncodeDecode(e.body);
  }

  /** An action that sends nothing leaves nothing on the command queue. */
  lemma NoSendOutbox(srv: Server)
    ensures Outbox(srv.trace[|srv.trace|..], CommandIn) == []
  {
    assert srv.trace[|srv.trace|..] == [];
  }

  /** What one action leaves on the command queue is well-formed; it asks
      to register an identity exactly when the action is a join press. */
  lemma ActSends(srv: Server, a: UiAction)
    ensures Act(srv, a).players == srv.players
    ensures |Act(srv, a).trace| >= |srv.trace| && Act(srv, a).trace[..|srv.trace|] == srv.trace
    ensures Spawned(Act(srv, a).trace) == Spawned(srv.trace)
    ensures WellFormedBodies(ActOutbox(srv, a))
    ensures JoinRequests(ActOutbox(srv, a)) == (if a.PressJoin? then [a.text] else [])
  {
    var s1 := Act(srv, a);
    match a
    case PressJoin(text) =>
      assert s1 == JoinPressed(srv, text);
      OneSendOutbox(srv, s1, PlayerJoin(text));
    case Frame(keys, text) =>
      assert s1 == Process(srv, keys, text);
      if Velocity(keys) == Zero {
        assert s1 == srv;
        NoSendOutbox(srv);
      } else {
        OneSendOutbox(srv, s1, PlayerMove(text, Velocity(keys)));
      }
  }

  /** The intents one action sends: a press sends its join, a frame with a
      non-zero velocity sends its move, and a still frame sends nothing. */
  function ActIntents(a: UiAction): seq<Intent>
  {
    match a
    case PressJoin(text) => [PlayerJoin(text)]
    case Frame(keys, text) => if Velocity(keys) == Zero then [] else [PlayerMove(text, Velocity(keys))]
  }

  /** The bodies that carry `intents`, one canonical envelope each, in order. */
  function Encodings(intents: seq<Intent>): seq<Body>
  {
    if |intents| == 0 then [] else [Encode(Envelope(intents[0]))] + Encodings(intents[1..])
  }

  /** Each action leaves on the command queue exactly the encodings of the
      intents it sends. */
  lemma ActSendsIntents(srv: Server, a: UiAction)
    ensures ActOutbox(srv, a) == Encodings(ActIntents(a))
  {
    var s1 := Act(srv, a);
    match a
    case PressJoin(text) =>
      assert s1 == JoinPressed(srv, text);
      OneSendOutbox(srv, s1, PlayerJoin(text));
      assert Encodings([PlayerJoin(text)]) == [Encode(Envelope(PlayerJoin(text)))];
    case Frame(keys, text) =>
      assert s1 == Process(srv, keys, text);
      if Velocity(keys) == Zero {
        assert s1 == srv;
        NoSendOutbox(srv);
      } else {
        var i := PlayerMove(text, Velocity(keys));
        OneSendOutbox(srv, s1, i);
        assert Encodings([i]) == [Encode(Envelope(i))];
      }
  }

  /** A session of operator actions, one after another. */
  function EmitAll(srv: Server, actions: seq<UiAction>): (r: Server)
    decreases |actions|
    ensures r.players == srv.players
    ensures |r.trace| >= |srv.trace| && r.trace[..|srv.trace|] == srv.trace
  {
    if |actions| == 0 then srv
    else
      ActSends(srv, actions[0]);
      EmitAll(Act(srv, actions[0]), actions[1..])
  }

  /** The intents a session sends, in sending order. */
  function SessionIntents(actions: seq<UiAction>): seq<Intent>
  {
    if |actions| == 0 then [] else ActIntents(actions[0]) + SessionIntents(actions[1..])
  }

  /** The identities the session's join presses carry, in order. */
  function JoinTexts(actions: seq<UiAction>): seq<string>
  {
    if |actions| == 0 then []
    else (if actions[0].PressJoin? then [actions[0].text] else []) + JoinTexts(actions[1..])
  }

  /** The bodies a session leaves on the command queue, in sending order. */
  function SessionOutbox(srv: Server, actions: seq<UiAction>): seq<Body>
  {
    Outbox(EmitAll(srv, actions).trace[|srv.trace|..], CommandIn)
  }

  /** A session's outbox is its first action's followed by the rest's. */
  lemma SessionOutboxCons(srv: Server, actions: seq<UiAction>)
    requires |actions| > 0
    ensures SessionOutbox(srv, actions) == ActOutbox(srv, actions[0]) + SessionOutbox(Act(srv, actions[0]), actions[1..])
  {
    var s1 := Act(srv, actions[0]);
    ActSends(srv, actions[0]);
    var whole := EmitAll(s1, actions[1..]).trace;
    assert EmitAll(srv, actions).trace == whole;
    SliceSplit(whole, s1.trace, |srv.trace|);
    OutboxAppend(s1.trace[|srv.trace|..], whole[|s1.trace|..], CommandIn);
  }

  /** Every body of a session is well-formed, and the identities those
      bodies ask to register are the join presses' texts, in order. */
  lemma {:induction false} SessionOutboxRequests(srv: Server, actions: seq<UiAction>)
    ensures WellFormedBodies(SessionOutbox(srv, actions))
    ensures JoinRequests(SessionOutbox(srv, actions)) == JoinTexts(actions)
    decreases |actions|
  {
    if |actions| > 0 {
      var s1 := Act(srv, actions[0]);
      var head, tail := ActOutbox(srv, actions[0]), SessionOutbox(s1, actions[1..]);
      SessionOutboxCons(srv, actions);
      ActSends(srv, actions[0]);
      SessionOutboxRequests(s1, actions[1..]);
      WellFormedBodiesAppend(head, tail);
      JoinRequestsAppend(head, tail);
    }
  }

  /** The encodings of two runs of intents back to back. */
  lemma {:induction false} EncodingsAppend(a: seq<Intent>, b: seq<Intent>)
    ensures Encodings(a + b) == Encodings(a) + Encodings(b)
    decreases |a|
  {
    if |a| == 0 {
      assert a + b == b;
    } else {
      assert (a + b)[0] == a[0] && (a + b)[1..] == a[1..] + b;
      EncodingsAppend(a[1..], b);
      AppendTwice([Encode(Envelope(a[0]))], Encodings(a[1..]), Encodings(b), Encodings(a[1..]) + Encodings(b));
    }
  }

  /** A session leaves on the command queue exactly the encodings of the
      intents its actions send, in the order it sends them: every join press
      and every frame with a non-zero velocity, and nothing else. */
  lemma {:induction false} SessionOutboxIntents(srv: Server, actions: seq<UiAction>)
    ensures SessionOutbox(srv, actions) == Encodings(SessionIntents(actions))
    decreases |actions|
  {
    if |actions| > 0 {
      var s1 := Act(srv, actions[0]);
      SessionOutboxCons(srv, actions);
      ActSendsIntents(srv, actions[0]);
      SessionOutboxIntents(s1, actions[1..]);
      EncodingsAppend(ActIntents(actions[0]), SessionIntents(actions[1..]));
    }
  }

  /** A session spawns no player. */
  lemma {:induction false} SessionSpawnsNothing(srv: Server, actions: seq<UiAction>)
    ensures Spawned(EmitAll(srv, actions).trace) == Spawned(srv.trace)
    decreases |actions|
  {
    if |actions| > 0 {
      ActSends(srv, actions[0]);
      SessionSpawnsNothing(Act(srv, actions[0]), actions[1..]);
    }
  }

  /** A session whose join presses carry distinct new identities, followed
      by the delivery of everything it sent, registers exactly those
      identities and spawns them in the order the buttons were pressed. */
  lemma SessionLoopback(srv: Server, actions: seq<UiAction>)
    requires Distinct(JoinTexts(actions))
    requires forall u :: u in JoinTexts(actions) ==> u !in srv.players
    ensures var sent := EmitAll(srv, actions);
      var o := ReceiveAll(sent, SessionOutbox(srv, actions));
      && o.failure.None?
      && (forall k :: k in o.server.players <==> k in srv.players || k in JoinTexts(actions))
      && (forall u :: u in JoinTexts(actions) ==> o.server.players[u] == Player(u))
      && Spawned(o.server.trace) == Spawned(srv.trace) + JoinTexts(actions)
  {
    var sent := EmitAll(srv, actions);
    var out := SessionOutbox(srv, actions);
    SessionOutboxRequests(srv, actions);
    forall i | 0 <= i < |out| ensures !out[i].Undecodable? && !LacksSecurityPayload(out[i]) {
      DispatcherReadsIntent(Decode(out[i]).value, "");
    }
    assert Registrable(sent.players, out);
    ReceiveAllRegisters(sent, out);
    ReceiveAllSpawns(sent, out);
    SessionSpawnsNothing(srv, actions);
  }
}
