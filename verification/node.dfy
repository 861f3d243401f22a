/**
 The state of the `Server` node that the sequential kernel touches: the
 `playerObjects` dictionary and an ordered trace of the externally visible
 actions the node takes (settling an inbound message, adding a player scene
 to the tree, sending on a link).
 */
module Node {
  import opened Common
  import opened Wire

  /** The `Area2D` instanced from the player scene; its `IDLabel` shows `idLabel`. */
  datatype Player = Player(idLabel: string)

  /** The two sender links: the game-event topic and the debug sender on the
      command queue. */
  datatype Link = GameEventOut | CommandIn

  datatype Event =
    | Accept                          // receiver.Accept(message)
    | Spawn(uuid: string)             // AddChild of a new player instance
    | Send(link: Link, body: Body)    // SenderLink.Send, fire and forget

  datatype Server = Server(players: map<string, Player>, trace: seq<Event>)

  /** The exceptions that can escape the receive callback. */
  datatype Fault =
    | MalformedMessage                // Serializer.Deserialize throws
    | NullSecurityPayload             // securityCommandBuffer is null
    | DuplicateKey(uuid: string)      // Dictionary.Add on an existing key

  /** The node after a callback, and the exception it raised, if any. */
  datatype Outcome = Outcome(server: Server, failure: Option<Fault>)

  /** `after` is `before` with exactly one new key `u`, holding a player
      labelled `u`; every other entry is unchanged. */
  ghost predicate AddsExactly(before: map<string, Player>, after: map<string, Player>, u: string)
  {
    && u !in before
    && after.Keys == before.Keys + {u}
    && after[u] == Player(u)
    && forall k :: k in before ==> after[k] == before[k]
  }

  /** Every entry of `before` is still in `after` with the same player. */
  ghost predicate Keeps(before: map<string, Player>, after: map<string, Player>)
  {
    forall k :: k in before ==> k in after && after[k] == before[k]
  }

  /** The identities of the players added to the scene, in order. */
  function Spawned(trace: seq<Event>): (s: seq<string>)
    ensures |s| <= |trace|
  {
    if |trace| == 0 then []
    else (if trace[0].Spawn? then [trace[0].uuid] else []) + Spawned(trace[1..])
  }

  /** How many inbound messages were settled. */
  function Accepted(trace: seq<Event>): (n: nat)
    ensures n <= |trace|
    ensures n == 0 <==> Accept !in trace
  {
    if |trace| == 0 then 0
    else (if trace[0] == Accept then 1 else 0) + Accepted(trace[1..])
  }

  /** The bodies sent on `link`, in order. */
  function Outbox(trace: seq<Event>, link: Link): (out: seq<Body>)
    ensures |out| <= |trace|
  {
    if |trace| == 0 then []
    else (if trace[0].Send? && trace[0].link == link then [trace[0].body] else [])
         + Outbox(trace[1..], link)
  }

  lemma {:induction false} SpawnedAppend(a: seq<Event>, b: seq<Event>)
    ensures Spawned(a + b) == Spawned(a) + Spawned(b)
  {
    if |a| == 0 {
      assert a + b == b;
    } else {
      assert (a + b)[0] == a[0] && (a + b)[1..] == a[1..] + b;
      SpawnedAppend(a[1..], b);
      var h := if a[0].Spawn? then [a[0].uuid] else [];
      assert h + (Spawned(a[1..]) + Spawned(b)) == (h + Spawned(a[1..])) + Spawned(b);
    }
  }

  lemma {:induction false} AcceptedAppend(a: seq<Event>, b: seq<Event>)
    ensures Accepted(a + b) == Accepted(a) + Accepted(b)
  {
    if |a| == 0 {
      assert a + b == b;
    } else {
      assert (a + b)[1..] == a[1..] + b;
      AcceptedAppend(a[1..], b);
    }
  }

  lemma {:induction false} OutboxAppend(a: seq<Event>, b: seq<Event>, link: Link)
    ensures Outbox(a + b, link) == Outbox(a, link) + Outbox(b, link)
  {
    if |a| == 0 {
      assert a + b == b;
    } else {
      assert (a + b)[0] == a[0] && (a + b)[1..] == a[1..] + b;
      OutboxAppend(a[1..], b, link);
      var h := if a[0].Send? && a[0].link == link then [a[0].body] else [];
      assert h + (Outbox(a[1..], link) + Outbox(b, link)) == (h + Outbox(a[1..], link)) + Outbox(b, link);
    }
  }
}
