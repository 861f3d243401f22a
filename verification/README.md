# Space Ring Things game server: command kernel in Dafny

This project models the sequential kernel of the `Server` Godot node of the
Space Ring Things (SRT) game server. The node receives commands from an
AMQP 1.0 broker and sends debug commands back to the broker. The modelled
kernel has three parts.

- **The command schema.** `CommandBuffer` is a nested tagged union. Its top
  tag is `Security` or `Rawinput`. A security payload is tagged `Join` or
  `Leave` and carries a `Uuid`. A raw-input payload is tagged `Dualstick`
  and carries a `Uuid` and a 2-D move. Every payload reference may be null,
  and every enum may hold an undeclared value.
- **The receive path** (`GameEventReceived`, `ProcessSecurityGameEvent`, and
  the dictionary step of `InstantiatePlayer`). It settles each inbound
  message first, then decodes the message and routes it by tag. A join adds
  the identity to the `playerObjects` map.
- **The send path** (`_on_JoinAPlayer_pressed`, `_Process`). It builds a join
  command from the `PlayerID` text field. Each frame, it builds a dual-stick
  movement command from the four input actions, and it sends nothing on a
  frame with zero velocity.

The node's debug sender and its receiver use the same `COMMAND.IN` queue
(Server.cs:121-136). The `Loopback` module composes both paths. It shows
that when this node is the queue's only producer and only consumer, the
receive path dispatches exactly what the send path emitted.

Modules, one per file:

- `Common` (`common.dfy`): `Option`, `Result`, `Distinct`, and two general
  sequence facts.
- `Wire` (`wire.dfy`): the schema and `WellFormed`, which says that the tags
  match the populated payloads. `View` reads a well-formed envelope as an
  `Intent`. The codec is an opaque channel: `Encode`/`Decode` pass the value
  through unchanged, and `Undecodable` stands for any body that cannot be
  turned into a `CommandBuffer`.
- `Node` (`node.dfy`): the node's state. `Server` holds the player map and
  an ordered trace of visible actions: `Accept` (settling a message), `Spawn`
  (adding a player to the scene) and `Send` (on a link). `Fault` lists the
  exceptions that can escape the receive callback. The file also has trace
  readers (`Spawned`, `Accepted`, `Outbox`).
- `Dispatch` (`dispatch.dfy`): the receive callback. `ReceiveAll` runs the
  callback over a sequence of messages, one at a time. `Pump` is the same
  run written as a loop.
- `Emitter` (`emitter.dfy`): velocity from the four keys, the two command
  builders, the join button and the per-frame handler.
- `Loopback` (`loopback.dfy`): a session of operator actions, followed by
  the delivery of everything it sent.

Points where the code's behaviour is easy to misread:

- **Duplicate join.** A join for an identity that is already registered is
  not ignored. `Dictionary.Add` throws (Server.cs:39). The model returns
  `DuplicateKey` with the map unchanged. The message was already settled.
- **Undeclared tags.** The `switch` statements have no `default` case
  (Server.cs:52-63, 79-88). If the serializer accepts an enum value outside
  the declared members, the message falls through and nothing changes, and
  so does the model. If the serializer rejects such a value, the body is
  `Undecodable`. The model allows both.
- **Null security payload.** The code dereferences the security payload
  without a null check (Server.cs:52). The model returns the
  `NullSecurityPayload` error.
- **Empty `Uuid`.** The code never checks the `Uuid`, so the model accepts
  any string, the empty one included.

## Model

| member | source | states |
|---|---|---|
| `Wire.Encode` | Server.cs:158-161 | decoding what was serialized gives back the same envelope, field for field |
| `Wire.Decode` | Server.cs:71-77 | decoding fails exactly on a body that does not parse |
| `Wire.EncodeDecode` | Server.cs:71-77 | every body that decodes is the serialization of what it decodes to |
| `Wire.View` | Server.cs:79-88 | an envelope has an intent exactly when its tags at every level are declared and exactly the payloads they select are present; a well-formed envelope is the canonical envelope of its intent, so its tag, identity and move are the intent's |
| `Wire.EnvelopeView` | Server.cs:79-88 | reading the canonical envelope of any intent gives that intent back |
| `Wire.ViewInjective` | Server.cs:79-88 | two well-formed envelopes with the same intent are equal, so an intent fixes its envelope's tags and payloads |
| `Dispatch.InstantiatePlayer` | Server.cs:35-48 | a new identity adds exactly that key, holding a player labelled with it, leaves every other entry unchanged, and spawns it; an identity already present raises a duplicate-key error and changes nothing |
| `Dispatch.ProcessSecurityGameEvent` | Server.cs:50-64 | a null payload raises; a join for a new identity adds exactly that key and spawns its player, and a join for a present one raises a duplicate-key error with the node unchanged; `Leave` and undeclared security tags change nothing |
| `Dispatch.GameEventReceived` | Server.cs:65-89 | every message is settled before anything else, even when it then fails; an undecodable body, a null security payload and a duplicate join each raise their own error with the map unchanged; a fresh join adds exactly its identity; anything else changes nothing but the settlement |
| `Dispatch.NonJoinKeepsPlayers` | Server.cs:50-88 | a `Leave`, a `Rawinput` or an undeclared top-level or security tag is settled and leaves the player map as it was, with no error |
| `Dispatch.JoinRequestsMembers` | Server.cs:54-57 | an identity is requested by a run exactly when some message of the run is a join for it |
| `Dispatch.ReceiveAll` | Server.cs:128 | delivering messages one at a time never removes or replaces a player and only extends the trace |
| `Dispatch.ReceiveAllRegisters` | Server.cs:39 | a run of decodable messages with their payloads present, whose joins carry distinct new identities, raises nothing and registers exactly those identities |
| `Dispatch.ReceiveAllSpawns` | Server.cs:46 | a run in which no callback raises spawns the joined players in message order, one spawn per join |
| `Dispatch.ReceiveAllAccepts` | Server.cs:68-69 | a run in which no callback raises settles each of its messages exactly once |
| `Dispatch.Pump` | Server.cs:128 | the callback-per-message loop computes exactly the outcome of `ReceiveAll`, so it stops at the first callback that raises, after every earlier one succeeded, and otherwise delivers every message; it never removes or replaces a player, settles exactly the messages it delivered, and, when nothing raises, spawns the joined players in message order |
| `Emitter.Velocity` | Server.cs:193-213 | each component is -1, 0 or 1; it is 1 exactly when only the positive key is held and -1 exactly when only the negative key is held |
| `Emitter.OpposingKeysCancel` | Server.cs:195-213 | holding both keys of an opposing pair gives 0 on that axis |
| `Emitter.LengthPositive` | Server.cs:215 | the send test holds exactly when the squared Euclidean length is positive |
| `Emitter.JoinCommand` | Server.cs:147-154 | the join envelope is well-formed and reads as a join for the given identity |
| `Emitter.MovementCommand` | Server.cs:221-237 | the movement envelope is well-formed and reads as a dual-stick move for the given identity and vector |
| `Emitter.JoinPressed` | Server.cs:140-168 | the join button adds exactly one event, a send on the command queue carrying a join for the field's text, and leaves the map alone |
| `Emitter.Process` | Server.cs:188-251 | a frame with zero velocity changes nothing; otherwise it adds exactly one send on the command queue carrying a move for the field's text with the frame's velocity |
| `Loopback.DispatcherReadsIntent` | Server.cs:79-88 | on a well-formed envelope the receive path sees a join for an identity exactly when the envelope's intent is that join, and never meets a null security payload |
| `Loopback.JoinLoopback` | Server.cs:147-166 | receiving what the join button sent adds the field's identity and spawns its player when it is new; otherwise the message is still settled, and the callback then raises a duplicate-key error with the map unchanged |
| `Loopback.MoveLoopback` | Server.cs:221-248 | receiving a frame's movement command settles it and changes no player |
| `Loopback.EmitAll` | Server.cs:140-251 | a session of operator actions never touches the player map and only extends the trace |
| `Loopback.SessionOutboxRequests` | Server.cs:140-251 | every body a session sends is well-formed, and the identities they ask to register are the join presses' texts, in order |
| `Loopback.ActSendsIntents` | Server.cs:140-251 | a join press leaves exactly its join on the command queue, a frame with non-zero velocity exactly its move, and a still frame nothing |
| `Loopback.SessionOutboxIntents` | Server.cs:140-251 | a session leaves on the command queue exactly the encodings of the joins it pressed and the moves of its moving frames, in sending order, and nothing else |
| `Loopback.SessionLoopback` | Server.cs:122-135 | a session whose join presses carry distinct new identities, followed by delivery of all it sent, raises nothing, registers exactly those identities and spawns them in press order |

## Left out

- The AMQP connection, session, links, link capabilities, link credit and
  the disabled server-certificate validation (Server.cs:91-138) are left
  out. They are network I/O through a library that is not part of this
  model. The only parts kept are the two sender links, as `Link` values.
  The receive callback is kept, as `GameEventReceived`.
- `async void InitializeAMQP` runs concurrently with the handlers, so the
  sender link can still be null when a handler runs. That case is left out.
- The protobuf serializer and the generated types are not part of this
  model. The wire is a channel that hands the value through unchanged, so
  no byte-level round trip is stated.
- `Undecodable` covers both the `(byte[])` cast of the body and
  `Serializer.Deserialize` throwing. The model raises the same
  `MalformedMessage` for both.
- Scene work (`ResourceLoader.Load`, `Instance`, `GetNode`, `AddChild`,
  label text, logger set-up, `_Ready`) is left out. It is kept only as the
  `Spawn` event and the label held in `Player`.
- `Input.IsActionPressed` polling is left out. The four key states are
  boolean inputs.
- Text-field reads are left out. The field's text is a parameter.
- Floating-point `Vector2` arithmetic is modelled with integers. Every value
  the emitter produces is -1, 0 or 1, so this is exact. A move received on
  the command queue can hold any float, since other clients send there too.
  An integer stands in for it because the receive path never reads the move.
- `Vector2.Length() > 0` is modelled as `HasLength`, a non-zero-component
  test. `LengthPositive` ties it to a positive squared length. No square
  root is modelled.
- A null `Uuid` string is left out. `Dictionary.Add` would throw
  `ArgumentNullException` on it. Identities are Dafny strings, which are
  never null.
- An exception that escapes the receive callback ends a `ReceiveAll` run.
  What the AMQP library does after that is left out, and so are later
  deliveries.
- `SessionLoopback` assumes that this node is the only producer and the only
  consumer on `COMMAND.IN`, and that every send happens before every
  delivery. The queue is an anycast queue that clients also send on
  (Server.cs:26, 121-128), and another consumer could take this node's
  messages. The receive callback also runs on the AMQP library's thread,
  at the same time as `_Process`. Interleaving, other producers and other
  consumers are left out.
- Logging calls are left out. They have no effect on state.
