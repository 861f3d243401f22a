/**
 The send path: the join button handler and the per-frame movement
 message. Input polling and the `PlayerID` text field are parameters: the
 four action states and the field's text.
 */
module Emitter {
  import opened Common
  import opened Wire
  import opened Node

  /** Whether each of the four input actions is held this frame. */
  datatype Keys = Keys(rotateRight: bool, rotateLeft: bool, thrustForward: bool, thrustReverse: bool)

  /** The movement vector of one frame, accumulated one action at a time
      from zero. Each step adds or subtracts exactly 1, so the float
      arithmetic of the node is exact and is modelled with integers. */
  function Velocity(keys: Keys): (v: Vec2)
    ensures -1 <= v.x <= 1 && -1 <= v.y <= 1
    ensures v.x == 1 <==> keys.rotateRight && !keys.rotateLeft
    ensures v.x == -1 <==> keys.rotateLeft && !keys.rotateRight
    ensures v.y == 1 <==> keys.thrustForward && !keys.thrustReverse
    ensures v.y == -1 <==> keys.thrustReverse && !keys.thrustForward
  {
    var x0 := 0;
    var x1 := if keys.rotateRight then x0 + 1 else x0;
    var x2 := if keys.rotateLeft then x1 - 1 else x1;
    var y0 := 0;
    var y1 := if keys.thrustForward then y0 + 1 else y0;
    var y2 := if keys.thrustReverse then y1 - 1 else y1;
    Vec2(x2, y2)
  }

  /** Holding both keys of an opposing pair cancels that component. */
  lemma OpposingKeysCancel(keys: Keys)
    ensures keys.rotateRight && keys.rotateLeft ==> Velocity(keys).x == 0
    ensures keys.thrustForward && keys.thrustReverse ==> Velocity(keys).y == 0
  {
  }

  /** `Vector2.Length() > 0`. The length is the square root of
      `x * x + y * y`, so it is positive exactly when some component is
      non-zero (`LengthPositive`). */
  predicate HasLength(v: Vec2)
  {
    v.x != 0 || v.y != 0
  }

  lemma LengthPositive(v: Vec2)
    ensures HasLength(v) <==> v.x * v.x + v.y * v.y > 0
  {
    if v.x != 0 {
      assert v.x * v.x > 0;
    }
    if v.y != 0 {
      assert v.y * v.y > 0;
    }
  }

  /** The envelope the join button builds from the text field. */
  function JoinCommand(uuid: string): (cb: CommandBuffer)
    ensures WellFormed(cb)
    ensures View(cb) == Some(PlayerJoin(uuid))
  {
    var scb := SecurityCommandBuffer(Join, uuid);
    CommandBuffer(Security, Some(scb), None)
  }

  /** The envelope a moving frame builds from the text field and velocity. */
  function MovementCommand(uuid: string, move: Vec2): (cb: CommandBuffer)
    ensures WellFormed(cb)
    ensures View(cb) == Some(PlayerMove(uuid, move))
  {
    var dsricb := DualStickRawInputCommandBuffer(Some(move));
    var ricb := RawInputCommandBuffer(Dualstick, uuid, Some(dsricb));
    CommandBuffer(Rawinput, None, Some(ricb))
  }

  /** `e` is a send on the command queue whose body decodes to a well-formed
      envelope reading as `i`. */
  predicate Carries(e: Event, i: Intent)
  {
    && e.Send?
    && e.link == CommandIn
    && Decode(e.body).Success?
    && WellFormed(Decode(e.body).value)
    && View(Decode(e.body).value) == Some(i)
  }

  /** `after` is `before` with exactly one more event: a send on the
      command queue carrying `i`. The player map is untouched. */
  predicate SendsOne(before: Server, after: Server, i: Intent)
  {
    && after.players == before.players
    && |after.trace| == |before.trace| + 1
    && after.trace[..|before.trace|] == before.trace
    && Carries(after.trace[|before.trace|], i)
  }

  /** The join button: exactly one send, on the command queue, of a join for
      the text in the field. */
  function JoinPressed(srv: Server, text: string): (r: Server)
    ensures SendsOne(srv, r, PlayerJoin(text))
  {
    Server(srv.players, srv.trace + [Send(CommandIn, Encode(JoinCommand(text)))])
  }

  /** One frame: nothing is sent while no key moves the player; otherwise
      exactly one send, on the command queue, of a dual-stick input for the
      text in the field carrying the frame's velocity. */
  function Process(srv: Server, keys: Keys, text: string): (r: Server)
    ensures Velocity(keys) == Zero ==> r == srv
    ensures Velocity(keys) != Zero ==> SendsOne(srv, r, PlayerMove(text, Velocity(keys)))
  {
    var velocity := Velocity(keys);
    if HasLength(velocity) then
      Server(srv.players, srv.trace + [Send(CommandIn, Encode(MovementCommand(text, velocity)))])
    else
      srv
  }
}
