/**
 The nested tagged command carried on the command-ingestion queue, and the
 codec that moves it across the broker.

 The protobuf types (`CommandBuffer`, `SecurityCommandBuffer`,
 `RawInputCommandBuffer`, `DualStickRawInputCommandBuffer`, `Box2d.PbVec2`)
 are generated by a library that is not part of this model. Each message
 field is a reference that may be null, so it is an `Option` here; each enum
 is a C# enum, which can hold values outside its declared members, so every
 tag type has one extra constructor for such a value.
 */
module Wire {
  import opened Common

  datatype CommandBufferType = Security | Rawinput | CommandUnknown(code: int)
  datatype SecurityCommandBufferType = Join | Leave | SecurityUnknown(code: int)
  datatype RawInputCommandBufferType = Dualstick | RawInputUnknown(code: int)

  /** `Box2d.PbVec2`. The emitter only ever stores integral values in it; a
      received move may hold any float, but the receive path never reads it. */
  datatype Vec2 = Vec2(x: int, y: int)

  const Zero := Vec2(0, 0)

  datatype DualStickRawInputCommandBuffer = DualStickRawInputCommandBuffer(move: Option<Vec2>)

  datatype SecurityCommandBuffer = SecurityCommandBuffer(tag: SecurityCommandBufferType, uuid: string)

  datatype RawInputCommandBuffer =
    RawInputCommandBuffer(tag: RawInputCommandBufferType, uuid: string,
                          dualStick: Option<DualStickRawInputCommandBuffer>)

  /** The top-level envelope: a tag and one optional payload per tag. */
  datatype CommandBuffer =
    CommandBuffer(tag: CommandBufferType,
                  security: Option<SecurityCommandBuffer>,
                  rawInput: Option<RawInputCommandBuffer>)

  /** Every tag, at every level, is a declared enum member, and exactly the
      payloads those tags select are present. */
  predicate WellFormed(cb: CommandBuffer)
  {
    match cb.tag
    case Security =>
      && cb.security.Some?
      && cb.rawInput.None?
      && (cb.security.value.tag == Join || cb.security.value.tag == Leave)
    case Rawinput =>
      && cb.security.None?
      && cb.rawInput.Some?
      && cb.rawInput.value.tag == Dualstick
      && cb.rawInput.value.dualStick.Some?
      && cb.rawInput.value.dualStick.value.move.Some?
    case CommandUnknown(_) => false
  }

  /** What a well-formed command asks for, free of the envelope's nesting. */
  datatype Intent =
    | PlayerJoin(uuid: string)
    | PlayerLeave(uuid: string)
    | PlayerMove(uuid: string, move: Vec2)

  /** The one well-formed envelope that carries intent `i`: a join or a
      leave travels as a `Security` payload, a move as a `Dualstick` one. */
  function Envelope(i: Intent): (cb: CommandBuffer)
    ensures WellFormed(cb)
  {
    match i
    case PlayerJoin(u) => CommandBuffer(Security, Some(SecurityCommandBuffer(Join, u)), None)
    case PlayerLeave(u) => CommandBuffer(Security, Some(SecurityCommandBuffer(Leave, u)), None)
    case PlayerMove(u, m) =>
      CommandBuffer(Rawinput, None,
                    Some(RawInputCommandBuffer(Dualstick, u, Some(DualStickRawInputCommandBuffer(Some(m))))))
  }

  /** Reads the intent out of a command; only well-formed commands have one,
      and a well-formed command is exactly the envelope of its intent. */
  function View(cb: CommandBuffer): (i: Option<Intent>)
    ensures i.Some? <==> WellFormed(cb)
    ensures i.Some? ==> Envelope(i.value) == cb
  {
    if !WellFormed(cb) then None
    else match cb.tag
      case Security =>
        var s := cb.security.value;
        if s.tag == Join then Some(PlayerJoin(s.uuid)) else Some(PlayerLeave(s.uuid))
      case Rawinput =>
        var ri := cb.rawInput.value;
        Some(PlayerMove(ri.uuid, ri.dualStick.value.move.value))
  }

  /** Every intent is read back from its envelope. */
  lemma EnvelopeView(i: Intent)
    ensures View(Envelope(i)) == Some(i)
  {
  }

  /** Distinct well-formed commands never read as the same intent. */
  lemma ViewInjective(a: CommandBuffer, b: CommandBuffer)
    requires WellFormed(a) && WellFormed(b)
    requires View(a) == View(b)
    ensures a == b
  {
  }

  /** The body of an AMQP message on the command queue. The serializer is
      treated as an opaque channel that hands the value through unchanged;
      `Undecodable` stands for any byte string it rejects. */
  datatype Body = Encoded(cb: CommandBuffer) | Undecodable

  datatype DecodeError = Unparseable

  /** `Serializer.Serialize<CommandBuffer>`. */
  function Encode(cb: CommandBuffer): (b: Body)
    ensures Decode(b) == Success(cb)
  {
    Encoded(cb)
  }

  /** `Serializer.Deserialize<CommandBuffer>`, which throws on bytes that do
      not parse. */
  function Decode(b: Body): (r: Result<CommandBuffer, DecodeError>)
    ensures r.Failure? <==> b.Undecodable?
  {
    match b
    case Encoded(cb) => Success(cb)
    case Undecodable => Failure(Unparseable)
  }

  /** Every body that decodes is the encoding of what it decodes to. */
  lemma EncodeDecode(b: Body)
    requires Decode(b).Success?
    ensures Encode(Decode(b).value) == b
  {
  }
}
