/**
 * Declarations shared by the whole model: the wire messages the session decodes,
 * the outcomes the transport reports, the subscriber entries of struct.go and the
 * observable effects of a session.
 */
module Types {
  import opened Wrappers

  newtype byte = b: int | 0 <= b < 0x100
  type Bytes = seq<byte>
  type uint64 = n: int | 0 <= n < 0x1_0000_0000_0000_0000

  // WebSocket close codes: section 7.4.1 of RFC 6455 (1012 and 1013 are registered by IANA)
  const CloseNormalClosure: int := 1000
  const CloseGoingAway: int := 1001
  const CloseNoStatusReceived: int := 1005
  const CloseAbnormalClosure: int := 1006
  const CloseInvalidFramePayloadData: int := 1007
  const ClosePolicyViolation: int := 1008
  const CloseServiceRestart: int := 1012
  const CloseTryAgainLater: int := 1013

  const MsgPayloadType: string := "msg"
  const AckPayloadType: string := "ack"
  const WebcastControlMessage: string := "WebcastControlMessage"
  /** Status carried by a control message when the room has closed. */
  const RoomClosedStatus: int := 3

  /** The two data-frame kinds a WebSocket read can return. */
  datatype FrameKind = TextFrame | BinaryFrame

  /** The outer push frame; `hasGzip` stands for the gzip content-encoding header. */
  datatype PushFrame = PushFrame(logID: uint64, payloadType: string, payload: Bytes, hasGzip: bool)

  datatype Message = Message(methodName: string, payload: Bytes)

  /** The decompressed batch: whether the peer wants an ACK, the token echoed in it, the messages. */
  datatype Response = Response(needAck: bool, internalExt: Bytes, messages: seq<Message>)

  datatype ControlMessage = ControlMessage(status: int)

  /**
   * Stand-ins for the protobuf and gzip decoders: each either yields a value or
   * fails. Nothing is assumed about them beyond being functions of their input.
   */
  datatype Codec = Codec(
    decodeFrame: Bytes -> Option<PushFrame>,
    gunzip: Bytes -> Option<Bytes>,
    decodeResponse: Bytes -> Option<Response>,
    decodeControl: Bytes -> Option<ControlMessage>)

  /** An open WebSocket connection, identified abstractly. */
  type ConnId = nat

  /** A transport error: a close error carrying its close code, or any other error (EOF, reset, ...). */
  datatype WsError = CloseErr(code: int) | OtherErr

  /** What one read of the connection returns. */
  datatype ReadResult = Received(kind: FrameKind, data: Bytes) | ReadFailed(err: WsError)

  /** What one dial of the push endpoint returns. */
  datatype DialOutcome = Dialed(conn: ConnId) | DialFailed(err: WsError)

  type HandlerId = string
  /** Opaque token for a subscriber's callback. */
  type Callback = nat
  datatype EventHandler = EventHandler(id: HandlerId, handler: Callback)

  /** Effects of the session that the outside world observes, in the order they happen. */
  datatype Event =
    | Invoked(handler: EventHandler, msg: Message)   // a subscriber's callback ran on a message
    | Wrote(conn: ConnId, frame: PushFrame)          // a binary frame was written to a connection
    | CloseFrameSent(conn: ConnId, code: int)        // a close control frame was sent
    | ConnClosed(conn: ConnId)                       // the underlying connection was closed
    | Dialing(outcome: DialOutcome)                  // a (re)connection attempt was made
}
