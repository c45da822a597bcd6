/** Decisions the read loop takes about one frame, and the frames it builds. */
module Frames {
  import opened Wrappers
  import opened Types

  /**
   * The frame a read hands to the gzip path, if any: a binary, non-empty frame
   * that decodes as a push frame of payload type "msg" with the gzip header.
   * Every other read result is skipped.
   */
  function Accept(codec: Codec, kind: FrameKind, data: Bytes): (r: Option<PushFrame>)
    ensures r.Some? <==>
      && kind == BinaryFrame
      && |data| > 0
      && codec.decodeFrame(data).Some?
      && codec.decodeFrame(data).value.payloadType == MsgPayloadType
      && codec.decodeFrame(data).value.hasGzip
    ensures r.Some? ==> r == codec.decodeFrame(data)
  {
    if kind != BinaryFrame || |data| == 0 then None
    else match codec.decodeFrame(data)
      case None => None
      case Some(frame) =>
        if frame.payloadType == MsgPayloadType && frame.hasGzip then Some(frame) else None
  }

  /** Decompress a payload and decode the response batch; either step may fail. */
  function Unpack(codec: Codec, payload: Bytes): Option<Response>
  {
    match codec.gunzip(payload)
    case None => None
    case Some(raw) => codec.decodeResponse(raw)
  }

  /** The acknowledgement for a frame: same log id, payload type "ack", the echoed token, no headers. */
  function AckFrame(logID: uint64, internalExt: Bytes): PushFrame
  {
    PushFrame(logID, AckPayloadType, internalExt, false)
  }

  /** A control message whose decoded status says the room has closed. */
  predicate IsEndSignal(codec: Codec, msg: Message)
  {
    && msg.methodName == WebcastControlMessage
    && codec.decodeControl(msg.payload).Some?
    && codec.decodeControl(msg.payload).value.status == RoomClosedStatus
  }
}
