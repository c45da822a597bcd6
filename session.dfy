/**
 * The DouyinLive session object. Its fields are the ones the engine updates in
 * place; `trace` records what the outside world observes (callbacks run, frames
 * written, connections closed, dials made). Every method is proved to move the
 * abstract state Abs() exactly as the matching step of SessionSpec says.
 */
module Session {
  import opened Wrappers
  import opened Types
  import opened Frames
  import opened Registry
  import opened Policy
  import opened SessionSpec

  /** Every buffer parked in the pool has been reset to zero length. */
  predicate PoolClean(pool: seq<Bytes>)
  {
    forall k :: 0 <= k < |pool| ==> pool[k] == []
  }

  class DouyinLive {
    var conn: Option<ConnId>
    var isLiving: bool
    var manualClose: bool
    var eventHandlers: seq<EventHandler>
    /** Logical contents of the scratch buffers currently in the pool. */
    var bufferPool: seq<Bytes>
    var trace: seq<Event>
    const codec: Codec

    ghost predicate Valid()
      reads this
    {
      UniqueIds(eventHandlers) && PoolClean(bufferPool)
    }

    ghost function Abs(): State
      reads this
    {
      State(conn, isLiving, manualClose, eventHandlers, trace)
    }

    /** A session built from known room identifiers: live, unconnected, no subscribers. */
    constructor (codec: Codec)
      ensures Valid() && this.codec == codec
      ensures Abs() == State(None, true, false, [], [])
    {
      this.codec := codec;
      conn := None;
      isLiving := true;
      manualClose := false;
      eventHandlers := [];
      bufferPool := [];
      trace := [];
    }

    // ----- subscriber registry -----

    /** Register a callback under a fresh id and return that id. */
    method Subscribe(id: HandlerId, handler: Callback) returns (r: HandlerId)
      requires Valid() && id !in Ids(eventHandlers)
      modifies this`eventHandlers
      ensures Valid() && r == id
      ensures eventHandlers == old(eventHandlers) + [EventHandler(id, handler)]
      ensures Ids(eventHandlers) == Ids(old(eventHandlers)) + {id}
    {
      forall k | 0 <= k < |eventHandlers| ensures eventHandlers[k].id != id {
        assert eventHandlers[k] in eventHandlers;
      }
      eventHandlers := eventHandlers + [EventHandler(id, handler)];
      r := id;
    }

    /** Remove the first entry with the id, if any, by a linear search. */
    method Unsubscribe(id: HandlerId)
      requires Valid()
      modifies this`eventHandlers
      ensures Valid()
      ensures eventHandlers == RemoveFirst(old(eventHandlers), id)
      ensures Ids(eventHandlers) == Ids(old(eventHandlers)) - {id}
    {
      RemoveFirstKeepsUnique(eventHandlers, id);
      var i := 0;
      while i < |eventHandlers|
        invariant 0 <= i <= |eventHandlers| && eventHandlers == old(eventHandlers)
        invariant forall k :: 0 <= k < i ==> eventHandlers[k].id != id
      {
        if eventHandlers[i].id == id {
          RemoveFirstAt(eventHandlers, id, i);
          eventHandlers := eventHandlers[..i] + eventHandlers[i + 1..];
          return;
        }
        i := i + 1;
      }
      assert id !in Ids(eventHandlers) by {
        forall h | h in eventHandlers ensures h.id != id {
          var k :| 0 <= k < |eventHandlers| && eventHandlers[k] == h;
        }
      }
      RemoveFirstAbsent(eventHandlers, id);
    }

    /** Run every registered callback on the message, in registration order. */
    method EmitEvent(msg: Message)
      modifies this`trace
      ensures trace == old(trace) + Emitted(eventHandlers, msg)
    {
      var i := 0;
      while i < |eventHandlers|
        invariant 0 <= i <= |eventHandlers|
        invariant trace == old(trace) + Emitted(eventHandlers[..i], msg)
      {
        assert Emitted(eventHandlers[..i + 1], msg) == Emitted(eventHandlers[..i], msg) + [Invoked(eventHandlers[i], msg)];
        trace := trace + [Invoked(eventHandlers[i], msg)];
        i := i + 1;
      }
      assert eventHandlers[..i] == eventHandlers;
    }

    // ----- frame pipeline -----

    /** Deliver one message, then clear liveness on a room-closed control message. */
    method HandleSingleMessage(msg: Message)
      modifies this`trace, this`isLiving
      ensures Abs() == MessageStep(old(Abs()), codec, msg)
    {
      EmitEvent(msg);
      if msg.methodName == WebcastControlMessage {
        var control := codec.decodeControl(msg.payload);
        if control.None? {
          return;
        }
        if control.value.status == RoomClosedStatus {
          isLiving := false;
        }
      }
    }

    /**
     * Decompress through a pooled scratch buffer: take a buffer (or a new empty
     * one), write the payload, decompress, then reset the buffer and return it.
     * Because parked buffers are always reset, the decoder sees exactly the payload.
     */
    method DecompressGzip(data: Bytes) returns (r: Option<Bytes>)
      requires Valid()
      modifies this`bufferPool
      ensures Valid() && r == codec.gunzip(data)
    {
      var buf: Bytes;
      if |bufferPool| == 0 {
        buf := [];
      } else {
        buf := bufferPool[|bufferPool| - 1];
        bufferPool := bufferPool[..|bufferPool| - 1];
      }
      assert buf == [];
      buf := buf + data;
      assert buf == data;
      r := codec.gunzip(buf);
      buf := [];
      bufferPool := bufferPool + [buf];
    }

    /** Write the acknowledgement for a frame, when a connection is present. */
    method SendAck(logID: uint64, internalExt: Bytes)
      modifies this`trace
      ensures Abs() == AckStep(old(Abs()), logID, internalExt)
    {
      var ackFrame := AckFrame(logID, internalExt);
      if conn.Some? {
        trace := trace + [Wrote(conn.value, ackFrame)];
      }
    }

    /** A gzip "msg" frame: unpack, acknowledge if asked, then handle each message in order. */
    method HandleGzipMessage(frame: PushFrame)
      requires Valid()
      modifies this`trace, this`isLiving, this`bufferPool
      ensures Valid() && Abs() == GzipStep(old(Abs()), codec, frame)
    {
      var uncompressed := DecompressGzip(frame.payload);
      if uncompressed.None? {
        return;
      }
      var response := codec.decodeResponse(uncompressed.value);
      if response.None? {
        return;
      }
      var resp := response.value;
      if resp.needAck {
        SendAck(frame.logID, resp.internalExt);
      }
      ghost var acked := Abs();
      var i := 0;
      while i < |resp.messages|
        invariant Valid() && 0 <= i <= |resp.messages|
        invariant Dispatch(Abs(), codec, resp.messages[i..]) == Dispatch(acked, codec, resp.messages)
      {
        assert resp.messages[i..][1..] == resp.messages[i + 1..];
        HandleSingleMessage(resp.messages[i]);
        i := i + 1;
      }
    }

    // ----- read errors and reconnection -----

    /**
     * reconnect(attempts): refused when closed by the owner; otherwise tear down
     * the stale connection, then dial at most `attempts` times, stopping at the
     * first success or at an unrecoverable failure.
     */
    method Reconnect(attempts: nat, dials: seq<DialOutcome>) returns (ok: bool, used: nat)
      requires 0 < attempts <= |dials|
      modifies this`conn, this`trace
      ensures Reconnected(Abs(), ok, used) == ReconnectStep(old(Abs()), attempts, dials)
    {
      if manualClose {
        return false, 0;
      }
      if conn.Some? {
        trace := trace + [CloseFrameSent(conn.value, CloseGoingAway), ConnClosed(conn.value)];
        conn := None;
      }
      used := RetryDial(attempts, dials);
      ok := conn.Some?;
    }

    /**
     * The retry run of reconnect: dial with a fresh URL per attempt, keep the
     * first connection obtained, give up on an unrecoverable failure or after
     * `attempts` dials.
     */
    method RetryDial(attempts: nat, dials: seq<DialOutcome>) returns (used: nat)
      requires 0 < attempts <= |dials| && conn.None?
      modifies this`conn, this`trace
      ensures RetryOutcome(used, conn) == Retry(dials, attempts)
      ensures trace == old(trace) + DialLog(dials[..used])
    {
      used := 0;
      var stop := false;
      while !stop && used < attempts
        invariant 0 <= used <= attempts
        invariant trace == old(trace) + DialLog(dials[..used])
        invariant !stop ==> conn.None? && RetryablePrefix(dials, used)
        invariant stop ==> 0 < used && RetryablePrefix(dials, used - 1)
        invariant stop && conn.Some? ==> dials[used - 1] == Dialed(conn.value)
        invariant stop && conn.None? ==> dials[used - 1].DialFailed? && Abandons(dials[used - 1].err)
        decreases attempts - used, !stop
      {
        var outcome := dials[used];
        DialLogExtend(dials, used);
        trace := trace + [Dialing(outcome)];
        used := used + 1;
        match outcome {
          case Dialed(c) =>
            conn := Some(c);
            stop := true;
          case DialFailed(err) =>
            if Abandons(err) {
              stop := true;
            } else {
              RetryablePrefixExtend(dials, used - 1);
            }
        }
      }
      RetryDetermined(dials, attempts, used, conn);
    }

    /** handleReadError: classify the error, then stop or reconnect with five attempts. */
    method HandleReadError(err: WsError, dials: seq<DialOutcome>) returns (more: bool, used: nat)
      requires DefaultMaxRetries <= |dials|
      modifies this`conn, this`trace
      ensures Reconnected(Abs(), more, used) == ReadErrorStep(old(Abs()), err, dials)
    {
      match Classify(manualClose, err) {
        case ManualStop =>
          return false, 0;
        case NormalStop =>
          return false, 0;
        case RetryAbnormal =>
          more, used := Reconnect(DefaultMaxRetries, dials);
        case RetryLater =>
          // the source pauses five seconds here; time is not modelled
          more, used := Reconnect(DefaultMaxRetries, dials);
        case RetryNetwork =>
          more, used := Reconnect(DefaultMaxRetries, dials);
      }
    }

    /**
     * processMessages: while live, read; on a read error let handleReadError
     * decide whether to go on; skip text, empty and undecodable frames; hand
     * gzip "msg" frames to HandleGzipMessage.
     */
    method ProcessMessages(inbox: seq<ReadResult>, dials: seq<DialOutcome>)
      requires Valid() && conn.Some? && 5 * |inbox| <= |dials|
      modifies this`conn, this`trace, this`isLiving, this`bufferPool
      ensures Valid()
      ensures Abs() == ReadLoop(old(Abs()), codec, inbox, dials).state
    {
      ghost var final := ReadLoop(Abs(), codec, inbox, dials);
      var rest, unused := inbox, dials;
      var stopped := false;
      while !stopped && isLiving && rest != []
        invariant Valid()
        invariant 5 * |rest| <= |unused|
        invariant !stopped ==> conn.Some?
        invariant !stopped ==> ReadLoop(Abs(), codec, rest, unused) == final
        invariant stopped ==> Abs() == final.state
        decreases |rest|
      {
        ghost var s0 := Abs();
        match rest[0] {
          case ReadFailed(err) =>
            var more, used := HandleReadError(err, unused);
            ReadLoopOnError(s0, codec, rest, unused, Abs(), more, used, final);
            rest, unused := rest[1..], unused[used..];
            if !more {
              stopped := true;
            }
          case Received(kind, data) =>
            HandleFrame(kind, data);
            ReadLoopOnFrame(s0, codec, rest, unused, Abs(), final);
            rest := rest[1..];
        }
      }
    }

    /**
     * The body of processMessages for a successful read: skip text, empty and
     * undecodable frames; hand gzip "msg" frames to HandleGzipMessage.
     */
    method HandleFrame(kind: FrameKind, data: Bytes)
      requires Valid()
      modifies this`trace, this`isLiving, this`bufferPool
      ensures Valid() && Abs() == ReceiveStep(old(Abs()), codec, kind, data)
    {
      if kind != BinaryFrame || |data| == 0 {
        return;
      }
      var frame := codec.decodeFrame(data);
      if frame.None? {
        return;
      }
      if frame.value.payloadType == MsgPayloadType && frame.value.hasGzip {
        HandleGzipMessage(frame.value);
      }
    }

    // ----- lifecycle -----

    /**
     * Close: mark the session not live and closed by its owner; if a connection
     * is present, detach it from the session, send it a normal-closure close
     * frame and close it. With no connection nothing else happens, so a second
     * Close has no effect on the transport.
     */
    method Close()
      modifies this`isLiving, this`manualClose, this`conn, this`trace
      ensures !isLiving && manualClose && conn.None?
      ensures trace == old(trace) + Teardown(old(conn), CloseNormalClosure)
    {
      isLiving := false;
      manualClose := true;
      if conn.None? {
        return;
      }
      var c := conn.value;
      conn := None;
      trace := trace + [CloseFrameSent(c, CloseNormalClosure), ConnClosed(c)];
    }

    /** cleanup: close the connection if there is one (the field is not cleared). */
    method Cleanup()
      modifies this`trace
      ensures Abs() == CleanupStep(old(Abs()))
    {
      if conn.Some? {
        trace := trace + [ConnClosed(conn.value)];
      }
    }

    /**
     * Start2: initialise (an opaque step that may fail), dial, run the read loop;
     * an initialisation or dial failure is returned as an error, and cleanup
     * runs on every path.
     */
    method Start2(initOk: bool, first: DialOutcome, inbox: seq<ReadResult>, dials: seq<DialOutcome>)
      returns (err: Option<StartError>)
      requires Valid() && 5 * |inbox| <= |dials|
      modifies this`conn, this`trace, this`isLiving, this`bufferPool
      ensures Valid()
      ensures !initOk ==> err == Some(InitFailed) && Abs() == CleanupStep(old(Abs()))
      ensures initOk && first.DialFailed? ==>
        err == Some(DialError(first.err))
        && Abs() == CleanupStep(old(Abs()).(trace := old(trace) + [Dialing(first)]))
      ensures initOk && first.Dialed? ==>
        err.None?
        && Abs() == CleanupStep(ReadLoop(old(Abs()).(conn := Some(first.conn), trace := old(trace) + [Dialing(first)]),
                                         codec, inbox, dials).state)
    {
      if !initOk {
        Cleanup();
        return Some(InitFailed);
      }
      trace := trace + [Dialing(first)];
      match first {
        case DialFailed(e) =>
          Cleanup();
          return Some(DialError(e));
        case Dialed(c) =>
          conn := Some(c);
      }
      ProcessMessages(inbox, dials);
      Cleanup();
      return None;
    }
  }
}
