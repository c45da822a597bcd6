/**
 * The session as a value: the four fields of a DouyinLive that the engine
 * drives (connection, liveness, manual-close flag, subscriber list) plus the
 * effects it has produced so far. Each function below is one step of the
 * engine; the class in module Session is proved to perform exactly these steps.
 */
module SessionSpec {
  import opened Wrappers
  import opened Types
  import opened Frames
  import opened Registry
  import opened Policy

  datatype State = State(
    conn: Option<ConnId>,
    isLiving: bool,
    manualClose: bool,
    handlers: seq<EventHandler>,
    trace: seq<Event>)

  /** Effects of closing a connection that may be absent: a close frame with the given code, then the close. */
  function Teardown(conn: Option<ConnId>, code: int): seq<Event>
  {
    if conn.Some? then [CloseFrameSent(conn.value, code), ConnClosed(conn.value)] else []
  }

  // ----- dispatch of decoded messages -----

  /** One message: every subscriber sees it, then a room-closed control message clears liveness. */
  function MessageStep(s: State, codec: Codec, msg: Message): State
  {
    var s' := s.(trace := s.trace + Emitted(s.handlers, msg));
    if IsEndSignal(codec, msg) then s'.(isLiving := false) else s'
  }

  /** A batch of messages, handled one after the other. */
  function Dispatch(s: State, codec: Codec, msgs: seq<Message>): (r: State)
    ensures r.conn == s.conn && r.manualClose == s.manualClose && r.handlers == s.handlers
    ensures |s.trace| <= |r.trace| && r.trace[..|s.trace|] == s.trace
    ensures forall k :: |s.trace| <= k < |r.trace| ==> r.trace[k].Invoked?
    ensures !s.isLiving ==> !r.isLiving
    decreases |msgs|
  {
    if msgs == [] then s else Dispatch(MessageStep(s, codec, msgs[0]), codec, msgs[1..])
  }

  /** All callbacks a batch triggers, message by message. */
  function BatchEvents(hs: seq<EventHandler>, msgs: seq<Message>): seq<Event>
  {
    if msgs == [] then [] else Emitted(hs, msgs[0]) + BatchEvents(hs, msgs[1..])
  }

  predicate EndsStream(codec: Codec, msgs: seq<Message>)
  {
    exists i :: 0 <= i < |msgs| && IsEndSignal(codec, msgs[i])
  }

  /**
   * Dispatching a batch appends the callbacks of every message in order, and
   * leaves the session live exactly when it was live and no message of the
   * batch was a room-closed control message.
   */
  lemma {:induction false} DispatchEffect(s: State, codec: Codec, msgs: seq<Message>)
    ensures Dispatch(s, codec, msgs) ==
      s.(trace := s.trace + BatchEvents(s.handlers, msgs),
         isLiving := s.isLiving && !EndsStream(codec, msgs))
    decreases |msgs|
  {
    if msgs != [] {
      var s' := MessageStep(s, codec, msgs[0]);
      var r := Dispatch(s', codec, msgs[1..]);
      assert Dispatch(s, codec, msgs) == r;
      assert r.trace == s.trace + BatchEvents(s.handlers, msgs) by {
        DispatchEffect(s', codec, msgs[1..]);
        Associative(s.trace, Emitted(s.handlers, msgs[0]), BatchEvents(s.handlers, msgs[1..]));
      }
      assert r.isLiving == (s.isLiving && !EndsStream(codec, msgs)) by {
        DispatchEffect(s', codec, msgs[1..]);
        EndsStreamUnfold(codec, msgs);
      }
      assert r.conn == s.conn && r.manualClose == s.manualClose && r.handlers == s.handlers by {
        DispatchEffect(s', codec, msgs[1..]);
      }
    }
  }

  lemma EndsStreamUnfold(codec: Codec, msgs: seq<Message>)
    requires msgs != []
    ensures EndsStream(codec, msgs) <==> IsEndSignal(codec, msgs[0]) || EndsStream(codec, msgs[1..])
  {
    if EndsStream(codec, msgs[1..]) {
      var i :| 0 <= i < |msgs[1..]| && IsEndSignal(codec, msgs[1..][i]);
      assert msgs[i + 1] == msgs[1..][i];
    }
    if EndsStream(codec, msgs) && !IsEndSignal(codec, msgs[0]) {
      var i :| 0 <= i < |msgs| && IsEndSignal(codec, msgs[i]);
      assert msgs[1..][i - 1] == msgs[i];
    }
  }

  lemma MulStep(a: int, b: int)
    ensures (a + 1) * b == a * b + b
  {
  }

  lemma {:induction false} BatchLength(hs: seq<EventHandler>, msgs: seq<Message>)
    ensures |BatchEvents(hs, msgs)| == |msgs| * |hs|
  {
    if msgs != [] {
      BatchLength(hs, msgs[1..]);
      MulStep(|msgs| - 1, |hs|);
    }
  }

  /** The callbacks of two batches in a row are those of the first followed by those of the second. */
  lemma {:induction false} BatchAppend(hs: seq<EventHandler>, a: seq<Message>, b: seq<Message>)
    ensures BatchEvents(hs, a + b) == BatchEvents(hs, a) + BatchEvents(hs, b)
    decreases |a|
  {
    if a == [] {
      assert a + b == b;
    } else {
      assert a + b != [] && (a + b)[0] == a[0] && (a + b)[1..] == a[1..] + b;
      BatchAppend(hs, a[1..], b);
      Associative(Emitted(hs, a[0]), BatchEvents(hs, a[1..]), BatchEvents(hs, b));
    }
  }

  lemma Associative(x: seq<Event>, y: seq<Event>, z: seq<Event>)
    ensures x + (y + z) == (x + y) + z
  {
  }

  /**
   * Delivery order: the callbacks of a batch are those of the messages before
   * message i, then message i delivered to every handler once in registration
   * order (see Emitted), then those of the messages after it.
   */
  lemma BatchDelivery(hs: seq<EventHandler>, msgs: seq<Message>, i: nat)
    requires i < |msgs|
    ensures BatchEvents(hs, msgs)
         == BatchEvents(hs, msgs[..i]) + Emitted(hs, msgs[i]) + BatchEvents(hs, msgs[i + 1..])
  {
    assert msgs == msgs[..i] + ([msgs[i]] + msgs[i + 1..]);
    BatchAppend(hs, msgs[..i], [msgs[i]] + msgs[i + 1..]);
    BatchAppend(hs, [msgs[i]], msgs[i + 1..]);
    assert BatchEvents(hs, [msgs[i]]) == Emitted(hs, msgs[i]) + BatchEvents(hs, []);
  }

  // ----- one frame -----

  /** Sending an ACK writes the ack frame to the connection, if there is one. */
  function AckStep(s: State, logID: uint64, internalExt: Bytes): State
  {
    if s.conn.Some? then s.(trace := s.trace + [Wrote(s.conn.value, AckFrame(logID, internalExt))]) else s
  }

  /** A gzip "msg" frame: unpack; on success ACK if asked, then dispatch the batch; on failure nothing. */
  function GzipStep(s: State, codec: Codec, frame: PushFrame): State
  {
    match Unpack(codec, frame.payload)
    case None => s
    case Some(resp) =>
      Dispatch(if resp.needAck then AckStep(s, frame.logID, resp.internalExt) else s, codec, resp.messages)
  }

  /** A successful read: frames that are not accepted are skipped. */
  function ReceiveStep(s: State, codec: Codec, kind: FrameKind, data: Bytes): (r: State)
    ensures r.conn == s.conn && r.manualClose == s.manualClose && r.handlers == s.handlers
    ensures |s.trace| <= |r.trace| && r.trace[..|s.trace|] == s.trace
    ensures forall k :: |s.trace| <= k < |r.trace| ==> r.trace[k].Invoked? || r.trace[k].Wrote?
    ensures !s.isLiving ==> !r.isLiving
  {
    match Accept(codec, kind, data)
    case None => s
    case Some(frame) => GzipStep(s, codec, frame)
  }

  predicate OnlyInvocations(es: seq<Event>)
  {
    forall k :: 0 <= k < |es| ==> es[k].Invoked?
  }

  /**
   * The ACK sub-protocol for a frame that reached the gzip path. If the payload
   * does not unpack, nothing happens: no ACK and no dispatch. Otherwise the new
   * effects are one ACK (same log id, type "ack", the echoed token) exactly when
   * the peer asked for one and a connection exists, placed before every callback,
   * followed by the callbacks of the batch and nothing else.
   */
  lemma GzipStepAck(s: State, codec: Codec, frame: PushFrame)
    ensures Unpack(codec, frame.payload).None? ==> GzipStep(s, codec, frame) == s
    ensures Unpack(codec, frame.payload).Some? ==>
      var resp := Unpack(codec, frame.payload).value;
      var r := GzipStep(s, codec, frame);
      var acks := if resp.needAck && s.conn.Some? then 1 else 0;
      && |s.trace| + acks <= |r.trace|
      && r.trace[..|s.trace|] == s.trace
      && (acks == 1 ==> r.trace[|s.trace|] == Wrote(s.conn.value, AckFrame(frame.logID, resp.internalExt)))
      && r.trace[|s.trace| + acks..] == BatchEvents(s.handlers, resp.messages)
      && OnlyInvocations(r.trace[|s.trace| + acks..])
      && r.isLiving == (s.isLiving && !EndsStream(codec, resp.messages))
  {
    if Unpack(codec, frame.payload).Some? {
      var resp := Unpack(codec, frame.payload).value;
      var s' := if resp.needAck then AckStep(s, frame.logID, resp.internalExt) else s;
      DispatchEffect(s', codec, resp.messages);
      BatchOnlyInvocations(s.handlers, resp.messages);
    }
  }

  lemma {:induction false} BatchOnlyInvocations(hs: seq<EventHandler>, msgs: seq<Message>)
    ensures OnlyInvocations(BatchEvents(hs, msgs))
  {
    if msgs != [] {
      BatchOnlyInvocations(hs, msgs[1..]);
      InvocationsAppend(Emitted(hs, msgs[0]), BatchEvents(hs, msgs[1..]));
    }
  }

  lemma InvocationsAppend(a: seq<Event>, b: seq<Event>)
    requires OnlyInvocations(a) && OnlyInvocations(b)
    ensures OnlyInvocations(a + b)
  {
    assert forall k :: 0 <= k < |a + b| ==> (a + b)[k] == if k < |a| then a[k] else b[k - |a|];
  }

  // ----- read errors and reconnection -----

  /** A reconnect's result: the new state, whether it connected, how many scripted dials it used. */
  datatype Reconnected = Reconnected(state: State, ok: bool, used: nat)

  /** Effects of a run of dials. */
  function DialLog(dials: seq<DialOutcome>): (r: seq<Event>)
    ensures |r| == |dials|
    ensures forall k :: 0 <= k < |dials| ==> r[k] == Dialing(dials[k])
  {
    if dials == [] then [] else [Dialing(dials[0])] + DialLog(dials[1..])
  }

  lemma DialLogExtend(dials: seq<DialOutcome>, i: nat)
    requires i < |dials|
    ensures DialLog(dials[..i + 1]) == DialLog(dials[..i]) + [Dialing(dials[i])]
  {
  }

  /**
   * reconnect(attempts): refused outright once the session was closed by its
   * owner; otherwise the stale connection is sent a going-away close frame and
   * closed, then up to `attempts` dials are made as Retry decides.
   */
  function ReconnectStep(s: State, attempts: nat, dials: seq<DialOutcome>): (r: Reconnected)
    requires attempts <= |dials|
    ensures s.manualClose ==> r == Reconnected(s, false, 0)
    ensures r.used <= attempts
    ensures r.state.isLiving == s.isLiving && r.state.manualClose == s.manualClose
    ensures r.state.handlers == s.handlers
    ensures |s.trace| <= |r.state.trace| && r.state.trace[..|s.trace|] == s.trace
    ensures !s.manualClose ==> (r.ok <==> r.state.conn.Some?)
    ensures r.ok ==> 0 < r.used && dials[r.used - 1] == Dialed(r.state.conn.value)
    ensures !s.manualClose && attempts > 0 ==> r.used > 0
  {
    if s.manualClose then Reconnected(s, false, 0)
    else
      var t := Retry(dials, attempts);
      Reconnected(
        s.(conn := t.conn, trace := s.trace + Teardown(s.conn, CloseGoingAway) + DialLog(dials[..t.used])),
        t.conn.Some?, t.used)
  }

  /** handleReadError: the classification decides between stopping and reconnect(5). */
  function ReadErrorStep(s: State, err: WsError, dials: seq<DialOutcome>): (r: Reconnected)
    requires DefaultMaxRetries <= |dials|
    ensures !Classify(s.manualClose, err).Reconnects() ==> r == Reconnected(s, false, 0)
    ensures Classify(s.manualClose, err).Reconnects() ==> r == ReconnectStep(s, DefaultMaxRetries, dials)
    ensures r.used <= DefaultMaxRetries
    ensures r.ok ==> r.state.conn.Some?
  {
    if Classify(s.manualClose, err).Reconnects() then ReconnectStep(s, DefaultMaxRetries, dials)
    else Reconnected(s, false, 0)
  }

  /**
   * An abnormal closure, or any close code but 1000, on a session not closed by
   * its owner, with every dial failing retryably: all five attempts are made,
   * none connects, and the session is left without a connection.
   */
  lemma AbnormalCloseUsesAllRetries(s: State, err: WsError, dials: seq<DialOutcome>)
    requires DefaultMaxRetries <= |dials|
    requires !s.manualClose && err.CloseErr? && err.code != CloseNormalClosure
    requires forall k :: 0 <= k < DefaultMaxRetries ==> Retryable(dials[k])
    ensures ReadErrorStep(s, err, dials) == Reconnected(ReadErrorStep(s, err, dials).state, false, DefaultMaxRetries)
    ensures ReadErrorStep(s, err, dials).state.conn.None?
  {
    RetryExhausts(dials, DefaultMaxRetries);
  }

  // ----- the read loop -----

  datatype ExitReason =
    | NotLiving      // the liveness flag was found false
    | ReadStopped    // a read error was not followed by a successful reconnect
    | InboxDrained   // the scripted reads ran out (the real loop would block on the next read)

  datatype LoopEnd = LoopEnd(state: State, reason: ExitReason)

  /**
   * processMessages over a script of read results: while live, read; a read
   * error goes to handleReadError and ends the loop unless it reconnected;
   * anything read is handled by ReceiveStep. Each read error may use up to five
   * scripted dials, hence the requirement on the dial script's length. The loop
   * only runs on a connected session, and the proof obligations of the
   * recursive call show that it never reads without a connection.
   */
  function ReadLoop(s: State, codec: Codec, inbox: seq<ReadResult>, dials: seq<DialOutcome>): LoopEnd
    requires s.conn.Some? && 5 * |inbox| <= |dials|
    decreases |inbox|
  {
    if !s.isLiving then LoopEnd(s, NotLiving)
    else if inbox == [] then LoopEnd(s, InboxDrained)
    else match inbox[0]
      case ReadFailed(err) =>
        var r := ReadErrorStep(s, err, dials);
        if !r.ok then LoopEnd(r.state, ReadStopped)
        else ReadLoop(r.state, codec, inbox[1..], dials[r.used..])
      case Received(kind, data) =>
        ReadLoop(ReceiveStep(s, codec, kind, data), codec, inbox[1..], dials)
  }

  /** The read loop's step on a read error: handleReadError decides whether the loop goes on. */
  lemma ReadLoopOnError(
    s: State, codec: Codec, inbox: seq<ReadResult>, dials: seq<DialOutcome>,
    next: State, more: bool, used: nat, final: LoopEnd)
    requires inbox != [] && 5 * |inbox| <= |dials|
    requires s.conn.Some? && s.isLiving && inbox[0].ReadFailed?
    requires ReadLoop(s, codec, inbox, dials) == final
    requires Reconnected(next, more, used) == ReadErrorStep(s, inbox[0].err, dials)
    ensures used <= |dials| && 5 * |inbox[1..]| <= |dials[used..]|
    ensures more ==> next.conn.Some? && ReadLoop(next, codec, inbox[1..], dials[used..]) == final
    ensures !more ==> next == final.state
  {
  }

  /** The read loop's step on a successful read: the frame is handled and the loop goes on. */
  lemma ReadLoopOnFrame(
    s: State, codec: Codec, inbox: seq<ReadResult>, dials: seq<DialOutcome>, next: State, final: LoopEnd)
    requires inbox != [] && 5 * |inbox| <= |dials|
    requires s.conn.Some? && s.isLiving && inbox[0].Received?
    requires ReadLoop(s, codec, inbox, dials) == final
    requires next == ReceiveStep(s, codec, inbox[0].kind, inbox[0].data)
    ensures next.conn.Some? && 5 * |inbox[1..]| <= |dials|
    ensures ReadLoop(next, codec, inbox[1..], dials) == final
  {
  }

  /**
   * The read loop never touches the subscriber list or the manual-close flag,
   * only appends effects, and ends with the session not live exactly when it
   * exited because liveness was cleared.
   */
  lemma {:induction false} ReadLoopKeeps(s: State, codec: Codec, inbox: seq<ReadResult>, dials: seq<DialOutcome>)
    requires s.conn.Some? && 5 * |inbox| <= |dials|
    ensures var e := ReadLoop(s, codec, inbox, dials);
      && e.state.handlers == s.handlers
      && e.state.manualClose == s.manualClose
      && |s.trace| <= |e.state.trace| && e.state.trace[..|s.trace|] == s.trace
      && (e.reason == NotLiving <==> !e.state.isLiving)
    decreases |inbox|
  {
    if s.isLiving && inbox != [] {
      match inbox[0]
      case ReadFailed(err) =>
        var r := ReadErrorStep(s, err, dials);
        if r.ok {
          ReadLoopKeeps(r.state, codec, inbox[1..], dials[r.used..]);
        }
      case Received(kind, data) =>
        ReadLoopKeeps(ReceiveStep(s, codec, kind, data), codec, inbox[1..], dials);
    }
  }

  /**
   * Once the owner has closed the session, the read loop makes no dial and ends
   * on the connection it started with: no new connection is ever established.
   */
  lemma {:induction false} ReadLoopAfterManualClose(s: State, codec: Codec, inbox: seq<ReadResult>, dials: seq<DialOutcome>)
    requires s.conn.Some? && 5 * |inbox| <= |dials|
    requires s.manualClose
    ensures var e := ReadLoop(s, codec, inbox, dials);
      && e.state.conn == s.conn
      && forall k :: |s.trace| <= k < |e.state.trace| ==> !e.state.trace[k].Dialing?
    decreases |inbox|
  {
    if s.isLiving && inbox != [] {
      match inbox[0]
      case ReadFailed(err) =>
      case Received(kind, data) =>
        var s' := ReceiveStep(s, codec, kind, data);
        ReadLoopAfterManualClose(s', codec, inbox[1..], dials);
        ReadLoopKeeps(s', codec, inbox[1..], dials);
        var e := ReadLoop(s', codec, inbox[1..], dials);
        forall k | |s.trace| <= k < |s'.trace| ensures !e.state.trace[k].Dialing? {
          assert e.state.trace[k] == e.state.trace[..|s'.trace|][k];
        }
    }
  }

  /**
   * A frame whose batch carries a room-closed control message ends the loop at
   * its next liveness check: no further read is made, without any transport error.
   */
  lemma ReadLoopStopsOnRoomClosed(
    s: State, codec: Codec, kind: FrameKind, data: Bytes, rest: seq<ReadResult>, dials: seq<DialOutcome>)
    requires s.conn.Some? && s.isLiving && 5 * (|rest| + 1) <= |dials|
    requires Accept(codec, kind, data).Some?
    requires Unpack(codec, Accept(codec, kind, data).value.payload).Some?
    requires EndsStream(codec, Unpack(codec, Accept(codec, kind, data).value.payload).value.messages)
    ensures ReadLoop(s, codec, [Received(kind, data)] + rest, dials)
         == LoopEnd(ReceiveStep(s, codec, kind, data), NotLiving)
  {
    var frame := Accept(codec, kind, data).value;
    GzipStepAck(s, codec, frame);
    var inbox := [Received(kind, data)] + rest;
    assert inbox[0] == Received(kind, data) && inbox[1..] == rest;
  }

  // ----- lifecycle -----

  /** cleanup: close the connection if there is one; the field itself is left as it is. */
  function CleanupStep(s: State): State
  {
    if s.conn.Some? then s.(trace := s.trace + [ConnClosed(s.conn.value)]) else s
  }

  /** Why Start2 returned an error. */
  datatype StartError = InitFailed | DialError(err: WsError)
}
