# douyinLive session engine, modelled in Dafny

This project models the session state machine of the `DouyinLive` client in
`douyin.go`. The client holds a WebSocket connection to a Douyin live room. It
reads push frames, decompresses and decodes the message batches they carry,
acknowledges them when the server asks for it, and hands every message to the
subscribed callbacks. A read error leads either to a stop or to a bounded
reconnect. A room-closed control message ends the session.

The model has two layers.

- **A specification layer of values.** This is module `SessionSpec`, built on
  `Frames`, `Registry` and `Policy`. A `State` holds the four fields the engine
  drives: `conn`, `isLiving`, `manualClose` and the subscriber list. It also
  holds a `trace` of the effects seen from outside: callbacks run, frames
  written, close frames sent, connections closed and dials made. Each engine
  step is a function on `State`. The lemmas about those functions state what
  the engine promises.
- **An imperative layer.** This is module `Session`, with a `class DouyinLive`
  whose fields are updated in place, as the Go methods update theirs. Each
  method is proved to move its abstract state `Abs()` exactly as the matching
  step function does. The loops carry the invariants this needs:
  - the search in `Unsubscribe`;
  - the handler loop in `EmitEvent`;
  - the dispatch loop in `HandleGzipMessage`;
  - the retry loop in `RetryDial`;
  - the read loop in `ProcessMessages`.

The transport and the codecs are stand-ins:

- The decoders are a `Codec` value made of total functions that return
  `Option`: the push-frame decoder, gunzip, the response decoder and the
  control-message decoder.
- The results the connection returns on successive reads are an input sequence
  `inbox`. The outcomes of successive dials are an input sequence `dials`,
  which the retry loop consumes.
- Close codes are those of section 7.4.1 of RFC 6455. The default retry count
  of 5 comes from douyin.go:28.

Behaviour that the model keeps as it is in the code:

- A read error that is not a WebSocket close error, such as a connection
  reset or a read timeout, is classified as a normal stop and does not
  reconnect. The library test `IsUnexpectedCloseError(err, 1000)` is false for
  such errors. (An end of stream during a read reaches the session as a close
  error with code 1006, and so does reconnect.)
- Codes 1006 and 1013 trigger a reconnect on the read path. On the dial path
  the dial closure marks the same codes as unrecoverable, but that mark has no
  effect (next point).
- The reconnect loop uses the `github.com/avast/retry-go` API from before
  version 4, in which installing a retry filter with `RetryIf` replaces the
  library's default test for the unrecoverable mark. The installed filter
  tests the error it receives for a close error with code 1007 or 1008. An
  error marked unrecoverable is a wrapper, not a close error, and 1007 and
  1008 are always marked. So the filter never refuses an error, and every
  failed dial is retried until the attempts run out
  (`Policy.RetryFilterNeverFires`, `Policy.RetryStopsOnlyOnSuccess`).
- `manualClose` is checked only when `reconnect` starts, not between dial
  attempts.
- `cleanup` closes the connection but leaves the `conn` field set.

## Model

| member | source | states |
|---|---|---|
| Registry.RemoveFirst | douyin.go:552-559 | Defines the list after removing the first entry with the id, if there is one. |
| Frames.Unpack | douyin.go:340-350 | Defines the response batch of a payload: decompress, then decode; a failure at either step gives none. |
| Frames.AckFrame | douyin.go:385-389 | Defines the ACK frame: the frame's log id, payload type "ack", the echoed token as payload, no headers. |
| Frames.IsEndSignal | douyin.go:409-415 | Defines a room-closed message: method `WebcastControlMessage`, a control payload that decodes, and status 3. |
| SessionSpec.MessageStep | douyin.go:406-420 | Defines one message's step: every subscriber's callback, then liveness cleared on a room-closed message. |
| SessionSpec.AckStep | douyin.go:384-403 | Defines the ACK step: the ACK frame written to the connection when there is one, otherwise nothing. |
| SessionSpec.GzipStep | douyin.go:339-359 | Defines one gzip "msg" frame's step: unpack; on failure nothing; otherwise the ACK step when asked, then the batch's dispatch. |
| SessionSpec.ReadLoop | douyin.go:302-328 | Defines the read loop over scripted reads and dials: stop when not live; a read error goes to the read-error step and ends the loop unless it reconnected; a successful read goes to the receive step. |
| SessionSpec.CleanupStep | douyin.go:528-532 | Defines cleanup: the connection, if any, is closed; the field is not cleared. |
| Session.DouyinLive.constructor | douyin.go:65-77 | A new session is live, not closed by its owner, unconnected, with no subscribers and a clean buffer pool. |
| Session.DouyinLive.Subscribe | douyin.go:542-549 | Returns the id it stored. Appends exactly one entry `(id, handler)` at the end and leaves every earlier entry as it was. The id set grows by that id, so ids stay unique. |
| Session.DouyinLive.Unsubscribe | douyin.go:552-559 | The linear search leaves the list equal to `RemoveFirst(old list, id)`. Ids stay unique, and the id set loses exactly `id`. |
| Registry.RemoveFirstAt | douyin.go:552-559 | When the first entry with the id is at index i, removal splices out exactly that entry and keeps all the others in order. |
| Registry.RemoveFirstAbsent | douyin.go:552-559 | With no entry carrying the id, the list is unchanged. |
| Registry.RemoveFirstKeepsUnique | douyin.go:552-559 | On a list with unique ids, removal keeps the ids unique and removes exactly that id from the id set. The list shrinks by one if and only if the id was present. |
| Registry.Emitted | douyin.go:535-539 | One callback per subscriber, so the count equals the number of subscribers. The k-th callback is subscriber k's on this message. |
| Session.DouyinLive.EmitEvent | douyin.go:535-539 | The handler loop appends exactly `Emitted(handlers, msg)` to the effects and changes nothing else. |
| Session.DouyinLive.HandleSingleMessage | douyin.go:406-420 | Performs `MessageStep`: deliver to every subscriber. Clear liveness only for a `WebcastControlMessage` whose control payload decodes with status 3. |
| Frames.Accept | douyin.go:310-326 | A read result reaches the gzip path if and only if all of these hold: it is binary; it is non-empty; it decodes as a push frame; that frame has payload type "msg" and a gzip header. Every other read result is skipped. |
| SessionSpec.ReceiveStep | douyin.go:310-326 | Handling one successful read leaves `conn`, `manualClose` and the subscribers unchanged. It only appends callbacks and writes to the trace, and it never makes a non-live session live again. |
| Session.DouyinLive.DecompressGzip | douyin.go:362-381 | Decompression through the pooled buffer gives exactly `gunzip(payload)`, because every buffer parked in the pool has been reset. |
| Session.DouyinLive.SendAck | douyin.go:384-403 | Writes the ACK frame to the connection if and only if a connection exists. The frame has the same log id, payload type "ack" and the echoed token. |
| Session.DouyinLive.HandleGzipMessage | douyin.go:339-359 | Performs `GzipStep`: unpack, then ACK when asked, then handle every message in order. |
| SessionSpec.GzipStepAck | douyin.go:339-359 | If the payload does not decompress or parse, nothing happens: no ACK and no dispatch. Otherwise there is exactly one ACK when `NeedAck` holds and a connection exists, and none otherwise. The ACK comes before every callback, and the batch's callbacks follow. Liveness is cleared if and only if the batch holds a room-closed message. |
| SessionSpec.Dispatch | douyin.go:355-358 | Handling a batch never changes `conn`, `manualClose` or the subscribers. It only appends callbacks, and it never revives a session. |
| SessionSpec.DispatchEffect | douyin.go:355-358 | A batch appends the callbacks of every message in order. The session stays live if and only if it was live and no message in the batch was a room-closed control message. |
| SessionSpec.BatchDelivery | douyin.go:355-358 | Each message of a batch is delivered to every subscriber once, in registration order, between the callbacks of the messages before it and those after it. |
| SessionSpec.BatchAppend | douyin.go:355-358 | The callbacks of two batches in a row are those of the first followed by those of the second. |
| SessionSpec.BatchLength | douyin.go:355-358 | A batch of m messages with n subscribers triggers exactly m·n callbacks. |
| SessionSpec.BatchOnlyInvocations | douyin.go:355-358 | Dispatching a batch produces callbacks only: no write, no close and no dial. |
| Policy.Classify | douyin.go:423-455 | Read-error classification, each case stated as an if-and-only-if. Manual close gives a stop. A non-close error or code 1000 gives a normal stop. Every other close code reconnects. 1006 is the abnormal branch and 1013 the try-later branch. |
| Policy.Wrap | douyin.go:474-489 | The closure marks a failed dial unrecoverable if and only if it is a close error with one of the seven listed codes, and keeps the dial error as the cause. |
| Policy.RetryIf | douyin.go:498-505 | Defines the installed retry filter: it refuses only an unmarked close error with code 1007 or 1008. |
| Policy.Abandons | douyin.go:476-505 | Defines when a failed dial ends the retry loop: when the installed filter refuses the error the closure hands over. |
| Policy.RetryFilterNeverFires | douyin.go:476-505 | No dial error ends the retry loop early: the filter's two codes are always marked, and a marked error passes the filter. Every failed dial is retryable. |
| Policy.RetryStopsOnlyOnSuccess | douyin.go:472-515 | The retry run fails if and only if it used every attempt and every allowed dial failed. When it connects, every earlier dial failed, so the connection is the first successful dial's. |
| Policy.Retry | douyin.go:472-509 | The retry run makes at most `attempts` dials, and at least one when `attempts > 0`. Every dial before the last one made failed retryably. A connection is the last dial's. Without a connection every dial failed, and stopping early means the filter refused the last failure. |
| Policy.RetryDetermined | douyin.go:472-509 | A run of dials with the properties above is exactly Retry's run, so Retry is pinned down by its contract. |
| Policy.RetrySucceedsIff | douyin.go:472-515 | The retry run connects if and only if some allowed attempt succeeds with only retryable failures before it. |
| Policy.RetryExhausts | douyin.go:472-509 | When every allowed dial fails retryably, all attempts are used and none connects. |
| Session.DouyinLive.RetryDial | douyin.go:472-509 | The dial loop ends with exactly Retry's number of dials and connection. It records one dial event per attempt made. |
| SessionSpec.DialLog | douyin.go:472-509 | One dial event per dial made, in order. |
| SessionSpec.ReconnectStep | douyin.go:458-516 | With `manualClose` set it returns false, changes nothing and makes no dial. Otherwise it makes at most `attempts` dials, at least one when `attempts > 0`. It returns true if and only if it ends connected, and then the connection is the last dial's. Liveness, the flag and the subscribers are unchanged, and effects are only appended. |
| Session.DouyinLive.Reconnect | douyin.go:458-516 | Performs `ReconnectStep`. A present connection first gets a going-away close frame and is closed, then it is cleared before any dial is made. |
| SessionSpec.ReadErrorStep | douyin.go:423-455 | A read error that does not classify as a reconnect changes nothing and returns false. Any other error gives exactly `reconnect(5)`. |
| Session.DouyinLive.HandleReadError | douyin.go:423-455 | Performs `ReadErrorStep`. |
| SessionSpec.AbnormalCloseUsesAllRetries | douyin.go:423-516 | Take a close error other than 1000 on a session not closed by its owner, where all dials fail retryably. Then all five attempts are made and the session ends unconnected. |
| SessionSpec.ReadLoopKeeps | douyin.go:302-328 | The read loop never changes the subscribers or `manualClose`, and only appends effects. It ends not live if and only if it left because liveness was cleared. |
| SessionSpec.ReadLoopAfterManualClose | douyin.go:423-427 | After the owner has closed the session, the read loop makes no dial and keeps the connection it had. |
| SessionSpec.ReadLoopStopsOnRoomClosed | douyin.go:305-306 | Take a frame whose batch holds a room-closed control message. The loop ends at its next liveness check, without reading again. |
| Session.DouyinLive.HandleFrame | douyin.go:314-326 | Performs `ReceiveStep` for one successful read: text, empty and undecodable frames change nothing, and a gzip "msg" frame goes through `HandleGzipMessage`. |
| Session.DouyinLive.ProcessMessages | douyin.go:302-328 | The read loop ends in exactly the state that `ReadLoop` gives for the same reads and dials. |
| Session.DouyinLive.Close | douyin.go:80-96 | Always ends not live, closed by the owner and unconnected. A present connection gets a normal-closure close frame and is closed. With no connection there are no effects, so a second `Close` does nothing to the transport. |
| Session.DouyinLive.Cleanup | douyin.go:528-532 | Closes the connection if there is one. Otherwise there is no effect, and the field is not cleared. |
| Session.DouyinLive.Start2 | douyin.go:250-262 | An initialisation failure is returned as an error after cleanup, with no dial made. Otherwise the first dial is recorded. A dial failure is returned as an error after cleanup. A successful dial runs the read loop on the new connection, then cleans up, and returns no error. |

## Left out

- Page scraping, the cookie fetch and the room lookup (`fetchTTWID`, `fetchRoomInfo`, `getPageContent`, `IsLive`, `extractString`) are not modelled. They are HTTP I/O and regular expressions.
- Signature and URL building (`initialize`, `makeURL`) is not modelled. It needs an embedded JavaScript engine and the clock. In `Start2` the result of `initialize` is a boolean parameter, and the new URL per dial attempt is left implicit.
- The WebSocket transport, gzip, protobuf and `sync.Pool` are not modelled as implementations. The `Codec` functions and the `inbox`/`dials` sequences stand in for them:
  - a successful protobuf encode of the ACK is assumed, so its failure branch at douyin.go:391-395 is not modelled;
  - write errors of the ACK are ignored in the source and not modelled;
  - the pool is kept only as far as the reset-before-return rule.
- `startWebSocket` (douyin.go:265-276) is not modelled. `Start2` takes the first dial's outcome as a parameter.
- Session.DouyinLive.Start2: returns `DialError` for every failed first dial. As written, `startWebSocket` reads `resp.StatusCode` at douyin.go:271 even when the dial fails without an HTTP response; there the source dereferences a nil pointer and panics after the deferred cleanup instead of returning an error.
- Concurrency is not modelled:
  - the mutex;
  - the goroutine, channel and 3-second timeout in `Close`;
  - a `Close` racing with the read loop.
- Timing is not modelled: the 5-second pause before reconnecting on 1013, the retry back-off delays, the dial timeout and the close-frame deadline. Retries are modelled by attempt count only.
- Logging is not modelled, nor the unused helpers `isUnexpectedClose` and `readMessage`.
- The callbacks run by `emitEvent` are recorded as events. What a callback does is not modelled, and nothing it does can affect the session in the model.
- Session.DouyinLive.ProcessMessages: the real loop blocks on a read. The model's loop also ends when the scripted reads run out, and its dial script must allow five dials per read. Under these assumptions the loop never reads without a connection.
- Session.DouyinLive.Reconnect: requires `attempts > 0`. The only caller passes 5, and the meaning of zero attempts depends on the version of the retry library.
- Policy.Retry: follows the retry-go API before version 4, where an installed `RetryIf` filter replaces the default test for the unrecoverable mark. The library's text is not part of this model. In practice the WebSocket dialer does not return close errors, so the closure's marking branch is not reached at all.
- Session.DouyinLive.Subscribe: the fresh id is a parameter with a "not already present" precondition. The id generator `utils.GenerateUniqueID` is not part of this model.
- Session.DouyinLive.Unsubscribe: the Go slice splice shares the slice's backing array. Aliasing of that array by other slices is not modelled.
- Errors wrapped around a close error are treated as non-close errors, as the library's type test treats them. Only the two shapes `CloseErr(code)` and `OtherErr` are modelled.
