/**
 * Classification of read errors and the bounded reconnect loop, over WebSocket
 * close codes (section 7.4.1 of RFC 6455).
 */
module Policy {
  import opened Wrappers
  import opened Types

  const DefaultMaxRetries: nat := 5

  /** Dial close codes the dial closure marks as unrecoverable. */
  const UnrecoverableDialCodes: set<int> := {
    CloseAbnormalClosure, CloseTryAgainLater, CloseServiceRestart, CloseGoingAway,
    CloseNoStatusReceived, ClosePolicyViolation, CloseInvalidFramePayloadData }

  /** Dial errors the retry filter refuses to retry. */
  const NonRetryableCodes: set<int> := { ClosePolicyViolation, CloseInvalidFramePayloadData }

  /** The WebSocket library's test: a close error whose code is one of the given codes. */
  predicate IsCloseError(err: WsError, codes: set<int>)
  {
    err.CloseErr? && err.code in codes
  }

  /** The WebSocket library's test: a close error whose code is none of the expected codes. */
  predicate IsUnexpectedCloseError(err: WsError, expected: set<int>)
  {
    err.CloseErr? && err.code !in expected
  }

  /** What the read path decides after a failed read. */
  datatype Decision =
    | ManualStop      // the session was closed by its owner
    | NormalStop      // treated as a normal closure: stop without reconnecting
    | RetryAbnormal   // abnormal closure (1006): reconnect
    | RetryLater      // try again later (1013): pause, then reconnect
    | RetryNetwork    // any other close code: reconnect
  {
    predicate Reconnects()
    {
      RetryAbnormal? || RetryLater? || RetryNetwork?
    }
  }

  /**
   * The read-error case split. Only a close error with a code other than 1000
   * leads to a reconnect; a non-close error such as EOF is taken as a normal stop.
   */
  function Classify(manualClose: bool, err: WsError): (d: Decision)
    ensures d.ManualStop? <==> manualClose
    ensures d.NormalStop? <==> !manualClose && (err.OtherErr? || err.code == CloseNormalClosure)
    ensures d.Reconnects() <==> !manualClose && err.CloseErr? && err.code != CloseNormalClosure
    ensures d.RetryLater? <==> !manualClose && err == CloseErr(CloseTryAgainLater)
    ensures d.RetryAbnormal? <==> !manualClose && err == CloseErr(CloseAbnormalClosure)
  {
    if manualClose then ManualStop
    else if !IsUnexpectedCloseError(err, {CloseNormalClosure}) then NormalStop
    else if err.code == CloseAbnormalClosure then RetryAbnormal
    else if err.code == CloseTryAgainLater then RetryLater
    else RetryNetwork
  }

  /**
   * What the dial closure hands to the retry library on a failed dial: the
   * dial error marked unrecoverable, or the dial error itself.
   */
  datatype DialErr = Unrecoverable(cause: WsError) | Plain(cause: WsError)

  /** The closure marks a dial close error with one of the seven listed codes as unrecoverable. */
  function Wrap(err: WsError): (e: DialErr)
    ensures e.cause == err
    ensures e.Unrecoverable? <==> IsCloseError(err, UnrecoverableDialCodes)
  {
    if IsCloseError(err, UnrecoverableDialCodes) then Unrecoverable(err) else Plain(err)
  }

  /**
   * The retry filter handed to the library. It tests the error it receives for
   * a close error with code 1007 or 1008; an error marked unrecoverable is a
   * wrapper, not a close error, so the test is false for it.
   */
  predicate RetryIf(e: DialErr)
  {
    !(e.Plain? && IsCloseError(e.cause, NonRetryableCodes))
  }

  /**
   * A failed dial that ends the retry loop at once: the retry filter refuses
   * it. With a filter of its own installed, the library consults only that
   * filter, not its default test for the unrecoverable mark.
   */
  predicate Abandons(err: WsError)
  {
    !RetryIf(Wrap(err))
  }

  /** A failed dial after which the loop tries again. */
  predicate Retryable(outcome: DialOutcome)
  {
    outcome.DialFailed? && !Abandons(outcome.err)
  }

  /**
   * The retry filter never fires: the two codes it refuses are among the seven
   * the closure marks unrecoverable, and a marked error passes the filter. So
   * every failed dial is retried.
   */
  lemma RetryFilterNeverFires(err: WsError)
    ensures !Abandons(err)
    ensures Retryable(DialFailed(err))
  {
  }

  /** How many dials a retry run used, and the connection it ended with, if any. */
  datatype RetryOutcome = RetryOutcome(used: nat, conn: Option<ConnId>)

  /**
   * The retry loop over a script of dial outcomes, at most `attempts` dials:
   * dials are made in order; every dial before the last one made failed with a
   * retryable error; the last one either connected, failed with an error the
   * retry filter refuses, or was the final allowed attempt.
   */
  function Retry(dials: seq<DialOutcome>, attempts: nat): (r: RetryOutcome)
    requires attempts <= |dials|
    ensures r.used <= attempts
    ensures attempts > 0 ==> r.used > 0
    ensures forall k :: 0 <= k < r.used - 1 ==> Retryable(dials[k])
    ensures r.conn.Some? ==> 0 < r.used && dials[r.used - 1] == Dialed(r.conn.value)
    ensures r.conn.None? ==> forall k :: 0 <= k < r.used ==> dials[k].DialFailed?
    ensures r.conn.None? && r.used < attempts ==> 0 < r.used && Abandons(dials[r.used - 1].err)
    decreases attempts
  {
    if attempts == 0 then RetryOutcome(0, None)
    else match dials[0]
      case Dialed(c) => RetryOutcome(1, Some(c))
      case DialFailed(e) =>
        if Abandons(e) then RetryOutcome(1, None)
        else
          var rest := Retry(dials[1..], attempts - 1);
          RetryOutcome(rest.used + 1, rest.conn)
  }

  /** Every one of the first n dial outcomes is a failure the filter lets the loop retry. */
  predicate RetryablePrefix(dials: seq<DialOutcome>, n: nat)
    requires n <= |dials|
  {
    forall k :: 0 <= k < n ==> Retryable(dials[k])
  }

  lemma RetryablePrefixExtend(dials: seq<DialOutcome>, n: nat)
    requires n < |dials| && RetryablePrefix(dials, n) && Retryable(dials[n])
    ensures RetryablePrefix(dials, n + 1)
  {
  }

  /**
   * Retry is determined by its contract: a run of `used` dials whose earlier
   * dials all failed retryably and whose last dial connected, was refused by
   * the retry filter, or was the final allowed attempt, is exactly Retry's run.
   */
  lemma {:induction false} RetryDetermined(dials: seq<DialOutcome>, attempts: nat, used: nat, conn: Option<ConnId>)
    requires attempts <= |dials| && 0 < used <= attempts
    requires forall k :: 0 <= k < used - 1 ==> Retryable(dials[k])
    requires conn.Some? ==> dials[used - 1] == Dialed(conn.value)
    requires conn.None? ==> dials[used - 1].DialFailed? && (used < attempts ==> Abandons(dials[used - 1].err))
    ensures Retry(dials, attempts) == RetryOutcome(used, conn)
    decreases used
  {
    if used > 1 {
      assert Retryable(dials[0]);
      RetryDetermined(dials[1..], attempts - 1, used - 1, conn);
    }
  }

  /**
   * The retry run connects exactly when some allowed attempt succeeds before any
   * unrecoverable failure, and then the connection is that attempt's.
   */
  lemma {:induction false} RetrySucceedsIff(dials: seq<DialOutcome>, attempts: nat)
    requires attempts <= |dials|
    ensures Retry(dials, attempts).conn.Some? <==>
      exists k :: 0 <= k < attempts && dials[k].Dialed? && forall j :: 0 <= j < k ==> Retryable(dials[j])
  {
    var r := Retry(dials, attempts);
    if r.conn.Some? {
      var k := r.used - 1;
      assert dials[k].Dialed?;
      assert forall j :: 0 <= j < k ==> Retryable(dials[j]);
    }
    if exists k :: 0 <= k < attempts && dials[k].Dialed? && forall j :: 0 <= j < k ==> Retryable(dials[j]) {
      var k :| 0 <= k < attempts && dials[k].Dialed? && forall j :: 0 <= j < k ==> Retryable(dials[j]);
    }
  }

  /** When every allowed dial fails with a retryable error, all attempts are used and no connection results. */
  lemma {:induction false} RetryExhausts(dials: seq<DialOutcome>, attempts: nat)
    requires attempts <= |dials|
    requires forall k :: 0 <= k < attempts ==> Retryable(dials[k])
    ensures Retry(dials, attempts) == RetryOutcome(attempts, None)
  {
    if attempts > 0 {
      RetryExhausts(dials[1..], attempts - 1);
    }
  }

  /**
   * As the closure and the filter are written, only a successful dial or the
   * attempt bound ends the run: it fails exactly when every allowed dial fails,
   * after using all of them, and a connection comes from the first successful dial.
   */
  lemma RetryStopsOnlyOnSuccess(dials: seq<DialOutcome>, attempts: nat)
    requires attempts <= |dials|
    ensures Retry(dials, attempts).conn.None? <==>
      Retry(dials, attempts).used == attempts && forall k :: 0 <= k < attempts ==> dials[k].DialFailed?
    ensures Retry(dials, attempts).conn.Some? ==>
      forall k :: 0 <= k < Retry(dials, attempts).used - 1 ==> dials[k].DialFailed?
  {
  }
}
