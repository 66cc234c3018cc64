/**
 * Connection readiness: `amqpReady` (packages/kpr-core/src/libs/amqp.js:13-23).
 *
 * The broker and the clock are replaced by a script: the i-th record says
 * whether the i-th call of `amqp.connect` resolved to a connection or threw,
 * and what `new Date()` reads right after it. The source loops forever while
 * attempts fail within the deadline; the script is finite, so running out of
 * scripted attempts is a third outcome that says "the loop would still be
 * retrying".
 */
module Readiness {
  import opened AmqpTypes

  /** The `amqp` part of the configuration: url, timeout and heartbeat (ms). */
  datatype AmqpConfig = AmqpConfig(url: string, timeout: int, heartbeat: int)

  /** The arguments of one `amqp.connect(url, { heartbeat })` call. */
  datatype ConnectArgs = ConnectArgs(url: string, heartbeat: int)

  /** One scripted attempt: what `connect` gave and the clock reading after it. */
  datatype Attempt = Attempt(outcome: Option<Connection>, timeAfter: int)

  datatype Ready =
    | Connected(conn: Connection)
    | Failed(message: string)
    | ScriptExhausted

  /** The message of the error thrown when the deadline has passed. */
  const NotAvailable: string := "AMQP Server not availables"

  /** The loop leaves after attempt `a`: it connected, or it failed at or past the deadline. */
  predicate Stops(a: Attempt, start: int, timeout: int) {
    a.outcome.Some? || a.timeAfter - start >= timeout
  }

  /** The index of the first attempt after which the loop leaves, or |script| if there is none. */
  function FirstStop(script: seq<Attempt>, start: int, timeout: int): (k: nat)
    ensures k <= |script|
    ensures k < |script| ==> Stops(script[k], start, timeout)
    ensures forall j :: 0 <= j < k ==> !Stops(script[j], start, timeout)
    decreases |script|
  {
    if script == [] || Stops(script[0], start, timeout) then 0
    else 1 + FirstStop(script[1..], start, timeout)
  }

  /** What `amqpReady` ends with on this script. */
  function Outcome(script: seq<Attempt>, start: int, timeout: int): Ready {
    var k := FirstStop(script, start, timeout);
    if k == |script| then ScriptExhausted
    else match script[k].outcome
      case Some(c) => Connected(c)
      case None => Failed(NotAvailable)
  }

  /** How many times `amqp.connect` is called on this script. */
  function AttemptCount(script: seq<Attempt>, start: int, timeout: int): nat {
    var k := FirstStop(script, start, timeout);
    if k == |script| then |script| else k + 1
  }

  /**
   * The retry loop. Each iteration makes one connection attempt; a thrown
   * error leaves `connection` undefined. A connection is returned at once,
   * before the clock is looked at; otherwise the loop throws when
   * `now - start >= timeout` and retries immediately when not.
   */
  method AmqpReady(conf: AmqpConfig, start: int, script: seq<Attempt>)
    returns (r: Ready, calls: seq<ConnectArgs>)
    ensures r == Outcome(script, start, conf.timeout)
    ensures |calls| == AttemptCount(script, start, conf.timeout)
    ensures forall j :: 0 <= j < |calls| ==> calls[j] == ConnectArgs(conf.url, conf.heartbeat)
  {
    calls := [];
    var i := 0;
    while i < |script|
      invariant 0 <= i <= |script|
      invariant forall j :: 0 <= j < i ==> !Stops(script[j], start, conf.timeout)
      invariant |calls| == i
      invariant forall j :: 0 <= j < i ==> calls[j] == ConnectArgs(conf.url, conf.heartbeat)
    {
      calls := calls + [ConnectArgs(conf.url, conf.heartbeat)];
      var connection := script[i].outcome;
      if connection.Some? {
        r := Connected(connection.value);
        return;
      }
      if script[i].timeAfter - start >= conf.timeout {
        r := Failed(NotAvailable);
        return;
      }
      i := i + 1;
    }
    r := ScriptExhausted;
  }

  /** The first attempt that stops the loop is unique: any index with the stop properties is FirstStop. */
  lemma FirstStopUnique(script: seq<Attempt>, start: int, timeout: int, n: nat)
    requires n <= |script|
    requires n < |script| ==> Stops(script[n], start, timeout)
    requires forall j :: 0 <= j < n ==> !Stops(script[j], start, timeout)
    ensures FirstStop(script, start, timeout) == n
  {
  }

  /**
   * `amqpReady` returns connection c after exactly n + 1 attempts iff the
   * (n+1)-th attempt gave c and every earlier one failed before the deadline.
   * The clock reading after the successful attempt plays no part.
   */
  lemma ConnectedIff(script: seq<Attempt>, start: int, timeout: int, n: nat, c: Connection)
    ensures (Outcome(script, start, timeout) == Connected(c) && AttemptCount(script, start, timeout) == n + 1)
      <==> (n < |script| && script[n].outcome == Some(c)
            && forall j :: 0 <= j < n ==> script[j].outcome.None? && script[j].timeAfter - start < timeout)
  {
    if n < |script| && script[n].outcome == Some(c)
       && forall j :: 0 <= j < n ==> script[j].outcome.None? && script[j].timeAfter - start < timeout
    {
      FirstStopUnique(script, start, timeout, n);
    }
  }

  /**
   * `amqpReady` throws after exactly n + 1 attempts iff the (n+1)-th attempt
   * failed with `now - start >= timeout` and every earlier one failed before
   * the deadline; the error is always "AMQP Server not availables".
   */
  lemma FailedIff(script: seq<Attempt>, start: int, timeout: int, n: nat)
    ensures (Outcome(script, start, timeout).Failed? && AttemptCount(script, start, timeout) == n + 1)
      <==> (n < |script| && script[n].outcome.None? && script[n].timeAfter - start >= timeout
            && forall j :: 0 <= j < n ==> script[j].outcome.None? && script[j].timeAfter - start < timeout)
    ensures Outcome(script, start, timeout).Failed? ==> Outcome(script, start, timeout).message == NotAvailable
  {
    if n < |script| && script[n].outcome.None? && script[n].timeAfter - start >= timeout
       && forall j :: 0 <= j < n ==> script[j].outcome.None? && script[j].timeAfter - start < timeout
    {
      FirstStopUnique(script, start, timeout, n);
    }
  }

  /** The loop is still retrying after the whole script iff every attempt failed before the deadline. */
  lemma ExhaustedIff(script: seq<Attempt>, start: int, timeout: int)
    ensures Outcome(script, start, timeout) == ScriptExhausted
      <==> forall j :: 0 <= j < |script| ==> script[j].outcome.None? && script[j].timeAfter - start < timeout
    ensures Outcome(script, start, timeout) == ScriptExhausted ==> AttemptCount(script, start, timeout) == |script|
  {
    if forall j :: 0 <= j < |script| ==> script[j].outcome.None? && script[j].timeAfter - start < timeout {
      FirstStopUnique(script, start, timeout, |script|);
    }
  }

  /**
   * At least one attempt is made whatever the timeout, and with a timeout
   * of zero or less (and a clock that has not gone backwards) the first
   * attempt decides: its connection, or the error.
   */
  lemma FirstAttemptAlwaysMade(script: seq<Attempt>, start: int, timeout: int)
    requires script != []
    ensures AttemptCount(script, start, timeout) >= 1
    ensures timeout <= 0 && script[0].timeAfter >= start ==>
      AttemptCount(script, start, timeout) == 1 &&
      Outcome(script, start, timeout) == (if script[0].outcome.Some? then Connected(script[0].outcome.value) else Failed(NotAvailable))
  {
    if timeout <= 0 && script[0].timeAfter >= start {
      FirstStopUnique(script, start, timeout, 0);
    }
  }

  /**
   * The clock reading after a successful attempt never matters: the success
   * check comes first, so a connection that arrives after the deadline is
   * still returned.
   */
  lemma {:induction false} SuccessIgnoresClock(script: seq<Attempt>, start: int, timeout: int, n: nat, t: int)
    requires n < |script| && script[n].outcome.Some?
    ensures Outcome(script[n := Attempt(script[n].outcome, t)], start, timeout) == Outcome(script, start, timeout)
    ensures AttemptCount(script[n := Attempt(script[n].outcome, t)], start, timeout) == AttemptCount(script, start, timeout)
  {
    var s' := script[n := Attempt(script[n].outcome, t)];
    SameStopsSameFirstStop(script, s', start, timeout);
  }

  /** Two scripts of one length whose attempts stop at the same places and agree on outcomes end alike. */
  lemma {:induction false} SameStopsSameFirstStop(s: seq<Attempt>, s': seq<Attempt>, start: int, timeout: int)
    requires |s| == |s'|
    requires forall j :: 0 <= j < |s| ==> s[j].outcome == s'[j].outcome
    requires forall j :: 0 <= j < |s| ==> (Stops(s[j], start, timeout) <==> Stops(s'[j], start, timeout))
    ensures FirstStop(s, start, timeout) == FirstStop(s', start, timeout)
    ensures Outcome(s, start, timeout) == Outcome(s', start, timeout)
  {
    if s != [] && !Stops(s[0], start, timeout) {
      SameStopsSameFirstStop(s[1..], s'[1..], start, timeout);
    }
  }

  /**
   * Nothing after the attempt that stops the loop is ever looked at: replacing
   * the rest of the script changes neither the outcome nor the number of
   * `connect` calls. In particular no attempt follows a successful one.
   */
  lemma {:induction false} LaterAttemptsIrrelevant(script: seq<Attempt>, start: int, timeout: int, tail: seq<Attempt>)
    requires FirstStop(script, start, timeout) < |script|
    ensures var k := FirstStop(script, start, timeout);
      Outcome(script[..k + 1] + tail, start, timeout) == Outcome(script, start, timeout) &&
      AttemptCount(script[..k + 1] + tail, start, timeout) == AttemptCount(script, start, timeout)
  {
    var k := FirstStop(script, start, timeout);
    var s' := script[..k + 1] + tail;
    assert forall j :: 0 <= j <= k ==> s'[j] == script[j];
    FirstStopUnique(s', start, timeout, k);
  }

  /**
   * Running out of script is no verdict: when every scripted attempt failed
   * in time, supplying further attempts continues the same loop from there.
   */
  lemma {:induction false} ExhaustedContinues(script: seq<Attempt>, start: int, timeout: int, more: seq<Attempt>)
    requires Outcome(script, start, timeout) == ScriptExhausted
    ensures Outcome(script + more, start, timeout) == Outcome(more, start, timeout)
    ensures AttemptCount(script + more, start, timeout) == |script| + AttemptCount(more, start, timeout)
  {
    if script != [] {
      assert (script + more)[0] == script[0];
      assert (script + more)[1..] == script[1..] + more;
      ExhaustedContinues(script[1..], start, timeout, more);
    } else {
      assert script + more == more;
    }
  }

  /**
   * A broker that refuses every attempt for 600 ms with a 500 ms timeout and
   * the clock read every 100 ms: the fifth attempt, at 500 ms elapsed, throws.
   */
  lemma RefusedFor600ms(start: int)
    ensures var script := seq(6, i => Attempt(None, start + 100 * (i + 1)));
      Outcome(script, start, 500) == Failed(NotAvailable) &&
      AttemptCount(script, start, 500) == 5
  {
    var script := seq(6, i => Attempt(None, start + 100 * (i + 1)));
    FirstStopUnique(script, start, 500, 4);
  }
}
