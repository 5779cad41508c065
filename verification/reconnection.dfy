/**
 The reconnection supervisor (`network/ReconnectionManager.kt`): an
 exponential backoff delay rule and a retry loop that invokes a registered
 callback until it returns normally or five attempts have failed.

 The loop runs in a coroutine; here it is a function from the manager's state
 and the sequence of outcomes the callback produces (one per invocation) to
 the state the loop leaves behind. When the outcomes run out while the loop
 still wants to retry, the result is a snapshot of the running loop taken at
 its head (`live`), from which `Continue` resumes with further outcomes.
 */
module Reconnection {
  import opened Basics

  const MaxReconnectAttempts: nat := 5
  const InitialReconnectDelay: nat := 1000
  const MaxReconnectDelay: nat := 30000
  const BackoffMultiplier: nat := 2

  /** The delays of attempts 1 to 5, in milliseconds. */
  const Schedule: seq<nat> := [1000, 2000, 4000, 8000, 16000]

  function Min(a: int, b: int): int {
    if a < b then a else b
  }

  function Power(base: nat, exponent: nat): nat {
    if exponent == 0 then 1 else base * Power(base, exponent - 1)
  }

  lemma {:induction false} PowerMonotone(base: nat, a: nat, b: nat)
    requires base >= 1 && a <= b
    ensures 1 <= Power(base, a) <= Power(base, b)
    decreases b
  {
    if a < b {
      PowerMonotone(base, a, b - 1);
    } else if a > 0 {
      PowerMonotone(base, a - 1, a - 1);
    }
  }

  /**
   `calculateDelay`: the initial delay times the multiplier to the power
   `attempt - 1`, capped at the maximum. The Kotlin code goes through
   `Math.pow` on doubles and `toLong`, which is exact for the exponents that
   can reach the cap; integer powers give the same numbers.
   */
  function CalculateDelay(attempt: nat): (d: nat)
    requires attempt >= 1
    ensures InitialReconnectDelay <= d <= MaxReconnectDelay
    ensures attempt <= MaxReconnectAttempts ==> d == InitialReconnectDelay * Power(BackoffMultiplier, attempt - 1)
    ensures attempt > MaxReconnectAttempts ==> d == MaxReconnectDelay
  {
    PowerBounds(attempt - 1);
    Min(InitialReconnectDelay * Power(BackoffMultiplier, attempt - 1), MaxReconnectDelay)
  }

  /** The multiplier's powers below the cap stay under 16; from the sixth attempt on they reach 32. */
  lemma PowerBounds(exponent: nat)
    ensures 1 <= Power(BackoffMultiplier, exponent)
    ensures exponent < MaxReconnectAttempts ==> Power(BackoffMultiplier, exponent) <= 16
    ensures exponent >= MaxReconnectAttempts ==> Power(BackoffMultiplier, exponent) >= 32
  {
    PowerMonotone(BackoffMultiplier, 0, exponent);
    if exponent < MaxReconnectAttempts {
      PowerMonotone(BackoffMultiplier, exponent, 4);
      assert Power(BackoffMultiplier, 4) == 16;
    } else {
      PowerMonotone(BackoffMultiplier, 5, exponent);
      assert Power(BackoffMultiplier, 5) == 32;
    }
  }

  /** Each attempt waits twice as long as the one before, up to the cap. */
  lemma {:induction false} DelayDoubles(attempt: nat)
    requires attempt >= 1
    ensures CalculateDelay(attempt + 1) == Min(BackoffMultiplier * CalculateDelay(attempt), MaxReconnectDelay)
  {
    if attempt < MaxReconnectAttempts {
      assert Power(BackoffMultiplier, attempt) == BackoffMultiplier * Power(BackoffMultiplier, attempt - 1);
    } else if attempt == MaxReconnectAttempts {
      assert Power(BackoffMultiplier, 4) == 16;
    }
  }

  /** A later attempt never waits less than an earlier one. */
  lemma {:induction false} DelayNondecreasing(earlier: nat, later: nat)
    requires 1 <= earlier <= later
    ensures CalculateDelay(earlier) <= CalculateDelay(later)
    decreases later - earlier
  {
    if earlier < later {
      DelayDoubles(earlier);
      DelayNondecreasing(earlier + 1, later);
    }
  }

  /** The five delays the loop can wait: 1 s, 2 s, 4 s, 8 s and 16 s. */
  lemma DelaySchedule(attempt: nat)
    requires 1 <= attempt <= MaxReconnectAttempts
    ensures CalculateDelay(attempt) == Schedule[attempt - 1]
  {
    assert Power(BackoffMultiplier, 1) == 2;
    assert Power(BackoffMultiplier, 2) == 4;
    assert Power(BackoffMultiplier, 3) == 8;
    assert Power(BackoffMultiplier, 4) == 16;
  }

  // ---------------------------------------------------------------------------
  // The retry state machine
  // ---------------------------------------------------------------------------

  /** How one invocation of the reconnect callback ended. */
  datatype Outcome = Returns | Throws

  /**
   The manager's fields: the attempt counter, the reconnecting flag, the
   registered callback (of some caller-chosen type `C`) and how many loop jobs
   have been launched so far.
   */
  datatype Manager<C> = Manager(currentAttempt: nat, isReconnecting: bool, callback: Option<C>, jobsLaunched: nat)

  /** States the manager can be in: the counter stays within the limit, and a running loop has attempts left. */
  predicate Valid<C>(m: Manager<C>) {
    && m.currentAttempt <= MaxReconnectAttempts
    && (m.isReconnecting ==> m.currentAttempt < MaxReconnectAttempts)
  }

  /** A freshly constructed manager. */
  function NewManager<C>(): (m: Manager<C>)
    ensures Valid(m) && !m.isReconnecting && m.callback.None?
  {
    Manager(0, false, None, 0)
  }

  /** `setReconnectCallback`: store the callback, replacing any earlier one. */
  function SetReconnectCallback<C>(m: Manager<C>, callback: C): (m': Manager<C>)
    ensures m'.callback == Some(callback)
    ensures m'.currentAttempt == m.currentAttempt && m'.isReconnecting == m.isReconnecting
    ensures m'.jobsLaunched == m.jobsLaunched
    ensures Valid(m) ==> Valid(m')
  {
    m.(callback := Some(callback))
  }

  /** Registering twice keeps only the second callback. */
  lemma SetReconnectCallbackLastWins<C>(m: Manager<C>, first: C, second: C)
    ensures SetReconnectCallback(SetReconnectCallback(m, first), second) == SetReconnectCallback(m, second)
  {
  }

  /**
   What a run of the loop did: the state it left, the delays it waited in full
   (in order), how many times it invoked the callback, and whether it is still
   running (it wanted another outcome than the ones supplied).
   */
  datatype Run<C> = Run(manager: Manager<C>, waited: seq<nat>, invocations: nat, live: bool)

  /** The part of `startReconnection` before the loop: set the flag, reset the counter, launch the job. */
  function Begin<C>(m: Manager<C>): (m': Manager<C>)
    ensures m'.isReconnecting && m'.currentAttempt == 0
    ensures m'.callback == m.callback && m'.jobsLaunched == m.jobsLaunched + 1
    ensures Valid(m')
  {
    m.(isReconnecting := true, currentAttempt := 0, jobsLaunched := m.jobsLaunched + 1)
  }

  /**
   The `while` loop, from its head: bump the counter, wait, invoke the
   callback (if any); a normal return ends the run and resets the counter, a
   throw on the last attempt ends it with the counter left at the limit, any
   other throw goes round again.
   */
  function RetryLoop<C>(m: Manager<C>, outcomes: seq<Outcome>): (r: Run<C>)
    requires m.currentAttempt <= MaxReconnectAttempts
    ensures r.manager.callback == m.callback && r.manager.jobsLaunched == m.jobsLaunched
    ensures m.currentAttempt + |r.waited| <= MaxReconnectAttempts
    ensures forall i | 0 <= i < |r.waited| :: r.waited[i] == CalculateDelay(m.currentAttempt + i + 1)
    ensures r.invocations <= |r.waited| && r.invocations <= |outcomes|
    ensures Valid(m) ==> Valid(r.manager)
    ensures r.live ==> r.manager.isReconnecting && r.invocations == |outcomes|
    ensures Valid(m) && !r.live ==> !r.manager.isReconnecting
    decreases MaxReconnectAttempts - m.currentAttempt
  {
    if !(m.currentAttempt < MaxReconnectAttempts && m.isReconnecting) then
      Run(m, [], 0, false)
    else
      var attempt := m.currentAttempt + 1;
      var delay := CalculateDelay(attempt);
      match m.callback
      case None =>
        Run(m.(isReconnecting := false, currentAttempt := 0), [delay], 0, false)
      case Some(_) =>
        if |outcomes| == 0 then
          Run(m, [], 0, true)
        else if outcomes[0] == Returns then
          Run(m.(isReconnecting := false, currentAttempt := 0), [delay], 1, false)
        else if attempt >= MaxReconnectAttempts then
          Run(m.(isReconnecting := false, currentAttempt := attempt), [delay], 1, false)
        else
          var rest := RetryLoop(m.(currentAttempt := attempt), outcomes[1..]);
          Run(rest.manager, [delay] + rest.waited, rest.invocations + 1, rest.live)
  }

  /**
   `startReconnection`: a no-op while a loop is already running; otherwise
   begin a fresh run and drive it with the callback's outcomes.
   */
  function StartReconnection<C>(m: Manager<C>, outcomes: seq<Outcome>): (r: Run<C>)
    ensures m.isReconnecting ==> r == Run(m, [], 0, true)
    ensures !m.isReconnecting ==> r.manager.jobsLaunched == m.jobsLaunched + 1
    ensures r.manager.callback == m.callback
    ensures |r.waited| <= MaxReconnectAttempts
    ensures forall i | 0 <= i < |r.waited| :: r.waited[i] == Schedule[i]
    ensures r.invocations <= |r.waited| && r.invocations <= |outcomes|
    ensures !m.isReconnecting ==> Valid(r.manager) && (r.live <==> r.manager.isReconnecting)
  {
    if m.isReconnecting then
      Run(m, [], 0, true)
    else
      var r := RetryLoop(Begin(m), outcomes);
      forall i | 0 <= i < |r.waited|
        ensures r.waited[i] == Schedule[i]
      {
        DelaySchedule(i + 1);
      }
      r
  }

  /** Feed further outcomes to a run that is still live. */
  function Continue<C>(r: Run<C>, more: seq<Outcome>): Run<C>
    requires r.manager.currentAttempt <= MaxReconnectAttempts
  {
    if !r.live then r
    else
      var s := RetryLoop(r.manager, more);
      Run(s.manager, r.waited + s.waited, r.invocations + s.invocations, s.live)
  }

  /** Driving the loop with `a` and then `b` is driving it with `a + b`. */
  lemma {:induction false} RetryLoopSplit<C>(m: Manager<C>, a: seq<Outcome>, b: seq<Outcome>)
    requires m.currentAttempt <= MaxReconnectAttempts
    ensures RetryLoop(m, a + b) == Continue(RetryLoop(m, a), b)
    decreases MaxReconnectAttempts - m.currentAttempt
  {
    if !(m.currentAttempt < MaxReconnectAttempts && m.isReconnecting && m.callback.Some?) {
      RetryLoopEndsAtOnce(m, a, b);
    } else if |a| == 0 {
      assert a + b == b;
      var s := RetryLoop(m, b);
      assert [] + s.waited == s.waited;
    } else if a[0] == Returns || m.currentAttempt + 1 >= MaxReconnectAttempts {
      RetryLoopLastStep(m, a, b);
    } else {
      var next := m.(currentAttempt := m.currentAttempt + 1);
      RetryLoopSplit(next, a[1..], b);
      RetryLoopSplitThrow(m, a, b);
    }
  }

  /** The inductive step of `RetryLoopSplit`: a throwing first attempt that is not the last. */
  lemma RetryLoopSplitThrow<C>(m: Manager<C>, a: seq<Outcome>, b: seq<Outcome>)
    requires m.currentAttempt + 1 < MaxReconnectAttempts && m.isReconnecting && m.callback.Some?
    requires |a| > 0 && a[0] == Throws
    requires var next := m.(currentAttempt := m.currentAttempt + 1);
      RetryLoop(next, a[1..] + b) == Continue(RetryLoop(next, a[1..]), b)
    ensures RetryLoop(m, a + b) == Continue(RetryLoop(m, a), b)
  {
    var next := m.(currentAttempt := m.currentAttempt + 1);
    var delay := CalculateDelay(m.currentAttempt + 1);
    assert (a + b)[0] == a[0];
    assert (a + b)[1..] == a[1..] + b;
    var ra := RetryLoop(next, a[1..]);
    RetryLoopThrowStep(m, a + b);
    RetryLoopThrowStep(m, a);
    ContinueAfterDelay(delay, ra, b);
  }

  /** Prepending one waited attempt to a run commutes with continuing it. */
  lemma ContinueAfterDelay<C>(delay: nat, r: Run<C>, more: seq<Outcome>)
    requires r.manager.currentAttempt <= MaxReconnectAttempts
    ensures var c := Continue(r, more);
      Continue(Run(r.manager, [delay] + r.waited, r.invocations + 1, r.live), more) ==
        Run(c.manager, [delay] + c.waited, c.invocations + 1, c.live)
  {
    if r.live {
      var s := RetryLoop(r.manager, more);
      AppendAssociates([delay], r.waited, s.waited);
    }
  }

  /** A loop that does not start, or has no callback to wait for, ignores the outcomes. */
  lemma RetryLoopEndsAtOnce<C>(m: Manager<C>, a: seq<Outcome>, b: seq<Outcome>)
    requires m.currentAttempt <= MaxReconnectAttempts
    requires !(m.currentAttempt < MaxReconnectAttempts && m.isReconnecting && m.callback.Some?)
    ensures RetryLoop(m, a + b) == RetryLoop(m, a) && !RetryLoop(m, a).live
  {
  }

  /** A first outcome that ends the loop (a return, or a throw on the last attempt) makes later outcomes irrelevant. */
  lemma RetryLoopLastStep<C>(m: Manager<C>, a: seq<Outcome>, b: seq<Outcome>)
    requires m.currentAttempt < MaxReconnectAttempts && m.isReconnecting && m.callback.Some?
    requires |a| > 0 && (a[0] == Returns || m.currentAttempt + 1 >= MaxReconnectAttempts)
    ensures RetryLoop(m, a + b) == RetryLoop(m, a) && !RetryLoop(m, a).live
  {
    assert (a + b)[0] == a[0];
  }

  /** One throwing attempt that is not the last: the run is that delay followed by the run from the next attempt. */
  lemma RetryLoopThrowStep<C>(m: Manager<C>, outcomes: seq<Outcome>)
    requires m.currentAttempt + 1 < MaxReconnectAttempts && m.isReconnecting && m.callback.Some?
    requires |outcomes| > 0 && outcomes[0] == Throws
    ensures var rest := RetryLoop(m.(currentAttempt := m.currentAttempt + 1), outcomes[1..]);
      RetryLoop(m, outcomes) ==
        Run(rest.manager, [CalculateDelay(m.currentAttempt + 1)] + rest.waited, rest.invocations + 1, rest.live)
  {
  }

  /** `stopReconnection`: clear the flag and the counter; the loop's next check sees the flag down. */
  function StopReconnection<C>(m: Manager<C>): (m': Manager<C>)
    ensures !m'.isReconnecting && m'.currentAttempt == 0 && Valid(m')
    ensures m'.callback == m.callback && m'.jobsLaunched == m.jobsLaunched
    ensures forall more :: RetryLoop(m', more) == Run(m', [], 0, false)
  {
    m.(isReconnecting := false, currentAttempt := 0)
  }

  /** Stopping twice is stopping once. */
  lemma StopReconnectionIdempotent<C>(m: Manager<C>)
    ensures StopReconnection(StopReconnection(m)) == StopReconnection(m)
  {
  }

  // ---------------------------------------------------------------------------
  // Runs of the loop, by their outcomes
  // ---------------------------------------------------------------------------

  predicate AllThrow(outcomes: seq<Outcome>) {
    forall i | 0 <= i < |outcomes| :: outcomes[i] == Throws
  }

  lemma {:induction false} RetryLoopFirstReturn<C>(m: Manager<C>, outcomes: seq<Outcome>, p: nat)
    requires m.isReconnecting && m.callback.Some?
    requires m.currentAttempt + p < MaxReconnectAttempts
    requires p < |outcomes| && outcomes[p] == Returns && AllThrow(outcomes[..p])
    ensures var r := RetryLoop(m, outcomes);
      && r.manager.currentAttempt == 0 && !r.manager.isReconnecting && !r.live
      && r.invocations == p + 1 && |r.waited| == p + 1
    decreases p
  {
    if p > 0 {
      assert outcomes[0] == outcomes[..p][0];
      assert outcomes[1..][..p - 1] == outcomes[..p][1..];
      RetryLoopFirstReturn(m.(currentAttempt := m.currentAttempt + 1), outcomes[1..], p - 1);
    }
  }

  /**
   The first callback invocation that returns normally ends the run: the flag
   is down, the counter is back to 0, and the callback ran once per attempt.
   */
  lemma FirstSuccessEndsRun<C>(m: Manager<C>, outcomes: seq<Outcome>, attempt: nat)
    requires !m.isReconnecting && m.callback.Some?
    requires 1 <= attempt <= MaxReconnectAttempts && attempt <= |outcomes|
    requires outcomes[attempt - 1] == Returns && AllThrow(outcomes[..attempt - 1])
    ensures var r := StartReconnection(m, outcomes);
      && r.manager.currentAttempt == 0 && !r.manager.isReconnecting && !r.live
      && r.invocations == attempt && r.waited == Schedule[..attempt]
  {
    RetryLoopFirstReturn(Begin(m), outcomes, attempt - 1);
  }

  /** Without a callback the first attempt counts as a success after the 1 s wait. */
  lemma MissingCallbackSucceeds<C>(m: Manager<C>, outcomes: seq<Outcome>)
    requires !m.isReconnecting && m.callback.None?
    ensures var r := StartReconnection(m, outcomes);
      && r.manager.currentAttempt == 0 && !r.manager.isReconnecting && !r.live
      && r.invocations == 0 && r.waited == [InitialReconnectDelay]
  {
  }

  lemma {:induction false} RetryLoopAllThrow<C>(m: Manager<C>, outcomes: seq<Outcome>)
    requires m.isReconnecting && m.callback.Some? && m.currentAttempt < MaxReconnectAttempts
    requires AllThrow(outcomes)
    ensures var r := RetryLoop(m, outcomes);
      var left := MaxReconnectAttempts - m.currentAttempt;
      && (|outcomes| >= left ==>
            r.invocations == left && |r.waited| == left && !r.live
            && !r.manager.isReconnecting && r.manager.currentAttempt == MaxReconnectAttempts)
      && (|outcomes| < left ==>
            r.invocations == |outcomes| && |r.waited| == |outcomes| && r.live
            && r.manager.isReconnecting && r.manager.currentAttempt == m.currentAttempt + |outcomes|)
    decreases MaxReconnectAttempts - m.currentAttempt
  {
    if |outcomes| > 0 && m.currentAttempt + 1 < MaxReconnectAttempts {
      assert outcomes[0] == Throws;
      RetryLoopAllThrow(m.(currentAttempt := m.currentAttempt + 1), outcomes[1..]);
    }
  }

  /**
   Five throwing invocations in a row end the run: the callback ran exactly
   five times after waits of 1, 2, 4, 8 and 16 seconds, the flag is down and
   the counter stays at 5.
   */
  lemma ExhaustedRun<C>(m: Manager<C>, outcomes: seq<Outcome>)
    requires !m.isReconnecting && m.callback.Some?
    requires |outcomes| >= MaxReconnectAttempts && AllThrow(outcomes[..MaxReconnectAttempts])
    ensures var r := StartReconnection(m, outcomes);
      && r.invocations == MaxReconnectAttempts && r.waited == Schedule && !r.live
      && !r.manager.isReconnecting && r.manager.currentAttempt == MaxReconnectAttempts
  {
    var prefix := outcomes[..MaxReconnectAttempts];
    RetryLoopAllThrow(Begin(m), prefix);
    RetryLoopSplit(Begin(m), prefix, outcomes[MaxReconnectAttempts..]);
    assert prefix + outcomes[MaxReconnectAttempts..] == outcomes;
  }

  /**
   While every invocation so far has thrown and attempts remain, the loop is
   still running and the counter equals the number of failed attempts.
   */
  lemma RunningAfterFailures<C>(m: Manager<C>, outcomes: seq<Outcome>)
    requires !m.isReconnecting && m.callback.Some?
    requires |outcomes| < MaxReconnectAttempts && AllThrow(outcomes)
    ensures var r := StartReconnection(m, outcomes);
      && r.live && r.manager.isReconnecting && r.manager.currentAttempt == |outcomes|
      && r.invocations == |outcomes| && r.waited == Schedule[..|outcomes|]
  {
    RetryLoopAllThrow(Begin(m), outcomes);
  }
}
