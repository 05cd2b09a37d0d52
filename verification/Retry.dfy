/** Executor.withRetry: at most five attempts under exponential backoff, gated
    by the circuit breaker and reporting to it. */
module Retry {
  import opened Circuit
  import opened Remote

  const BASE_DELAY: Time := 500.0

  /** The sum of the five backoff delays. */
  const TOTAL_DELAY: Time := 15_500.0

  type Duration = d: Time | d >= 0.0

  datatype Outcome = Succeeds | AlreadyExists | Transient | Permanent

  /** One call of fn: what it returned, how long it took, whether the context
      ended during the following delay, and how late the timer fired. */
  datatype Attempt = Attempt(outcome: Outcome, took: Duration, cancelled: bool, late: Duration)

  datatype Result = Done | Rejected | Failed | Cancelled | Exhausted

  /** baseRetryDelay * 2^k. */
  function Delay(k: nat): (d: Duration) {
    if k == 0 then BASE_DELAY else 2.0 * Delay(k - 1)
  }

  /** What the attempts from k on amount to, and when. */
  function Attempts(attempts: seq<Attempt>, k: nat, now: Time): (Result, Time)
    requires k <= MAX_RETRIES <= |attempts|
    decreases MAX_RETRIES - k
  {
    if k == MAX_RETRIES then (Exhausted, now)
    else
      var a := attempts[k];
      var returned := now + a.took;
      match a.outcome
      case Succeeds => (Done, returned)
      case AlreadyExists => (Done, returned)
      case Permanent => (Failed, returned)
      case Transient =>
        if a.cancelled then (Cancelled, returned + a.late)
        else Attempts(attempts, k + 1, returned + Delay(k) + a.late)
  }

  datatype Call = Call(start: Time, attempts: seq<Attempt>)

  datatype Served = Served(result: Result, end: Time, breaker: Breaker)

  function Serve(b: Breaker, c: Call): Served
    requires |c.attempts| >= MAX_RETRIES
  {
    if !Admits(b, c.start) then Served(Rejected, c.start, b)
    else
      var admitted := AfterAllow(b, c.start);
      var (result, end) := Attempts(c.attempts, 0, c.start);
      Served(result, end,
             if result == Done then AfterSuccess(admitted)
             else if result == Exhausted then AfterFailure(admitted, end)
             else admitted)
  }

  class Executor {
    const eksCircuit: CircuitBreaker

    constructor ()
      ensures fresh(eksCircuit) && fresh(eksCircuit.buffer) && eksCircuit.Valid() && eksCircuit.Value() == INITIAL
    {
      eksCircuit := new CircuitBreaker();
    }

    method WithRetry(operation: string, call: Call) returns (result: Result, end: Time)
      requires |call.attempts| >= MAX_RETRIES && eksCircuit.Valid()
      modifies eksCircuit, eksCircuit.buffer
      ensures eksCircuit.Valid()
      ensures Served(result, end, eksCircuit.Value()) == Serve(old(eksCircuit.Value()), call)
    {
      hide Fresh;
      hide Delay;
      hide AfterFailure;
      end := call.start;
      var allowed := eksCircuit.Allow(call.start);
      if !allowed {
        return Rejected, end;
      }
      for attempt := 0 to MAX_RETRIES
        invariant eksCircuit.Valid() && eksCircuit.buffer == old(eksCircuit.buffer)
        invariant eksCircuit.Value() == AfterAllow(old(eksCircuit.Value()), call.start)
        invariant Attempts(call.attempts, attempt, end) == Attempts(call.attempts, 0, call.start)
      {
        var a := call.attempts[attempt];
        end := end + a.took;
        if a.outcome == Succeeds {
          eksCircuit.RecordSuccess();
          return Done, end;
        }
        if a.outcome == AlreadyExists {
          eksCircuit.RecordSuccess();
          return Done, end;
        }
        if a.outcome != Transient {
          return Failed, end;
        }
        if a.cancelled {
          return Cancelled, end + a.late;
        }
        end := end + Delay(attempt) + a.late;
      }
      eksCircuit.RecordFailure(end, operation);
      return Exhausted, end;
    }
  }

  // ---- What a call means ------------------------------------------------

  predicate Retried(a: Attempt) {
    a.outcome == Transient && !a.cancelled
  }

  /** The backoff still to come from attempt k on. */
  function Backoff(k: nat): Duration
    requires k <= MAX_RETRIES
    decreases MAX_RETRIES - k
  {
    if k == MAX_RETRIES then 0.0 else Delay(k) + Backoff(k + 1)
  }

  lemma {:induction false} AttemptsFrom(attempts: seq<Attempt>, k: nat, now: Time)
    requires k <= MAX_RETRIES <= |attempts|
    ensures Attempts(attempts, k, now).1 >= now
    ensures Attempts(attempts, k, now).0 == Exhausted <==> forall i :: k <= i < MAX_RETRIES ==> Retried(attempts[i])
    ensures Attempts(attempts, k, now).0 == Exhausted ==> Attempts(attempts, k, now).1 >= now + Backoff(k)
    decreases MAX_RETRIES - k
  {
    if k < MAX_RETRIES {
      var a := attempts[k];
      if Retried(a) {
        AttemptsFrom(attempts, k + 1, now + a.took + Delay(k) + a.late);
      }
    }
  }

  lemma WholeBackoff()
    ensures Backoff(0) == TOTAL_DELAY
  {
    assert Backoff(3) == Delay(3) + Delay(4);
    assert Backoff(1) == Delay(1) + Delay(2) + Backoff(3);
    assert Delay(1) == 1000.0 && Delay(2) == 2000.0 && Delay(3) == 4000.0 && Delay(4) == 8000.0;
  }

  /** A failure is recorded only after five transient errors and the whole
      backoff: 500 ms * (2^5 - 1) = 15.5 s after the call began. */
  lemma ExhaustionTakesTheWholeBackoff(b: Breaker, c: Call)
    requires |c.attempts| >= MAX_RETRIES
    ensures Serve(b, c).end >= c.start
    ensures Serve(b, c).result == Exhausted
            <==> Admits(b, c.start) && forall i :: 0 <= i < MAX_RETRIES ==> Retried(c.attempts[i])
    ensures Serve(b, c).result == Exhausted ==> Serve(b, c).end >= c.start + TOTAL_DELAY
  {
    AttemptsFrom(c.attempts, 0, c.start);
    WholeBackoff();
  }

  lemma Delays()
    ensures Delay(0) == 500.0 && Delay(1) == 1000.0 && Delay(2) == 2000.0 && Delay(3) == 4000.0 && Delay(4) == 8000.0
  {
    assert Delay(2) == 2.0 * Delay(1) && Delay(3) == 2.0 * Delay(2) && Delay(4) == 2.0 * Delay(3);
  }

  /** The k-th attempt is made and is the last: the ones before it are retried. */
  ghost predicate LastIs(attempts: seq<Attempt>, i: nat, k: nat)
    requires MAX_RETRIES <= |attempts|
  {
    i <= k < 5 && (forall j: nat :: i <= j < k ==> Retried(attempts[j])) && !Retried(attempts[k])
  }

  lemma LastNext(attempts: seq<Attempt>, i: nat)
    requires i < MAX_RETRIES <= |attempts|
    ensures !Retried(attempts[i]) ==> LastIs(attempts, i, i) && forall k: nat :: LastIs(attempts, i, k) ==> k == i
    ensures Retried(attempts[i]) ==> forall k: nat :: LastIs(attempts, i, k) <==> LastIs(attempts, i + 1, k)
  {
  }

  /** What the last attempt makes of the call. */
  function ResultOf(a: Attempt): Result
    requires !Retried(a)
  {
    match a.outcome
    case Succeeds => Done
    case AlreadyExists => Done
    case Permanent => Failed
    case Transient => Cancelled
  }

  /** The time the attempts from the i-th up to the k-th take, with the delays after them. */
  function Elapsed(attempts: seq<Attempt>, i: nat, k: nat): Duration
    requires i <= k <= |attempts|
    decreases k - i
  {
    if i == k then 0.0 else attempts[i].took + Delay(i) + attempts[i].late + Elapsed(attempts, i + 1, k)
  }

  lemma {:induction false} AttemptsEnd(attempts: seq<Attempt>, i: nat, now: Time)
    requires i <= MAX_RETRIES <= |attempts|
    ensures forall k: nat :: LastIs(attempts, i, k) ==> Attempts(attempts, i, now).0 == ResultOf(attempts[k])
    ensures forall k: nat :: LastIs(attempts, i, k) ==>
              Attempts(attempts, i, now).1 == now + Elapsed(attempts, i, k) + attempts[k].took
                                              + (if attempts[k].outcome == Transient then attempts[k].late else 0.0)
    ensures Attempts(attempts, i, now).0 == Exhausted ==>
              Attempts(attempts, i, now).1 == now + Elapsed(attempts, i, MAX_RETRIES)
    ensures Attempts(attempts, i, now).0 != Rejected
    ensures Attempts(attempts, i, now).0 != Exhausted ==> exists k: nat :: LastIs(attempts, i, k)
    decreases MAX_RETRIES - i
  {
    hide LastIs;
    if i < MAX_RETRIES {
      LastNext(attempts, i);
      if Retried(attempts[i]) {
        var a := attempts[i];
        AttemptsEnd(attempts, i + 1, now + a.took + Delay(i) + a.late);
        var next := i + 1;
        forall k: nat | LastIs(attempts, i, k) ensures next <= k && LastIs(attempts, next, k) {
          LastBound(attempts, next, k);
        }
        if k: nat :| LastIs(attempts, next, k) {
          assert LastIs(attempts, i, k);
        }
      }
    } else {
      NoneLeft(attempts);
    }
  }

  lemma LastBound(attempts: seq<Attempt>, i: nat, k: nat)
    requires MAX_RETRIES <= |attempts| && LastIs(attempts, i, k)
    ensures i <= k < 5
  {
  }

  lemma NoneLeft(attempts: seq<Attempt>)
    requires MAX_RETRIES <= |attempts|
    ensures forall k: nat :: !LastIs(attempts, MAX_RETRIES, k)
  {
  }

  /** How a call ends and what the breaker learns: it is rejected exactly if the breaker
      does not admit it; it is done, failed or cancelled as its last attempt says,
      success closing the circuit and the rest leaving it as it was; and after five
      attempts that are all retried the breaker is told of a failure. It takes the time of
      the attempts made and of the delays between them. */
  lemma ServedExactly(b: Breaker, c: Call)
    requires |c.attempts| >= MAX_RETRIES
    ensures var served, admitted := Serve(b, c), AfterAllow(b, c.start);
            && (served.result == Rejected <==> !Admits(b, c.start))
            && (served.result == Rejected ==> served.breaker == b && served.end == c.start)
            && (served.result == Exhausted <==> Admits(b, c.start) && forall i :: 0 <= i < 5 ==> Retried(c.attempts[i]))
            && (forall k: nat :: Admits(b, c.start) && LastIs(c.attempts, 0, k) ==>
                  served.result == ResultOf(c.attempts[k]))
            && (forall k: nat :: Admits(b, c.start) && LastIs(c.attempts, 0, k) ==>
                  served.end == c.start + Elapsed(c.attempts, 0, k) + c.attempts[k].took
                                + (if c.attempts[k].outcome == Transient then c.attempts[k].late else 0.0))
            && (served.result == Exhausted ==> served.end == c.start + Elapsed(c.attempts, 0, 5))
            && (served.result == Done ==> served.breaker == Breaker(Closed, [], admitted.openedAt))
            && (served.result == Failed || served.result == Cancelled ==> served.breaker == admitted)
            && (served.result == Exhausted ==> served.breaker == AfterFailure(admitted, served.end))
  {
    AttemptsEnd(c.attempts, 0, c.start);
    AttemptsFrom(c.attempts, 0, c.start);
    hide LastIs;
  }

  // ---- Calls that do not overlap ------------------------------------------

  datatype Progress = Progress(breaker: Breaker, idleSince: Time)

  predicate WellFormed(calls: seq<Call>) {
    forall i :: 0 <= i < |calls| ==> |calls[i].attempts| >= MAX_RETRIES
  }

  /** The breaker and the clock after a list of calls made one after another. */
  function After(calls: seq<Call>): Progress
    requires WellFormed(calls)
  {
    if calls == [] then Progress(INITIAL, 0.0)
    else
      var s := Serve(After(calls[..|calls| - 1]).breaker, calls[|calls| - 1]);
      Progress(s.breaker, s.end)
  }

  /** No call starts before the previous one returned. */
  predicate Sequential(calls: seq<Call>)
    requires WellFormed(calls)
  {
    forall i :: 0 <= i < |calls| ==> After(calls[..i]).idleSince <= calls[i].start
  }

  /** Recorded failures are a whole backoff apart and lie in the past. */
  predicate Spaced(p: Progress) {
    && p.breaker.state == Closed
    && |p.breaker.failures| < THRESHOLD
    && (forall i :: 0 <= i < |p.breaker.failures| ==> p.breaker.failures[i] <= p.idleSince)
    && (forall i, j :: 0 <= i < j < |p.breaker.failures| ==>
          p.breaker.failures[j] >= p.breaker.failures[i] + TOTAL_DELAY)
  }

  lemma FreshKeepsOnlyLast(f: seq<Time>, cutoff: Time)
    requires |f| <= 2 && (|f| == 2 ==> f[0] <= cutoff)
    ensures Fresh(f, cutoff) == [] || (f != [] && Fresh(f, cutoff) == [f[|f| - 1]])
  {
    if |f| == 2 {
      assert f == [f[0]] + [f[1]] && [] + [f[0]] == [f[0]];
      FreshAppend([f[0]], f[1], cutoff);
      FreshAppend([], f[0], cutoff);
    } else if |f| == 1 {
      assert [] + [f[0]] == f;
      FreshAppend([], f[0], cutoff);
    }
  }

  lemma SpacedFailure(p: Progress, end: Time)
    requires Spaced(p) && end >= p.idleSince + TOTAL_DELAY
    ensures Spaced(Progress(AfterFailure(p.breaker, end), end))
  {
    hide Fresh;
    var f, cutoff := p.breaker.failures, end - WINDOW;
    if |f| == 2 {
      assert f[1] >= f[0] + TOTAL_DELAY && f[1] <= p.idleSince;
    }
    FreshKeepsOnlyLast(f, cutoff);
    assert AfterFailure(p.breaker, end).failures == Fresh(f, cutoff) + [end];
  }

  lemma SpacedStep(p: Progress, c: Call)
    requires Spaced(p) && |c.attempts| >= MAX_RETRIES && p.idleSince <= c.start
    ensures var s := Serve(p.breaker, c); Spaced(Progress(s.breaker, s.end)) && s.result != Rejected
  {
    ExhaustionTakesTheWholeBackoff(p.breaker, c);
    AttemptsFrom(c.attempts, 0, c.start);
    var s := Serve(p.breaker, c);
    if s.result == Exhausted {
      SpacedFailure(p, s.end);
    }
  }

  lemma {:induction false} SequentialCallsStaySpaced(calls: seq<Call>)
    requires WellFormed(calls) && Sequential(calls)
    ensures Spaced(After(calls))
    decreases |calls|
  {
    if calls != [] {
      var before, c := calls[..|calls| - 1], calls[|calls| - 1];
      assert forall i :: 0 <= i < |before| ==> before[..i] == calls[..i] && before[i] == calls[i];
      SequentialCallsStaySpaced(before);
      assert calls[..|before|] == before;
      SpacedStep(After(before), c);
    }
  }

  /** However often and for however long the API fails, calls that do not
      overlap never open the circuit, so none of them is ever fast-failed. */
  lemma SequentialCallsNeverOpen(calls: seq<Call>, next: Call)
    requires WellFormed(calls) && Sequential(calls)
    ensures After(calls).breaker.state == Closed
    ensures Admits(After(calls).breaker, next.start)
  {
    SequentialCallsStaySpaced(calls);
  }

  lemma {:induction false} AllFresh(h: seq<Time>, cutoff: Time)
    requires forall i :: 0 <= i < |h| ==> h[i] > cutoff
    ensures Fresh(h, cutoff) == h
    decreases |h|
  {
    if h != [] {
      AllFresh(h[..|h| - 1], cutoff);
      assert h == h[..|h| - 1] + [h[|h| - 1]];
    }
  }

  lemma ThirdFailureOpens(first: Time, second: Time, third: Time)
    requires first <= second <= third < first + WINDOW
    ensures var b := AfterFailure(AfterFailure(AfterFailure(INITIAL, first), second), third);
            b.state == Open && b.openedAt == third
  {
    hide Fresh;
    AllFresh([], first - WINDOW);
    AllFresh([first], second - WINDOW);
    AllFresh([first, second], third - WINDOW);
    assert AfterFailure(INITIAL, first).failures == [first];
    assert AfterFailure(AfterFailure(INITIAL, first), second).failures == [first, second];
  }

  /** A call let in while the circuit is closed leaves it as it is. */
  lemma AllowChangesNothing(es: seq<Event>, now: Time)
    requires Run(INITIAL, es) == INITIAL
    ensures Run(INITIAL, es + [Allow(now)]) == INITIAL
  {
    OneMore(es, Allow(now));
  }

  lemma AllowsChangeNothing(first: Time, second: Time, third: Time)
    ensures Run(INITIAL, [Allow(first), Allow(second), Allow(third)]) == INITIAL
  {
    assert Run(INITIAL, []) == INITIAL;
    hide Run;
    AllowChangesNothing([], first);
    AllowChangesNothing([] + [Allow(first)], second);
    AllowChangesNothing([] + [Allow(first)] + [Allow(second)], third);
    assert [] + [Allow(first)] + [Allow(second)] + [Allow(third)] == [Allow(first), Allow(second), Allow(third)];
  }

  /** Three calls let in together do open it when they exhaust their retries
      less than 30 s apart. */
  lemma OverlappingCallsOpen(first: Call, second: Call, third: Call)
    requires |first.attempts| >= MAX_RETRIES && |second.attempts| >= MAX_RETRIES && |third.attempts| >= MAX_RETRIES
    requires forall c :: c in [first, second, third] ==> Serve(INITIAL, c).result == Exhausted
    requires var e1, e2, e3 := Serve(INITIAL, first).end, Serve(INITIAL, second).end, Serve(INITIAL, third).end;
             e1 <= e2 <= e3 < e1 + WINDOW
    ensures var es := [Allow(first.start), Allow(second.start), Allow(third.start)];
            var b := AfterFailure(Run(INITIAL, es), Serve(INITIAL, first).end);
            var b' := AfterFailure(b, Serve(INITIAL, second).end);
            AfterFailure(b', Serve(INITIAL, third).end).state == Open
  {
    hide Serve;
    hide AfterFailure;
    hide Fresh;
    hide Run;
    AllowsChangeNothing(first.start, second.start, third.start);
    ThirdFailureOpens(Serve(INITIAL, first).end, Serve(INITIAL, second).end, Serve(INITIAL, third).end);
  }
}
