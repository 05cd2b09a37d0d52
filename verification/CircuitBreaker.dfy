/** The EKS circuit breaker: a windowed failure buffer pruned in place, its
    meaning over whole histories, and the retry loop that feeds it. */
module Circuit {

  const THRESHOLD: nat := 3
  /** A time in milliseconds on the monotonic clock, to any resolution. */
  type Time = real

  const WINDOW: Time := 30_000.0
  const OPEN_FOR: Time := 60_000.0

  datatype CircuitState = Closed | Open | HalfOpen

  /** The value a breaker holds between two calls. */
  datatype Breaker = Breaker(state: CircuitState, failures: seq<Time>, openedAt: Time)

  const INITIAL := Breaker(Closed, [], 0.0)

  /** The times strictly after a cutoff, in order. */
  function Fresh(times: seq<Time>, cutoff: Time): (r: seq<Time>)
    ensures |r| <= |times|
  {
    if times == [] then []
    else
      var rest := Fresh(times[..|times| - 1], cutoff);
      var last := times[|times| - 1];
      if last > cutoff then rest + [last] else rest
  }

  predicate Admits(b: Breaker, now: Time) {
    b.state != Open || now - b.openedAt >= OPEN_FOR
  }

  function AfterAllow(b: Breaker, now: Time): Breaker {
    if b.state == Open && Admits(b, now) then b.(state := HalfOpen) else b
  }

  function AfterSuccess(b: Breaker): Breaker {
    b.(state := Closed, failures := [])
  }

  function AfterFailure(b: Breaker, now: Time): Breaker {
    var failures := Fresh(b.failures, now - WINDOW) + [now];
    if |failures| >= THRESHOLD && b.state != Open
    then Breaker(Open, failures, now)
    else b.(failures := failures)
  }

  class CircuitBreaker {
    var state: CircuitState
    var buffer: array<Time>
    var len: nat
    var openedAt: Time
    var lastOperation: string

    ghost predicate Valid()
      reads this
    {
      len <= buffer.Length
    }

    ghost function Value(): Breaker
      requires Valid()
      reads this, buffer
    {
      Breaker(state, buffer[..len], openedAt)
    }

    constructor ()
      ensures Valid() && fresh(buffer) && Value() == INITIAL
    {
      state := Closed;
      buffer := new Time[THRESHOLD];
      len := 0;
      openedAt := 0.0;
      lastOperation := "";
    }

    method Allow(now: Time) returns (ok: bool)
      requires Valid()
      modifies this`state
      ensures Valid() && ok == Admits(old(Value()), now)
      ensures Value() == AfterAllow(old(Value()), now)
      ensures ok <==> old(state) != Open || now >= old(openedAt) + 60_000.0
      ensures state == if old(state) == Open && ok then HalfOpen else old(state)
    {
      match state
      case Open =>
        if now - openedAt >= OPEN_FOR {
          state := HalfOpen;
          return true;
        }
        return false;
      case HalfOpen => return true;
      case Closed => return true;
    }

    method RecordSuccess()
      requires Valid()
      modifies this`state, this`len
      ensures Valid() && Value() == AfterSuccess(old(Value()))
      ensures state == Closed && Value().failures == []
    {
      if state != Closed {
        state := Closed;
      }
      len := 0;
    }

    /** Keeps the entries after the cutoff, moving them down in the same array. */
    method Prune(cutoff: Time)
      requires Valid()
      modifies this`len, buffer
      ensures Valid() && buffer[..len] == Fresh(old(buffer[..len]), cutoff)
    {
      ghost var was := buffer[..len];
      var i, kept := 0, 0;
      while i < len
        invariant kept <= i <= len <= buffer.Length && len == |was|
        invariant buffer[..kept] == Fresh(was[..i], cutoff)
        invariant forall k :: i <= k < len ==> buffer[k] == was[k]
      {
        assert was[..i + 1][..i] == was[..i];
        if buffer[i] > cutoff {
          buffer[kept] := buffer[i];
          kept := kept + 1;
        }
        i := i + 1;
      }
      assert was[..i] == was;
      len := kept;
    }

    method Append(now: Time)
      requires Valid()
      modifies this`len, this`buffer, buffer
      ensures Valid() && (buffer == old(buffer) || fresh(buffer))
      ensures buffer[..len] == old(buffer[..len]) + [now]
    {
      if len == buffer.Length {
        var bigger := new Time[2 * len + 1];
        forall i | 0 <= i < len {
          bigger[i] := buffer[i];
        }
        buffer := bigger;
      }
      buffer[len] := now;
      len := len + 1;
    }

    method RecordFailure(now: Time, operation: string)
      requires Valid()
      modifies this, buffer
      ensures Valid() && (buffer == old(buffer) || fresh(buffer))
      ensures Value() == AfterFailure(old(Value()), now) && lastOperation == operation
      ensures Value().failures == Fresh(old(Value()).failures, now - 30_000.0) + [now]
      ensures var opens := old(state) != Open && |Value().failures| >= 3;
              state == (if opens then Open else old(state)) && openedAt == (if opens then now else old(openedAt))
    {
      lastOperation := operation;
      Prune(now - WINDOW);
      Append(now);
      if len >= THRESHOLD && state != Open {
        openedAt := now;
        state := Open;
      }
    }
  }

  // ---- Whole histories -------------------------------------------------

  datatype Event = Allow(now: Time) | Success | Failure(now: Time)

  function Step(b: Breaker, e: Event): Breaker {
    match e
    case Allow(now) => AfterAllow(b, now)
    case Success => AfterSuccess(b)
    case Failure(now) => AfterFailure(b, now)
  }

  function Run(b: Breaker, es: seq<Event>): Breaker {
    if es == [] then b else Step(Run(b, es[..|es| - 1]), es[|es| - 1])
  }

  /** Every failure recorded since the last success. */
  function History(es: seq<Event>): seq<Time> {
    if es == [] then []
    else
      var before := History(es[..|es| - 1]);
      match es[|es| - 1]
      case Allow(_) => before
      case Success => []
      case Failure(now) => before + [now]
  }

  /** Failures are recorded under the mutex, so their times never decrease. */
  predicate Monotone(es: seq<Event>) {
    forall i, j :: 0 <= i < j < |es| && es[i].Failure? && es[j].Failure? ==> es[i].now <= es[j].now
  }

  lemma {:induction false} FreshElements(times: seq<Time>, cutoff: Time, t: Time)
    ensures t in Fresh(times, cutoff) <==> t in times && t > cutoff
    decreases |times|
  {
    if times != [] {
      FreshElements(times[..|times| - 1], cutoff, t);
    }
  }

  lemma {:induction false} FreshOfFresh(times: seq<Time>, early: Time, late: Time)
    requires early <= late
    ensures Fresh(Fresh(times, early), late) == Fresh(times, late)
    decreases |times|
  {
    if times != [] {
      var rest, last := times[..|times| - 1], times[|times| - 1];
      FreshOfFresh(rest, early, late);
      if last > early {
        assert (Fresh(rest, early) + [last])[..|Fresh(rest, early)|] == Fresh(rest, early);
      }
    }
  }

  lemma {:induction false} HistoryIsRecorded(es: seq<Event>)
    ensures forall t :: t in History(es) ==> exists i :: 0 <= i < |es| && es[i] == Failure(t)
    decreases |es|
  {
    if es != [] {
      var before, e := es[..|es| - 1], es[|es| - 1];
      HistoryIsRecorded(before);
      forall t | t in History(es) ensures exists i :: 0 <= i < |es| && es[i] == Failure(t) {
        if t in History(before) {
          var i :| 0 <= i < |before| && before[i] == Failure(t);
          assert es[i] == Failure(t);
        } else {
          assert es[|es| - 1] == Failure(t);
        }
      }
    }
  }

  /** What is fresh: every time after the cutoff as often as it occurs, and no other. */
  lemma {:induction false} FreshMeans(times: seq<Time>, cutoff: Time, t: Time)
    ensures multiset(Fresh(times, cutoff))[t] == if t > cutoff then multiset(times)[t] else 0
    decreases |times|
  {
    if times != [] {
      var front, last := times[..|times| - 1], times[|times| - 1];
      FreshMeans(front, cutoff, t);
      assert times == front + [last];
    }
  }

  lemma FreshAppend(h: seq<Time>, t: Time, cutoff: Time)
    ensures Fresh(h + [t], cutoff) == if t > cutoff then Fresh(h, cutoff) + [t] else Fresh(h, cutoff)
  {
    assert (h + [t])[..|h|] == h;
  }

  /** Times in the history of a monotone run come no later than a next failure. */
  lemma HistoryBefore(es: seq<Event>, now: Time, t: Time)
    requires Monotone(es + [Failure(now)]) && t in History(es)
    ensures t <= now
  {
    HistoryIsRecorded(es);
    var i :| 0 <= i < |es| && es[i] == Failure(t);
    var all := es + [Failure(now)];
    assert all[i] == Failure(t) && all[|es|] == Failure(now);
  }

  function Recent(h: seq<Time>): seq<Time> {
    if h == [] then [] else Fresh(h, h[|h| - 1] - WINDOW)
  }

  lemma RecentAppend(h: seq<Time>, now: Time)
    requires h != [] ==> h[|h| - 1] <= now
    ensures Fresh(Recent(h), now - WINDOW) + [now] == Recent(h + [now])
  {
    FreshAppend(h, now, now - WINDOW);
    if h != [] {
      FreshOfFresh(h, h[|h| - 1] - WINDOW, now - WINDOW);
    }
  }

  lemma OneMore(es: seq<Event>, e: Event)
    ensures Run(INITIAL, es + [e]) == Step(Run(INITIAL, es), e)
    ensures History(es + [e]) == if e.Failure? then History(es) + [e.now] else if e.Success? then [] else History(es)
    ensures Monotone(es + [e]) ==> Monotone(es)
  {
    var all := es + [e];
    assert all[..|es|] == es;
    if Monotone(all) {
      assert forall i :: 0 <= i < |es| ==> es[i] == all[i];
    }
  }

  /** Between two failures the buffer is the history since the last success,
      restricted to the window before the latest failure. */
  lemma {:induction false} BufferIsRecentHistory(es: seq<Event>)
    requires Monotone(es)
    ensures Run(INITIAL, es).failures == Recent(History(es))
    decreases |es|
  {
    if es != [] {
      var before, e := es[..|es| - 1], es[|es| - 1];
      assert es == before + [e];
      OneMore(before, e);
      BufferIsRecentHistory(before);
      if e.Failure? {
        NextFailure(before, e.now);
      }
    }
  }

  lemma NextFailure(es: seq<Event>, now: Time)
    requires Monotone(es + [Failure(now)])
    requires Run(INITIAL, es).failures == Recent(History(es))
    ensures AfterFailure(Run(INITIAL, es), now).failures == Recent(History(es) + [now])
  {
    var h := History(es);
    if h != [] {
      HistoryBefore(es, now, h[|h| - 1]);
    }
    RecentAppend(h, now);
  }

  /** Right after a failure: the buffer is the last 30 s of the history, and
      the circuit turns open exactly when that holds three failures or more. */
  lemma FailureMeaning(es: seq<Event>, now: Time)
    requires Monotone(es + [Failure(now)])
    ensures var b, b' := Run(INITIAL, es), Run(INITIAL, es + [Failure(now)]);
            var recent := Fresh(History(es) + [now], now - 30_000.0);
            && b'.failures == recent
            && (b.state != Open ==> (b'.state == Open <==> |recent| >= 3))
            && (b'.state == Open && b.state != Open ==> b'.openedAt == now)
  {
    hide Fresh;
    hide Monotone;
    OneMore(es, Failure(now));
    BufferIsRecentHistory(es + [Failure(now)]);
    assert History(es + [Failure(now)])[|History(es)|] == now;
    hide Run;
    hide History;
  }

  /** No other event opens the circuit. */
  lemma OnlyFailuresOpen(b: Breaker, e: Event)
    requires b.state != Open && Step(b, e).state == Open
    ensures e.Failure? && |Step(b, e).failures| >= 3 && Step(b, e).openedAt == e.now
  {
  }

  /** An open circuit rejects every call for 60 s after it opened, whatever
      failures are recorded meanwhile, unless a success is recorded. */
  lemma {:induction false} StaysOpen(b: Breaker, es: seq<Event>, now: Time)
    requires b.state == Open
    requires forall i :: 0 <= i < |es| ==> es[i] != Success
    requires forall i :: 0 <= i < |es| && es[i].Allow? ==> es[i].now < b.openedAt + 60_000.0
    ensures Run(b, es).state == Open && Run(b, es).openedAt == b.openedAt
    ensures Admits(Run(b, es), now) <==> now >= b.openedAt + 60_000.0
    decreases |es|
  {
    if es != [] {
      StaysOpen(b, es[..|es| - 1], now);
      assert es[|es| - 1] != Success;
    }
  }

  /** A failed probe reopens a half-open circuit only with two more failures in
      the window; otherwise the circuit stays half-open and admits every call. */
  lemma FailedProbe(es: seq<Event>, now: Time, later: Time)
    requires Monotone(es + [Failure(now)]) && Run(INITIAL, es).state == HalfOpen
    ensures var b := Run(INITIAL, es + [Failure(now)]);
            var others := Fresh(History(es), now - 30_000.0);
            if |others| >= 2 then b.state == Open && b.openedAt == now
            else b.state == HalfOpen && Admits(b, later)
  {
    FailureMeaning(es, now);
    OneMore(es, Failure(now));
    FreshAppend(History(es), now, now - WINDOW);
  }
}
