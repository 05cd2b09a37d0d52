/** Safety of the execution lifecycle over all runs. */
module ExecutionTheorems {
  import opened Executions
  import opened ExecutionProtocol
  import opened Wrappers
  import opened Remote

  // ---- Terminal statuses absorb ------------------------------------------------------

  lemma VersionsGrow(s: State, e: Event)
    ensures s.versions <= Apply(s, e).versions && s.apiRows <= Apply(s, e).apiRows
  {
  }

  lemma {:induction false} RunVersionsGrow(s: State, es: seq<Event>)
    ensures s.versions <= Run(s, es).versions && s.apiRows <= Run(s, es).apiRows
    decreases |es|
  {
    if es != [] {
      RunVersionsGrow(s, es[..|es| - 1]);
      VersionsGrow(Run(s, es[..|es| - 1]), es[|es| - 1]);
    }
  }

  lemma LimitStays(s: State, e: Event)
    ensures Apply(s, e).max == s.max
  {
    hide WithStatus;
    hide StatusKey;
  }

  lemma CollectedIsTerminal(s: State, a: nat)
    requires Inv(s) && a in s.actors && s.actors[a].Collecting?
    ensures var id := s.actors[a].seen.id; id in s.table && s.table[id].status.IsTerminal()
  {
    hide RowOk;
    assert ActorOk(s, s.actors[a]);
  }

  /** No row is lost, no row changes what it was created with, and once terminal
      a row keeps its status, its times and its metadata whatever is written
      later by stale workers, pollers, timeouts or rollbacks. */
  lemma TerminalAbsorbs(max: int, es: seq<Event>, fs: seq<Event>, id: string)
    requires id in Run(Init(max), es).table
    ensures var before, after := Run(Init(max), es).table, Run(Init(max), es + fs).table;
            && id in after && after[id].request == before[id].request
            && (before[id].status.IsTerminal() ==>
                  after[id] == before[id].(cleaned := after[id].cleaned, cleanedAt := after[id].cleanedAt))
            && (before[id].cleaned ==> after[id] == before[id])
  {
    RunConcat(Init(max), es, fs);
    Reachable(max, es);
    Reachable(max, es + fs);
    RunVersionsGrow(Run(Init(max), es), fs);
  }

  /** A row goes from not terminal (or not there) to terminal at this event. */
  predicate Completed(s: State, e: Event, id: string) {
    && (id in s.table ==> !s.table[id].status.IsTerminal())
    && id in Apply(s, e).table && Apply(s, e).table[id].status.IsTerminal()
  }

  function Completions(s: State, es: seq<Event>, id: string): nat {
    if es == [] then 0
    else Completions(s, es[..|es| - 1], id) + (if Completed(Run(s, es[..|es| - 1]), es[|es| - 1], id) then 1 else 0)
  }

  predicate TerminalIn(s: State, id: string) {
    id in s.table && s.table[id].status.IsTerminal()
  }

  lemma OneStep(max: int, es: seq<Event>, e: Event, id: string)
    requires id in Run(Init(max), es).table
    ensures id in Run(Init(max), es + [e]).table
    ensures Precedes(Run(Init(max), es).table[id], Run(Init(max), es + [e]).table[id])
  {
    Reachable(max, es);
    Reachable(max, es + [e]);
    RunSnoc(Init(max), es, e);
    VersionsGrow(Run(Init(max), es), e);
  }

  /** At most one terminal transition succeeds per execution: exactly one if it
      ends up terminal, none otherwise. */
  lemma {:induction false} OneCompletion(max: int, es: seq<Event>, id: string)
    ensures Completions(Init(max), es, id) == if TerminalIn(Run(Init(max), es), id) then 1 else 0
    decreases |es|
  {
    if es != [] {
      var before, e := es[..|es| - 1], es[|es| - 1];
      assert es == before + [e];
      OneCompletion(max, before, id);
      RunSnoc(Init(max), before, e);
      if id in Run(Init(max), before).table {
        OneStep(max, before, e, id);
      }
    }
  }

  // ---- Cleaning --------------------------------------------------------------------

  /** Although MarkCleaned never looks at the status. */
  lemma CleanedImpliesTerminal(max: int, es: seq<Event>, id: string)
    requires id in Run(Init(max), es).table && Run(Init(max), es).table[id].cleaned
    ensures Run(Init(max), es).table[id].status.IsTerminal()
  {
    Reachable(max, es);
  }

  predicate CleanedIn(s: State, id: string) {
    id in s.table && s.table[id].cleaned
  }

  /** The number of events that set the cleaned flag of a row. */
  function Cleanings(s: State, es: seq<Event>, id: string): nat {
    if es == [] then 0
    else
      var before := Run(s, es[..|es| - 1]);
      Cleanings(s, es[..|es| - 1], id) +
      (if !CleanedIn(before, id) && CleanedIn(Apply(before, es[|es| - 1]), id) then 1 else 0)
  }

  /** However many collectors race, exactly one marks a row that gets cleaned. */
  lemma {:induction false} OneCleaning(max: int, es: seq<Event>, id: string)
    ensures Cleanings(Init(max), es, id) == if CleanedIn(Run(Init(max), es), id) then 1 else 0
    decreases |es|
  {
    if es != [] {
      var before, e := es[..|es| - 1], es[|es| - 1];
      assert es == before + [e];
      OneCleaning(max, before, id);
      RunSnoc(Init(max), before, e);
      if id in Run(Init(max), before).table {
        OneStep(max, before, e, id);
      }
    }
  }

  /** A collector whose request arrives leaves its row cleaned, and its own
      request is the one that did it exactly if the row was not cleaned yet. */
  lemma CollectCleans(max: int, es: seq<Event>, a: nat, now: string, net: Net)
    requires var s := Run(Init(max), es); a in s.actors && s.actors[a].Collecting?
    requires net != Dropped
    ensures var s := Run(Init(max), es);
            var id := s.actors[a].seen.id;
            var s' := Apply(s, Collect(a, now, net));
            && id in s.table && CleanedIn(s', id)
            && (s'.table[id].cleanedAt == if s.table[id].cleaned then s.table[id].cleanedAt else now)
            && s'.table == s.table[id := s'.table[id]]
  {
    Reachable(max, es);
    var s := Run(Init(max), es);
    assert ActorOk(s, s.actors[a]);
  }

  // ---- Claims ------------------------------------------------------------------------

  /** At most one tick holds an acknowledged claim on an execution, and while it
      does the row is what the claim wrote or has become terminal. */
  lemma ClaimIsExclusive(max: int, es: seq<Event>, a: nat, id: string)
    requires var s := Run(Init(max), es); a in s.actors && Holds(s.actors[a], id)
    ensures var s := Run(Init(max), es);
            && (forall b :: b in s.actors && Holds(s.actors[b], id) ==> b == a)
            && id in s.table && (s.table[id] == s.actors[a].written || s.table[id].status.IsTerminal())
            && !Has(s.table, id, Approved)
  {
    Reachable(max, es);
    var s := Run(Init(max), es);
    assert ActorOk(s, s.actors[a]);
  }

  lemma RollbackOwned(s: State, a: nat)
    requires Inv(s) && a in s.actors && s.actors[a].RollingBack?
    ensures Owned(s, s.actors[a].written) && s.table[s.actors[a].written.id].id == s.actors[a].written.id
  {
    hide RowOk;
    hide Precedes;
    assert ActorOk(s, s.actors[a]);
  }

  lemma RollbackWrites(s: State, a: nat, now: string, net: Net)
    requires a in s.actors && s.actors[a].RollingBack?
    ensures var id, t' := s.actors[a].written.id, Apply(s, Rollback(a, now, net)).table;
            t' == if net != Dropped && Has(s.table, id, Dispatched)
              then s.table[id := Moved(s.table[id], Approved, now)] else s.table
  {
    hide StatusKey;
  }

  /** A rollback that arrives undoes exactly the version its own claim wrote; if
      the row has moved on to a terminal status meanwhile it changes nothing. */
  lemma RollbackUndoesOwnClaim(max: int, es: seq<Event>, a: nat, now: string, net: Net)
    requires var s := Run(Init(max), es); a in s.actors && s.actors[a].RollingBack?
    ensures var s := Run(Init(max), es);
            var w := s.actors[a].written;
            var t' := Apply(s, Rollback(a, now, net)).table;
            && w.id in s.table
            && (net != Dropped && s.table[w.id] == w ==> t' == s.table[w.id := Moved(w, Approved, now)])
            && (net == Dropped || s.table[w.id] != w ==> t' == s.table)
            && (s.table[w.id] != w ==> s.table[w.id].status.IsTerminal())
  {
    Reachable(max, es);
    var s := Run(Init(max), es);
    RollbackOwned(s, a);
    RollbackWrites(s, a, now, net);
    hide Inv;
    hide Run;
    hide Apply;
    hide Moved;
  }

  /** A claim and its rollback give the approved row back, but for the times. */
  lemma ClaimThenRollback(t: Table, id: string, claimed: string, rolledBack: string)
    requires Has(t, id, Approved)
    ensures var t' := AfterTransition(AfterTransition(t, id, Approved, Dispatched, claimed), id, Dispatched, Approved,
              rolledBack);
            t' == t[id := t[id].(updatedAt := rolledBack, dispatchedAt := claimed,
                                 targetStatusKey := StatusKey(Approved, rolledBack))]
  {
    hide StatusKey;
    var t1 := AfterTransition(t, id, Approved, Dispatched, claimed);
    assert t1[id] == Moved(t[id], Dispatched, claimed);
  }

  // ---- Writes that can never succeed ----------------------------------------------------

  /** The worker and the failed async dispatch pass completedAt again: no such
      request ever changes a row. */
  lemma OverlappingWritesAreRejected(s: State, e: Event)
    requires e.WorkerWrite? || e.DispatchFailed?
    ensures Apply(s, e).table == s.table && Apply(s, e).versions == s.versions
  {
  }

  /** So a synchronous execution that came through approval is never recorded as
      succeeded or failed: it stays approved or dispatched until it times out. */
  lemma ApprovedSyncOnlyTimesOut(max: int, es: seq<Event>, row: Execution, fs: seq<Event>)
    requires NewRow(row, Approved) && row.request.mode == Sync && row.id !in Run(Init(max), es).table
    ensures Unrecorded(Run(Init(max), es + [Approve(row)] + fs), row.id)
  {
    Reachable(max, es);
    RunSnoc(Init(max), es, Approve(row));
    RunConcat(Init(max), es + [Approve(row)], fs);
    StartsUnrecorded(Run(Init(max), es), row);
    ApplyKeeps(Run(Init(max), es), Approve(row));
    StaysUnrecorded(Apply(Run(Init(max), es), Approve(row)), fs, row.id);
  }

  lemma StartsUnrecorded(s: State, row: Execution)
    requires Inv(s) && NewRow(row, Approved) && row.request.mode == Sync && row.id !in s.table
    ensures Unrecorded(Apply(s, Approve(row)), row.id)
  {
  }

  /** There, not created through the API, and neither succeeded nor failed. */
  predicate Unrecorded(s: State, id: string) {
    && id in s.table && id !in s.apiRows && s.table[id].request.mode == Sync
    && (s.table[id].status == Approved || s.table[id].status == Dispatched || s.table[id].status == TimedOut)
  }

  lemma {:induction false} StaysUnrecorded(s: State, fs: seq<Event>, id: string)
    requires Inv(s) && Unrecorded(s, id)
    ensures Unrecorded(Run(s, fs), id)
    decreases |fs|
  {
    if fs != [] {
      StaysUnrecorded(s, fs[..|fs| - 1], id);
      RunKeeps(s, fs[..|fs| - 1]);
      StepUnrecorded(Run(s, fs[..|fs| - 1]), fs[|fs| - 1], id);
    }
  }

  lemma ApiRowsAreNew(s: State, e: Event, id: string)
    requires id in s.table && id !in s.apiRows
    ensures id !in Apply(s, e).apiRows
  {
  }

  lemma StepUnrecorded(s: State, e: Event, id: string)
    requires Inv(s) && Unrecorded(s, id)
    ensures Unrecorded(Apply(s, e), id)
  {
    ApplyKeeps(s, e);
    ApiRowsAreNew(s, e, id);
    VersionsGrow(s, e);
    GoodRow(Apply(s, e), s.table[id]);
  }

  lemma GoodRow(s: State, v: Execution)
    requires Inv(s) && v in s.versions
    ensures v.id in s.table && s.table[v.id].request == v.request && RowOk(s.table[v.id])
    ensures s.table[v.id].status == Succeeded || s.table[v.id].status == Failed ==>
              v.request.mode == Async || v.id in s.apiRows
  {
  }

  // ---- Index agreement ----------------------------------------------------------------

  /** In every reachable state each row is filed under its own status, and a
      dispatched row under the time it was dispatched. */
  lemma ReachableKeysAgree(max: int, es: seq<Event>)
    ensures KeysAgree(Run(Init(max), es).table)
    ensures forall id :: id in Run(Init(max), es).table && Run(Init(max), es).table[id].status == Dispatched ==>
              Run(Init(max), es).table[id].targetStatusKey
                == StatusKey(Dispatched, Run(Init(max), es).table[id].dispatchedAt)
  {
    Reachable(max, es);
    var s := Run(Init(max), es);
    forall id | id in s.table ensures RowOk(s.table[id]) && s.table[id].id == id {
      assert s.table[id] in s.versions;
    }
  }
}
