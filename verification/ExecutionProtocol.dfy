/** Everything that writes execution rows, as one transition system: API calls,
    workers, reconciler ticks and garbage collectors interleave freely, act on
    row versions that may be stale, lose requests and die at any point. */
module ExecutionProtocol {
  import opened Executions
  import opened Wrappers
  import opened Remote

  /** An invocation in progress and what it still holds in memory. */
  datatype Actor =
    | Counting(target: string, dispatched: nat) // API: has counted the dispatched rows, not yet the approved ones
    | Admitted(row: Execution, forced: bool)  // API: passed the checks, about to create
    | ApiSync(seen: Execution)                // API: running the action
    | ApiAsync(seen: Execution)               // API: creating the job
    | Claiming(seen: Execution)               // reconciler: listed as approved
    | Claimed(written: Execution)             // reconciler: claim acknowledged, about to invoke
    | RollingBack(written: Execution)         // reconciler: invoke failed
    | Working(seen: Execution)                // worker: passed the idempotency guard
    | Polling(seen: Execution)                // reconciler: job of an async execution finished
    | TimingOut(seen: Execution)              // reconciler: found overdue
    | Collecting(seen: Execution)             // garbage collector: resources deleted

  /** The table, every row version there ever was, the invocations in progress,
      the rows created through the API, and MaxConcurrentPerTarget. */
  datatype State = State(table: Table, versions: set<Execution>, actors: map<nat, Actor>, apiRows: set<string>,
                         max: int)

  datatype Event =
    | Approve(row: Execution)
    | Count(a: nat, target: string)
    | Admit(a: nat, row: Execution)
    | Force(a: nat, row: Execution)
    | Create(a: nat, net: Net)
    | Read(a: nat, x: Actor)
    | Finish(a: nat, to: Status, now: string, u: Updates, net: Net)
    | DispatchFailed(a: nat, now: string, u: Updates, net: Net)
    | Claim(a: nat, now: string, net: Net)
    | Invoke(a: nat, ok: bool)
    | Rollback(a: nat, now: string, net: Net)
    | WorkerWrite(a: nat, to: Status, now: string, u: Updates, net: Net)
    | Poll(a: nat, to: Status, now: string, u: Updates, net: Net)
    | TimeOut(a: nat, now: string, net: Net)
    | Collect(a: nat, now: string, net: Net)
    | Exit(a: nat)

  function Init(max: int): State {
    State(map[], {}, map[], {}, max)
  }

  // ---- One event ------------------------------------------------------------------

  predicate NewRow(row: Execution, status: Status) {
    && row.status == status && !row.cleaned && |row.request.createdAt| >= 10
    && row.updatedAt == row.completedAt == row.cleanedAt == ""
    && (status == Dispatched ==> row.dispatchedAt == row.request.createdAt)
  }

  function Drop(s: State, a: nat): State {
    s.(actors := s.actors - {a})
  }

  function Add(s: State, a: nat, x: Actor): State {
    s.(actors := s.actors[a := x])
  }

  /** The table after a request on one row, with its new version remembered. */
  function Wrote(s: State, id: string, t: Table, net: Net): State {
    if net == Dropped || t == s.table || id !in t then s else s.(table := t, versions := s.versions + {t[id]})
  }

  /** What an invocation may set out to do after reading a row: any version the
      row ever had may be the one it saw. */
  predicate CanRead(s: State, x: Actor) {
    match x
    case Claiming(v) => v in s.versions && v.status == Approved
    case Working(v) => v in s.versions && v.status == Dispatched
    case Polling(v) => v in s.versions && v.status == Dispatched && v.request.mode == Async
    case TimingOut(v) => v in s.versions && v.status == Dispatched
    case Collecting(v) => v in s.versions && v.status.Completes() && !v.cleaned
    case _ => false
  }

  function Created(s: State, a: nat, net: Net): State
    requires a in s.actors && s.actors[a].Admitted? && |s.actors[a].row.request.createdAt| >= 10
  {
    var row := s.actors[a].row;
    var s' := Wrote(Drop(s, a), row.id, AfterCreate(s.table, row), net);
    if row.id in s.table || net == Dropped then Drop(s, a)
    else
      var s'' := s'.(apiRows := s.apiRows + {row.id});
      if net == ReplyLost then s''
      else Add(s'', a, if row.request.mode == Sync then ApiSync(Stored(row)) else ApiAsync(Stored(row)))
  }

  function Move(s: State, a: nat, id: string, from: Status, to: Status, now: string, net: Net): State {
    Wrote(Drop(s, a), id, AfterTransition(s.table, id, from, to, now), net)
  }

  function MoveWith(s: State, a: nat, id: string, to: Status, now: string, u: Updates, net: Net): State {
    Wrote(Drop(s, a), id, AfterTransitionWith(s.table, id, Dispatched, to, now, u), net)
  }

  function ClaimStep(s: State, a: nat, id: string, now: string, net: Net): State {
    var s' := Move(s, a, id, Approved, Dispatched, now, net);
    if net == Delivered && Has(s.table, id, Approved) then Add(s', a, Claimed(s'.table[id])) else s'
  }

  function Mark(s: State, a: nat, id: string, now: string, net: Net): State {
    Wrote(Drop(s, a), id, AfterMark(s.table, id, now), net)
  }

  /** An event that is not enabled changes nothing. */
  function Apply(s: State, e: Event): State {
    match e
    case Approve(row) =>
      if NewRow(row, Approved) && row.id !in s.table then Wrote(s, row.id, AfterCreate(s.table, row), Delivered) else s
    case Count(a, target) =>
      if a !in s.actors then Add(s, a, Counting(target, |WithStatus(s.table, target, Dispatched)|)) else s
    case Admit(a, row) =>
      if && a in s.actors && s.actors[a].Counting? && NewRow(row, Dispatched)
        && row.request.target == s.actors[a].target
         && s.actors[a].dispatched + |WithStatus(s.table, s.actors[a].target, Approved)| < s.max
      then Add(s, a, Admitted(row, false)) else s
    case Force(a, row) =>
      if a !in s.actors && NewRow(row, Dispatched) then Add(s, a, Admitted(row, true)) else s
    case Create(a, net) =>
      if a in s.actors && s.actors[a].Admitted? && NewRow(s.actors[a].row, Dispatched) then Created(s, a, net) else s
    case Finish(a, to, now, u, net) =>
      if a in s.actors && s.actors[a].ApiSync? && to.Completes() && u.completedAt.None?
      then MoveWith(s, a, s.actors[a].seen.id, to, now, u, net) else s
    case DispatchFailed(a, now, u, net) =>
      if a in s.actors && s.actors[a].ApiAsync? && u.completedAt.Some?
      then MoveWith(s, a, s.actors[a].seen.id, Failed, now, u, net) else s
    case Read(a, x) => if a !in s.actors && CanRead(s, x) then Add(s, a, x) else s
    case Claim(a, now, net) =>
      if a in s.actors && s.actors[a].Claiming? then ClaimStep(s, a, s.actors[a].seen.id, now, net) else s
    case Invoke(a, ok) =>
      if a in s.actors && s.actors[a].Claimed?
      then (if ok then Drop(s, a) else Add(s, a, RollingBack(s.actors[a].written))) else s
    case Rollback(a, now, net) =>
      if a in s.actors && s.actors[a].RollingBack?
      then Move(s, a, s.actors[a].written.id, Dispatched, Approved, now, net) else s
    case WorkerWrite(a, to, now, u, net) =>
      if a in s.actors && s.actors[a].Working? && to.Completes() && u.completedAt.Some?
      then MoveWith(s, a, s.actors[a].seen.id, to, now, u, net) else s
    case Poll(a, to, now, u, net) =>
      if a in s.actors && s.actors[a].Polling? && (to == Succeeded || to == Failed) && u.completedAt.None?
      then MoveWith(s, a, s.actors[a].seen.id, to, now, u, net) else s
    case TimeOut(a, now, net) =>
      if a in s.actors && s.actors[a].TimingOut?
      then Move(s, a, s.actors[a].seen.id, Dispatched, TimedOut, now, net) else s
    case Collect(a, now, net) =>
      if a in s.actors && s.actors[a].Collecting? then Mark(s, a, s.actors[a].seen.id, now, net) else s
    case Exit(a) => Drop(s, a)
  }

  function Run(s: State, es: seq<Event>): State {
    if es == [] then s else Apply(Run(s, es[..|es| - 1]), es[|es| - 1])
  }

  lemma RunSnoc(s: State, es: seq<Event>, e: Event)
    ensures Run(s, es + [e]) == Apply(Run(s, es), e)
  {
    assert (es + [e])[..|es|] == es;
  }

  lemma {:induction false} RunConcat(s: State, es: seq<Event>, fs: seq<Event>)
    ensures Run(s, es + fs) == Run(Run(s, es), fs)
    decreases |fs|
  {
    if fs == [] {
      assert es + fs == es;
    } else {
      var gs := fs[..|fs| - 1];
      RunConcat(s, es, gs);
      assert es + fs == (es + gs) + [fs[|fs| - 1]];
      RunSnoc(s, es + gs, fs[|fs| - 1]);
    }
  }

  // ---- The invariant ------------------------------------------------------------------

  /** What may still change from one version of a row to a later one. */
  predicate Precedes(v: Execution, r: Execution) {
    && v.id == r.id && v.request == r.request
    && (v.status.IsTerminal() ==> r == v.(cleaned := r.cleaned, cleanedAt := r.cleanedAt))
    && (v.cleaned ==> r == v)
  }

  predicate RowOk(r: Execution) {
    && (r.status == Approved || r.status == Dispatched || r.status.Completes())
    && (r.cleaned ==> r.status.IsTerminal())
    && r.status.Text() + "#" <= r.targetStatusKey
    && (r.status == Dispatched ==> r.targetStatusKey == StatusKey(Dispatched, r.dispatchedAt))
  }

  /** An acknowledged claim that was neither passed on nor rolled back. */
  predicate Holds(x: Actor, id: string) {
    (x.Claimed? || x.RollingBack?) && x.written.id == id
  }

  predicate ActorOk(s: State, x: Actor) {
    match x
    case Counting(_, _) => true
    case Admitted(row, _) => NewRow(row, Dispatched)
    case ApiSync(v) => v in s.versions && v.id in s.apiRows
    case ApiAsync(v) => v in s.versions && v.id in s.apiRows
    case Claiming(v) => v in s.versions
    case Claimed(w) => Owned(s, w)
    case RollingBack(w) => Owned(s, w)
    case Working(v) => v in s.versions
    case Polling(v) => v in s.versions && v.request.mode == Async
    case TimingOut(v) => v in s.versions
    case Collecting(v) => v in s.versions && v.status.IsTerminal()
  }

  /** Since the claim wrote w, the row is untouched or has become terminal. */
  predicate Owned(s: State, w: Execution) {
    && w in s.versions && w.status == Dispatched && w.id in s.table
    && (s.table[w.id] == w || s.table[w.id].status.IsTerminal())
  }

  ghost predicate RowsInv(s: State) {
    && (forall id :: id in s.table ==> s.table[id].id == id && s.table[id] in s.versions)
    && (forall v :: v in s.versions ==> v.id in s.table && RowOk(v) && Precedes(v, s.table[v.id]))
    && (forall id :: id in s.apiRows ==> id in s.table)
    && (forall id :: id in s.table && (s.table[id].status == Succeeded || s.table[id].status == Failed)
         ==> s.table[id].request.mode == Async || id in s.apiRows)
  }

  ghost predicate ActorsInv(s: State) {
    && (forall a :: a in s.actors ==> ActorOk(s, s.actors[a]))
    && (forall a, b, id :: a in s.actors && b in s.actors && Holds(s.actors[a], id) && Holds(s.actors[b], id) ==>
          a == b)
  }

  ghost predicate Inv(s: State) {
    RowsInv(s) && ActorsInv(s)
  }

  lemma PrecedesTransitive(u: Execution, v: Execution, r: Execution)
    requires Precedes(u, v) && Precedes(v, r)
    ensures Precedes(u, r)
  {
  }

  lemma DropKeeps(s: State, a: nat)
    requires Inv(s)
    ensures Inv(Drop(s, a))
  {
    hide RowOk;
    hide Precedes;
    hide NewRow;
  }

  lemma AddKeeps(s: State, a: nat, x: Actor)
    requires Inv(s) && a !in s.actors && ActorOk(s, x)
    requires forall b, id :: b in s.actors && Holds(x, id) ==> !Holds(s.actors[b], id)
    ensures Inv(Add(s, a, x))
  {
    hide RowOk;
    hide Precedes;
    hide NewRow;
    var s' := Add(s, a, x);
    assert RowsInv(s') by { hide ActorOk; }
    forall b | b in s'.actors ensures ActorOk(s', s'.actors[b]) {
      assert ActorOk(s, s'.actors[b]);
    }
  }

  /** A later version of an existing row keeps the rows in order. */
  lemma ReplaceKeepsRows(s: State, r: Execution)
    requires RowsInv(s) && r.id in s.table && Precedes(s.table[r.id], r) && RowOk(r)
    requires r.status == Succeeded || r.status == Failed ==> r.request.mode == Async || r.id in s.apiRows
    ensures RowsInv(Wrote(s, r.id, s.table[r.id := r], Delivered))
  {
    hide RowOk;
    var s' := Wrote(s, r.id, s.table[r.id := r], Delivered);
    forall v | v in s'.versions ensures v.id in s'.table && RowOk(v) && Precedes(v, s'.table[v.id]) {
      if v in s.versions && v.id == r.id {
        PrecedesTransitive(v, s.table[r.id], r);
      }
    }
  }

  /** ... and the invocations too, unless someone holds the row's claim. */
  lemma ReplaceKeepsActors(s: State, r: Execution)
    requires Inv(s) && r.id in s.table && Precedes(s.table[r.id], r)
    requires r.status.IsTerminal() || forall b :: b in s.actors ==> !Holds(s.actors[b], r.id)
    ensures ActorsInv(Wrote(s, r.id, s.table[r.id := r], Delivered))
  {
    var s' := Wrote(s, r.id, s.table[r.id := r], Delivered);
    forall a | a in s'.actors ensures ActorOk(s', s'.actors[a]) {
      assert ActorOk(s, s.actors[a]);
    }
  }

  lemma ReplaceKeeps(s: State, r: Execution)
    requires Inv(s) && r.id in s.table && Precedes(s.table[r.id], r) && RowOk(r)
    requires r.status == Succeeded || r.status == Failed ==> r.request.mode == Async || r.id in s.apiRows
    requires r.status.IsTerminal() || forall b :: b in s.actors ==> !Holds(s.actors[b], r.id)
    ensures Inv(Wrote(s, r.id, s.table[r.id := r], Delivered))
  {
    ReplaceKeepsRows(s, r);
    ReplaceKeepsActors(s, r);
  }

  lemma InsertKeeps(s: State, row: Execution, status: Status)
    requires Inv(s) && NewRow(row, status) && (status == Approved || status == Dispatched) && row.id !in s.table
    ensures Inv(Wrote(s, row.id, AfterCreate(s.table, row), Delivered))
  {
    var r := Stored(row);
    var s' := Wrote(s, row.id, AfterCreate(s.table, row), Delivered);
    assert RowOk(r) && Precedes(r, r);
    assert RowsInv(s');
    forall a | a in s'.actors ensures ActorOk(s', s'.actors[a]) {
      assert ActorOk(s, s.actors[a]);
    }
  }

  lemma MoreApiRows(s: State, id: string)
    requires Inv(s) && id in s.table
    ensures Inv(s.(apiRows := s.apiRows + {id}))
  {
    var s' := s.(apiRows := s.apiRows + {id});
    forall a | a in s'.actors ensures ActorOk(s', s'.actors[a]) {
      assert ActorOk(s, s.actors[a]);
    }
  }

  lemma CreatedKeeps(s: State, a: nat, net: Net)
    requires Inv(s) && a in s.actors && s.actors[a].Admitted? && NewRow(s.actors[a].row, Dispatched)
    ensures Inv(Created(s, a, net))
  {
    var row := s.actors[a].row;
    var d := Drop(s, a);
    DropKeeps(s, a);
    if row.id !in s.table && net != Dropped {
      InsertKeeps(d, row, Dispatched);
      var s' := Wrote(d, row.id, AfterCreate(s.table, row), net);
      MoreApiRows(s', row.id);
      var s'' := s'.(apiRows := s.apiRows + {row.id});
      if net != ReplyLost {
        AddKeeps(s'', a, if row.request.mode == Sync then ApiSync(Stored(row)) else ApiAsync(Stored(row)));
      }
    }
  }

  /** No claim is held on a row that is approved. */
  lemma ApprovedIsUnclaimed(s: State, id: string)
    requires Inv(s) && Has(s.table, id, Approved)
    ensures forall b :: b in s.actors ==> !Holds(s.actors[b], id)
  {
    forall b | b in s.actors ensures !Holds(s.actors[b], id) {
      assert ActorOk(s, s.actors[b]);
    }
  }

  lemma MovedRowOk(r: Execution, to: Status, now: string)
    requires RowOk(r) && !r.status.IsTerminal() && (to == Approved || to == Dispatched || to.Completes())
    ensures RowOk(Moved(r, to, now)) && Precedes(r, Moved(r, to, now))
    ensures forall u :: !Overlaps(to, u) ==>
              RowOk(Updated(Moved(r, to, now), u)) && Precedes(r, Updated(Moved(r, to, now), u))
  {
  }

  lemma RowFacts(s: State, id: string)
    requires Inv(s) && id in s.table
    ensures s.table[id].id == id && RowOk(s.table[id]) && s.table[id] in s.versions
  {
  }

  /** The row an actor acts on moves to a new version once the actor is gone. */
  lemma ReplaceByActor(s: State, a: nat, id: string, r: Execution)
    requires Inv(s) && id in s.table && Precedes(s.table[id], r) && RowOk(r)
    requires r.status == Succeeded || r.status == Failed ==> r.request.mode == Async || r.id in s.apiRows
    requires r.status.IsTerminal() || forall b :: b in Drop(s, a).actors ==> !Holds(s.actors[b], r.id)
    ensures Inv(Wrote(Drop(s, a), id, s.table[id := r], Delivered))
  {
    DropKeeps(s, a);
    RowFacts(s, id);
    ReplaceKeeps(Drop(s, a), r);
  }

  lemma MoveKeeps(s: State, a: nat, id: string, from: Status, to: Status, now: string, net: Net)
    requires Inv(s) && !from.IsTerminal() && (to == Approved || to == Dispatched || to == TimedOut)
    requires to.IsTerminal() || !Has(s.table, id, from) || forall b :: b in Drop(s, a).actors ==>
               !Holds(s.actors[b], id)
    ensures Inv(Move(s, a, id, from, to, now, net))
  {
    hide StatusKey;
    hide Inv;
    DropKeeps(s, a);
    if net != Dropped && Has(s.table, id, from) {
      RowFacts(s, id);
      MovedRowOk(s.table[id], to, now);
      ReplaceByActor(s, a, id, Moved(s.table[id], to, now));
    }
  }

  lemma ClaimKeeps(s: State, a: nat, id: string, now: string, net: Net)
    requires Inv(s) && a in s.actors
    ensures Inv(ClaimStep(s, a, id, now, net))
  {
    if Has(s.table, id, Approved) {
      ApprovedIsUnclaimed(s, id);
    }
    MoveKeeps(s, a, id, Approved, Dispatched, now, net);
    if net == Delivered && Has(s.table, id, Approved) {
      ClaimedIsOwned(s, a, id, now);
    }
  }

  lemma ClaimedIsOwned(s: State, a: nat, id: string, now: string)
    requires Inv(s) && a in s.actors && Has(s.table, id, Approved)
    requires Inv(Move(s, a, id, Approved, Dispatched, now, Delivered))
    ensures Inv(ClaimStep(s, a, id, now, Delivered))
  {
    hide StatusKey;
    var s' := Move(s, a, id, Approved, Dispatched, now, Delivered);
    ApprovedIsUnclaimed(s, id);
    RowFacts(s, id);
    hide RowsInv;
    hide RowOk;
    assert Owned(s', s'.table[id]);
    AddKeeps(s', a, Claimed(s'.table[id]));
  }

  /** A rollback touches the row only if it is still what the claim wrote. */
  lemma RollbackKeeps(s: State, a: nat, now: string, net: Net)
    requires Inv(s) && a in s.actors && s.actors[a].RollingBack?
    ensures Inv(Move(s, a, s.actors[a].written.id, Dispatched, Approved, now, net))
  {
    assert forall b :: b in Drop(s, a).actors ==> !Holds(s.actors[b], s.actors[a].written.id);
    MoveKeeps(s, a, s.actors[a].written.id, Dispatched, Approved, now, net);
  }

  lemma CompleteKeeps(s: State, a: nat, id: string, to: Status, now: string, u: Updates, net: Net)
    requires Inv(s) && a in s.actors && to.Completes()
    requires u.completedAt.Some? || id in s.apiRows || (id in s.table && s.table[id].request.mode == Async)
    ensures Inv(MoveWith(s, a, id, to, now, u, net))
  {
    hide StatusKey;
    hide Inv;
    DropKeeps(s, a);
    if net != Dropped && Accepts(s.table, id, Dispatched, to, u) {
      RowFacts(s, id);
      MovedRowOk(s.table[id], to, now);
      ReplaceByActor(s, a, id, Updated(Moved(s.table[id], to, now), u));
    }
  }

  lemma MarkKeeps(s: State, a: nat, now: string, net: Net)
    requires Inv(s) && a in s.actors && s.actors[a].Collecting?
    ensures Inv(Mark(s, a, s.actors[a].seen.id, now, net))
  {
    hide StatusKey;
    var id := s.actors[a].seen.id;
    DropKeeps(s, a);
    assert ActorOk(s, s.actors[a]);
    assert s.table[id].status.IsTerminal();
    if net != Dropped && !s.table[id].cleaned {
      ReplaceKeeps(Drop(s, a), s.table[id].(cleaned := true, cleanedAt := now));
    }
  }

  lemma AdmitKeeps(s: State, a: nat, row: Execution)
    requires Inv(s) && NewRow(row, Dispatched)
    ensures Inv(Add(s, a, Admitted(row, false)))
  {
    hide RowsInv;
    hide NewRow;
    DropKeeps(s, a);
    AddKeeps(Drop(s, a), a, Admitted(row, false));
    assert Add(Drop(s, a), a, Admitted(row, false)).actors == Add(s, a, Admitted(row, false)).actors;
  }

  lemma InvokeKeeps(s: State, a: nat, ok: bool)
    requires Inv(s) && a in s.actors && s.actors[a].Claimed?
    ensures Inv(Apply(s, Invoke(a, ok)))
  {
    hide RowsInv;
    DropKeeps(s, a);
    if !ok {
      var w := s.actors[a].written;
      assert ActorOk(s, s.actors[a]);
      assert forall b :: b in Drop(s, a).actors ==> !Holds(s.actors[b], w.id);
      AddKeeps(Drop(s, a), a, RollingBack(w));
      assert Add(Drop(s, a), a, RollingBack(w)).actors == Add(s, a, RollingBack(w)).actors;
    }
  }

  lemma {:induction false} ApplyKeeps(s: State, e: Event)
    requires Inv(s)
    ensures Inv(Apply(s, e))
  {
    match e
    case Approve(row) =>
      if NewRow(row, Approved) && row.id !in s.table {
        InsertKeeps(s, row, Approved);
      }
    case Create(a, net) =>
      if a in s.actors && s.actors[a].Admitted? && NewRow(s.actors[a].row, Dispatched) {
        CreatedKeeps(s, a, net);
      }
    case Claim(a, now, net) =>
      if a in s.actors && s.actors[a].Claiming? {
        ClaimKeeps(s, a, s.actors[a].seen.id, now, net);
      }
    case Invoke(a, ok) =>
      if a in s.actors && s.actors[a].Claimed? {
        InvokeKeeps(s, a, ok);
      }
    case Rollback(a, now, net) =>
      if a in s.actors && s.actors[a].RollingBack? {
        RollbackKeeps(s, a, now, net);
      }
    case TimeOut(a, now, net) =>
      if a in s.actors && s.actors[a].TimingOut? {
        MoveKeeps(s, a, s.actors[a].seen.id, Dispatched, TimedOut, now, net);
      }
    case Collect(a, now, net) =>
      if a in s.actors && s.actors[a].Collecting? {
        MarkKeeps(s, a, now, net);
      }
    case Exit(a) => DropKeeps(s, a);
    case Finish(_, _, _, _, _) => WriteKeeps(s, e);
    case DispatchFailed(_, _, _, _) => WriteKeeps(s, e);
    case WorkerWrite(_, _, _, _, _) => WriteKeeps(s, e);
    case Poll(_, _, _, _, _) => WriteKeeps(s, e);
    case Read(a, x) =>
      if a !in s.actors && CanRead(s, x) {
        ReadKeeps(s, a, x);
      }
    case Count(a, target) =>
      if a !in s.actors {
        AddKeeps(s, a, Counting(target, |WithStatus(s.table, target, Dispatched)|));
      }
    case Admit(a, row) =>
      if a in s.actors && s.actors[a].Counting? && NewRow(row, Dispatched) {
        AdmitKeeps(s, a, row);
      }
    case Force(a, row) =>
      if a !in s.actors && NewRow(row, Dispatched) {
        AddKeeps(s, a, Admitted(row, true));
      }
  }

  lemma WriteKeeps(s: State, e: Event)
    requires Inv(s) && (e.Finish? || e.DispatchFailed? || e.WorkerWrite? || e.Poll?)
    ensures Inv(Apply(s, e))
  {
    if e.a in s.actors {
      assert ActorOk(s, s.actors[e.a]);
      match s.actors[e.a]
      case ApiSync(v) => if e.Finish? && e.to.Completes() { CompleteKeeps(s, e.a, v.id, e.to, e.now, e.u, e.net); }
      case ApiAsync(v) => if e.DispatchFailed? { CompleteKeeps(s, e.a, v.id, Failed, e.now, e.u, e.net); }
      case Working(v) =>
        if e.WorkerWrite? && e.to.Completes() && e.u.completedAt.Some? {
          CompleteKeeps(s, e.a, v.id, e.to, e.now, e.u, e.net);
        }
      case Polling(v) => if e.Poll? && e.to.Completes() { CompleteKeeps(s, e.a, v.id, e.to, e.now, e.u, e.net); }
      case _ =>
    }
  }

  lemma ReadKeeps(s: State, a: nat, x: Actor)
    requires Inv(s) && a !in s.actors && CanRead(s, x)
    ensures Inv(Add(s, a, x))
  {
    AddKeeps(s, a, x);
  }

  /** Every state reached from a good one by any events is good. */
  lemma {:induction false} RunKeeps(s: State, es: seq<Event>)
    requires Inv(s)
    ensures Inv(Run(s, es))
    decreases |es|
  {
    if es != [] {
      RunKeeps(s, es[..|es| - 1]);
      ApplyKeeps(Run(s, es[..|es| - 1]), es[|es| - 1]);
    }
  }

  lemma Reachable(max: int, es: seq<Event>)
    ensures Inv(Run(Init(max), es))
  {
    RunKeeps(Init(max), es);
  }
}
