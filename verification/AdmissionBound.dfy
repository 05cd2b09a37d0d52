/** How far the active executions of a target can exceed MaxConcurrentPerTarget:
    the count check is two queries, and the create is a third request. */
module AdmissionBound {
  import opened Executions
  import opened ExecutionProtocol
  import opened ExecutionTheorems
  import opened Handover
  import opened Sets
  import opened Remote

  /** A call that is not forced, from its first query to its create. */
  predicate IsCall(x: Actor, target: string) {
    || (x.Counting? && x.target == target)
    || (x.Admitted? && !x.forced && x.row.request.target == target)
  }

  function Calls(s: State, target: string): set<nat> {
    set a | a in s.actors && IsCall(s.actors[a], target)
  }

  /** The calls that may still create a row: those whose first query was answered
      with a number below the limit. */
  function Pending(s: State, target: string): set<nat> {
    set a | a in Calls(s, target) && (s.actors[a].Counting? ==> s.actors[a].dispatched < s.max)
  }

  /** The most calls there were at once. */
  function Peak(s: State, es: seq<Event>, target: string): nat {
    if es == [] then |Calls(s, target)|
    else
      var earlier, now := Peak(s, es[..|es| - 1], target), |Calls(Run(s, es), target)|;
      if now > earlier then now else earlier
  }

  /** The event adds an active row that no count check let in. */
  predicate Unchecked(s: State, e: Event, target: string) {
    match e
    case Approve(row) => row.request.target == target
    case Create(a, _) => a in s.actors && s.actors[a].Admitted? && s.actors[a].forced
      && s.actors[a].row.request.target == target
    case _ => false
  }

  function UncheckedRows(s: State, es: seq<Event>, target: string): nat {
    if es == [] then 0
    else
      UncheckedRows(s, es[..|es| - 1], target)
      + (if Unchecked(Run(s, es[..|es| - 1]), es[|es| - 1], target) then 1 else 0)
  }

  /** What k calls at once can bring in. */
  function Bound(max: int, k: nat): nat {
    if k == 0 || max <= 0 then 0 else max + k - 1
  }

  // ---- One event -----------------------------------------------------------------

  lemma ActiveAfterReplace(s: State, id: string, r: Execution, target: string)
    requires id in s.table && r.request == s.table[id].request
    requires r.status.IsTerminal() || id in Active(s.table, s.table[id].request.target)
    ensures |Active(s.table[id := r], target)| <= |Active(s.table, target)|
  {
    SubsetSize(Active(s.table[id := r], target), Active(s.table, target));
  }

  lemma ActiveAfterPut(t: Table, id: string, r: Execution, target: string)
    requires id !in t
    ensures |Active(t[id := r], target)| <= |Active(t, target)| + (if r.request.target == target then 1 else 0)
  {
    var t' := t[id := r];
    if r.request.target == target {
      assert Active(t', target) <= Active(t, target) + {id};
      SubsetSize(Active(t', target), Active(t, target) + {id});
      AddSize(Active(t, target), id);
    } else {
      assert Active(t', target) <= Active(t, target);
      SubsetSize(Active(t', target), Active(t, target));
    }
  }

  lemma ActiveAfterInsert(t: Table, row: Execution, target: string)
    requires row.id !in t && |row.request.createdAt| >= 10
    ensures |Active(AfterCreate(t, row), target)| <= |Active(t, target)|
              + (if row.request.target == target then 1 else 0)
  {
    hide StatusKey;
    hide Active;
    ActiveAfterPut(t, row.id, Stored(row), target);
  }

  /** The row at id was active and moves on, or is terminal in its new version. */
  ghost predicate Shrinks(t: Table, t': Table, id: string) {
    t' == t ||
    (&& id in t && id in t' && t' == t[id := t'[id]] && t'[id].request == t[id].request
     && (t'[id].status.IsTerminal() || id in Active(t, t[id].request.target)))
  }

  lemma MoveShrinks(s: State, a: nat, id: string, from: Status, to: Status, now: string, net: Net)
    requires from == Approved || from == Dispatched
    ensures Shrinks(s.table, Move(s, a, id, from, to, now, net).table, id)
  {
    hide StatusKey;
  }

  lemma MoveWithShrinks(s: State, a: nat, id: string, to: Status, now: string, u: Updates, net: Net)
    requires to.Completes()
    ensures Shrinks(s.table, MoveWith(s, a, id, to, now, u, net).table, id)
  {
    hide StatusKey;
  }

  lemma MarkShrinks(s: State, a: nat, id: string, now: string, net: Net)
    requires id in s.table && s.table[id].status.IsTerminal()
    ensures Shrinks(s.table, Mark(s, a, id, now, net).table, id)
  {
    hide StatusKey;
  }

  lemma MoveEventShrinks(s: State, e: Event) returns (id: string)
    requires e.Claim? || e.Rollback? || e.TimeOut?
    ensures Shrinks(s.table, Apply(s, e).table, id)
  {
    hide StatusKey;
    hide Shrinks;
    Unchanged(s.table, "");
    id := "";
    match e
    case Claim(a, now, net) =>
      if a in s.actors && s.actors[a].Claiming? {
        id := s.actors[a].seen.id;
        MoveShrinks(s, a, id, Approved, Dispatched, now, net);
      }
    case Rollback(a, now, net) =>
      if a in s.actors && s.actors[a].RollingBack? {
        id := s.actors[a].written.id;
        MoveShrinks(s, a, id, Dispatched, Approved, now, net);
      }
    case TimeOut(a, now, net) =>
      if a in s.actors && s.actors[a].TimingOut? {
        id := s.actors[a].seen.id;
        MoveShrinks(s, a, id, Dispatched, TimedOut, now, net);
      }
  }

  lemma ResultEventShrinks(s: State, e: Event) returns (id: string)
    requires Inv(s) && (e.Finish? || e.Poll? || e.Collect?)
    ensures Shrinks(s.table, Apply(s, e).table, id)
  {
    hide StatusKey;
    hide Shrinks;
    Unchanged(s.table, "");
    id := "";
    match e
    case Finish(a, to, now, u, net) =>
      if a in s.actors && s.actors[a].ApiSync? && to.Completes() && u.completedAt.None? {
        id := s.actors[a].seen.id;
        MoveWithShrinks(s, a, id, to, now, u, net);
      }
    case Poll(a, to, now, u, net) =>
      if a in s.actors && s.actors[a].Polling? && (to == Succeeded || to == Failed) && u.completedAt.None? {
        id := s.actors[a].seen.id;
        MoveWithShrinks(s, a, id, to, now, u, net);
      }
    case Collect(a, now, net) =>
      if a in s.actors && s.actors[a].Collecting? {
        id := s.actors[a].seen.id;
        assert ActorOk(s, s.actors[a]);
        MarkShrinks(s, a, id, now, net);
      }
  }

  lemma NoWrite(s: State, e: Event)
    requires e.Count? || e.Admit? || e.Force? || e.Read? || e.DispatchFailed? || e.Invoke? || e.WorkerWrite? || e.Exit?
    ensures Apply(s, e).table == s.table
  {
    hide WithStatus;
  }

  /** No event but an insertion adds an active row. */
  lemma EventShrinks(s: State, e: Event) returns (id: string)
    requires Inv(s) && !e.Approve? && !e.Create?
    ensures Shrinks(s.table, Apply(s, e).table, id)
  {
    hide Apply;
    hide Inv;
    if e.Claim? || e.Rollback? || e.TimeOut? {
      id := MoveEventShrinks(s, e);
    } else if e.Finish? || e.Poll? || e.Collect? {
      id := ResultEventShrinks(s, e);
    } else {
      NoWrite(s, e);
      id := "";
    }
  }

  lemma Unchanged(t: Table, id: string)
    ensures Shrinks(t, t, id)
  {
  }

  lemma NoNewActive(s: State, e: Event, target: string)
    requires Inv(s) && !e.Approve? && !e.Create?
    ensures |Active(Apply(s, e).table, target)| <= |Active(s.table, target)|
  {
    hide Active;
    hide Apply;
    var id := EventShrinks(s, e);
    var t, t' := s.table, Apply(s, e).table;
    if t' != t {
      ActiveAfterReplace(s, id, t'[id], target);
    }
  }

  // ---- Pending calls -----------------------------------------------------------------

  /** Only a first query adds a pending call, and only when the dispatched rows are
      below the limit. */
  lemma PendingStep(s: State, e: Event, target: string)
    ensures Apply(s, e).max == s.max
    ensures !e.Count? ==>
              && Pending(Apply(s, e), target) <= Pending(s, target)
              && Calls(Apply(s, e), target) <= Calls(s, target)
    ensures e.Count? ==> Pending(Apply(s, e), target) <= Pending(s, target) + {e.a}
    ensures e.Count? ==> Calls(Apply(s, e), target) <= Calls(s, target) + {e.a}
    ensures e.Count? && !(Pending(Apply(s, e), target) <= Pending(s, target)) ==>
              |WithStatus(s.table, target, Dispatched)| < s.max
  {
    hide Apply;
    hide WithStatus;
    LimitStays(s, e);
    var s' := Apply(s, e);
    forall a | a in Calls(s', target)
      ensures a in Calls(s, target) || (e.Count? && a == e.a)
      ensures a in Pending(s', target) ==>
                a in Pending(s, target) || (e.Count? && a == e.a && |WithStatus(s.table, target, Dispatched)| < s.max)
    {
      CallStep(s, e, a, target);
    }
  }

  /** Where a call comes from. */
  lemma CallStep(s: State, e: Event, a: nat, target: string)
    requires a in Calls(Apply(s, e), target)
    ensures || (a in s.actors && s.actors[a] == Apply(s, e).actors[a])
            || (e.Admit? && a == e.a && a in Pending(s, target))
            || (e.Count? && a == e.a && Apply(s, e).actors[a]
                  == Counting(target, |WithStatus(s.table, target, Dispatched)|))
  {
    hide StatusKey;
    hide WithStatus;
    hide AfterTransition;
    hide AfterTransitionWith;
    hide AfterMark;
    hide NewRow;
  }

  /** A create uses up its call's admission. */
  lemma CreateUsesAdmission(s: State, a: nat, net: Net, target: string)
    requires a in Pending(s, target)
    ensures a !in Pending(Apply(s, Create(a, net)), target) || Apply(s, Create(a, net)) == s
  {
    hide StatusKey;
  }

  /** Active rows and pending calls together, after one event: a first query below
      the limit adds one, a row no check let in adds one, nothing else adds. */
  lemma TotalStep(s: State, e: Event, target: string)
    requires Inv(s)
    ensures var total, total' := |Active(s.table, target)| + |Pending(s, target)|,
                                 |Active(Apply(s, e).table, target)| + |Pending(Apply(s, e), target)|;
            || total' <= total + (if Unchecked(s, e, target) then 1 else 0)
            || (&& |WithStatus(s.table, target, Dispatched)| < s.max
                  && |Active(Apply(s, e).table, target)| <= |Active(s.table, target)|
                && !(Pending(Apply(s, e), target) <= Pending(s, target)))
  {
    hide StatusKey;
    hide Active;
    hide WithStatus;
    hide Apply;
    hide Pending;
    PendingStep(s, e, target);
    if e.Create? {
      CreateTotal(s, e.a, e.net, target);
    } else if e.Approve? {
      ApproveTotal(s, e.row, target);
    } else {
      NoNewActive(s, e, target);
      if Pending(Apply(s, e), target) <= Pending(s, target) {
        SubsetSize(Pending(Apply(s, e), target), Pending(s, target));
      }
    }
  }

  lemma ApproveTotal(s: State, row: Execution, target: string)
    ensures |Active(Apply(s, Approve(row)).table, target)|
            <= |Active(s.table, target)| + (if row.request.target == target then 1 else 0)
    ensures |Pending(Apply(s, Approve(row)), target)| <= |Pending(s, target)|
  {
    hide StatusKey;
    hide Active;
    PendingStep(s, Approve(row), target);
    SubsetSize(Pending(Apply(s, Approve(row)), target), Pending(s, target));
    if NewRow(row, Approved) && row.id !in s.table {
      ActiveAfterInsert(s.table, row, target);
    }
  }

  lemma CreateActive(s: State, a: nat, net: Net, target: string)
    ensures var t' := Apply(s, Create(a, net)).table;
            if a in s.actors && s.actors[a].Admitted? && s.actors[a].row.request.target == target && t' != s.table
            then |Active(t', target)| <= |Active(s.table, target)| + 1
            else |Active(t', target)| <= |Active(s.table, target)|
  {
    hide StatusKey;
    hide Active;
    if a in s.actors && s.actors[a].Admitted? && NewRow(s.actors[a].row, Dispatched) && s.actors[a].row.id !in s.table {
      ActiveAfterInsert(s.table, s.actors[a].row, target);
    }
  }

  lemma CreateTotal(s: State, a: nat, net: Net, target: string)
    ensures var e := Create(a, net);
            |Active(Apply(s, e).table, target)| + |Pending(Apply(s, e), target)|
            <= |Active(s.table, target)| + |Pending(s, target)| + (if Unchecked(s, e, target) then 1 else 0)
  {
    hide Active;
    hide Apply;
    var e := Create(a, net);
    PendingStep(s, e, target);
    SubsetSize(Pending(Apply(s, e), target), Pending(s, target));
    CreateActive(s, a, net, target);
    if a in Pending(s, target) && Apply(s, e) != s {
      CreateUsesAdmission(s, a, net, target);
      RemoveSize(Pending(s, target), a);
      SubsetSize(Pending(Apply(s, e), target), Pending(s, target) - {a});
    }
  }

  // ---- What a count can miss ----------------------------------------------------------

  /** The rows of the target that did not come through the API. */
  function Approvals(s: State, target: string): set<string> {
    set id | id in s.table && id !in s.apiRows && s.table[id].request.target == target
  }

  /** Only approvals and creates add rows, and a created row came through the API. */
  lemma NewRows(s: State, e: Event, id: string)
    requires Inv(s) && id !in s.table && id in Apply(s, e).table && id !in Apply(s, e).apiRows
    ensures e.Approve? && e.row.id == id && Apply(s, e).table[id].request.target == e.row.request.target
  {
    hide Inv;
    if !e.Approve? && !e.Create? {
      var changed := EventShrinks(s, e);
    } else {
      hide StatusKey;
    }
  }

  lemma ApprovalsStep(s: State, e: Event, target: string)
    requires Inv(s)
    ensures Approvals(Apply(s, e), target) <=
            Approvals(s, target) + (if e.Approve? && e.row.request.target == target then {e.row.id} else {})
  {
    hide Apply;
    var s' := Apply(s, e);
    VersionsGrow(s, e);
    ApplyKeeps(s, e);
    forall id | id in Approvals(s', target)
      ensures id in Approvals(s, target) || (e.Approve? && e.row.request.target == target && e.row.id == id)
    {
      if id in s.table {
        RowPersists(s, e, id);
        assert s.table[id] in s'.versions;
        assert Precedes(s.table[id], s'.table[id]);
      } else {
        NewRows(s, e, id);
      }
    }
  }

  /** The approved rows, and all that were once approved, are no more than the rows no
      check let in: rows created through the API are never approved. */
  lemma {:induction false} ApprovedAreUnchecked(max: int, es: seq<Event>, target: string)
    ensures |Approvals(Run(Init(max), es), target)| <= UncheckedRows(Init(max), es, target)
    ensures WithStatus(Run(Init(max), es).table, target, Approved) <= Approvals(Run(Init(max), es), target)
    ensures |WithStatus(Run(Init(max), es).table, target, Approved)| <= UncheckedRows(Init(max), es, target)
    decreases |es|
  {
    hide Apply;
    var s := Run(Init(max), es);
    if es != [] {
      var before, e := es[..|es| - 1], es[|es| - 1];
      ApprovedAreUnchecked(max, before, target);
      Reachable(max, before);
      ApprovalsStep(Run(Init(max), before), e, target);
      var more := if e.Approve? && e.row.request.target == target then {e.row.id} else {};
      SubsetSize(Approvals(s, target), Approvals(Run(Init(max), before), target) + more);
    } else {
      assert Approvals(s, target) == {};
    }
    forall id | id in WithStatus(s.table, target, Approved) ensures id in Approvals(s, target) {
      if id in s.apiRows {
        ApiRowsAreSettled(max, es, id);
      }
    }
    SubsetSize(WithStatus(s.table, target, Approved), Approvals(s, target));
  }

  // ---- How far a count is off -----------------------------------------------------------

  /** An approved row of the target appears: by approval or by a rollback. */
  predicate Enters(s: State, e: Event, target: string) {
    match e
    case Approve(row) => NewRow(row, Approved) && row.id !in s.table && row.request.target == target
    case Rollback(a, _, net) =>
      && a in s.actors && s.actors[a].RollingBack? && net != Dropped
      && Has(s.table, s.actors[a].written.id, Dispatched) && s.table[s.actors[a].written.id].request.target == target
    case _ => false
  }

  /** An approved row of the target is claimed. */
  predicate Leaves(s: State, e: Event, target: string) {
    && e.Claim? && e.a in s.actors && s.actors[e.a].Claiming? && e.net != Dropped
    && Has(s.table, s.actors[e.a].seen.id, Approved) && s.table[s.actors[e.a].seen.id].request.target == target
  }

  function Entered(s: State, es: seq<Event>, target: string): nat {
    if es == [] then 0
    else Entered(s, es[..|es| - 1], target) + (if Enters(Run(s, es[..|es| - 1]), es[|es| - 1], target) then 1 else 0)
  }

  function Claimed(s: State, es: seq<Event>, target: string): nat {
    if es == [] then 0
    else Claimed(s, es[..|es| - 1], target) + (if Leaves(Run(s, es[..|es| - 1]), es[|es| - 1], target) then 1 else 0)
  }

  /** One row moves. */
  lemma ApprovedAfterReplace(t: Table, id: string, r: Execution, target: string)
    requires id in t ==> r.request == t[id].request
    ensures var before, after := WithStatus(t, target, Approved), WithStatus(t[id := r], target, Approved);
            && (r.status == Approved && r.request.target == target ==> after == before + {id})
            && (r.status != Approved || r.request.target != target ==> after == before - {id})
  {
  }

  lemma ApproveStep(s: State, row: Execution, target: string)
    ensures var e := Approve(row);
            |WithStatus(Apply(s, e).table, target, Approved)|
            == |WithStatus(s.table, target, Approved)| + (if Enters(s, e, target) then 1 else 0)
  {
    hide StatusKey;
    if NewRow(row, Approved) && row.id !in s.table {
      assert Apply(s, Approve(row)).table == s.table[row.id := Stored(row)];
      ApprovedAfterReplace(s.table, row.id, Stored(row), target);
    }
  }

  lemma ClaimTable(s: State, e: Event)
    requires e.Claim? && e.a in s.actors && s.actors[e.a].Claiming?
    ensures var id, t' := s.actors[e.a].seen.id, Apply(s, e).table;
            t' == if e.net != Dropped && Has(s.table, id, Approved)
              then s.table[id := Moved(s.table[id], Dispatched, e.now)] else s.table
  {
    hide StatusKey;
  }

  lemma ClaimMoves(s: State, e: Event, target: string)
    requires e.Claim?
    ensures |WithStatus(Apply(s, e).table, target, Approved)|
            == |WithStatus(s.table, target, Approved)| - (if Leaves(s, e, target) then 1 else 0)
  {
    if e.a in s.actors && s.actors[e.a].Claiming? {
      ClaimTable(s, e);
      hide Apply;
      hide StatusKey;
      var id := s.actors[e.a].seen.id;
      if e.net != Dropped && Has(s.table, id, Approved) {
        ApprovedAfterReplace(s.table, id, Moved(s.table[id], Dispatched, e.now), target);
        assert id in WithStatus(s.table, target, Approved) <==> Leaves(s, e, target);
      }
    }
  }

  lemma RollbackMoves(s: State, e: Event, target: string)
    requires e.Rollback?
    ensures |WithStatus(Apply(s, e).table, target, Approved)|
            == |WithStatus(s.table, target, Approved)| + (if Enters(s, e, target) then 1 else 0)
  {
    hide StatusKey;
    if e.a in s.actors && s.actors[e.a].RollingBack? && e.net != Dropped
      && Has(s.table, s.actors[e.a].written.id, Dispatched) {
      var id := s.actors[e.a].written.id;
      ApprovedAfterReplace(s.table, id, Moved(s.table[id], Approved, e.now), target);
      assert Apply(s, e).table == s.table[id := Moved(s.table[id], Approved, e.now)];
      assert id !in WithStatus(s.table, target, Approved);
    }
  }

  /** Results, timeouts and collections concern rows that are not approved. */
  lemma OthersLeaveApproved(s: State, e: Event, target: string)
    requires Inv(s) && !e.Approve? && !e.Claim? && !e.Rollback?
    ensures WithStatus(Apply(s, e).table, target, Approved) == WithStatus(s.table, target, Approved)
  {
    hide Apply;
    hide Inv;
    var t, t' := s.table, Apply(s, e).table;
    if e.Collect? && e.a in s.actors && s.actors[e.a].Collecting? {
      CollectedIsTerminal(s, e.a);
    }
    forall id
      ensures Has(t', id, Approved) ==> Has(t, id, Approved) && t'[id].request == t[id].request
      ensures Has(t, id, Approved) ==> id in t' && t'[id] == t[id]
    {
      KeepsApproved(s, e, id);
    }
  }

  lemma KeepsApproved(s: State, e: Event, id: string)
    requires !e.Approve? && !e.Claim? && !e.Rollback?
    requires e.Collect? && e.a in s.actors && s.actors[e.a].Collecting? ==>
               s.actors[e.a].seen.id in s.table && s.table[s.actors[e.a].seen.id].status.IsTerminal()
    ensures Has(Apply(s, e).table, id, Approved) ==>
              Has(s.table, id, Approved) && Apply(s, e).table[id].request == s.table[id].request
    ensures Has(s.table, id, Approved) ==> id in Apply(s, e).table && Apply(s, e).table[id] == s.table[id]
  {
    hide StatusKey;
    hide WithStatus;
  }

  lemma ApprovedStep(s: State, e: Event, target: string)
    requires Inv(s)
    ensures |WithStatus(Apply(s, e).table, target, Approved)|
            == |WithStatus(s.table, target, Approved)|
               + (if Enters(s, e, target) then 1 else 0) - (if Leaves(s, e, target) then 1 else 0)
  {
    hide Apply;
    hide Inv;
    hide WithStatus;
    match e
    case Approve(row) => ApproveStep(s, row, target);
    case Claim(_, _, _) => ClaimMoves(s, e, target);
    case Rollback(_, _, _) => RollbackMoves(s, e, target);
    case _ => OthersLeaveApproved(s, e, target);
  }

  lemma {:induction false} ApprovedDrift(s: State, es: seq<Event>, target: string)
    requires Inv(s)
    ensures |WithStatus(Run(s, es).table, target, Approved)|
            == |WithStatus(s.table, target, Approved)| + Entered(s, es, target) - Claimed(s, es, target)
    decreases |es|
  {
    hide Apply;
    hide Inv;
    hide WithStatus;
    hide Enters;
    hide Leaves;
    if es != [] {
      ApprovedDrift(s, es[..|es| - 1], target);
      RunKeeps(s, es[..|es| - 1]);
      ApprovedStep(Run(s, es[..|es| - 1]), es[|es| - 1], target);
    }
  }

  /** Whatever happens between the two queries of a count, the total differs from the
      active rows at the first by the rows approved or rolled back in between less
      those claimed; it is exact if and only if these balance. */
  lemma CountDrift(max: int, es: seq<Event>, fs: seq<Event>, target: string)
    ensures var s := Run(Init(max), es);
            var count := TwoQueryCount(s.table, Run(s, fs).table, target);
            && count == |Active(s.table, target)| + Entered(s, fs, target) - Claimed(s, fs, target)
            && (count == |Active(s.table, target)| <==> Entered(s, fs, target) == Claimed(s, fs, target))
  {
    hide WithStatus;
    hide Active;
    hide Run;
    Reachable(max, es);
    ApprovedDrift(Run(Init(max), es), fs, target);
    ActiveIsBoth(Run(Init(max), es).table, target);
  }

  // ---- The bound over runs -----------------------------------------------------------

  lemma PeakCovers(s: State, es: seq<Event>, target: string)
    ensures |Calls(Run(s, es), target)| <= Peak(s, es, target)
  {
  }

  lemma PendingAreCalls(s: State, target: string)
    ensures |Pending(s, target)| <= |Calls(s, target)|
  {
    SubsetSize(Pending(s, target), Calls(s, target));
  }

  lemma ActiveIsBoth(t: Table, target: string)
    ensures |Active(t, target)| == |WithStatus(t, target, Dispatched)| + |WithStatus(t, target, Approved)|
  {
    assert WithStatus(t, target, Dispatched) !! WithStatus(t, target, Approved);
  }

  /** With at most k unforced calls between their first query and their create at any
      time, the active rows never exceed the limit by more than k - 1, plus the rows
      that came in by force or by approval. That a count is two queries, and may miss
      any number of claimed rows, does not add to this: the rows it can miss came in
      by approval. */
  lemma {:induction false} ActiveIsBounded(max: int, es: seq<Event>, target: string)
    ensures |Active(Run(Init(max), es).table, target)| + |Pending(Run(Init(max), es), target)|
            <= Bound(max, Peak(Init(max), es, target)) + UncheckedRows(Init(max), es, target)
    ensures Run(Init(max), es).max == max
    decreases |es|
  {
    hide Active;
    hide Pending;
    hide Calls;
    hide WithStatus;
    hide Apply;
    if es == [] {
      NothingAtFirst(max, target);
    } else {
      var before, e := es[..|es| - 1], es[|es| - 1];
      ActiveIsBounded(max, before, target);
      Reachable(max, before);
      var s := Run(Init(max), before);
      TotalStep(s, e, target);
      PendingStep(s, e, target);
      PeakCovers(Init(max), es, target);
      PendingAreCalls(Apply(s, e), target);
      ActiveIsBoth(s.table, target);
      ApprovedAreUnchecked(max, before, target);
      PendingAreCalls(s, target);
      PeakCovers(Init(max), before, target);
      NoPendingBelow(s, e, target);
    }
  }

  /** A first query that adds a pending call leaves at least one call. */
  lemma NoPendingBelow(s: State, e: Event, target: string)
    ensures !(Pending(Apply(s, e), target) <= Pending(s, target)) ==> |Calls(Apply(s, e), target)| > 0
    ensures Pending(Apply(s, e), target) <= Pending(s, target) ==>
              |Pending(Apply(s, e), target)| <= |Pending(s, target)|
  {
    hide Apply;
    if Pending(Apply(s, e), target) <= Pending(s, target) {
      SubsetSize(Pending(Apply(s, e), target), Pending(s, target));
    } else {
      var a :| a in Pending(Apply(s, e), target) && a !in Pending(s, target);
      assert a in Calls(Apply(s, e), target);
    }
  }

  lemma NothingAtFirst(max: int, target: string)
    ensures Active(Init(max).table, target) == {} && Pending(Init(max), target) == {}
    ensures Calls(Init(max), target) == {}
  {
  }

  /** Without forced or approved rows: the limit plus k - 1. */
  lemma AtMostKOver(max: int, es: seq<Event>, target: string, k: nat)
    requires 0 < k && 0 < max && Peak(Init(max), es, target) <= k && UncheckedRows(Init(max), es, target) == 0
    ensures |Active(Run(Init(max), es).table, target)| <= max + k - 1
  {
    ActiveIsBounded(max, es, target);
  }

  // ---- The bound is reached ---------------------------------------------------------

  function Name(n: nat): string {
    seq(n, i => 'x')
  }

  function Names(n: nat): set<string> {
    set i | 0 <= i < n :: Name(i)
  }

  function NewCall(target: string, n: nat): (row: Execution)
    ensures NewRow(row, Dispatched) && row.id == Name(n)
  {
    var stamp := "2026-01-01T00:00:00Z";
    Execution(Name(n), Request("", target, Sync, false, map[], 0, stamp, ""),
              Dispatched, "", stamp, "", Metadata(0, 0, 0, ""), false, "", "")
  }

  ghost predicate RowsShape(t: Table, target: string, n: nat) {
    && t.Keys == Names(n)
    && (forall id :: id in t ==> t[id].request.target == target && t[id].status == Dispatched)
  }

  ghost predicate CallsShape(actors: map<nat, Actor>, target: string, n: nat, m: nat) {
    && (forall a :: a in actors <==> 0 <= a < n + m)
    && (forall a :: 0 <= a < n ==> actors[a].ApiSync?)
    && (forall a :: n <= a < n + m ==> actors[a] == Admitted(NewCall(target, a), false))
  }

  /** n rows created, m calls pending, nothing else going on for the target. */
  ghost predicate Shape(s: State, target: string, n: nat, m: nat) {
    RowsShape(s.table, target, n) && CallsShape(s.actors, target, n, m)
  }

  lemma {:induction false} NamesCount(n: nat)
    ensures |Names(n)| == n && Name(n) !in Names(n)
    decreases n
  {
    assert forall i :: 0 <= i <= n ==> |Name(i)| == i;
    if n > 0 {
      NamesCount(n - 1);
      assert Names(n) == Names(n - 1) + {Name(n - 1)};
    }
  }

  lemma {:induction false} RangeCount(n: nat, m: nat, numbers: set<nat>)
    requires forall a :: a in numbers <==> n <= a < n + m
    ensures |numbers| == m
    decreases m
  {
    if m == 0 {
      assert numbers == {};
    } else {
      RangeCount(n, m - 1, numbers - {n + m - 1});
    }
  }

  lemma ShapeCounts(s: State, target: string, n: nat, m: nat)
    requires Shape(s, target, n, m)
    ensures |Active(s.table, target)| == n && |Calls(s, target)| == m
    ensures |WithStatus(s.table, target, Dispatched)| == n && WithStatus(s.table, target, Approved) == {}
  {
    assert Active(s.table, target) == s.table.Keys == WithStatus(s.table, target, Dispatched);
    NamesCount(n);
    RangeCount(n, m, Calls(s, target));
  }

  /** The check of a call: both its queries. */
  function Check(target: string, n: nat): seq<Event> {
    [Count(n, target)] + [Admit(n, NewCall(target, n))]
  }

  lemma CountFresh(s: State, target: string, a: nat)
    requires a !in s.actors
    ensures Apply(s, Count(a, target)) == Add(s, a, Counting(target, |WithStatus(s.table, target, Dispatched)|))
  {
    hide WithStatus;
  }

  lemma AdmitFresh(s: State, a: nat, row: Execution, target: string)
    requires a in s.actors && s.actors[a].Counting? && s.actors[a].target == target == row.request.target
               && NewRow(row, Dispatched)
    requires s.actors[a].dispatched + |WithStatus(s.table, target, Approved)| < s.max
    ensures Apply(s, Admit(a, row)) == Add(s, a, Admitted(row, false))
  {
    hide WithStatus;
    hide NewRow;
  }

  lemma OneMoreCall(s: State, target: string, a: nat, n: nat)
    ensures Calls(Add(s, a, Counting(target, n)), target) == Calls(s, target) + {a}
  {
  }

  lemma NextIsFree(s: State, target: string, n: nat, m: nat)
    requires Shape(s, target, n, m)
    ensures n + m !in s.actors
  {
    hide NewCall;
    hide RowsShape;
  }

  lemma AddTwice(s: State, a: nat, x: Actor, y: Actor)
    ensures Add(Add(s, a, x), a, y) == Add(s, a, y)
  {
    assert s.actors[a := x][a := y] == s.actors[a := y];
  }

  lemma CheckFresh(s: State, target: string, n: nat, m: nat)
    requires Shape(s, target, n, m) && n < s.max
    ensures var s1 := Apply(s, Count(n + m, target));
            && Apply(s1, Admit(n + m, NewCall(target, n + m))) == Add(s, n + m, Admitted(NewCall(target, n + m), false))
            && Calls(s1, target) == Calls(s, target) + {n + m}
  {
    var row, a := NewCall(target, n + m), n + m;
    hide Shape;
    hide WithStatus;
    hide Apply;
    hide Active;
    hide Calls;
    hide Add;
    CallsTarget(target, a);
    ShapeCounts(s, target, n, m);
    NextIsFree(s, target, n, m);
    hide NewCall;
    CountFresh(s, target, a);
    OneMoreCall(s, target, a, n);
    AddTwice(s, a, Counting(target, n), Admitted(row, false));
    CountedIsThere(s, target, a, n);
    AdmitFresh(Add(s, a, Counting(target, n)), a, row, target);
  }

  lemma CountedIsThere(s: State, target: string, a: nat, n: nat)
    ensures var s1 := Add(s, a, Counting(target, n));
            a in s1.actors && s1.actors[a] == Counting(target, n) && s1.max == s.max && s1.table == s.table
  {
  }

  lemma OneMorePending(s: State, target: string, n: nat, m: nat)
    requires Shape(s, target, n, m)
    ensures Shape(Add(s, n + m, Admitted(NewCall(target, n + m), false)), target, n, m + 1)
  {
    hide NewCall;
    hide Names;
  }

  lemma CallsTarget(target: string, n: nat)
    ensures NewCall(target, n).request.target == target && NewCall(target, n).request.mode == Sync
  {
  }

  /** What creating a fresh pending call does. */
  lemma CreateFresh(s: State, a: nat)
    requires a in s.actors && s.actors[a].Admitted? && NewRow(s.actors[a].row, Dispatched)
    requires s.actors[a].row.id !in s.table && s.actors[a].row.request.mode == Sync
    ensures var row, s' := s.actors[a].row, Apply(s, Create(a, Delivered));
            && s'.table == s.table[row.id := Stored(row)]
            && s'.actors.Keys == s.actors.Keys && s'.actors[a].ApiSync?
            && (forall b :: b in s.actors && b != a ==> s'.actors[b] == s.actors[b])
  {
    hide StatusKey;
  }

  lemma OneMoreRow(t: Table, target: string, n: nat, r: Execution)
    requires RowsShape(t, target, n) && r.request.target == target && r.status == Dispatched
    ensures RowsShape(t[Name(n) := r], target, n + 1)
  {
    hide Name;
    NamesCount(n);
    assert Names(n + 1) == Names(n) + {Name(n)};
  }

  lemma OneMoreRunning(actors: map<nat, Actor>, actors': map<nat, Actor>, target: string, n: nat, m: nat)
    requires CallsShape(actors, target, n, m) && m > 0
    requires actors'.Keys == actors.Keys && actors'[n].ApiSync?
    requires forall b :: b in actors && b != n ==> actors'[b] == actors[b]
    ensures CallsShape(actors', target, n + 1, m - 1)
  {
    hide NewCall;
  }

  lemma CreateShape(s: State, target: string, n: nat, m: nat)
    requires Shape(s, target, n, m) && m > 0
    ensures Shape(Apply(s, Create(n, Delivered)), target, n + 1, m - 1)
  {
    hide StatusKey;
    hide NewCall;
    hide Apply;
    hide Names;
    NamesCount(n);
    CallsTarget(target, n);
    CreateFresh(s, n);
    OneMoreRow(s.table, target, n, Stored(NewCall(target, n)));
    OneMoreRunning(s.actors, Apply(s, Create(n, Delivered)).actors, target, n, m);
  }

  /** n calls one after another, each created before the next is admitted. */
  function OneByOne(target: string, n: nat): seq<Event> {
    if n == 0 then []
    else OneByOne(target, n - 1) + Check(target, n - 1) + [Create(n - 1, Delivered)]
  }

  /** m more calls, all admitted before the first is created. */
  function Together(target: string, n: nat, m: nat): seq<Event> {
    if m == 0 then [] else Together(target, n, m - 1) + Check(target, n + m - 1)
  }

  function Creates(n: nat, m: nat): seq<Event> {
    if m == 0 then [] else Creates(n, m - 1) + [Create(n + m - 1, Delivered)]
  }

  /** A run so far: its shape, and that it kept within k and used no force. */
  ghost predicate Reaches(es: seq<Event>, max: int, target: string, k: nat, n: nat, m: nat) {
    && Shape(Run(Init(max), es), target, n, m) && Run(Init(max), es).max == max
    && Peak(Init(max), es, target) <= k && UncheckedRows(Init(max), es, target) == 0
  }

  lemma ReachAdmit(es: seq<Event>, max: int, target: string, k: nat, n: nat, m: nat)
    requires Reaches(es, max, target, k, n, m) && n < max && m < k
    ensures Reaches(es + Check(target, n + m), max, target, k, n, m + 1)
  {
    hide Shape;
    hide Apply;
    hide NewCall;
    hide Calls;
    var s, count, admit := Run(Init(max), es), Count(n + m, target), Admit(n + m, NewCall(target, n + m));
    RunSnoc(Init(max), es, count);
    RunSnoc(Init(max), es + [count], admit);
    CheckFresh(s, target, n, m);
    ShapeCounts(s, target, n, m);
    var s1, s2 := Apply(s, count), Add(s, n + m, Admitted(NewCall(target, n + m), false));
    PeakCovers(Init(max), es, target);
    OneMorePending(s, target, n, m);
    ShapeCounts(s2, target, n, m + 1);
    AddSize(Calls(s, target), n + m);
    assert (es + [count])[..|es|] == es;
    assert (es + [count] + [admit])[..|es + [count]|] == es + [count];
    assert es + Check(target, n + m) == es + [count] + [admit];
    assert Run(Init(max), es + [count]) == s1;
    assert Run(Init(max), es + [count] + [admit]) == s2;
    assert Peak(Init(max), es + [count], target) <= k;
    assert Peak(Init(max), es + [count] + [admit], target) <= k;
    assert UncheckedRows(Init(max), es + [count], target) == 0;
    assert UncheckedRows(Init(max), es + [count] + [admit], target) == 0;
  }

  lemma NotForced(s: State, target: string, n: nat, m: nat)
    requires Shape(s, target, n, m) && m > 0
    ensures !Unchecked(s, Create(n, Delivered), target)
  {
    hide NewCall;
    hide RowsShape;
  }

  lemma ReachCreate(es: seq<Event>, max: int, target: string, k: nat, n: nat, m: nat)
    requires Reaches(es, max, target, k, n, m) && m > 0
    ensures Reaches(es + [Create(n, Delivered)], max, target, k, n + 1, m - 1)
  {
    hide Apply;
    hide Active;
    hide Shape;
    hide Calls;
    hide Pending;
    hide Unchecked;
    var s, e := Run(Init(max), es), Create(n, Delivered);
    RunSnoc(Init(max), es, e);
    ShapeCounts(s, target, n, m);
    CreateShape(s, target, n, m);
    ShapeCounts(Apply(s, e), target, n + 1, m - 1);
    PendingStep(s, e, target);
    PeakCovers(Init(max), es, target);
    NotForced(s, target, n, m);
    assert (es + [e])[..|es|] == es;
  }

  lemma ReachStart(max: int, target: string, k: nat)
    ensures Reaches([], max, target, k, 0, 0)
  {
    NothingAtFirst(max, target);
    assert Names(0) == {};
  }

  lemma {:induction false} OneByOneReaches(max: int, target: string, k: nat, n: nat)
    requires 0 < k && n <= max
    ensures Reaches(OneByOne(target, n), max, target, k, n, 0)
    decreases n
  {
    hide Reaches;
    hide NewCall;
    if n == 0 {
      ReachStart(max, target, k);
    } else {
      OneByOneReaches(max, target, k, n - 1);
      ReachAdmit(OneByOne(target, n - 1), max, target, k, n - 1, 0);
      ReachCreate(OneByOne(target, n - 1) + Check(target, n - 1), max, target, k, n - 1, 1);
    }
  }

  lemma {:induction false} TogetherReaches(max: int, target: string, k: nat, n: nat, m: nat)
    requires 0 < k && m <= k && n < max
    ensures Reaches(OneByOne(target, n) + Together(target, n, m), max, target, k, n, m)
    decreases m
  {
    hide Reaches;
    hide NewCall;
    var es := OneByOne(target, n);
    if m == 0 {
      OneByOneReaches(max, target, k, n);
      assert es + [] == es;
    } else {
      TogetherReaches(max, target, k, n, m - 1);
      ReachAdmit(es + Together(target, n, m - 1), max, target, k, n, m - 1);
      assert es + Together(target, n, m) == es + Together(target, n, m - 1) + Check(target, n + m - 1);
    }
  }

  lemma {:induction false} CreatesReach(es: seq<Event>, max: int, target: string, k: nat, n: nat, m: nat, j: nat)
    requires Reaches(es, max, target, k, n, m) && j <= m
    ensures Reaches(es + Creates(n, j), max, target, k, n + j, m - j)
    decreases j
  {
    hide Reaches;
    if j == 0 {
      assert es + [] == es;
    } else {
      CreatesReach(es, max, target, k, n, m, j - 1);
      ReachCreate(es + Creates(n, j - 1), max, target, k, n + j - 1, m - j + 1);
      assert es + Creates(n, j) == es + Creates(n, j - 1) + [Create(n + j - 1, Delivered)];
    }
  }

  /** No smaller bound holds: fill all places but one, let k calls read the count
      before any of them creates its row. */
  lemma BoundIsReached(max: nat, target: string, k: nat)
    requires 0 < max && 0 < k
    ensures var es := OneByOne(target, max - 1) + Together(target, max - 1, k) + Creates(max - 1, k);
            && Peak(Init(max), es, target) <= k && UncheckedRows(Init(max), es, target) == 0
            && |Active(Run(Init(max), es).table, target)| == max + k - 1
  {
    hide Shape;
    hide Active;
    hide Pending;
    hide Apply;
    var es := OneByOne(target, max - 1) + Together(target, max - 1, k);
    TogetherReaches(max, target, k, max - 1, k);
    CreatesReach(es, max, target, k, max - 1, k, k);
    ShapeCounts(Run(Init(max), es + Creates(max - 1, k)), target, max - 1 + k, 0);
  }
}
