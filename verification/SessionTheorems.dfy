/** Safety of the boundary session lifecycle over all runs. */
module SessionTheorems {
  import opened Lex
  import opened Timestamps
  import opened Sessions
  import opened SessionProtocol
  import opened Wrappers
  import opened Remote

  // ---- Rows only advance -------------------------------------------------------------

  lemma WroteGrows(s: State, id: string, t: Table, net: Net)
    ensures var s' := Wrote(s, id, t, net);
            s.versions <= s'.versions && s'.ecs == s.ecs && s'.stopped == s.stopped && s'.actors == s.actors
  {
  }

  lemma VersionsGrow(s: State, e: Event)
    ensures s.versions <= Apply(s, e).versions && s.ecs == Apply(s, e).ecs && s.stopped <= Apply(s, e).stopped
  {
    hide Fresh;
    hide CanRead;
    hide NewSession;
    hide AfterPut;
    hide AfterUpdate;
    hide AfterAttach;
    hide Wrote;
    forall s0: State, id, t, net
      ensures var s' := Wrote(s0, id, t, net);
                s0.versions <= s'.versions && s'.ecs == s0.ecs && s'.stopped == s0.stopped
    {
      WroteGrows(s0, id, t, net);
    }
  }

  lemma {:induction false} RunVersionsGrow(s: State, es: seq<Event>)
    ensures s.versions <= Run(s, es).versions && s.ecs == Run(s, es).ecs && s.stopped <= Run(s, es).stopped
    decreases |es|
  {
    hide Apply;
    if es != [] {
      RunVersionsGrow(s, es[..|es| - 1]);
      VersionsGrow(Run(s, es[..|es| - 1]), es[|es| - 1]);
    }
  }

  /** No row is lost and no row changes operator, target or deadline; a session
      records at most one task in its life; once terminated or failed a row never
      changes; an active one can only become terminated; exec sessions are only
      appended. */
  lemma RowsOnlyAdvance(ecs: bool, es: seq<Event>, fs: seq<Event>, id: string)
    requires id in Run(Init(ecs), es).table
    ensures var before, after := Run(Init(ecs), es).table, Run(Init(ecs), es + fs).table;
            && id in after && after[id].terms == before[id].terms
            && (before[id].task.arn != "" ==> after[id].task == before[id].task)
            && (before[id].status == Terminated || before[id].status == Failed ==> after[id] == before[id])
            && (before[id].status == Active ==> after[id].status == Active || after[id].status == Terminated)
            && before[id].execSessionIds <= after[id].execSessionIds
  {
    hide Apply;
    hide Run;
    hide RowOk;
    var s, s' := Run(Init(ecs), es), Run(Init(ecs), es + fs);
    RunConcat(Init(ecs), es, fs);
    Reachable(ecs, es);
    Reachable(ecs, es + fs);
    RunVersionsGrow(s, fs);
    assert s.table[id].id == id && s.table[id] in s.versions;
    hide Inv;
    RowFacts(s', s.table[id]);
  }

  predicate OverIn(s: State, id: string) {
    id in s.table && Over(s.table[id].status)
  }

  /** The number of events that end a session. */
  function Endings(s: State, es: seq<Event>, id: string): nat {
    if es == [] then 0
    else
      var before := Run(s, es[..|es| - 1]);
      Endings(s, es[..|es| - 1], id) + (if !OverIn(before, id) && OverIn(Apply(before, es[|es| - 1]), id) then 1 else 0)
  }

  /** Of all the terminates, failed joins and reaper runs that race for a session
      exactly one ends it, or it is not over. */
  lemma {:induction false} OneEnding(ecs: bool, es: seq<Event>, id: string)
    ensures Endings(Init(ecs), es, id) == if OverIn(Run(Init(ecs), es), id) then 1 else 0
    decreases |es|
  {
    hide Apply;
    if es != [] {
      var before, e := es[..|es| - 1], es[|es| - 1];
      assert es == before + [e];
      OneEnding(ecs, before, id);
      RunSnoc(Init(ecs), before, e);
      if id in Run(Init(ecs), before).table {
        RowsOnlyAdvance(ecs, before, [e], id);
      }
    }
  }

  // ---- Stopped tasks -------------------------------------------------------------------

  /** A terminated row with a recorded task: exactly that task of the session was
      stopped, if the operator stopped it or the reaper had a client and knew the
      cluster. */
  lemma TerminatedMeansItsTaskStopped(ecs: bool, es: seq<Event>, id: string)
    requires var t := Run(Init(ecs), es).table; id in t && t[id].status == Terminated && t[id].task.arn != ""
    requires var r := Run(Init(ecs), es).table[id]; r.stopReason == OperatorStop || (ecs && r.task.cluster != "")
    ensures var s := Run(Init(ecs), es);
            forall arn :: arn in s.stopped && arn in s.launched && s.launched[arn].session == id
              <==> arn == s.table[id].task.arn
  {
    hide Apply;
    hide Run;
    var s := Run(Init(ecs), es);
    RunVersionsGrow(Init(ecs), es);
    Reachable(ecs, es);
    OnlyRecordedTasksStopped(ecs, es);
    assert s.table[id].id == id && s.table[id] in s.versions;
    RowFacts(s, s.table[id]);
  }

  /** Only recorded tasks are ever stopped, each for the session it was launched
      for; a session that is creating or failed has had none stopped. */
  lemma OnlyRecordedTasksStopped(ecs: bool, es: seq<Event>)
    ensures var s := Run(Init(ecs), es);
            forall arn :: arn in s.stopped ==>
              && arn in s.launched
              && var id := s.launched[arn].session;
                 id in s.table && s.table[id].task.arn == arn
                 && (s.table[id].status == Active || s.table[id].status == Terminated)
  {
    hide Apply;
    hide Run;
    var s := Run(Init(ecs), es);
    Reachable(ecs, es);
    forall arn | arn in s.stopped
      ensures arn in s.launched && Records(s, s.launched[arn].session, arn)
      ensures var id := s.launched[arn].session; s.table[id].status == Active || s.table[id].status == Terminated
    {
      var id := s.launched[arn].session;
      assert arn != "" && Records(s, id, arn);
      RowFacts(s, s.table[id]);
    }
  }

  lemma RunOne(s: State, e: Event)
    ensures Run(s, [e]) == Apply(s, e)
  {
    assert [] + [e] == [e];
    RunSnoc(s, [], e);
  }

  lemma RunThree(s: State, e: Event, f: Event, g: Event)
    ensures Run(s, [e, f, g]) == Apply(Apply(Apply(s, e), f), g)
  {
    hide Apply;
    assert [e, f, g] == [e] + [f] + [g];
    RunSnoc(s, [e] + [f], g);
    RunSnoc(s, [e], f);
    RunOne(s, e);
  }

  lemma ReaperSteps(s: State, a: nat, v: Session, reason: StopReason, now: string, fate: Net)
    requires a !in s.actors && v in s.versions && v.status == Active && IsReaperReason(reason) && !ReaperStops(s, v)
    ensures var s2 := Apply(Apply(s, Read(a, Reaping(v, reason))), Stop(a, fate));
            s2 == Add(s, a, ReaperStopped(v, reason)) &&
            Apply(s2, Terminate(a, now, Delivered))
              == Move(Add(s, a, ReaperStopped(v, reason)), a, v.id, Active, Terminated, now, Because(reason), Delivered)
  {
    hide Move;
    var s1 := Apply(s, Read(a, Reaping(v, reason)));
    assert s1 == Add(s, a, Reaping(v, reason));
    assert Apply(s1, Stop(a, fate)).actors == Add(s, a, ReaperStopped(v, reason)).actors;
  }

  /** Without a client or a cluster the reaper terminates the session and leaves
      its task running, so the condition above is needed. */
  lemma SkippedStop(s: State, id: string, a: nat, reason: StopReason, now: string, fate: Net)
    requires Inv(s) && a !in s.actors && id in s.table && s.table[id].status == Active && IsReaperReason(reason)
    requires !(s.ecs && s.table[id].task.cluster != "") && s.table[id].task.arn !in s.stopped
    ensures var s' := Run(s, [Read(a, Reaping(s.table[id], reason)), Stop(a, fate), Terminate(a, now, Delivered)]);
            && id in s'.table && s'.table[id].status == Terminated && s'.table[id].task == s.table[id].task
            && s'.table[id].task.arn != "" && s'.table[id].task.arn !in s'.stopped
  {
    hide Run;
    hide Apply;
    hide StatusKey;
    var v := s.table[id];
    assert v.id == id && v in s.versions;
    RowFacts(s, v);
    hide Inv;
    hide RowOk;
    assert v.task.arn != "" by { ActiveHasTask(s, v); }
    RunThree(s, Read(a, Reaping(v, reason)), Stop(a, fate), Terminate(a, now, Delivered));
    ReaperSteps(s, a, v, reason, now, fate);
  }

  /** An operator's request to stop the task is carried out. */
  predicate OperatorStops(s: State, e: Event, arn: string) {
    && e.Stop? && e.a in s.actors && s.actors[e.a].Terminating?
    && s.actors[e.a].seen.task.arn == arn && arn != "" && e.fate != Dropped
  }

  predicate ReaperStopsTask(s: State, e: Event, arn: string) {
    && e.Stop? && e.a in s.actors && s.actors[e.a].Reaping?
    && s.actors[e.a].seen.task.arn == arn && ReaperStops(s, s.actors[e.a].seen) && e.fate != Dropped
  }

  lemma StoppedExactly(s: State, e: Event, arn: string)
    ensures arn in Apply(s, e).stopped <==> arn in s.stopped || OperatorStops(s, e, arn) || ReaperStopsTask(s, e, arn)
  {
    hide AfterPut;
    hide AfterUpdate;
    hide AfterAttach;
    hide NewSession;
    hide CanRead;
    hide Fresh;
    hide Wrote;
    forall s0: State, id, t, net ensures Wrote(s0, id, t, net).stopped == s0.stopped {
      WroteGrows(s0, id, t, net);
    }
  }

  predicate OperatorStopsAt(s: State, es: seq<Event>, arn: string, k: nat) {
    k < |es| && OperatorStops(Run(s, es[..k]), es[k], arn)
  }

  /** A task is stopped exactly if an operator's request or the reaper's was carried
      out; if no operator's was, the reaper had a client and knew the cluster. */
  lemma {:induction false} StoppedBySomeone(ecs: bool, es: seq<Event>, id: string)
    requires var s := Run(Init(ecs), es); id in s.table && s.table[id].task.arn != ""
    ensures var s := Run(Init(ecs), es); var arn := s.table[id].task.arn;
            && ((exists k: nat :: OperatorStopsAt(Init(ecs), es, arn, k)) ==> arn in s.stopped)
            && (arn in s.stopped && !(exists k: nat :: OperatorStopsAt(Init(ecs), es, arn, k)) ==>
                  ReaperStops(s, s.table[id]))
  {
    hide Apply;
    hide Run;
    var s := Run(Init(ecs), es);
    var arn := s.table[id].task.arn;
    Reachable(ecs, es);
    if k: nat :| OperatorStopsAt(Init(ecs), es, arn, k) {
      StoppedExactly(Run(Init(ecs), es[..k]), es[k], arn);
      RunSplit(ecs, es, k);
    }
    if arn in s.stopped && !(exists k: nat :: OperatorStopsAt(Init(ecs), es, arn, k)) {
      var k := StopFound(ecs, es, arn);
      assert !OperatorStopsAt(Init(ecs), es, arn, k);
      var s1 := Run(Init(ecs), es[..k]);
      var v := s1.actors[es[k].a].seen;
      Reachable(ecs, es[..k]);
      ActorFacts(s1, es[k].a);
      RunSplit(ecs, es, k);
      RowFacts(s, v);
      RowIsBacked(s, id);
    }
  }

  lemma RunSplit(ecs: bool, es: seq<Event>, k: nat)
    requires k < |es|
    ensures var s1, s := Run(Init(ecs), es[..k]), Run(Init(ecs), es);
            && s1.versions <= s.versions && s1.ecs == s.ecs == ecs && Apply(s1, es[k]).stopped <= s.stopped
  {
    hide Apply;
    var before, after := es[..k + 1], es[k + 1..];
    assert es == before + after && before[..k] == es[..k];
    RunSnoc(Init(ecs), es[..k], es[k]);
    assert es[..k] + [es[k]] == before;
    RunConcat(Init(ecs), before, after);
    RunVersionsGrow(Run(Init(ecs), before), after);
    RunVersionsGrow(Init(ecs), es[..k]);
    VersionsGrow(Run(Init(ecs), es[..k]), es[k]);
  }

  lemma {:induction false} StopFound(ecs: bool, es: seq<Event>, arn: string) returns (k: nat)
    requires arn in Run(Init(ecs), es).stopped
    ensures k < |es|
    ensures var s := Run(Init(ecs), es[..k]); OperatorStops(s, es[k], arn) || ReaperStopsTask(s, es[k], arn)
    decreases |es|
  {
    hide Apply;
    var before := es[..|es| - 1];
    if arn in Run(Init(ecs), before).stopped {
      k := StopFound(ecs, before, arn);
      assert es[..k] == before[..k];
    } else {
      k := |es| - 1;
      StoppedExactly(Run(Init(ecs), before), es[k], arn);
    }
  }

  /** Exactly when a terminated session's task is still running: the reaper ended the
      session without a client or a cluster, and no operator's request to stop the
      task was ever carried out. */
  lemma TerminatedTaskRuns(ecs: bool, es: seq<Event>, id: string)
    requires var s := Run(Init(ecs), es);
               id in s.table && s.table[id].status == Terminated && s.table[id].task.arn != ""
    ensures var s := Run(Init(ecs), es); var r := s.table[id];
            r.task.arn !in s.stopped <==>
              && IsReaperReason(r.stopReason) && !(ecs && r.task.cluster != "")
              && !exists k: nat :: OperatorStopsAt(Init(ecs), es, r.task.arn, k)
  {
    hide Apply;
    hide Run;
    var s := Run(Init(ecs), es);
    Reachable(ecs, es);
    RunVersionsGrow(Init(ecs), es);
    StoppedBySomeone(ecs, es, id);
    assert s.table[id].id == id && s.table[id] in s.versions;
    RowFacts(s, s.table[id]);
    hide Inv;
  }

  lemma ActiveHasTask(s: State, v: Session)
    requires RowOk(s, v) && v.status == Active
    ensures v.task.arn != ""
  {
  }

  lemma JoinSteps(s: State, a: nat, v: Session, task: Task)
    requires a !in s.actors && v in s.versions && v.status == Creating && v.task.arn == "" && Fresh(s, task)
    ensures Apply(Apply(s, Read(a, Joining(v))), RunTask(a, task, Delivered))
              == Add(Started(s, v.id, task), a, Launched(v, task))
  {
    var s1 := Apply(s, Read(a, Joining(v)));
    assert s1 == Add(s, a, Joining(v));
    assert Fresh(s1, task);
    assert Apply(s1, RunTask(a, task, Delivered)).actors == Add(Started(s, v.id, task), a, Launched(v, task)).actors;
  }

  /** An undisturbed join makes a creating session active with its task. */
  lemma JoinActivates(s: State, id: string, a: nat, task: Task, now: string)
    requires Inv(s) && a !in s.actors && id in s.table && s.table[id].status == Creating && Fresh(s, task)
    ensures var s' := Run(s, [Read(a, Joining(s.table[id])), RunTask(a, task, Delivered), Activate(a, now, Delivered)]);
            && id in s'.table && s'.table[id].status == Active && s'.table[id].task == task
            && s'.table[id].terms == s.table[id].terms && s'.stopped == s.stopped && s'.ecs == s.ecs
            && s'.actors == s.actors - {a}
  {
    hide Run;
    hide Apply;
    hide StatusKey;
    var v := s.table[id];
    assert v.id == id && v in s.versions;
    RowFacts(s, v);
    assert v.task.arn == "" by { CreatingHasNoTask(s, v); }
    hide Inv;
    hide RowOk;
    RunThree(s, Read(a, Joining(v)), RunTask(a, task, Delivered), Activate(a, now, Delivered));
    JoinSteps(s, a, v, task);
    ActivateStep(Add(Started(s, v.id, task), a, Launched(v, task)), a, v, task, now, Delivered);
  }

  lemma ActivateStep(s: State, a: nat, v: Session, task: Task, now: string, net: Net)
    requires a in s.actors && s.actors[a] == Launched(v, task)
    ensures Apply(s, Activate(a, now, net))
            == Move(s, a, v.id, v.status, Active, now, Updates(Some(task), Some(v.terms.deadline), None), net)
  {
    hide Move;
  }

  lemma CreatingHasNoTask(s: State, v: Session)
    requires RowOk(s, v) && v.status == Creating
    ensures v.task.arn == ""
  {
  }

  // ---- One task, one session ---------------------------------------------------------

  /** No two rows share a task ARN or a task id. */
  lemma NoSharedTask(ecs: bool, es: seq<Event>, id: string, other: string)
    requires var t := Run(Init(ecs), es).table;
             && id in t && other in t && t[id].task.arn != "" && t[other].task.arn != ""
             && (t[id].task.arn == t[other].task.arn || t[id].task.id == t[other].task.id)
    ensures id == other && Run(Init(ecs), es).table[id].task.id != ""
  {
    hide Apply;
    hide Run;
    Reachable(ecs, es);
    RowIsBacked(Run(Init(ecs), es), id);
    RowIsBacked(Run(Init(ecs), es), other);
  }

  lemma RowIsBacked(s: State, id: string)
    requires Inv(s) && id in s.table
    ensures s.table[id].id == id && Backed(s.table[id], s.launched)
    ensures s.table[id].status == Active ==> s.table[id].task.arn != ""
    ensures s.table[id].status == Creating || s.table[id].status == Failed ==> s.table[id].task == NO_TASK
  {
    assert s.table[id].id == id && s.table[id] in s.versions;
    hide Inv;
    RowFacts(s, s.table[id]);
  }

  // ---- Orphans -------------------------------------------------------------------------

  /** A launched task that no row records and no join is about to record. */
  ghost predicate Orphan(s: State, arn: string) {
    && arn in s.launched
    && (forall id :: id in s.table ==> s.table[id].task.arn != arn)
    && (forall a :: a in s.actors ==> !Holds(s.actors[a], arn))
  }

  lemma HoldersAreFresh(s: State, e: Event, a: nat, arn: string)
    requires a in Apply(s, e).actors && Holds(Apply(s, e).actors[a], arn)
    ensures arn !in s.launched || (a in s.actors && Holds(s.actors[a], arn))
  {
    hide Wrote;
    hide NewSession;
    forall s0: State, id, t, net ensures Wrote(s0, id, t, net).actors == s0.actors {
      WroteGrows(s0, id, t, net);
    }
  }

  lemma LaunchesStay(s: State, e: Event, arn: string)
    requires arn in s.launched
    ensures arn in Apply(s, e).launched && Apply(s, e).launched[arn] == s.launched[arn]
  {
    hide AfterPut;
    hide AfterUpdate;
    hide AfterAttach;
    hide NewSession;
    hide CanRead;
  }

  lemma RecordsAreHeld(s: State, e: Event, id: string, arn: string)
    requires arn != "" && id in Apply(s, e).table && Apply(s, e).table[id].task.arn == arn
    requires forall a :: a in s.actors ==> !Holds(s.actors[a], arn)
    ensures id in s.table && s.table[id].task.arn == arn
  {
    hide StatusKey;
    hide CanRead;
    hide Fresh;
  }

  lemma StepKeepsOrphan(s: State, e: Event, arn: string)
    requires Inv(s) && Orphan(s, arn)
    ensures Orphan(Apply(s, e), arn)
  {
    hide Apply;
    hide Holds;
    hide RowsInv;
    hide ActorsInv;
    var s' := Apply(s, e);
    LaunchesStay(s, e, arn);
    forall id | id in s'.table ensures s'.table[id].task.arn != arn {
      if s'.table[id].task.arn == arn {
        RecordsAreHeld(s, e, id, arn);
      }
    }
    forall a | a in s'.actors ensures !Holds(s'.actors[a], arn) {
      if Holds(s'.actors[a], arn) {
        HoldersAreFresh(s, e, a, arn);
      }
    }
  }

  /** An orphan stays one: nothing ever records it and nothing ever stops it. */
  lemma {:induction false} OrphansAreForever(s: State, es: seq<Event>, arn: string)
    requires Inv(s) && Orphan(s, arn)
    ensures Orphan(Run(s, es), arn) && arn !in Run(s, es).stopped
    decreases |es|
  {
    hide Apply;
    hide Inv;
    hide Orphan;
    if es == [] {
      OrphanIsNotStopped(s, arn);
    } else {
      OrphansAreForever(s, es[..|es| - 1], arn);
      RunKeeps(s, es[..|es| - 1]);
      StepKeepsOrphan(Run(s, es[..|es| - 1]), es[|es| - 1], arn);
      RunKeeps(s, es);
      OrphanIsNotStopped(Run(s, es), arn);
    }
  }

  lemma OrphanIsNotStopped(s: State, arn: string)
    requires Inv(s) && Orphan(s, arn)
    ensures arn !in s.stopped
  {
    hide RowsInv;
    hide ActorsInv;
    assert forall x :: x in s.stopped ==> x in s.launched && Records(s, s.launched[x].session, x);
  }

  /** A join that launched a task gets it recorded exactly if its request arrives
      while the row is still as it saw it; otherwise the task is an orphan. */
  lemma ActivationDecides(s: State, a: nat, now: string, net: Net)
    requires Inv(s) && a in s.actors && s.actors[a].Launched?
    ensures var v, arn, s' := s.actors[a].seen, s.actors[a].task.arn, Apply(s, Activate(a, now, net));
            if net != Dropped && Has(s.table, v.id, Creating)
            then v.id in s'.table && s'.table[v.id].status == Active && s'.table[v.id].task == s.actors[a].task
            else Orphan(s', arn)
  {
    hide StatusKey;
    var v, task := s.actors[a].seen, s.actors[a].task;
    ActorFacts(s, a);
    OnlyHolder(s, a);
    LaunchedIsUnrecorded(s, a);
    RowFacts(s, v);
    hide Inv;
    hide Backed;
    hide Accounted;
    hide Filed;
    hide Precedes;
    ActivateStep(s, a, v, task, now, net);
    hide Apply;
    assert v.status == Creating && task.arn in s.launched;
    hide RowOk;
    hide ActorOk;
  }

  lemma LaunchedIsUnrecorded(s: State, a: nat)
    requires Inv(s) && a in s.actors && s.actors[a].Launched?
    ensures forall id :: id in s.table ==> s.table[id].task.arn != s.actors[a].task.arn
  {
    ActorFacts(s, a);
    forall id | id in s.table ensures s.table[id].task.arn != s.actors[a].task.arn {
      RowIsBacked(s, id);
    }
  }

  /** The event leaves a launched task to nobody: RunTask is carried out but its answer
      is lost, the join that holds the task dies, or the update that should record it
      is lost or finds the row no longer creating. */
  ghost predicate Orphans(s: State, e: Event, arn: string) {
    match e
    case RunTask(a, task, fate) =>
      a in s.actors && s.actors[a].Joining? && Fresh(s, task) && task.arn == arn && fate == ReplyLost
    case Exit(a) => a in s.actors && Holds(s.actors[a], arn)
    case Activate(a, _, net) =>
      a in s.actors && Holds(s.actors[a], arn) && (net == Dropped || !Has(s.table, s.actors[a].seen.id, Creating))
    case _ => false
  }

  lemma UnknownIsUnrecorded(s: State, arn: string)
    requires Inv(s) && arn != "" && arn !in s.launched
    ensures forall id :: id in s.table ==> s.table[id].task.arn != arn
    ensures forall a :: a in s.actors ==> !Holds(s.actors[a], arn)
  {
    forall id | id in s.table ensures s.table[id].task.arn != arn {
      RowIsBacked(s, id);
    }
    forall a | a in s.actors ensures !Holds(s.actors[a], arn) {
      ActorFacts(s, a);
    }
  }

  lemma LostAnswerOrphans(s: State, a: nat, task: Task)
    requires Inv(s) && a in s.actors && s.actors[a].Joining? && Fresh(s, task)
    ensures Orphan(Apply(s, RunTask(a, task, ReplyLost)), task.arn)
  {
    UnknownIsUnrecorded(s, task.arn);
    hide Inv;
    assert Apply(s, RunTask(a, task, ReplyLost))
      == Add(Started(s, s.actors[a].seen.id, task), a, Failing(s.actors[a].seen));
  }

  lemma DeathOrphans(s: State, a: nat, arn: string)
    requires Inv(s) && a in s.actors && Holds(s.actors[a], arn)
    ensures Orphan(Apply(s, Exit(a)), arn)
  {
    ActorFacts(s, a);
    OnlyHolder(s, a);
    LaunchedIsUnrecorded(s, a);
    hide Inv;
  }

  lemma OrphansMakesOrphan(s: State, e: Event, arn: string)
    requires Inv(s) && Orphans(s, e, arn)
    ensures Orphan(Apply(s, e), arn)
  {
    hide Orphan;
    hide Inv;
    hide Apply;
    match e
    case RunTask(a, task, _) => LostAnswerOrphans(s, a, task);
    case Exit(a) => DeathOrphans(s, a, arn);
    case Activate(a, now, net) => ActivationDecides(s, a, now, net);
  }

  /** A holder keeps its task through everything but its own update and its death. */
  lemma HolderKeeps(s: State, e: Event, a: nat, arn: string)
    requires a in s.actors && Holds(s.actors[a], arn) && e != Exit(a) && !(e.Activate? && e.a == a)
    ensures a in Apply(s, e).actors && Apply(s, e).actors[a] == s.actors[a]
  {
    hide Wrote;
    hide NewSession;
    hide Fresh;
    hide CanRead;
    forall s0: State, id, t, net ensures Wrote(s0, id, t, net).actors == s0.actors {
      WroteGrows(s0, id, t, net);
    }
  }

  lemma NewLaunch(s: State, e: Event, arn: string)
    requires arn !in s.launched && arn in Apply(s, e).launched
    ensures e.RunTask? && e.a in s.actors && s.actors[e.a].Joining? && Fresh(s, e.task) && e.task.arn == arn
    ensures e.fate == ReplyLost || (e.a in Apply(s, e).actors && Holds(Apply(s, e).actors[e.a], arn))
  {
    hide AfterPut;
    hide AfterUpdate;
    hide AfterAttach;
    hide NewSession;
    hide CanRead;
  }

  /** A task that is recorded, or held and about to be, becomes an orphan only so. */
  lemma OnlySoOrphaned(s: State, e: Event, arn: string)
    requires Inv(s) && !Orphan(s, arn) && Orphan(Apply(s, e), arn)
    ensures Orphans(s, e, arn)
  {
    hide Apply;
    if arn !in s.launched {
      NewLaunch(s, e, arn);
    } else if id :| id in s.table && s.table[id].task.arn == arn {
      LaunchesAreNamed(s, arn);
      StepAdvances(s, e, id);
    } else {
      var a :| a in s.actors && Holds(s.actors[a], arn);
      if e != Exit(a) && !(e.Activate? && e.a == a) {
        HolderKeeps(s, e, a, arn);
      } else if e.Activate? {
        ActivationDecides(s, a, e.now, e.net);
      }
    }
  }

  lemma LaunchesAreNamed(s: State, arn: string)
    requires Inv(s) && arn in s.launched
    ensures arn != ""
  {
    hide RowsInv;
    hide ActorsInv;
  }

  /** Exactly when an event leaves a task that runs unrecorded for ever: it was one
      already, or the event is of one of the three kinds. */
  lemma OrphanedExactly(s: State, e: Event, arn: string)
    requires Inv(s)
    ensures Orphan(Apply(s, e), arn) <==> Orphan(s, arn) || Orphans(s, e, arn)
  {
    hide Apply;
    hide Inv;
    hide Orphan;
    hide Orphans;
    if Orphan(s, arn) {
      StepKeepsOrphan(s, e, arn);
    } else if Orphans(s, e, arn) {
      OrphansMakesOrphan(s, e, arn);
    } else if Orphan(Apply(s, e), arn) {
      OnlySoOrphaned(s, e, arn);
    }
  }

  ghost predicate OrphansAt(s: State, es: seq<Event>, arn: string, k: nat) {
    k < |es| && Orphans(Run(s, es[..k]), es[k], arn)
  }

  lemma OrphansAtSplit(s: State, es: seq<Event>, arn: string, k: nat)
    requires es != []
    ensures var before := es[..|es| - 1];
            OrphansAt(s, es, arn, k) <==>
              OrphansAt(s, before, arn, k) || (k == |before| && Orphans(Run(s, before), es[|before|], arn))
  {
    hide Run;
    hide Orphans;
    if k < |es| - 1 {
      assert es[..k] == es[..|es| - 1][..k];
    }
  }

  /** Over whole runs: a task ends up running unrecorded exactly if some event of the
      run was of one of the three kinds for it. */
  lemma {:induction false} OrphanedInRun(ecs: bool, es: seq<Event>, arn: string)
    ensures Orphan(Run(Init(ecs), es), arn) <==> exists k: nat :: OrphansAt(Init(ecs), es, arn, k)
    decreases |es|
  {
    hide Apply;
    hide Orphans;
    if es != [] {
      var before, e := es[..|es| - 1], es[|es| - 1];
      OrphanedInRun(ecs, before, arn);
      Reachable(ecs, before);
      OrphanedExactly(Run(Init(ecs), before), e, arn);
      hide Orphan;
      forall k: nat
        ensures OrphansAt(Init(ecs), es, arn, k) <==>
                  OrphansAt(Init(ecs), before, arn, k) || (k == |before| && Orphans(Run(Init(ecs), before), e, arn))
      {
        OrphansAtSplit(Init(ecs), es, arn, k);
      }
      hide OrphansAt;
      assert OrphansAt(Init(ecs), es, arn, |before|) || !Orphans(Run(Init(ecs), before), e, arn);
    }
  }

  /** Of two joins that launched a task for the same session, whoever activates
      second leaves an orphan. */
  lemma SecondJoinOrphans(s: State, a: nat, b: nat, first: string, second: string, net: Net)
    requires Inv(s) && a in s.actors && b in s.actors && a != b && s.actors[a].Launched? && s.actors[b].Launched?
    requires s.actors[a].seen.id == s.actors[b].seen.id && Has(s.table, s.actors[a].seen.id, Creating)
    ensures var s' := Run(s, [Activate(a, first, Delivered)] + [Activate(b, second, net)]);
            && s.actors[a].seen.id in s'.table && s'.table[s.actors[a].seen.id].task == s.actors[a].task
            && Orphan(s', s.actors[b].task.arn)
  {
    hide StatusKey;
    hide Inv;
    hide Orphan;
    hide Run;
    var s1 := Apply(s, Activate(a, first, Delivered));
    RunOne(s, Activate(a, first, Delivered));
    RunSnoc(s, [Activate(a, first, Delivered)], Activate(b, second, net));
    ActorFacts(s, a);
    ActivationDecides(s, a, first, Delivered);
    assert b in s1.actors && s1.actors[b] == s.actors[b];
    ApplyKeeps(s, Activate(a, first, Delivered));
    hide Apply;
    ActivationDecides(s1, b, second, net);
    ApplyKeeps(s1, Activate(b, second, net));
    var id := s.actors[a].seen.id;
    StepAdvances(s1, Activate(b, second, net), id);
  }

  lemma StepAdvances(s: State, e: Event, id: string)
    requires Inv(s) && id in s.table
    ensures id in Apply(s, e).table && Precedes(s.table[id], Apply(s, e).table[id])
  {
    hide Apply;
    ApplyKeeps(s, e);
    VersionsGrow(s, e);
    assert s.table[id].id == id && s.table[id] in s.versions;
    hide Inv;
    RowFacts(Apply(s, e), s.table[id]);
  }

  // ---- Index agreement -----------------------------------------------------------------

  /** In every reachable state the rows are filed under their own status, the
      active ones under their deadline. */
  lemma ReachableKeysAgree(ecs: bool, es: seq<Event>)
    ensures KeysAgree(Run(Init(ecs), es).table)
  {
    hide Apply;
    hide Run;
    Reachable(ecs, es);
    var s := Run(Init(ecs), es);
    forall id | id in s.table
      ensures s.table[id].id == id && Filed(s.table[id])
    {
      RowIsFiled(s, id);
    }
  }

  lemma RowIsFiled(s: State, id: string)
    requires Inv(s) && id in s.table
    ensures s.table[id].id == id && Filed(s.table[id])
  {
    assert s.table[id].id == id && s.table[id] in s.versions;
    hide Inv;
    RowFacts(s, s.table[id]);
  }

  // ---- Deadlines in time -----------------------------------------------------------------

  /** When ListExpired takes an active row, in time: always from a second past its
      deadline on, never up to a second before it, and within the same second by
      the printed fractions. */
  lemma ExpiryInTime(t: Table, id: string, target: string, deadline: Instant, now: Instant)
    requires KeysAgree(t) && id in t && t[id].status == Active && t[id].terms.target == target
    requires t[id].terms.deadline == Format(deadline) && Printable(deadline) && Printable(now)
    ensures PastKey(t[id], target, Format(now)) <==>
              if deadline / SECOND != now / SECOND then deadline < now
              else deadline == now || (deadline < now && !(FractionDigits(deadline) <= FractionDigits(now)))
                   || (now < deadline && FractionDigits(now) <= FractionDigits(deadline))
    ensures AheadKey(t[id], target, Format(now)) <==> !PastKey(t[id], target, Format(now))
    ensures now >= deadline + SECOND ==> PastKey(t[id], target, Format(now))
    ensures deadline >= now + SECOND ==> AheadKey(t[id], target, Format(now))
  {
    hide Format;
    hide PastKey;
    hide AheadKey;
    hide FractionDigits;
    PastMeansExpired(t, id, target, Format(now));
    AheadMeansUnexpired(t, id, target, Format(now));
    LeOrLt(Format(deadline), Format(now));
    if deadline < now {
      StringOrderExact(deadline, now);
    } else if now < deadline {
      StringOrderExact(now, deadline);
      FormatInjective2(deadline, now);
    }
  }

  lemma FormatInjective2(a: Instant, b: Instant)
    requires Printable(a) && Printable(b) && a != b
    ensures Format(a) != Format(b)
  {
    hide Format;
    if Format(a) == Format(b) {
      FormatInjective(a, b);
    }
  }
}
