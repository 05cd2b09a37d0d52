/** Everything that writes boundary session rows or touches their ECS tasks, as
    one transition system: starts, joins, terminates, exec-attaches and reaper
    runs interleave freely, act on row versions that may be stale, lose requests
    and die at any point. */
module SessionProtocol {
  import opened Sessions
  import opened Wrappers
  import opened Remote

  /** What a task was launched for. */
  datatype Launch = Launch(session: string, id: string, cluster: string)

  /** An invocation in progress and what it still holds in memory. */
  datatype Actor =
    | Joining(seen: Session)                      // join: row has no task, about to call RunTask
    | Launched(seen: Session, task: Task)         // join: RunTask answered
    | Failing(seen: Session)                      // join: RunTask failed
    | Terminating(seen: Session)                  // terminate: row may be stopped
    | OperatorStopped(seen: Session)              // terminate: nothing left to stop
    | Reaping(seen: Session, reason: StopReason)  // reaper: listed, expired or idle
    | ReaperStopped(seen: Session, reason: StopReason)
    | Attaching(user: string, seen: Session)      // exec-attach: checks passed

  /** The table, every row version there ever was, the invocations in progress,
      the tasks ever launched, the tasks ever stopped (by ARN), and whether the
      reaper has an ECS client. */
  datatype State = State(table: Table, versions: set<Session>, actors: map<nat, Actor>,
                         launched: map<string, Launch>, stopped: set<string>, ecs: bool)

  datatype Event =
    | Start(row: Session, net: Net)
    | Read(a: nat, x: Actor)
    | RunTask(a: nat, task: Task, fate: Net)
    | Activate(a: nat, now: string, net: Net)
    | MarkFailed(a: nat, now: string, net: Net)
    | Stop(a: nat, fate: Net)
    | Terminate(a: nat, now: string, net: Net)
    | Attach(a: nat, exec: string, net: Net)
    | Exit(a: nat)

  function Init(ecs: bool): State {
    State(map[], {}, map[], map[], {}, ecs)
  }

  // ---- One event -----------------------------------------------------------------

  predicate NewSession(row: Session) {
    && row.status == Creating && row.task == NO_TASK && row.terminatedAt == ""
    && row.stopReason == Unstopped && row.execSessionIds == [] && |row.terms.createdAt| >= 10
  }

  function Drop(s: State, a: nat): State {
    s.(actors := s.actors - {a})
  }

  function Add(s: State, a: nat, x: Actor): State {
    s.(actors := s.actors[a := x])
  }

  /** The state after a request on one row, with its new version remembered. */
  function Wrote(s: State, id: string, t: Table, net: Net): State {
    if net == Dropped || t == s.table || id !in t then s else s.(table := t, versions := s.versions + {t[id]})
  }

  predicate Joinable(v: Session) {
    v.status == Active || v.status == Creating
  }

  predicate IsReaperReason(reason: StopReason) {
    reason == DeadlineReaperStop || reason == IdleReaperStop
  }

  /** What an invocation may set out to do after reading a row: any version the
      row ever had may be the one it saw. */
  predicate CanRead(s: State, x: Actor) {
    match x
    case Joining(v) => v in s.versions && Joinable(v) && v.task.arn == ""
    case Terminating(v) => v in s.versions && Joinable(v)
    case Reaping(v, reason) => v in s.versions && v.status == Active && IsReaperReason(reason)
    case Attaching(user, v) => v in s.versions && v.status == Active && v.terms.operator == user
    case _ => false
  }

  /** ECS never gives an ARN or a task id twice. */
  predicate Fresh(s: State, task: Task) {
    && task.arn != "" && task.id != "" && task.arn !in s.launched
    && forall arn :: arn in s.launched ==> s.launched[arn].id != task.id
  }

  function Started(s: State, session: string, task: Task): State {
    s.(launched := s.launched[task.arn := Launch(session, task.id, task.cluster)])
  }

  function RunStep(s: State, a: nat, v: Session, task: Task, fate: Net): State {
    match fate
    case Delivered => Add(Started(s, v.id, task), a, Launched(v, task))
    case Dropped => Add(s, a, Failing(v))
    case ReplyLost => Add(Started(s, v.id, task), a, Failing(v))
  }

  function StopStep(s: State, a: nat, arn: string, fate: Net, next: Actor): State {
    match fate
    case Delivered => Add(s.(stopped := s.stopped + {arn}), a, next)
    case Dropped => Drop(s, a)
    case ReplyLost => Drop(s.(stopped := s.stopped + {arn}), a)
  }

  function Move(s: State, a: nat, id: string, from: SessionStatus, to: SessionStatus, now: string, u: Updates,
                net: Net): State {
    Wrote(Drop(s, a), id, AfterUpdate(s.table, id, from, to, now, u), net)
  }

  function Because(reason: StopReason): Updates {
    Updates(None, None, Some(reason))
  }

  /** The reaper stops a task only if it knows its cluster and has a client. */
  predicate ReaperStops(s: State, v: Session) {
    v.task.arn != "" && v.task.cluster != "" && s.ecs
  }

  /** An event that is not enabled changes nothing. */
  function Apply(s: State, e: Event): State {
    match e
    case Start(row, net) => if NewSession(row) then Wrote(s, row.id, AfterPut(s.table, row), net) else s
    case Read(a, x) => if a !in s.actors && CanRead(s, x) then Add(s, a, x) else s
    case RunTask(a, task, fate) =>
      if a in s.actors && s.actors[a].Joining? && Fresh(s, task) then RunStep(s, a, s.actors[a].seen, task, fate) else s
    case Activate(a, now, net) =>
      if a in s.actors && s.actors[a].Launched? then
        var v := s.actors[a].seen;
        Move(s, a, v.id, v.status, Active, now, Updates(Some(s.actors[a].task), Some(v.terms.deadline), None), net)
      else s
    case MarkFailed(a, now, net) =>
      if a in s.actors && s.actors[a].Failing?
      then Move(s, a, s.actors[a].seen.id, s.actors[a].seen.status, Failed, now, Because(ProvisionFailed), net) else s
    case Stop(a, fate) =>
      if a !in s.actors then s
      else (
          match s.actors[a]
          case Terminating(v) =>
            if v.task.arn == "" then Add(s, a, OperatorStopped(v))
            else StopStep(s, a, v.task.arn, fate, OperatorStopped(v))
          case Reaping(v, reason) =>
            if !ReaperStops(s, v) then Add(s, a, ReaperStopped(v, reason))
            else StopStep(s, a, v.task.arn, fate, ReaperStopped(v, reason))
          case _ => s
        )
    case Terminate(a, now, net) =>
      if a !in s.actors then s
      else (
          match s.actors[a]
          case OperatorStopped(v) => Move(s, a, v.id, v.status, Terminated, now, Because(OperatorStop), net)
          case ReaperStopped(v, reason) => Move(s, a, v.id, Active, Terminated, now, Because(reason), net)
          case _ => s
        )
    case Attach(a, exec, net) =>
      if a in s.actors && s.actors[a].Attaching? then
        var id := s.actors[a].seen.id;
        Wrote(Drop(s, a), id, AfterAttach(s.table, id, s.actors[a].user, exec), net)
      else s
    case Exit(a) => Drop(s, a)
  }

  function Run(s: State, es: seq<Event>): State {
    if es == [] then s else Apply(Run(s, es[..|es| - 1]), es[|es| - 1])
  }

  lemma RunSnoc(s: State, es: seq<Event>, e: Event)
    ensures Run(s, es + [e]) == Apply(Run(s, es), e)
  {
    assert (es + [e])[..|es|] == es;
  }

  lemma {:induction false} RunConcat(s: State, es: seq<Event>, fs: seq<Event>)
    ensures Run(s, es + fs) == Run(Run(s, es), fs)
    decreases |fs|
  {
    hide Apply;
    if fs == [] {
      assert es + fs == es;
    } else {
      var gs := fs[..|fs| - 1];
      RunConcat(s, es, gs);
      assert es + fs == (es + gs) + [fs[|fs| - 1]];
      RunSnoc(s, es + gs, fs[|fs| - 1]);
    }
  }

  // ---- The invariant -----------------------------------------------------------------

  predicate Over(status: SessionStatus) {
    status == Terminated || status == Failed
  }

  /** What may still change from one version of a row to a later one. */
  predicate Precedes(v: Session, r: Session) {
    && v.id == r.id && v.terms == r.terms
    && (v.task.arn != "" ==> r.task == v.task)
    && (Over(v.status) ==> r == v)
    && (v.status == Active ==> r.status == Active || r.status == Terminated)
    && v.execSessionIds <= r.execSessionIds
  }

  predicate Filed(r: Session) {
    && r.status.Text() + "#" <= r.targetStatusKey
    && (r.status == Active ==> r.targetStatusKey == StatusKey(Active, r.terms.deadline))
  }

  /** Status, task and stop reason fit together. */
  predicate Shaped(r: Session) {
    && (r.task.arn == "" ==> r.task == NO_TASK)
    && (r.status == Active ==> r.task.arn != "" && r.stopReason == Unstopped)
    && (r.status == Creating ==> r.task == NO_TASK && r.stopReason == Unstopped)
    && (r.status == Failed ==> r.task == NO_TASK && r.stopReason == ProvisionFailed)
    && (r.status == Terminated ==> r.stopReason == OperatorStop || (r.task.arn != "" && IsReaperReason(r.stopReason)))
  }

  /** The task of a row was launched for that row. */
  predicate Backed(r: Session, launched: map<string, Launch>) {
    r.task.arn != "" ==> r.task.arn in launched && launched[r.task.arn] == Launch(r.id, r.task.id, r.task.cluster)
  }

  /** A terminated row's task was stopped, unless the reaper skipped the stop. */
  predicate Accounted(s: State, r: Session) {
    r.status == Terminated && r.task.arn != "" && (r.stopReason == OperatorStop || ReaperStops(s, r))
    ==> r.task.arn in s.stopped
  }

  predicate RowOk(s: State, r: Session) {
    Filed(r) && Shaped(r) && Backed(r, s.launched) && Accounted(s, r)
  }

  ghost predicate RowsInv(s: State) {
    && (forall id :: id in s.table ==> s.table[id].id == id && s.table[id] in s.versions)
    && (forall v :: v in s.versions ==> v.id in s.table && RowOk(s, v) && Precedes(v, s.table[v.id]))
  }

  /** A task is stopped only once its session's row records it. */
  ghost predicate TasksInv(s: State) {
    && (forall x, y :: x in s.launched && y in s.launched && s.launched[x].id == s.launched[y].id ==> x == y)
    && (forall arn :: arn in s.launched ==> arn != "" && s.launched[arn].id != "")
    && (forall arn :: arn in s.stopped ==> arn in s.launched && Records(s, s.launched[arn].session, arn))
  }

  predicate Records(s: State, id: string, arn: string) {
    id in s.table && s.table[id].task.arn == arn
  }

  predicate Holds(x: Actor, arn: string) {
    x.Launched? && x.task.arn == arn
  }

  predicate ActorOk(s: State, x: Actor) {
    match x
    case Joining(v) => v in s.versions && Joinable(v) && v.task.arn == ""
    case Launched(v, task) =>
      && v in s.versions && Joinable(v) && v.task.arn == "" && task.arn != ""
      && task.arn in s.launched && s.launched[task.arn] == Launch(v.id, task.id, task.cluster)
      && !Records(s, v.id, task.arn)
    case Failing(v) => v in s.versions && Joinable(v) && v.task.arn == ""
    case Terminating(v) => v in s.versions && Joinable(v)
    case OperatorStopped(v) => v in s.versions && Joinable(v) && (v.task.arn != "" ==> v.task.arn in s.stopped)
    case Reaping(v, reason) => v in s.versions && v.status == Active && IsReaperReason(reason)
    case ReaperStopped(v, reason) =>
      && v in s.versions && v.status == Active && IsReaperReason(reason)
      && (ReaperStops(s, v) ==> v.task.arn in s.stopped)
    case Attaching(user, v) => v in s.versions && v.status == Active && v.terms.operator == user
  }

  ghost predicate ActorsInv(s: State) {
    && (forall a :: a in s.actors ==> ActorOk(s, s.actors[a]))
    && (forall a, b, arn :: a in s.actors && b in s.actors && Holds(s.actors[a], arn) && Holds(s.actors[b], arn) ==>
          a == b)
  }

  ghost predicate Inv(s: State) {
    RowsInv(s) && TasksInv(s) && ActorsInv(s)
  }

  lemma PrecedesTransitive(u: Session, v: Session, r: Session)
    requires Precedes(u, v) && Precedes(v, r)
    ensures Precedes(u, r)
  {
  }

  lemma RowFacts(s: State, v: Session)
    requires Inv(s) && v in s.versions
    ensures v.id in s.table && s.table[v.id].id == v.id && s.table[v.id] in s.versions
    ensures RowOk(s, v) && RowOk(s, s.table[v.id]) && Precedes(v, s.table[v.id])
  {
    hide RowOk;
    hide Precedes;
  }

  lemma ActorFacts(s: State, a: nat)
    requires Inv(s) && a in s.actors
    ensures ActorOk(s, s.actors[a])
  {
    hide RowsInv;
    hide TasksInv;
  }

  /** Rows and tasks do not depend on who is in progress. */
  lemma SameRowsAndTasks(s: State, s': State)
    requires RowsInv(s) && TasksInv(s) && s' == s.(actors := s'.actors)
    ensures RowsInv(s') && TasksInv(s')
  {
    hide Filed;
    hide Shaped;
    hide Precedes;
    hide Backed;
  }

  lemma SameActorOk(s: State, s': State, x: Actor)
    requires ActorOk(s, x) && s' == s.(actors := s'.actors)
    ensures ActorOk(s', x)
  {
    hide Joinable;
    hide IsReaperReason;
  }

  lemma DropKeeps(s: State, a: nat)
    requires Inv(s)
    ensures Inv(Drop(s, a))
  {
    hide RowsInv;
    hide TasksInv;
    hide ActorOk;
    var s' := Drop(s, a);
    SameRowsAndTasks(s, s');
    forall b | b in s'.actors ensures ActorOk(s', s'.actors[b]) {
      SameActorOk(s, s', s.actors[b]);
    }
  }

  lemma AddKeeps(s: State, a: nat, x: Actor)
    requires Inv(s) && ActorOk(s, x)
    requires forall b, arn :: b in s.actors && b != a && Holds(x, arn) ==> !Holds(s.actors[b], arn)
    ensures Inv(Add(s, a, x))
  {
    hide RowsInv;
    hide TasksInv;
    hide ActorOk;
    var s' := Add(s, a, x);
    SameRowsAndTasks(s, s');
    forall b | b in s'.actors ensures ActorOk(s', s'.actors[b]) {
      SameActorOk(s, s', s'.actors[b]);
    }
  }

  // ---- ECS calls ---------------------------------------------------------------------

  lemma StartedKeepsRows(s: State, id: string, task: Task)
    requires RowsInv(s) && task.arn !in s.launched
    ensures RowsInv(Started(s, id, task))
  {
    hide Filed;
    hide Shaped;
    hide Precedes;
    var s' := Started(s, id, task);
    forall v | v in s'.versions ensures v.id in s'.table && RowOk(s', v) && Precedes(v, s'.table[v.id]) {
      assert RowOk(s, v);
    }
  }

  lemma StartedKeepsTasks(s: State, id: string, task: Task)
    requires TasksInv(s) && Fresh(s, task)
    ensures TasksInv(Started(s, id, task))
  {
  }

  lemma StartedKeepsActor(s: State, id: string, task: Task, x: Actor)
    requires ActorOk(s, x) && task.arn !in s.launched
    ensures ActorOk(Started(s, id, task), x)
  {
    hide Joinable;
    hide IsReaperReason;
  }

  lemma StartedKeeps(s: State, id: string, task: Task)
    requires Inv(s) && Fresh(s, task)
    ensures Inv(Started(s, id, task))
  {
    StartedKeepsRows(s, id, task);
    StartedKeepsTasks(s, id, task);
    hide RowsInv;
    hide TasksInv;
    hide ActorOk;
    var s' := Started(s, id, task);
    forall b | b in s'.actors ensures ActorOk(s', s'.actors[b]) {
      StartedKeepsActor(s, id, task, s.actors[b]);
    }
  }

  lemma StoppedKeeps(s: State, arn: string)
    requires Inv(s) && arn in s.launched && Records(s, s.launched[arn].session, arn)
    ensures Inv(s.(stopped := s.stopped + {arn}))
  {
    hide Filed;
    hide Shaped;
    hide Precedes;
    hide Backed;
    var s' := s.(stopped := s.stopped + {arn});
    forall v | v in s'.versions ensures v.id in s'.table && RowOk(s', v) && Precedes(v, s'.table[v.id]) {
      RowFacts(s, v);
    }
    forall b | b in s'.actors ensures ActorOk(s', s'.actors[b]) {
      assert ActorOk(s, s.actors[b]);
    }
  }

  /** A task just launched is held by nobody and recorded nowhere. */
  lemma FreshIsUnheld(s: State, task: Task)
    requires Inv(s) && Fresh(s, task)
    ensures forall b :: b in s.actors ==> !Holds(s.actors[b], task.arn)
    ensures forall id :: id in s.table ==> s.table[id].task.arn != task.arn
  {
    forall b | b in s.actors ensures !Holds(s.actors[b], task.arn) {
      assert ActorOk(s, s.actors[b]);
    }
    forall id | id in s.table ensures s.table[id].task.arn != task.arn {
      RowFacts(s, s.table[id]);
    }
  }

  lemma RunKeepsInv(s: State, a: nat, task: Task, fate: Net)
    requires Inv(s) && a in s.actors && s.actors[a].Joining? && Fresh(s, task)
    ensures Inv(RunStep(s, a, s.actors[a].seen, task, fate))
  {
    var v := s.actors[a].seen;
    ActorFacts(s, a);
    FreshIsUnheld(s, task);
    StartedKeeps(s, v.id, task);
    hide Inv;
    match fate
    case Delivered => AddKeeps(Started(s, v.id, task), a, Launched(v, task));
    case Dropped => AddKeeps(s, a, Failing(v));
    case ReplyLost => AddKeeps(Started(s, v.id, task), a, Failing(v));
  }

  /** The task of a version is the task its row still records. */
  lemma SeenIsRecorded(s: State, v: Session)
    requires Inv(s) && v in s.versions && v.task.arn != ""
    ensures v.task.arn in s.launched && s.launched[v.task.arn].session == v.id && Records(s, v.id, v.task.arn)
  {
    RowFacts(s, v);
  }

  lemma StopStepKeeps(s: State, a: nat, v: Session, fate: Net, next: Actor)
    requires Inv(s) && a in s.actors && v in s.versions && v.task.arn != ""
    requires ActorOk(s.(stopped := s.stopped + {v.task.arn}), next) && !next.Launched?
    ensures Inv(StopStep(s, a, v.task.arn, fate, next))
  {
    SeenIsRecorded(s, v);
    StoppedKeeps(s, v.task.arn);
    var s' := s.(stopped := s.stopped + {v.task.arn});
    hide Inv;
    hide ActorOk;
    match fate
    case Delivered => AddKeeps(s', a, next);
    case Dropped => DropKeeps(s, a);
    case ReplyLost => DropKeeps(s', a);
  }

  lemma StopKeeps(s: State, a: nat, fate: Net)
    requires Inv(s) && a in s.actors
    ensures Inv(Apply(s, Stop(a, fate)))
  {
    hide Inv;
    hide StopStep;
    ActorFacts(s, a);
    match s.actors[a]
    case Terminating(v) =>
      if v.task.arn == "" {
        AddKeeps(s, a, OperatorStopped(v));
      } else {
        StopStepKeeps(s, a, v, fate, OperatorStopped(v));
      }
    case Reaping(v, reason) =>
      if ReaperStops(s, v) {
        StopStepKeeps(s, a, v, fate, ReaperStopped(v, reason));
      } else {
        AddKeeps(s, a, ReaperStopped(v, reason));
      }
    case _ =>
  }

  // ---- Row writes --------------------------------------------------------------------

  /** A later version of an existing row keeps the rows in order. */
  lemma ReplaceKeepsRows(s: State, r: Session)
    requires RowsInv(s) && r.id in s.table && Precedes(s.table[r.id], r) && RowOk(s, r)
    ensures RowsInv(Wrote(s, r.id, s.table[r.id := r], Delivered))
  {
    hide Filed;
    hide Shaped;
    hide Backed;
    var s' := Wrote(s, r.id, s.table[r.id := r], Delivered);
    forall v | v in s'.versions ensures v.id in s'.table && RowOk(s', v) && Precedes(v, s'.table[v.id]) {
      if v in s.versions && v.id == r.id {
        PrecedesTransitive(v, s.table[r.id], r);
      }
    }
  }

  /** ... and the rest too, unless it records a task someone still holds. */
  lemma ReplaceKeepsRest(s: State, r: Session)
    requires Inv(s) && r.id in s.table && Precedes(s.table[r.id], r)
    requires r.task.arn != "" ==> forall b :: b in s.actors ==> !Holds(s.actors[b], r.task.arn)
    ensures TasksInv(Wrote(s, r.id, s.table[r.id := r], Delivered))
    ensures ActorsInv(Wrote(s, r.id, s.table[r.id := r], Delivered))
  {
    hide RowsInv;
    var s' := Wrote(s, r.id, s.table[r.id := r], Delivered);
    forall arn | arn in s'.stopped ensures arn in s'.launched && Records(s', s'.launched[arn].session, arn) {
      assert arn in s.launched && Records(s, s.launched[arn].session, arn);
    }
    forall b | b in s'.actors ensures ActorOk(s', s'.actors[b]) {
      assert ActorOk(s, s.actors[b]);
    }
  }

  lemma ReplaceKeeps(s: State, r: Session)
    requires Inv(s) && r.id in s.table && Precedes(s.table[r.id], r) && RowOk(s, r)
    requires r.task.arn != "" ==> forall b :: b in s.actors ==> !Holds(s.actors[b], r.task.arn)
    ensures Inv(Wrote(s, r.id, s.table[r.id := r], Delivered))
  {
    hide RowOk;
    hide Precedes;
    ReplaceKeepsRows(s, r);
    ReplaceKeepsRest(s, r);
  }

  lemma InsertKeeps(s: State, row: Session)
    requires Inv(s) && NewSession(row) && row.id !in s.table
    ensures Inv(Wrote(s, row.id, AfterPut(s.table, row), Delivered))
  {
    StoredOk(s, row);
    hide Stored;
    InsertKeepsAll(s, Stored(row));
  }

  lemma StoredOk(s: State, row: Session)
    requires NewSession(row)
    ensures RowOk(s, Stored(row)) && Stored(row).id == row.id
  {
  }

  lemma InsertKeepsAll(s: State, r: Session)
    requires Inv(s) && RowOk(s, r) && r.id !in s.table
    ensures Inv(Wrote(s, r.id, s.table[r.id := r], Delivered))
  {
    var s' := Wrote(s, r.id, s.table[r.id := r], Delivered);
    InsertKeepsRows(s, r);
    hide RowsInv;
    hide RowOk;
    InsertKeepsActors(s, r);
    hide ActorsInv;
    forall arn | arn in s'.stopped ensures arn in s'.launched && Records(s', s'.launched[arn].session, arn) {
      assert arn in s.launched && Records(s, s.launched[arn].session, arn);
    }
  }

  lemma InsertKeepsRows(s: State, r: Session)
    requires RowsInv(s) && RowOk(s, r) && r.id !in s.table
    ensures RowsInv(Wrote(s, r.id, s.table[r.id := r], Delivered))
  {
    assert Precedes(r, r);
    hide Precedes;
    hide Filed;
    hide Shaped;
    hide Backed;
  }

  lemma InsertKeepsActors(s: State, r: Session)
    requires RowsInv(s) && ActorsInv(s) && r.id !in s.table
    ensures ActorsInv(Wrote(s, r.id, s.table[r.id := r], Delivered))
  {
    hide RowOk;
    hide Precedes;
    var s' := Wrote(s, r.id, s.table[r.id := r], Delivered);
    forall b | b in s'.actors ensures ActorOk(s', s'.actors[b]) {
      assert ActorOk(s, s.actors[b]);
    }
  }

  // ---- Status moves ------------------------------------------------------------------

  /** Once a task is recorded nobody holds it. */
  lemma RecordedIsUnheld(s: State, id: string)
    requires Inv(s) && id in s.table && s.table[id].task.arn != ""
    ensures forall b :: b in s.actors ==> !Holds(s.actors[b], s.table[id].task.arn)
  {
    var arn := s.table[id].task.arn;
    RowFacts(s, s.table[id]);
    forall b | b in s.actors ensures !Holds(s.actors[b], arn) {
      assert ActorOk(s, s.actors[b]);
    }
  }

  /** The row an invocation acts on moves to a new version once it is done. */
  lemma RowMoves(s: State, a: nat, r: Session, net: Net)
    requires Inv(s) && r.id in s.table && Precedes(s.table[r.id], r) && RowOk(s, r)
    requires r.task.arn != "" ==> forall b :: b in s.actors && b != a ==> !Holds(s.actors[b], r.task.arn)
    ensures Inv(Wrote(Drop(s, a), r.id, s.table[r.id := r], net))
  {
    hide Inv;
    hide Filed;
    hide Shaped;
    hide Precedes;
    hide Backed;
    DropKeeps(s, a);
    ReplaceKeeps(Drop(s, a), r);
  }

  lemma ActivateKeeps(s: State, a: nat, v: Session, task: Task, now: string, net: Net)
    requires Inv(s) && a in s.actors && s.actors[a] == Launched(v, task)
    ensures Inv(Move(s, a, v.id, v.status, Active, now, Updates(Some(task), Some(v.terms.deadline), None), net))
  {
    OnlyHolder(s, a);
    hide Inv;
    ActorFacts(s, a);
    RowFacts(s, v);
    DropKeeps(s, a);
    if Has(s.table, v.id, v.status) {
      ActivatedOk(s, v, s.table[v.id], task, now);
      hide RowOk;
      hide Precedes;
      hide ActorOk;
      RowMoves(s, a, Updated(s.table[v.id], Active, now, Updates(Some(task), Some(v.terms.deadline), None),
                             StatusKey(Active, v.terms.deadline)), net);
    }
  }

  lemma OnlyHolder(s: State, a: nat)
    requires Inv(s) && a in s.actors && s.actors[a].Launched?
    ensures forall b :: b in s.actors && b != a ==> !Holds(s.actors[b], s.actors[a].task.arn)
  {
    hide RowsInv;
    hide TasksInv;
    assert Holds(s.actors[a], s.actors[a].task.arn);
  }

  /** The row that an activation writes. */
  lemma ActivatedOk(s: State, v: Session, row: Session, task: Task, now: string)
    requires Joinable(v) && v.task.arn == "" && task.arn != "" && row.status == v.status
    requires task.arn in s.launched && s.launched[task.arn] == Launch(v.id, task.id, task.cluster)
    requires Shaped(v) && Shaped(row) && Precedes(v, row)
    ensures var r := Updated(row, Active, now, Updates(Some(task), Some(v.terms.deadline), None),
              StatusKey(Active, v.terms.deadline));
            RowOk(s, r) && Precedes(row, r) && r.task == task && r.id == row.id
  {
  }

  lemma MarkFailedKeeps(s: State, a: nat, v: Session, now: string, net: Net)
    requires Inv(s) && a in s.actors && s.actors[a] == Failing(v)
    ensures Inv(Move(s, a, v.id, v.status, Failed, now, Because(ProvisionFailed), net))
  {
    hide Inv;
    ActorFacts(s, a);
    RowFacts(s, v);
    DropKeeps(s, a);
    if Has(s.table, v.id, v.status) {
      FailedOk(s, v, s.table[v.id], now);
      hide RowOk;
      hide Precedes;
      hide ActorOk;
      RowMoves(s, a, Updated(s.table[v.id], Failed, now, Because(ProvisionFailed), StatusKey(Failed, now)), net);
    }
  }

  lemma FailedOk(s: State, v: Session, row: Session, now: string)
    requires Joinable(v) && v.task.arn == "" && row.status == v.status && Shaped(v) && Shaped(row)
    ensures var r := Updated(row, Failed, now, Because(ProvisionFailed), StatusKey(Failed, now));
            RowOk(s, r) && Precedes(row, r) && r.task.arn == "" && r.id == row.id
  {
  }

  lemma TerminatedOk(s: State, v: Session, row: Session, reason: StopReason, now: string)
    requires Joinable(v) && row.status == v.status && RowOk(s, row) && Shaped(v) && Precedes(v, row)
    requires reason == OperatorStop || (IsReaperReason(reason) && v.status == Active)
    requires v.task.arn != "" && (reason == OperatorStop || ReaperStops(s, v)) ==> v.task.arn in s.stopped
    ensures var r := Updated(row, Terminated, now, Because(reason), StatusKey(Terminated, now));
            RowOk(s, r) && Precedes(row, r) && r.task == row.task && r.id == row.id
  {
  }

  lemma TerminateKeeps(s: State, a: nat, v: Session, reason: StopReason, now: string, net: Net)
    requires Inv(s) && a in s.actors && v in s.versions && Joinable(v)
    requires reason == OperatorStop || (IsReaperReason(reason) && v.status == Active)
    requires v.task.arn != "" && (reason == OperatorStop || ReaperStops(s, v)) ==> v.task.arn in s.stopped
    ensures Inv(Move(s, a, v.id, v.status, Terminated, now, Because(reason), net))
  {
    hide Inv;
    RowFacts(s, v);
    DropKeeps(s, a);
    if Has(s.table, v.id, v.status) {
      var row := s.table[v.id];
      TerminatedOk(s, v, row, reason, now);
      if row.task.arn != "" {
        RecordedIsUnheld(s, v.id);
      }
      hide RowOk;
      hide Precedes;
      RowMoves(s, a, Updated(row, Terminated, now, Because(reason), StatusKey(Terminated, now)), net);
    }
  }

  lemma AttachedOk(s: State, row: Session, exec: string)
    requires RowOk(s, row) && row.status == Active
    ensures var r := row.(execSessionIds := row.execSessionIds + [exec]); RowOk(s, r) && Precedes(row, r)
  {
  }

  lemma AttachKeeps(s: State, a: nat, user: string, v: Session, exec: string, net: Net)
    requires Inv(s) && a in s.actors && s.actors[a] == Attaching(user, v)
    ensures Inv(Wrote(Drop(s, a), v.id, AfterAttach(s.table, v.id, user, exec), net))
  {
    hide Inv;
    ActorFacts(s, a);
    RowFacts(s, v);
    DropKeeps(s, a);
    if MayAttach(s.table, v.id, user) {
      AttachedOk(s, s.table[v.id], exec);
      if s.table[v.id].task.arn != "" {
        RecordedIsUnheld(s, v.id);
      }
      hide RowOk;
      hide Precedes;
      hide ActorOk;
      RowMoves(s, a, s.table[v.id].(execSessionIds := s.table[v.id].execSessionIds + [exec]), net);
    }
  }

  // ---- Every event, every run ----------------------------------------------------------

  lemma ReadKeeps(s: State, a: nat, x: Actor)
    requires Inv(s) && a !in s.actors && CanRead(s, x)
    ensures Inv(Add(s, a, x))
  {
    assert ActorOk(s, x);
    hide Inv;
    AddKeeps(s, a, x);
  }

  lemma ApplyKeeps(s: State, e: Event)
    requires Inv(s)
    ensures Inv(Apply(s, e))
  {
    hide Inv;
    hide Fresh;
    hide CanRead;
    hide Wrote;
    match e
    case Start(row, net) => StartKeeps(s, row, net);
    case Read(a, x) => if a !in s.actors && CanRead(s, x) { ReadKeeps(s, a, x); }
    case RunTask(a, task, fate) =>
      if a in s.actors && s.actors[a].Joining? && Fresh(s, task) { RunKeepsInv(s, a, task, fate); }
    case Activate(a, now, net) =>
      if a in s.actors && s.actors[a].Launched? { ActivateKeeps(s, a, s.actors[a].seen, s.actors[a].task, now, net); }
    case MarkFailed(a, now, net) =>
      if a in s.actors && s.actors[a].Failing? { MarkFailedKeeps(s, a, s.actors[a].seen, now, net); }
    case Stop(a, fate) => if a in s.actors { StopKeeps(s, a, fate); }
    case Terminate(a, now, net) => if a in s.actors { TerminateEventKeeps(s, a, now, net); }
    case Attach(a, exec, net) =>
      if a in s.actors && s.actors[a].Attaching? { AttachKeeps(s, a, s.actors[a].user, s.actors[a].seen, exec, net); }
    case Exit(a) => DropKeeps(s, a);
  }

  lemma StartKeeps(s: State, row: Session, net: Net)
    requires Inv(s)
    ensures Inv(Apply(s, Start(row, net)))
  {
    if NewSession(row) && row.id !in s.table {
      InsertKeeps(s, row);
    }
  }

  lemma TerminateEventKeeps(s: State, a: nat, now: string, net: Net)
    requires Inv(s) && a in s.actors
    ensures Inv(Apply(s, Terminate(a, now, net)))
  {
    hide Inv;
    hide Move;
    ActorFacts(s, a);
    RowFacts(s, s.actors[a].seen);
    match s.actors[a]
    case OperatorStopped(v) => TerminateKeeps(s, a, v, OperatorStop, now, net);
    case ReaperStopped(v, reason) => TerminateKeeps(s, a, v, reason, now, net);
    case _ =>
  }

  /** Every state reached from a good one by any events is good. */
  lemma {:induction false} RunKeeps(s: State, es: seq<Event>)
    requires Inv(s)
    ensures Inv(Run(s, es))
    decreases |es|
  {
    hide Apply;
    hide Inv;
    if es != [] {
      RunKeeps(s, es[..|es| - 1]);
      ApplyKeeps(Run(s, es[..|es| - 1]), es[|es| - 1]);
    }
  }

  lemma Reachable(ecs: bool, es: seq<Event>)
    ensures Inv(Run(Init(ecs), es))
  {
    RunKeeps(Init(ecs), es);
  }
}
