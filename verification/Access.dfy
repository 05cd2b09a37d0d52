/** The session endpoints of the access API, each one invocation among whatever
    else goes on with the sessions. */
module Access {
  import opened Timestamps
  import opened Sessions
  import opened SessionProtocol
  import opened SessionTheorems
  import opened Reapers
  import opened Identity
  import opened Wrappers
  import opened Remote

  /** What reading one row answers: an error, nothing, or a version of the row. */
  datatype Lookup = LookupFailed | Missing | Row(session: Session)

  /** The target registry and the ECS client it leads to. */
  datatype TargetAnswer = TargetFailed | NoTarget | NoClient | Client

  datatype Response =
    | BadRequest | NotFound | Forbidden | Conflict | InternalError | Unavailable | BadGateway | UpdateError | Ok

  ghost predicate Sees(s: State, id: string, lookup: Lookup) {
    lookup.Row? ==> lookup.session in s.versions && lookup.session.id == id
  }

  /** The checks every endpoint starts with. */
  function Checked(operatorARN: string, lookup: Lookup): Response {
    match ExtractSREIdentity(operatorARN)
    case BadArn(_) => BadRequest
    case Named(username, _) =>
      match lookup
      case LookupFailed => InternalError
      case Missing => Response.NotFound
      case Row(v) => if v.terms.operator != username then Forbidden else Ok
  }

  predicate IsOwner(operatorARN: string, v: Session) {
    ExtractSREIdentity(operatorARN).Named? && ExtractSREIdentity(operatorARN).username == v.terms.operator
  }

  /** Which check fails first. */
  lemma CheckedMeans(operatorARN: string, lookup: Lookup)
    ensures var named, response := ExtractSREIdentity(operatorARN).Named?, Checked(operatorARN, lookup);
            && (response == Ok <==> lookup.Row? && IsOwner(operatorARN, lookup.session))
            && (response == BadRequest <==> !named)
            && (response == InternalError <==> named && lookup.LookupFailed?)
            && (response == Response.NotFound <==> named && lookup.Missing?)
            && (response == Forbidden <==> named && lookup.Row? && !IsOwner(operatorARN, lookup.session))
            && (response != Conflict && response != Unavailable && response != BadGateway && response != UpdateError)
  {
  }

  // ---- Steps ----------------------------------------------------------------------------

  lemma JoinBegins(s: State, me: nat, v: Session)
    requires me !in s.actors && v in s.versions && Joinable(v) && v.task.arn == ""
    ensures Apply(s, Read(me, Joining(v))) == Add(s, me, Joining(v))
  {
  }

  lemma TerminateBegins(s: State, me: nat, v: Session)
    requires me !in s.actors && v in s.versions && Joinable(v)
    ensures var s' := Apply(s, Read(me, Terminating(v))); me in s'.actors && s'.actors[me] == Terminating(v)
  {
  }

  lemma AttachBegins(s: State, me: nat, user: string, v: Session)
    requires me !in s.actors && v in s.versions && v.status == Active && v.terms.operator == user
    ensures Apply(s, Read(me, Attaching(user, v))) == Add(s, me, Attaching(user, v))
  {
  }

  lemma OperatorStopStep(s: State, me: nat, v: Session, fate: Net)
    requires me in s.actors && s.actors[me] == Terminating(v)
    ensures var s' := Apply(s, Stop(me, fate));
            if v.task.arn == "" || fate == Delivered then me in s'.actors && s'.actors[me] == OperatorStopped(v)
              else me !in s'.actors
  {
  }

  lemma OperatorEndStep(s: State, me: nat, v: Session, now: string, net: Net)
    requires me in s.actors && s.actors[me] == OperatorStopped(v)
    ensures Apply(s, Terminate(me, now, net))
              == Move(s, me, v.id, v.status, Terminated, now, Because(OperatorStop), net)
  {
  }

  lemma LaunchStep(s: State, me: nat, v: Session, task: Task, fate: Net)
    requires me in s.actors && s.actors[me] == Joining(v) && Fresh(s, task)
    ensures Apply(s, RunTask(me, task, fate)) == RunStep(s, me, v, task, fate)
  {
  }

  lemma FailStep(s: State, me: nat, v: Session, now: string, net: Net)
    requires me in s.actors && s.actors[me] == Failing(v)
    ensures Apply(s, MarkFailed(me, now, net))
              == Move(s, me, v.id, v.status, Failed, now, Because(ProvisionFailed), net)
  {
  }

  lemma AttachStep(s: State, me: nat, user: string, v: Session, exec: string, net: Net)
    requires me in s.actors && s.actors[me] == Attaching(user, v)
    ensures Apply(s, Attach(me, exec, net)) == Wrote(Drop(s, me), v.id, AfterAttach(s.table, v.id, user, exec), net)
  {
  }

  lemma MoveTo(s: State, me: nat, id: string, from: SessionStatus, to: SessionStatus, now: string, u: Updates, net: Net)
    requires Inv(s) && net != Dropped && Has(s.table, id, from) && KeyFor(to, now, u).Some? && !Over(from) && Over(to)
    ensures var s' := Move(s, me, id, from, to, now, u, net);
            && !OverIn(s, id) && OverIn(s', id) && s'.table[id].status == to
            && (u.stopReason.Some? ==> s'.table[id].stopReason == u.stopReason.value)
  {
    hide StatusKey;
    hide Inv;
  }

  /** A row an operator terminated has its task stopped. */
  lemma StoppedByOperator(s: State, id: string)
    requires Inv(s) && id in s.table && s.table[id].status == Terminated && s.table[id].stopReason == OperatorStop
    ensures s.table[id].task.arn != "" ==> s.table[id].task.arn in s.stopped
  {
    assert s.table[id].id == id && s.table[id] in s.versions;
    hide Inv;
    RowFacts(s, s.table[id]);
  }

  lemma SeenAdvanced(s: State, v: Session)
    requires Inv(s) && v in s.versions
    ensures v.id in s.table && s.table[v.id].terms == v.terms
    ensures v.task.arn != "" ==>
              s.table[v.id].task == v.task && v.task.arn in s.launched && s.launched[v.task.arn].session == v.id
    ensures v.status == Active ==> v.task.arn != ""
    ensures v.status == Creating ==> v.task.arn == ""
  {
    RowFacts(s, v);
  }

  // ---- Durations -----------------------------------------------------------------------

  const DEFAULT_HOURS: nat := 4

  function SessionHours(maxHours: int, timeoutHours: int): (hours: Option<nat>)
    ensures var most := if maxHours <= 0 then 4 else maxHours;
            && (hours.None? <==> timeoutHours > most)
            && (hours.Some? ==>
                  && 1 <= hours.value <= most
                  && (timeoutHours > 0 ==> hours.value == timeoutHours) && (timeoutHours <= 0 ==> hours.value == most))
  {
    var most := if maxHours <= 0 then DEFAULT_HOURS else maxHours;
    if timeoutHours <= 0 then Some(most)
    else if timeoutHours > most then None
    else Some(timeoutHours)
  }

  /** Hours later, in nanoseconds. */
  function Deadline(now: Instant, hours: nat): (t: Instant)
    ensures t - now == hours * 3_600_000_000_000
  {
    now + hours * 3600 * SECOND
  }

  // ---- When an endpoint does what ---------------------------------------------------------

  /** The checks of a start that need no store, then the registry's answer, then the hours. */
  predicate StartAsked(operatorARN: string, target: string, reasonOk: bool) {
    ExtractSREIdentity(operatorARN).Named? && target != "" && reasonOk
  }

  predicate TargetFound(answer: TargetAnswer) {
    answer == NoClient || answer == Client
  }

  /** The caller owns the session and it is not over. */
  predicate MayUse(operatorARN: string, lookup: Lookup) {
    Checked(operatorARN, lookup) == Ok && !Over(lookup.session.status)
  }

  /** There is no task to stop, or the stop is answered. */
  predicate TaskStops(v: Session, answer: TargetAnswer, fate: Net) {
    v.task.arn == "" || (answer == Client && fate == Delivered)
  }

  /** The world when an operator's update of a session arrives. */
  function AtTerminate(s: State, me: nat, v: Session, fate: Net, between: seq<Event>): State {
    Run(s, [Read(me, Terminating(v))] + [Stop(me, fate)] + between)
  }

  /** The world when the update that records a new task arrives. */
  function AtRecord(s: State, me: nat, v: Session, joint: Joint): State {
    Run(s, [Read(me, Joining(v))] + [RunTask(me, joint.task, joint.fate)] + joint.between)
  }

  /** A task is launched, and the launch is answered. */
  predicate Launches(joint: Joint) {
    joint.target == Client && joint.fate == Delivered
  }

  /** ... and recorded: the row is as it was seen, and the update is answered. */
  predicate RecordsTask(s: State, me: nat, v: Session, joint: Joint) {
    Launches(joint) && joint.net == Delivered && Has(AtRecord(s, me, v, joint).table, v.id, v.status)
  }

  /** What the update after a launch makes of the row: active with its task or, if the
      launch was not answered, failed. */
  predicate TaskOutcome(r: Session, r': Session, joint: Joint) {
    && r'.id == r.id && r'.terms == r.terms && r'.execSessionIds == r.execSessionIds
    && r'.terminatedAt == r.terminatedAt
    && (joint.fate == Delivered ==>
          r'.status == Active && r'.task == joint.task && r'.stopReason == r.stopReason)
    && (joint.fate != Delivered ==>
          r'.status == Failed && r'.task == r.task && r'.stopReason == ProvisionFailed)
  }

  /** The session had a task when it was read, or has got one by this join. */
  predicate HasTask(s: State, me: nat, v: Session, joint: Joint) {
    v.task.arn != "" || RecordsTask(s, me, v, joint)
  }

  /** The world when the request to attach arrives. */
  function AtAttach(s: State, me: nat, user: string, v: Session, between: seq<Event>): State {
    Run(s, [Read(me, Attaching(user, v))] + between)
  }

  // ---- The endpoints -------------------------------------------------------------------

  /** What goes on around a join: others' events before it, while the task starts and
      before the row is updated; the answers of the registry, of ECS, of the table
      and of the credential vendor. */
  datatype Joint = Joint(before: seq<Event>, between: seq<Event>, target: TargetAnswer, task: Task, fate: Net,
                         now: string, net: Net, vendor: bool)

  datatype Joined = Rejected(response: Response) | Joined(task: Task)

  class AccessHandler {
    const me: nat
    /** The world: a handler changes it only through its own requests. */
    var world: State

    constructor (me: nat, world: State)
      ensures this.me == me && this.world == world
    {
      this.me, this.world := me, world;
    }

    ghost predicate Valid()
      reads this
    {
      Inv(world) && me !in world.actors
    }

    /** Events of others. */
    method Meanwhile(es: seq<Event>)
      requires Inv(world) && Foreign(es, me)
      modifies this
      ensures world == Run(old(world), es) && Inv(world) && SamePlace(old(world), world, me)
      ensures old(world).versions <= world.versions && world.ecs == old(world).ecs
    {
      hide Apply;
      hide Inv;
      RunKeeps(world, es);
      OthersLeaveMyPlace(world, es, me);
      RunVersionsGrow(world, es);
      world := Run(world, es);
    }

    /** One event of this handler. */
    method Do(e: Event, ghost start: State, ghost trace: seq<Event>)
      requires Inv(world) && world == Run(start, trace)
      modifies this
      ensures world == Apply(old(world), e) && Inv(world) && old(world).versions <= world.versions
      ensures world == Run(start, trace + [e])
    {
      hide Apply;
      hide Inv;
      ApplyKeeps(world, e);
      VersionsGrow(world, e);
      RunSnoc(start, trace, e);
      world := Apply(world, e);
    }

    method HandleSessionStart(operatorARN: string, id: string, target: string, reasonOk: bool, answer: TargetAnswer,
                              maxHours: int, timeoutHours: int, now: Instant, net: Net) returns (response: Response)
      requires Valid()
      modifies this
      ensures Valid()
      ensures var asked, hours := StartAsked(operatorARN, target, reasonOk), SessionHours(maxHours, timeoutHours);
              var put := asked && TargetFound(answer) && hours.Some?;
              && (response == BadRequest <==> !asked || (TargetFound(answer) && hours.None?))
              && (response == Response.NotFound <==> asked && answer == NoTarget)
              && (response == Ok <==> put && net == Delivered && id !in old(world).table)
              && (response == InternalError <==>
                    (asked && answer == TargetFailed) || (put && !(net == Delivered && id !in old(world).table)))
              && (put && net != Dropped && id !in old(world).table ==>
                    && id in world.table && world.table == old(world).table[id := world.table[id]]
                    && world.table[id].status == Creating && world.table[id].task == NO_TASK
                    && world.table[id].terms == Terms(ExtractSREIdentity(operatorARN).username, target, Format(now),
                                                      Format(Deadline(now, hours.value))))
              && (!(put && net != Dropped && id !in old(world).table) ==> world == old(world))
    {
      hide Apply;
      hide Inv;
      hide ExtractSREIdentity;
      hide Format;
      hide Deadline;
      hide SessionHours;
      var identity := ExtractSREIdentity(operatorARN);
      if identity.BadArn? || target == "" || !reasonOk {
        return BadRequest;
      }
      if answer == TargetFailed {
        return InternalError;
      }
      if answer == NoTarget {
        return Response.NotFound;
      }
      var hours := SessionHours(maxHours, timeoutHours);
      if hours.None? {
        return BadRequest;
      }
      var deadline := Deadline(now, hours.value);
      var session := Session(id, Terms(identity.username, target, Format(now), Format(deadline)), "", Creating, NO_TASK,
                             "", Unstopped, [], "");
      ApplyKeeps(world, Start(session, net));
      StartMeans(world, session, net);
      NewRowMeans(session);
      hide NewSession;
      hide Stored;
      var isNew := id !in world.table;
      world := Apply(world, Start(session, net));
      return if net == Delivered && isNew then Ok else InternalError;
    }

    /** Answers that the session is terminated only if this very call ended it, for its
        operator, and its task, if it ever had one, has been stopped. */
    method HandleSessionTerminate(operatorARN: string, id: string, lookup: Lookup, answer: TargetAnswer,
                                  before: seq<Event>, between: seq<Event>, fate: Net, now: string, net: Net)
      returns (response: Response, ghost trace: seq<Event>)
      requires Valid() && Sees(world, id, lookup) && Foreign(before, me) && Foreign(between, me)
      modifies this
      ensures Valid() && world == Run(old(world), trace)
      ensures Checked(operatorARN, lookup) != Ok ==> response == Checked(operatorARN, lookup) && trace == before
      ensures Checked(operatorARN, lookup) == Ok && Over(lookup.session.status) ==>
                response == Conflict && trace == before
      ensures response == Ok ==>
                && EndedFor(old(world), trace, me, id, OperatorStop) && IsOwner(operatorARN, world.table[id])
                && (world.table[id].task.arn != "" ==> world.table[id].task.arn in world.stopped)
      ensures MayUse(operatorARN, lookup) ==>
                var v := lookup.session;
                var arrives := Has(AtTerminate(Run(old(world), before), me, v, fate, between).table, id, v.status);
                && (response == Ok <==> TaskStops(v, answer, fate) && net == Delivered && arrives)
                && (response == UpdateError <==> TaskStops(v, answer, fate) && !(net == Delivered && arrives))
                && (response == BadGateway <==> v.task.arn != "" && answer == Client && fate != Delivered)
                && (response == Unavailable <==> v.task.arn != "" && answer == NoClient)
                && (response == InternalError <==> v.task.arn != "" && !TargetFound(answer))
                && (TaskStops(v, answer, fate) && net != Dropped && arrives ==>
                      EndedFor(old(world), trace, me, id, OperatorStop))
                && (!(TaskStops(v, answer, fate) && net != Dropped && arrives) ==>
                      !EndedBy(old(world), trace, me, id))
    {
      hide Apply;
      hide Inv;
      hide ExtractSREIdentity;
      hide Move;
      hide EndedFor;
      hide EndedBy;
      hide Run;
      CheckedMeans(operatorARN, lookup);
      hide Checked;
      Meanwhile(before);
      trace := before;
      response := Checked(operatorARN, lookup);
      if response != Ok {
        return;
      }
      var session := lookup.session;
      if session.status != Active && session.status != Creating {
        return Conflict, trace;
      }
      ForeignIsNoTerminate(before, me);
      response, trace := StopAndEnd(session, answer, between, fate, now, net, old(world), trace);
    }

    /** Stops the task, if there is one, and ends the session. */
    method StopAndEnd(session: Session, answer: TargetAnswer, between: seq<Event>, fate: Net, now: string, net: Net,
                      ghost start: State, ghost so: seq<Event>)
      returns (response: Response, ghost trace: seq<Event>)
      requires Valid() && session in world.versions && Joinable(session) && Foreign(between, me)
      requires world == Run(start, so) && NoTerminate(so, me)
      modifies this
      ensures Valid() && world == Run(start, trace)
      ensures var v := session;
              var stops := TaskStops(v, answer, fate);
              var arrives := Has(AtTerminate(old(world), me, v, fate, between).table, v.id, v.status);
              && (response == Ok <==> stops && net == Delivered && arrives)
              && (response == UpdateError <==> stops && !(net == Delivered && arrives))
              && (response == BadGateway <==> v.task.arn != "" && answer == Client && fate != Delivered)
              && (response == Unavailable <==> v.task.arn != "" && answer == NoClient)
              && (response == InternalError <==> v.task.arn != "" && !TargetFound(answer))
              && (stops && net != Dropped && arrives ==>
                    && EndedFor(start, trace, me, v.id, OperatorStop)
                    && v.id in world.table && world.table[v.id].terms == v.terms
                    && (world.table[v.id].task.arn != "" ==> world.table[v.id].task.arn in world.stopped))
              && (!(stops && net != Dropped && arrives) ==> !EndedBy(start, trace, me, v.id))
    {
      hide Apply;
      hide Inv;
      hide EndedFor;
      hide EndedBy;
      hide Run;
      TriedIsNoTerminate(me, so, session, fate, between);
      hide NoTerminate;
      trace := so;
      var read, stop := Read(me, Terminating(session)), Stop(me, fate);
      RunTwo(world, read, stop);
      RunConcat(world, [read] + [stop], between);
      TerminateBegins(world, me, session);
      Do(read, start, trace);
      trace := trace + [read];
      if session.task.arn != "" && answer != Client {
        ExitStep(world, me);
        Do(Exit(me), start, trace);
        trace := trace + [Exit(me)];
        NoneEnds(start, trace, me, session.id);
        return if answer == NoClient then Unavailable else InternalError, trace;
      }
      OperatorStopStep(world, me, session, fate);
      Do(stop, start, trace);
      trace := trace + [stop];
      if session.task.arn != "" && fate != Delivered {
        NoneEnds(start, trace, me, session.id);
        return BadGateway, trace;
      }
      RunConcat(start, trace, between);
      Meanwhile(between);
      trace := trace + between;
      var ok;
      ok, trace := EndSession(session, now, net, start, trace);
      return if ok then Ok else UpdateError, trace;
    }

    /** The conditional update that ends the session for its operator. */
    method EndSession(session: Session, now: string, net: Net, ghost start: State, ghost so: seq<Event>)
      returns (ok: bool, ghost trace: seq<Event>)
      requires Inv(world) && me in world.actors && world.actors[me] == OperatorStopped(session)
      requires session in world.versions && !Over(session.status) && world == Run(start, so) && NoTerminate(so, me)
      modifies this
      ensures Valid() && world == Run(start, trace)
      ensures var arrives := Has(old(world).table, session.id, session.status);
              && (ok <==> net == Delivered && arrives)
              && (net != Dropped && arrives ==>
                    && EndedFor(start, trace, me, session.id, OperatorStop)
                    && session.id in world.table && world.table[session.id].terms == session.terms
                    && (world.table[session.id].task.arn != "" ==> world.table[session.id].task.arn in world.stopped))
              && (!(net != Dropped && arrives) ==> !EndedBy(start, trace, me, session.id))
    {
      hide Apply;
      hide Inv;
      hide Run;
      hide EndedBy;
      hide NoTerminate;
      ok := net == Delivered && Has(world.table, session.id, session.status);
      LastMayEnd(start, so, me, now, net, session.id);
      if net != Dropped && Has(world.table, session.id, session.status) {
        TerminateEnds(start, so, me, session, now, net);
      } else {
        TerminateMisses(world, me, session, now, net);
      }
      TerminateLeaves(world, me, session, now, net);
      Do(Terminate(me, now, net), start, so);
      trace := so + [Terminate(me, now, net)];
    }

    /** Starts the task of a session that has none and records it. */
    method EnsureBoundaryTask(session: Session, joint: Joint, ghost start: State, ghost so: seq<Event>)
      returns (response: Response, task: Task, ghost trace: seq<Event>)
      requires Valid() && session in world.versions && Joinable(session) && world == Run(start, so)
      requires Fresh(world, joint.task) && Foreign(joint.between, me)
      modifies this
      ensures Valid() && world == Run(start, trace)
      ensures response == Ok || response == BadGateway || response == UpdateError
      ensures response == Ok ==>
                && session.id in world.table && world.table[session.id].task == task && task.arn != ""
                && world.table[session.id].terms == session.terms
                && task.arn in world.launched && world.launched[task.arn].session == session.id
      ensures response == UpdateError ==>
                || Orphan(world, joint.task.arn)
                || (joint.net == ReplyLost && session.id in world.table && world.table[session.id].task == joint.task)
      ensures response == BadGateway && joint.target == Client && session.task.arn == "" && joint.fate == ReplyLost ==>
                Orphan(world, joint.task.arn)
      ensures session.task.arn != "" ==> response == Ok && trace == so && task == session.task && world == old(world)
      ensures session.task.arn == "" ==>
                && (response == Ok <==> RecordsTask(old(world), me, session, joint))
                && (response == BadGateway <==> !Launches(joint))
                && (response == UpdateError <==> Launches(joint) && !RecordsTask(old(world), me, session, joint))
                && (response == Ok ==> task == joint.task)
      ensures session.task.arn == "" && joint.target != Client ==> world == old(world) && trace == so
      ensures session.task.arn == "" && joint.target == Client ==>
                var t := AtRecord(old(world), me, session, joint).table;
                var arrives := joint.net != Dropped && Has(t, session.id, session.status);
                && (!arrives ==> world.table == t)
                && (arrives ==>
                      session.id in world.table && world.table == t[session.id := world.table[session.id]]
                      && TaskOutcome(t[session.id], world.table[session.id], joint))
    {
      hide Apply;
      hide Inv;
      hide Fresh;
      hide Orphan;
      hide Move;
      trace := so;
      task := session.task;
      SeenAdvanced(world, session);
      if session.task.arn != "" {
        return Ok, task, trace;
      }
      if joint.target != Client {
        return BadGateway, task, trace;
      }
      JoinBegins(world, me, session);
      StaysFresh(world, me, session, joint.task);
      Do(Read(me, Joining(session)), start, trace);
      trace := trace + [Read(me, Joining(session))];
      ghost var begun := [Read(me, Joining(session))];
      RunTwo(old(world), Read(me, Joining(session)), RunTask(me, joint.task, joint.fate));
      RunConcat(old(world), begun + [RunTask(me, joint.task, joint.fate)], joint.between);
      LaunchStep(world, me, session, joint.task, joint.fate);
      if joint.fate == ReplyLost {
        LostAnswerOrphans(world, me, joint.task);
      }
      Do(RunTask(me, joint.task, joint.fate), start, trace);
      trace := trace + [RunTask(me, joint.task, joint.fate)];
      RunConcat(start, trace, joint.between);
      if joint.fate == ReplyLost {
        OrphansAreForever(world, joint.between, joint.task.arn);
      }
      Meanwhile(joint.between);
      trace := trace + joint.between;
      ghost var last := world;
      if joint.fate != Delivered {
        FailStep(world, me, session, joint.now, joint.net);
        if joint.fate == ReplyLost {
          StepKeepsOrphan(world, MarkFailed(me, joint.now, joint.net), joint.task.arn);
        }
        Do(MarkFailed(me, joint.now, joint.net), start, trace);
        trace := trace + [MarkFailed(me, joint.now, joint.net)];
        MoveLeaves(last, me, session.id, session.status, Failed, joint.now, Because(ProvisionFailed), joint.net);
        OutcomeTable(last, me, session, joint, Because(ProvisionFailed));
        return BadGateway, task, trace;
      }
      var ok := joint.net == Delivered && Has(world.table, session.id, session.status);
      assert world == AtRecord(old(world), me, session, joint);
      ActivationDecides(world, me, joint.now, joint.net);
      ActivateStep(world, me, session, joint.task, joint.now, joint.net);
      Do(Activate(me, joint.now, joint.net), start, trace);
      trace := trace + [Activate(me, joint.now, joint.net)];
      MoveLeaves(last, me, session.id, session.status, Active, joint.now,
                 Updates(Some(joint.task), Some(session.terms.deadline), None), joint.net);
      OutcomeTable(last, me, session, joint, Updates(Some(joint.task), Some(session.terms.deadline), None));
      SeenAdvanced(world, session);
      if !ok {
        return UpdateError, task, trace;
      }
      RecordedIsLaunched(world, session.id);
      return Ok, joint.task, trace;
    }

    /** A join that succeeds answers with the one task the session's row records,
        launched for this session, to the operator who started it, whatever other joins
        and terminates do meanwhile. */
    method HandleSessionJoin(operatorARN: string, id: string, lookup: Lookup, joint: Joint)
      returns (joined: Joined, ghost trace: seq<Event>)
      requires Valid() && Sees(world, id, lookup) && Foreign(joint.before, me) && Foreign(joint.between, me)
      requires Fresh(Run(world, joint.before), joint.task)
      modifies this
      ensures Valid() && world == Run(old(world), trace)
      ensures Checked(operatorARN, lookup) != Ok ==>
                joined == Rejected(Checked(operatorARN, lookup)) && trace == joint.before
      ensures Checked(operatorARN, lookup) == Ok && Over(lookup.session.status) ==>
                joined == Rejected(Conflict) && trace == joint.before
      ensures joined == Rejected(InternalError) <==>
                || Checked(operatorARN, lookup) == InternalError
                || (&& MayUse(operatorARN, lookup) && HasTask(Run(old(world), joint.before), me, lookup.session, joint)
                    && !(TargetFound(joint.target) && joint.vendor))
      ensures joined.Joined? <==>
                && MayUse(operatorARN, lookup) && HasTask(Run(old(world), joint.before), me, lookup.session, joint)
                && TargetFound(joint.target) && joint.vendor
      ensures joined == Rejected(BadGateway) <==>
                MayUse(operatorARN, lookup) && lookup.session.task.arn == "" && !Launches(joint)
      ensures joined == Rejected(UpdateError) <==>
                && MayUse(operatorARN, lookup) && lookup.session.task.arn == "" && Launches(joint)
                && !RecordsTask(Run(old(world), joint.before), me, lookup.session, joint)
      ensures joined.Joined? ==>
                && id in world.table && world.table[id].task == joined.task && joined.task.arn != ""
                && IsOwner(operatorARN, world.table[id])
                && joined.task.arn in world.launched && world.launched[joined.task.arn].session == id
      ensures joined == Rejected(UpdateError) && joint.net != ReplyLost ==> Orphan(world, joint.task.arn)
      ensures joined == Rejected(BadGateway) && joint.target == Client && joint.fate == ReplyLost ==>
                Orphan(world, joint.task.arn)
    {
      hide Apply;
      hide Inv;
      hide ExtractSREIdentity;
      hide Fresh;
      hide Orphan;
      CheckedMeans(operatorARN, lookup);
      Meanwhile(joint.before);
      trace := joint.before;
      var response := Checked(operatorARN, lookup);
      if response != Ok {
        return Rejected(response), trace;
      }
      var session := lookup.session;
      if session.status != Active && session.status != Creating {
        return Rejected(Conflict), trace;
      }
      SeenAdvanced(world, session);
      assert session.task.arn != "" ==> session.status == Active;
      var task;
      response, task, trace := EnsureBoundaryTask(session, joint, old(world), trace);
      if response != Ok {
        return Rejected(response), trace;
      }
      if joint.target == TargetFailed || joint.target == NoTarget || !joint.vendor {
        return Rejected(InternalError), trace;
      }
      return Joined(task), trace;
    }

    /** Answers that the exec session is recorded only if the row now lists it, after
        everything it listed before. */
    method HandleSessionExecAttached(operatorARN: string, id: string, exec: string, execOk: bool, lookup: Lookup,
                                     before: seq<Event>, between: seq<Event>, net: Net)
      returns (response: Response, ghost trace: seq<Event>)
      requires Valid() && Sees(world, id, lookup) && Foreign(before, me) && Foreign(between, me)
      modifies this
      ensures Valid() && world == Run(old(world), trace)
      ensures response == Ok ==>
                && lookup.Row? && id in world.table && IsOwner(operatorARN, world.table[id])
                   && world.table[id].status == Active
                && lookup.session.execSessionIds <= world.table[id].execSessionIds
                && |world.table[id].execSessionIds| > |lookup.session.execSessionIds|
                && world.table[id].execSessionIds[|world.table[id].execSessionIds| - 1] == exec
      ensures response == BadRequest <==> Checked(operatorARN, lookup) == BadRequest || !execOk
      ensures execOk && Checked(operatorARN, lookup) != Ok ==>
                response == Checked(operatorARN, lookup) && trace == before
      ensures execOk && Checked(operatorARN, lookup) == Ok ==>
                var v := lookup.session;
                var t := AtAttach(Run(old(world), before), me, v.terms.operator, v, between).table;
                var may := v.status == Active && MayAttach(t, id, v.terms.operator);
                && (response == Ok <==> may && net == Delivered)
                && (response == Conflict <==> v.status != Active || (net == Delivered && !may))
                && (response == InternalError <==> v.status == Active && net != Delivered)
                && (v.status == Active && may && net != Dropped ==>
                      world.table == t[id := t[id].(execSessionIds := t[id].execSessionIds + [exec])])
                && (v.status == Active && !(may && net != Dropped) ==> world.table == t)
                && (v.status != Active ==> trace == before)
    {
      hide Apply;
      hide Inv;
      hide ExtractSREIdentity;
      CheckedMeans(operatorARN, lookup);
      Meanwhile(before);
      trace := before;
      response := Checked(operatorARN, lookup);
      if response == BadRequest || !execOk {
        return BadRequest, trace;
      }
      if response != Ok {
        return;
      }
      var session := lookup.session;
      if session.status != Active {
        return Conflict, trace;
      }
      response, trace := RecordAttached(session, exec, between, net, old(world), trace);
    }

    /** The conditional update that records the exec session of an owner. */
    method RecordAttached(session: Session, exec: string, between: seq<Event>, net: Net, ghost start: State,
                          ghost so: seq<Event>)
      returns (response: Response, ghost trace: seq<Event>)
      requires Valid() && session in world.versions && session.status == Active && Foreign(between, me)
      requires world == Run(start, so)
      modifies this
      ensures Valid() && world == Run(start, trace)
      ensures var v, user := session, session.terms.operator;
              var t := AtAttach(old(world), me, user, v, between).table;
              var may := MayAttach(t, v.id, user);
              && (response == Ok <==> may && net == Delivered)
              && (response == Conflict <==> net == Delivered && !may)
              && (response == InternalError <==> net != Delivered)
              && v.id in t && t[v.id].terms == v.terms && v.execSessionIds <= t[v.id].execSessionIds
              && world.table == if may && net != Dropped
                                then t[v.id := t[v.id].(execSessionIds := t[v.id].execSessionIds + [exec])] else t
    {
      hide Apply;
      hide Inv;
      hide Run;
      var user := session.terms.operator;
      var read := Read(me, Attaching(user, session));
      RunOne(world, read);
      RunConcat(world, [read], between);
      AttachBegins(world, me, user, session);
      Do(read, start, so);
      trace := so + [read];
      RunConcat(start, trace, between);
      Meanwhile(between);
      trace := trace + between;
      var may := MayAttach(world.table, session.id, user);
      SeenAttached(world, session);
      AttachStep(world, me, user, session, exec, net);
      AttachLeaves(world, me, session.id, user, exec, net);
      Do(Attach(me, exec, net), start, trace);
      trace := trace + [Attach(me, exec, net)];
      if net == Delivered && may {
        return Ok, trace;
      }
      return if net == Delivered then Conflict else InternalError, trace;
    }
  }

  lemma RunTwo(s: State, e: Event, f: Event)
    ensures Run(s, [e] + [f]) == Apply(Apply(s, e), f)
  {
    RunSnoc(s, [e], f);
    RunOne(s, e);
  }

  lemma NewRowMeans(row: Session)
    requires NewSession(row)
    ensures Stored(row).status == Creating && Stored(row).task == NO_TASK && Stored(row).terms == row.terms
  {
    hide StatusKey;
  }

  lemma StartMeans(s: State, row: Session, net: Net)
    requires NewSession(row)
    ensures var s' := Apply(s, Start(row, net));
            && s'.actors == s.actors
            && (net == Dropped || row.id in s.table ==> s' == s)
            && (net != Dropped && row.id !in s.table ==> s'.table == s.table[row.id := Stored(row)])
  {
    hide StatusKey;
  }

  lemma ExitStep(s: State, me: nat)
    ensures Apply(s, Exit(me)) == Drop(s, me)
  {
  }

  lemma MoveLeaves(s: State, me: nat, id: string, from: SessionStatus, to: SessionStatus, now: string, u: Updates,
                   net: Net)
    ensures me !in Move(s, me, id, from, to, now, u, net).actors
  {
    hide AfterUpdate;
    WroteGrows(Drop(s, me), id, AfterUpdate(s.table, id, from, to, now, u), net);
    hide Wrote;
  }

  lemma OutcomeTable(s: State, me: nat, v: Session, joint: Joint, u: Updates)
    requires Inv(s) && v in s.versions
    requires joint.fate == Delivered ==> u == Updates(Some(joint.task), Some(v.terms.deadline), None)
    requires joint.fate != Delivered ==> u == Because(ProvisionFailed)
    ensures var to := if joint.fate == Delivered then Active else Failed;
            var t' := Move(s, me, v.id, v.status, to, joint.now, u, joint.net).table;
            if joint.net != Dropped && Has(s.table, v.id, v.status)
            then v.id in t' && t' == s.table[v.id := t'[v.id]] && TaskOutcome(s.table[v.id], t'[v.id], joint)
            else t' == s.table
  {
    hide StatusKey;
    SeenAdvanced(s, v);
    hide Inv;
  }

  lemma TerminateLeaves(s: State, me: nat, v: Session, now: string, net: Net)
    requires me in s.actors && s.actors[me] == OperatorStopped(v)
    ensures me !in Apply(s, Terminate(me, now, net)).actors
  {
    OperatorEndStep(s, me, v, now, net);
    MoveLeaves(s, me, v.id, v.status, Terminated, now, Because(OperatorStop), net);
  }

  lemma TriedIsNoTerminate(me: nat, before: seq<Event>, v: Session, fate: Net, between: seq<Event>)
    requires NoTerminate(before, me) && Foreign(between, me)
    ensures var begun := before + [Read(me, Terminating(v))];
            && NoTerminate(begun + [Exit(me)], me) && NoTerminate(begun + [Stop(me, fate)], me)
            && NoTerminate(begun + [Stop(me, fate)] + between, me)
  {
    ForeignIsNoTerminate(between, me);
  }

  lemma TerminateMisses(s: State, me: nat, v: Session, now: string, net: Net)
    requires me in s.actors && s.actors[me] == OperatorStopped(v) && (net == Dropped || !Has(s.table, v.id, v.status))
    ensures Apply(s, Terminate(me, now, net)).table == s.table
  {
    OperatorEndStep(s, me, v, now, net);
  }

  /** An operator's update that arrives ends the session, whose task is stopped. */
  lemma TerminateEnds(start: State, trace: seq<Event>, me: nat, v: Session, now: string, net: Net)
    requires var s := Run(start, trace);
             && Inv(s) && me in s.actors && s.actors[me] == OperatorStopped(v) && v in s.versions
             && net != Dropped && !Over(v.status) && Has(s.table, v.id, v.status)
    ensures var all := trace + [Terminate(me, now, net)]; var s' := Run(start, all);
            && EndedFor(start, all, me, v.id, OperatorStop) && s'.table[v.id].terms == v.terms
            && (s'.table[v.id].task.arn != "" ==> s'.table[v.id].task.arn in s'.stopped)
  {
    hide Apply;
    hide Inv;
    hide Run;
    hide Move;
    hide EndedBy;
    var s, e := Run(start, trace), Terminate(me, now, net);
    OperatorEndStep(s, me, v, now, net);
    MoveTo(s, me, v.id, v.status, Terminated, now, Because(OperatorStop), net);
    LastEventEnds(start, trace, me, now, net, v.id, OperatorStop);
    RunSnoc(start, trace, e);
    ApplyKeeps(s, e);
    VersionsGrow(s, e);
    StoppedByOperator(Apply(s, e), v.id);
    SeenAdvanced(Apply(s, e), v);
  }

  lemma StaysFresh(s: State, me: nat, v: Session, task: Task)
    requires Fresh(s, task)
    ensures Fresh(Add(s, me, Joining(v)), task)
  {
  }

  lemma RecordedIsLaunched(s: State, id: string)
    requires Inv(s) && id in s.table && s.table[id].task.arn != ""
    ensures s.table[id].task.arn in s.launched && s.launched[s.table[id].task.arn].session == id
  {
    RowIsBacked(s, id);
  }

  lemma SeenAttached(s: State, v: Session)
    requires Inv(s) && v in s.versions
    ensures v.id in s.table && s.table[v.id].terms == v.terms && v.execSessionIds <= s.table[v.id].execSessionIds
  {
    RowFacts(s, v);
  }

  lemma AttachLeaves(s: State, me: nat, id: string, user: string, exec: string, net: Net)
    ensures var s' := Wrote(Drop(s, me), id, AfterAttach(s.table, id, user, exec), net);
            && me !in s'.actors
            && (net != Dropped && MayAttach(s.table, id, user) ==>
                  s'.table == s.table[id := s.table[id].(execSessionIds := s.table[id].execSessionIds + [exec])])
            && (net == Dropped || !MayAttach(s.table, id, user) ==> s'.table == s.table)
  {
  }
}
