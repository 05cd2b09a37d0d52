/** The session reaper: one run over the expired and the idle sessions of a target
    while everything else that touches sessions goes on around it. */
module Reapers {
  import opened Lex
  import opened Sessions
  import opened SessionProtocol
  import opened SessionTheorems
  import opened Wrappers
  import opened Remote

  /** What LastTerminalActivity reports, in any unit of time. */
  datatype Activity = CheckFailed | NotFound | Found(last: int)

  /** What the world does around one session: events before and during its
      termination, the fate of the stop and of the update, its activity. */
  datatype Turn = Turn(before: seq<Event>, between: seq<Event>, fate: Net, now: string, net: Net, activity: Activity)

  /** The target-status index: its answer for a table and a time. */
  type Index = (Table, string) -> seq<Session>

  ghost predicate AnswersExpired(index: Index, target: string) {
    forall t, now :: IsAnswer(index(t, now), t, r => PastKey(r, target, now))
  }

  ghost predicate AnswersAhead(index: Index, target: string) {
    forall t, now :: IsAnswer(index(t, now), t, r => AheadKey(r, target, now))
  }

  /** One scan: the time it compares deadlines with, whether the query fails, the
      index, and the turns of the sessions it lists. */
  datatype Scan = Scan(now: string, failing: bool, index: Index, turns: nat -> Turn)

  // ---- Other actors ----------------------------------------------------------------

  predicate Foreign(es: seq<Event>, me: nat) {
    forall i :: 0 <= i < |es| ==> es[i].Start? || es[i].a != me
  }

  predicate ForeignTurn(turn: Turn, me: nat) {
    Foreign(turn.before, me) && Foreign(turn.between, me)
  }

  /** The reaper's own place is as it was. */
  predicate SamePlace(s: State, s': State, me: nat) {
    (me in s'.actors <==> me in s.actors) && (me in s.actors ==> s'.actors[me] == s.actors[me])
  }

  lemma OthersStep(s: State, e: Event, me: nat)
    requires e.Start? || e.a != me
    ensures SamePlace(s, Apply(s, e), me)
  {
    hide Wrote;
    hide CanRead;
    hide Fresh;
    hide NewSession;
    forall s0: State, id, t, net ensures Wrote(s0, id, t, net).actors == s0.actors {
      WroteGrows(s0, id, t, net);
    }
  }

  lemma {:induction false} OthersLeaveMyPlace(s: State, es: seq<Event>, me: nat)
    requires Foreign(es, me)
    ensures SamePlace(s, Run(s, es), me)
    decreases |es|
  {
    hide Apply;
    if es != [] {
      OthersLeaveMyPlace(s, es[..|es| - 1], me);
      OthersStep(Run(s, es[..|es| - 1]), es[|es| - 1], me);
    }
  }

  /** The reaper itself sets out on nothing but e. */
  predicate ReadsOnly(trace: seq<Event>, me: nat, e: Event) {
    forall i :: 0 <= i < |trace| && trace[i].Read? && trace[i].a == me ==> trace[i] == e
  }

  /** Others' events, and a termination around them, read nothing more. */
  lemma OneRead(before: seq<Event>, e: Event, between: seq<Event>, me: nat, fate: Net, now: string, net: Net)
    requires Foreign(before, me) && Foreign(between, me)
    ensures var part := before + [e] + [Stop(me, fate)];
            && ReadsOnly(part, me, e) && e in part
            && var whole := part + between + [Terminate(me, now, net)];
               ReadsOnly(whole, me, e) && e in whole
  {
    var part := before + [e] + [Stop(me, fate)];
    assert part[|before|] == e;
    var whole := part + between + [Terminate(me, now, net)];
    assert whole[|before|] == e;
  }

  // ---- Sessions ended by this run --------------------------------------------------

  /** One of the run's own requests is the event that ended the session. */
  ghost predicate EndedBy(s: State, trace: seq<Event>, me: nat, id: string) {
    exists i :: 0 <= i < |trace| && EndsAt(s, trace, me, id, i)
  }

  predicate EndsAt(s: State, trace: seq<Event>, me: nat, id: string, i: nat)
    requires i < |trace|
  {
    trace[i].Terminate? && trace[i].a == me && !OverIn(Run(s, trace[..i]), id) && OverIn(Run(s, trace[..i + 1]), id)
  }

  ghost predicate EndedFor(s: State, trace: seq<Event>, me: nat, id: string, reason: StopReason) {
    && EndedBy(s, trace, me, id) && id in Run(s, trace).table
    && Run(s, trace).table[id].status == Terminated && Run(s, trace).table[id].stopReason == reason
  }

  /** More events, before or after, do not change that. */
  lemma EndedWithin(s: State, pre: seq<Event>, trace: seq<Event>, post: seq<Event>, me: nat, id: string)
    requires EndedBy(Run(s, pre), trace, me, id)
    ensures EndedBy(s, pre + trace + post, me, id)
  {
    hide Apply;
    var i :| 0 <= i < |trace| && EndsAt(Run(s, pre), trace, me, id, i);
    var all, k := pre + trace + post, |pre| + i;
    assert all[..k] == pre + trace[..i] && all[..k + 1] == pre + trace[..i + 1] && all[k] == trace[i];
    RunConcat(s, pre, trace[..i]);
    RunConcat(s, pre, trace[..i + 1]);
    assert EndsAt(s, all, me, id, k);
  }

  lemma {:induction false} OverStays(s: State, es: seq<Event>, id: string)
    requires Inv(s) && OverIn(s, id)
    ensures id in Run(s, es).table && Run(s, es).table[id] == s.table[id]
    decreases |es|
  {
    hide Apply;
    hide Inv;
    if es != [] {
      OverStays(s, es[..|es| - 1], id);
      RunKeeps(s, es[..|es| - 1]);
      StepAdvances(Run(s, es[..|es| - 1]), es[|es| - 1], id);
    }
  }

  lemma EndedForWithin(s: State, pre: seq<Event>, trace: seq<Event>, post: seq<Event>, me: nat, id: string,
                       reason: StopReason)
    requires Inv(s) && EndedFor(Run(s, pre), trace, me, id, reason)
    ensures EndedFor(s, pre + trace + post, me, id, reason)
  {
    hide Apply;
    hide Inv;
    EndedWithin(s, pre, trace, post, me, id);
    RunConcat(s, pre, trace);
    RunConcat(s, pre + trace, post);
    RunKeeps(s, pre + trace);
    OverStays(Run(s, pre + trace), post, id);
  }

  lemma EndedForStays(s: State, trace: seq<Event>, post: seq<Event>, me: nat, id: string, reason: StopReason)
    requires Inv(s) && EndedFor(s, trace, me, id, reason)
    ensures EndedFor(s, trace + post, me, id, reason)
  {
    hide EndedFor;
    hide Inv;
    assert [] + trace + post == trace + post;
    EndedForWithin(s, [], trace, post, me, id, reason);
  }

  lemma EndedForAtEnd(s: State, pre: seq<Event>, trace: seq<Event>, me: nat, id: string, reason: StopReason)
    requires Inv(s) && EndedFor(Run(s, pre), trace, me, id, reason)
    ensures EndedFor(s, pre + trace, me, id, reason)
  {
    hide EndedFor;
    hide Inv;
    assert pre + trace + [] == pre + trace;
    EndedForWithin(s, pre, trace, [], me, id, reason);
  }

  /** A listed unexpired session the run may leave alone. */
  predicate Exempt(v: Session, activity: Activity, parse: string -> Option<int>, cutoff: int) {
    || v.task.id == "" || v.terms.target == ""
    || (activity.Found? && activity.last > cutoff)
    || (activity.NotFound? && (parse(v.terms.createdAt).None? || parse(v.terms.createdAt).value > cutoff))
  }

  /** What the run sets out to terminate as idle. */
  predicate Due(v: Session, activity: Activity, parse: string -> Option<int>, cutoff: int) {
    !activity.CheckFailed? && !Exempt(v, activity, parse, cutoff)
  }

  // ---- The steps of one termination ------------------------------------------------

  lemma BeginStep(s: State, me: nat, v: Session, reason: StopReason)
    requires me !in s.actors && v in s.versions && v.status == Active && IsReaperReason(reason)
    ensures Apply(s, Read(me, Reaping(v, reason))) == Add(s, me, Reaping(v, reason))
  {
  }

  lemma StopOrSkip(s: State, me: nat, v: Session, reason: StopReason, fate: Net)
    requires me in s.actors && s.actors[me] == Reaping(v, reason)
    ensures Apply(s, Stop(me, fate)) ==
              if ReaperStops(s, v) then StopStep(s, me, v.task.arn, fate, ReaperStopped(v, reason))
              else Add(s, me, ReaperStopped(v, reason))
  {
  }

  lemma EndStep(s: State, me: nat, v: Session, reason: StopReason, now: string, net: Net)
    requires me in s.actors && s.actors[me] == ReaperStopped(v, reason)
    ensures Apply(s, Terminate(me, now, net)) == Move(s, me, v.id, Active, Terminated, now, Because(reason), net)
  {
  }

  lemma MoveEnds(s: State, me: nat, id: string, reason: StopReason, now: string, net: Net)
    requires Inv(s) && net != Dropped && Has(s.table, id, Active)
    ensures var s' := Move(s, me, id, Active, Terminated, now, Because(reason), net);
            !OverIn(s, id) && OverIn(s', id) && s'.table[id].status == Terminated && s'.table[id].stopReason == reason
  {
    hide StatusKey;
    hide Inv;
  }

  /** The last event of a termination is the one that ended the session. */
  lemma LastEventEnds(s: State, trace: seq<Event>, me: nat, now: string, net: Net, id: string, reason: StopReason)
    requires var before := Run(s, trace); var after := Apply(before, Terminate(me, now, net));
             !OverIn(before, id) && OverIn(after, id) && after.table[id].status == Terminated
               && after.table[id].stopReason == reason
    ensures EndedFor(s, trace + [Terminate(me, now, net)], me, id, reason)
  {
    hide Apply;
    var all := trace + [Terminate(me, now, net)];
    RunSnoc(s, trace, Terminate(me, now, net));
    assert all[..|trace|] == trace && all[..|trace| + 1] == all;
    assert EndsAt(s, all, me, id, |trace|);
  }

  /** What a scan lists are current active rows. */
  lemma ListedAreActive(s: State, listed: seq<Session>, condition: Session -> bool, target: string, now: string)
    requires Inv(s) && IsAnswer(listed, s.table, condition)
    requires forall r :: condition(r) ==> PastKey(r, target, now) || AheadKey(r, target, now)
    ensures KeysAgree(s.table)
    ensures forall v :: v in listed ==> v in s.versions && v.status == Active && v.id in s.table && s.table[v.id] == v
  {
    InvKeysAgree(s);
    forall v | v in listed ensures v in s.versions && v.status == Active {
      PastMeansExpired(s.table, v.id, target, now);
      AheadMeansUnexpired(s.table, v.id, target, now);
      assert s.table[v.id].id == v.id;
    }
  }

  lemma InvKeysAgree(s: State)
    requires Inv(s)
    ensures KeysAgree(s.table)
  {
    forall id | id in s.table ensures s.table[id].id == id && Filed(s.table[id]) {
      RowIsFiled(s, id);
    }
  }

  // ---- When a termination succeeds ---------------------------------------------------

  /** There is nothing to stop, no way to stop it, or the stop is answered. */
  predicate StopPasses(ecs: bool, v: Session, fate: Net) {
    v.task.arn == "" || v.task.cluster == "" || !ecs || fate == Delivered
  }

  /** What happens until the update that ends the session arrives. */
  function UntilUpdate(me: nat, v: Session, reason: StopReason, turn: Turn): seq<Event> {
    turn.before + [Read(me, Reaping(v, reason))] + [Stop(me, turn.fate)] + turn.between
  }

  /** The events around one termination. */
  function Termination(ecs: bool, me: nat, v: Session, reason: StopReason, turn: Turn): seq<Event> {
    if StopPasses(ecs, v, turn.fate) then UntilUpdate(me, v, reason, turn) + [Terminate(me, turn.now, turn.net)]
    else turn.before + [Read(me, Reaping(v, reason))] + [Stop(me, turn.fate)]
  }

  /** The update arrives, if the stop passes, and finds the session active. */
  predicate UpdateArrives(s: State, me: nat, v: Session, reason: StopReason, turn: Turn) {
    && StopPasses(s.ecs, v, turn.fate) && turn.net != Dropped
    && Has(Run(s, UntilUpdate(me, v, reason, turn)).table, v.id, Active)
  }

  /** ... and is answered. */
  predicate Succeeds(s: State, me: nat, v: Session, reason: StopReason, turn: Turn) {
    UpdateArrives(s, me, v, reason, turn) && turn.net == Delivered
  }

  predicate NoTerminate(es: seq<Event>, me: nat) {
    forall i :: 0 <= i < |es| ==> !(es[i].Terminate? && es[i].a == me)
  }

  lemma ForeignIsNoTerminate(es: seq<Event>, me: nat)
    requires Foreign(es, me)
    ensures NoTerminate(es, me)
  {
  }

  lemma NoTerminateBoth(es: seq<Event>, fs: seq<Event>, me: nat)
    requires NoTerminate(es, me) && NoTerminate(fs, me)
    ensures NoTerminate(es + fs, me)
  {
  }

  /** Only a request to end the session can be the one that ended it. */
  lemma NoneEnds(s: State, es: seq<Event>, me: nat, id: string)
    requires NoTerminate(es, me)
    ensures !EndedBy(s, es, me, id)
  {
  }

  lemma LastMayEnd(s: State, es: seq<Event>, me: nat, now: string, net: Net, id: string)
    requires NoTerminate(es, me)
    ensures EndedBy(s, es + [Terminate(me, now, net)], me, id) <==>
              !OverIn(Run(s, es), id) && OverIn(Apply(Run(s, es), Terminate(me, now, net)), id)
  {
    hide Run;
    hide Apply;
    hide OverIn;
    var e := Terminate(me, now, net);
    var trace := es + [e];
    assert trace[..|es|] == es && trace[..|es| + 1] == trace && trace[|es|] == e;
    RunSnoc(s, es, e);
    if EndedBy(s, trace, me, id) {
      var i :| 0 <= i < |trace| && EndsAt(s, trace, me, id, i);
      assert i < |es| ==> trace[i] == es[i];
    } else {
      assert !EndsAt(s, trace, me, id, |es|);
    }
  }

  lemma OnlyLastCanEnd(s: State, me: nat, v: Session, reason: StopReason, turn: Turn)
    requires ForeignTurn(turn, me)
    ensures var trace := Termination(s.ecs, me, v, reason, turn);
            EndedBy(s, trace, me, v.id) <==>
              && StopPasses(s.ecs, v, turn.fate)
              && var before := Run(s, UntilUpdate(me, v, reason, turn));
                 !OverIn(before, v.id) && OverIn(Apply(before, Terminate(me, turn.now, turn.net)), v.id)
  {
    hide Run;
    hide Apply;
    hide OverIn;
    hide EndedBy;
    ForeignIsNoTerminate(turn.before, me);
    ForeignIsNoTerminate(turn.between, me);
    var tried := turn.before + [Read(me, Reaping(v, reason))] + [Stop(me, turn.fate)];
    assert NoTerminate(tried, me);
    NoneEnds(s, tried, me, v.id);
    NoTerminateBoth(tried, turn.between, me);
    LastMayEnd(s, UntilUpdate(me, v, reason, turn), me, turn.now, turn.net, v.id);
  }

  lemma MoveMisses(s: State, me: nat, id: string, reason: StopReason, now: string, net: Net)
    requires net == Dropped || !Has(s.table, id, Active)
    ensures Move(s, me, id, Active, Terminated, now, Because(reason), net).table == s.table
  {
  }

  /** A termination ends the session exactly if its update arrives. */
  lemma EndsExactly(s: State, me: nat, v: Session, reason: StopReason, turn: Turn)
    requires Inv(s) && me !in s.actors && v in s.versions && v.status == Active && IsReaperReason(reason)
    requires ForeignTurn(turn, me)
    requires StopPasses(s.ecs, v, turn.fate) ==>
               var before := Run(s, UntilUpdate(me, v, reason, turn));
               Inv(before) && me in before.actors && before.actors[me] == ReaperStopped(v, reason)
    ensures EndedFor(s, Termination(s.ecs, me, v, reason, turn), me, v.id, reason) <==>
              UpdateArrives(s, me, v, reason, turn)
  {
    hide Run;
    hide Apply;
    hide Inv;
    hide Move;
    OnlyLastCanEnd(s, me, v, reason, turn);
    if StopPasses(s.ecs, v, turn.fate) {
      var until, e := UntilUpdate(me, v, reason, turn), Terminate(me, turn.now, turn.net);
      var before := Run(s, until);
      EndStep(before, me, v, reason, turn.now, turn.net);
      RunSnoc(s, until, e);
      if turn.net != Dropped && Has(before.table, v.id, Active) {
        MoveEnds(before, me, v.id, reason, turn.now, turn.net);
      } else {
        MoveMisses(before, me, v.id, reason, turn.now, turn.net);
      }
    }
  }

  // ---- When a scan succeeds -----------------------------------------------------------

  /** The events around the first n terminations of the deadline scan. */
  function Terminations(ecs: bool, me: nat, listed: seq<Session>, turns: nat -> Turn, n: nat): seq<Event>
    requires n <= |listed|
  {
    if n == 0 then []
    else
      Terminations(ecs, me, listed, turns, n - 1)
      + Termination(ecs, me, listed[n - 1], DeadlineReaperStop, turns(n - 1))
  }

  /** The j-th termination of the deadline scan succeeds. */
  predicate DeadlineEnds(s: State, me: nat, listed: seq<Session>, turns: nat -> Turn, j: nat)
    requires j < |listed|
  {
    Succeeds(Run(s, Terminations(s.ecs, me, listed, turns, j)), me, listed[j], DeadlineReaperStop, turns(j))
  }

  /** The events around the first n sessions of the idle scan: only due ones are tried. */
  function IdleEvents(ecs: bool, me: nat, listed: seq<Session>, turns: nat -> Turn, parse: string -> Option<int>,
                      cutoff: int, n: nat): seq<Event>
    requires n <= |listed|
  {
    if n == 0 then []
    else
      IdleEvents(ecs, me, listed, turns, parse, cutoff, n - 1)
      + (if Due(listed[n - 1], turns(n - 1).activity, parse, cutoff)
         then Termination(ecs, me, listed[n - 1], IdleReaperStop, turns(n - 1)) else [])
  }

  /** The j-th session of the idle scan is exempt, or due and its termination succeeds. */
  predicate IdleEnds(s: State, me: nat, listed: seq<Session>, turns: nat -> Turn, parse: string -> Option<int>,
                     cutoff: int, j: nat)
    requires j < |listed|
  {
    || Exempt(listed[j], turns(j).activity, parse, cutoff)
    || (&& Due(listed[j], turns(j).activity, parse, cutoff)
        && var before := Run(s, IdleEvents(s.ecs, me, listed, turns, parse, cutoff, j));
           Succeeds(before, me, listed[j], IdleReaperStop, turns(j)))
  }

  ghost predicate AllDeadlineEnd(s: State, me: nat, listed: seq<Session>, turns: nat -> Turn, n: nat)
    requires n <= |listed|
  {
    forall j: nat :: j < n ==> DeadlineEnds(s, me, listed, turns, j)
  }

  ghost predicate AllIdleEnd(s: State, me: nat, listed: seq<Session>, turns: nat -> Turn, parse: string -> Option<int>,
                             cutoff: int, n: nat)
    requires n <= |listed|
  {
    forall j: nat :: j < n ==> IdleEnds(s, me, listed, turns, parse, cutoff, j)
  }

  lemma NoneYet(s: State, me: nat, listed: seq<Session>, turns: nat -> Turn, parse: string -> Option<int>, cutoff: int)
    ensures AllDeadlineEnd(s, me, listed, turns, 0) && AllIdleEnd(s, me, listed, turns, parse, cutoff, 0)
  {
  }

  lemma SuccessEnds(s: State, me: nat, v: Session, reason: StopReason, turn: Turn)
    ensures Succeeds(s, me, v, reason, turn) ==> UpdateArrives(s, me, v, reason, turn)
  {
  }

  lemma OneMoreDeadline(s: State, me: nat, listed: seq<Session>, turns: nat -> Turn, n: nat)
    requires n < |listed|
    ensures AllDeadlineEnd(s, me, listed, turns, n + 1) <==>
              AllDeadlineEnd(s, me, listed, turns, n) && DeadlineEnds(s, me, listed, turns, n)
  {
    hide DeadlineEnds;
  }

  lemma OneMoreIdle(s: State, me: nat, listed: seq<Session>, turns: nat -> Turn, parse: string -> Option<int>,
                    cutoff: int, n: nat)
    requires n < |listed|
    ensures AllIdleEnd(s, me, listed, turns, parse, cutoff, n + 1) <==>
              AllIdleEnd(s, me, listed, turns, parse, cutoff, n) && IdleEnds(s, me, listed, turns, parse, cutoff, n)
  {
    hide IdleEnds;
  }

  // ---- The reaper ------------------------------------------------------------------

  class Reaper {
    const me: nat
    const target: string
    const hasActivity: bool
    const idleTimeout: int
    /** The world: the reaper changes it only through its own requests. */
    var world: State

    constructor (me: nat, target: string, hasActivity: bool, idleTimeout: int, world: State)
      ensures this.me == me && this.target == target && this.hasActivity == hasActivity
      ensures this.idleTimeout == idleTimeout && this.world == world
    {
      this.me, this.target, this.hasActivity, this.idleTimeout, this.world := me, target, hasActivity, idleTimeout,
        world;
    }

    ghost predicate Valid()
      reads this
    {
      Inv(world) && me !in world.actors
    }

    /** Events of others. */
    method Meanwhile(es: seq<Event>)
      requires Inv(world) && Foreign(es, me)
      modifies this
      ensures world == Run(old(world), es) && Inv(world) && SamePlace(old(world), world, me)
      ensures old(world).versions <= world.versions && world.ecs == old(world).ecs
    {
      hide Apply;
      hide Inv;
      RunKeeps(world, es);
      OthersLeaveMyPlace(world, es, me);
      RunVersionsGrow(world, es);
      world := Run(world, es);
    }

    /** The stop of the task, where there is one to stop and a way to do it. */
    method StopTask(v: Session, reason: StopReason, fate: Net) returns (ok: bool)
      requires Inv(world) && me in world.actors && world.actors[me] == Reaping(v, reason)
      modifies this
      ensures world == Apply(old(world), Stop(me, fate)) && Inv(world)
      ensures ok <==> StopPasses(old(world).ecs, v, fate)
      ensures world.ecs == old(world).ecs
      ensures ok ==> me in world.actors && world.actors[me] == ReaperStopped(v, reason)
      ensures !ok ==> me !in world.actors
      ensures old(world).versions <= world.versions
    {
      hide Apply;
      hide Inv;
      ApplyKeeps(world, Stop(me, fate));
      StopOrSkip(world, me, v, reason, fate);
      VersionsGrow(world, Stop(me, fate));
      if v.task.arn != "" && v.task.cluster != "" && world.ecs {
        if fate != Dropped {
          world := world.(stopped := world.stopped + {v.task.arn});
        }
        if fate != Delivered {
          world := Drop(world, me);
          return false;
        }
      }
      world := Add(world, me, ReaperStopped(v, reason));
      return true;
    }

    method TerminateSession(session: Session, reason: StopReason, turn: Turn)
      returns (ok: bool, ghost trace: seq<Event>)
      requires Valid() && session in world.versions && session.status == Active && IsReaperReason(reason)
      requires ForeignTurn(turn, me)
      modifies this
      ensures Valid() && world == Run(old(world), trace) && old(world).versions <= world.versions
      ensures Read(me, Reaping(session, reason)) in trace
      ensures ReadsOnly(trace, me, Read(me, Reaping(session, reason)))
      ensures trace == Termination(old(world).ecs, me, session, reason, turn) && world.ecs == old(world).ecs
      ensures ok <==> Succeeds(old(world), me, session, reason, turn)
      ensures EndedFor(old(world), trace, me, session.id, reason) <==>
                UpdateArrives(old(world), me, session, reason, turn)
    {
      hide Apply;
      hide Inv;
      hide Move;
      hide EndedFor;
      hide ReadsOnly;
      hide Run;
      ghost var begin := Read(me, Reaping(session, reason));
      OneRead(turn.before, begin, turn.between, me, turn.fate, turn.now, turn.net);
      Meanwhile(turn.before);
      trace := turn.before;
      BeginStep(world, me, session, reason);
      ApplyKeeps(world, begin);
      RunSnoc(old(world), trace, begin);
      world := Add(world, me, Reaping(session, reason));
      trace := trace + [begin];
      RunSnoc(old(world), trace, Stop(me, turn.fate));
      ok := StopTask(session, reason, turn.fate);
      trace := trace + [Stop(me, turn.fate)];
      if !ok {
        EndsExactly(old(world), me, session, reason, turn);
        return;
      }
      RunConcat(old(world), trace, turn.between);
      Meanwhile(turn.between);
      trace := trace + turn.between;
      assert trace == UntilUpdate(me, session, reason, turn);
      EndsExactly(old(world), me, session, reason, turn);
      ok := UpdateStatus(session, reason, turn.now, turn.net);
      RunSnoc(old(world), trace, Terminate(me, turn.now, turn.net));
      trace := trace + [Terminate(me, turn.now, turn.net)];
    }

    /** The conditional update that ends the session. */
    method UpdateStatus(v: Session, reason: StopReason, now: string, net: Net) returns (ok: bool)
      requires Inv(world) && me in world.actors && world.actors[me] == ReaperStopped(v, reason)
      modifies this
      ensures world == Apply(old(world), Terminate(me, now, net)) && Inv(world) && me !in world.actors
      ensures old(world).versions <= world.versions
      ensures ok ==> && !OverIn(old(world), v.id) && OverIn(world, v.id)
                     && world.table[v.id].status == Terminated && world.table[v.id].stopReason == reason
      ensures ok <==> net == Delivered && Has(old(world).table, v.id, Active)
      ensures world.ecs == old(world).ecs
    {
      hide Apply;
      hide Inv;
      var e := Terminate(me, now, net);
      ApplyKeeps(world, e);
      EndStep(world, me, v, reason, now, net);
      VersionsGrow(world, e);
      ok := net == Delivered && Has(world.table, v.id, Active);
      if ok {
        MoveEnds(world, me, v.id, reason, now, net);
      }
      world := Move(world, me, v.id, Active, Terminated, now, Because(reason), net);
    }

    /** The deadline scan. Every listed session is tried, whatever happens to the
        others. */
    method RunDeadline(scan: Scan) returns (ok: bool, ghost trace: seq<Event>)
      requires Valid() && AnswersExpired(scan.index, target) && forall i :: ForeignTurn(scan.turns(i), me)
      modifies this
      ensures Valid() && world == Run(old(world), trace) && old(world).versions <= world.versions
      ensures target == "" || scan.failing ==> !ok && trace == []
      ensures target != "" && !scan.failing ==> forall v :: v in scan.index(old(world).table, scan.now) ==>
                Read(me, Reaping(v, DeadlineReaperStop)) in trace
      ensures ok ==> forall v :: v in scan.index(old(world).table, scan.now) ==>
                EndedFor(old(world), trace, me, v.id, DeadlineReaperStop)
      ensures world.ecs == old(world).ecs
      ensures var listed := scan.index(old(world).table, scan.now);
              && (ok <==> target != "" && !scan.failing && AllDeadlineEnd(old(world), me, listed, scan.turns, |listed|))
              && (target != "" && !scan.failing ==>
                    trace == Terminations(old(world).ecs, me, listed, scan.turns, |listed|))
    {
      hide Inv;
      hide EndedFor;
      hide Run;
      hide ForeignTurn;
      hide PastKey;
      hide Succeeds;
      hide UpdateArrives;
      hide Termination;
      hide AllDeadlineEnd;
      trace := [];
      RunNothing(world);
      if target == "" || scan.failing {
        return false, trace;
      }
      var expired := scan.index(world.table, scan.now);
      ListedAreActive(world, expired, r => PastKey(r, target, scan.now), target, scan.now);
      var errs := 0;
      NoneYet(old(world), me, expired, scan.turns, r => None, 0);
      for i := 0 to |expired|
        invariant Valid() && world == Run(old(world), trace) && old(world).versions <= world.versions && errs >= 0
        invariant world.ecs == old(world).ecs && trace == Terminations(world.ecs, me, expired, scan.turns, i)
        invariant errs == 0 <==> AllDeadlineEnd(old(world), me, expired, scan.turns, i)
        invariant forall j :: 0 <= j < i ==> Read(me, Reaping(expired[j], DeadlineReaperStop)) in trace
        invariant errs == 0 ==> forall j :: 0 <= j < i ==>
                    EndedFor(old(world), trace, me, expired[j].id, DeadlineReaperStop)
      {
        assert expired[i] in expired;
        OneMoreDeadline(old(world), me, expired, scan.turns, i);
        SuccessEnds(world, me, expired[i], DeadlineReaperStop, scan.turns(i));
        var done, part := TerminateSession(expired[i], DeadlineReaperStop, scan.turns(i));
        if !done {
          errs := errs + 1;
        }
        RunConcat(old(world), trace, part);
        if errs == 0 {
          EndedForAtEnd(old(world), trace, part, me, expired[i].id, DeadlineReaperStop);
          forall j | 0 <= j < i ensures EndedFor(old(world), trace + part, me, expired[j].id, DeadlineReaperStop) {
            EndedForStays(old(world), trace, part, me, expired[j].id, DeadlineReaperStop);
          }
        }
        trace := trace + part;
      }
      return errs == 0, trace;
    }

    /** One session of the idle scan. */
    method CheckIdle(session: Session, turn: Turn, parse: string -> Option<int>, cutoff: int)
      returns (failed: bool, ghost part: seq<Event>)
      requires Valid() && session in world.versions && session.status == Active && ForeignTurn(turn, me)
      modifies this
      ensures Valid() && world == Run(old(world), part) && old(world).versions <= world.versions
      ensures ReadsOnly(part, me, Read(me, Reaping(session, IdleReaperStop)))
      ensures Read(me, Reaping(session, IdleReaperStop)) in part <==> Due(session, turn.activity, parse, cutoff)
      ensures !failed ==>
                || EndedFor(old(world), part, me, session.id, IdleReaperStop)
                || Exempt(session, turn.activity, parse, cutoff)
      ensures world.ecs == old(world).ecs
      ensures part == if Due(session, turn.activity, parse, cutoff)
                      then Termination(old(world).ecs, me, session, IdleReaperStop, turn) else []
      ensures !failed <==>
                || Exempt(session, turn.activity, parse, cutoff)
                || (&& Due(session, turn.activity, parse, cutoff)
                    && Succeeds(old(world), me, session, IdleReaperStop, turn))
    {
      hide Inv;
      hide EndedFor;
      hide Run;
      part := [];
      RunNothing(world);
      if session.task.id == "" || session.terms.target == "" {
        return false, part;
      }
      if turn.activity.CheckFailed? {
        return true, part;
      }
      if turn.activity.Found? {
        if turn.activity.last > cutoff {
          return false, part;
        }
      } else {
        var created := parse(session.terms.createdAt);
        if created.None? || created.value > cutoff {
          return false, part;
        }
      }
      var done;
      SuccessEnds(world, me, session, IdleReaperStop, turn);
      done, part := TerminateSession(session, IdleReaperStop, turn);
      failed := !done;
    }

    /** The idle scan. A session is tried exactly if it is due. */
    method RunIdle(scan: Scan, time: int, parse: string -> Option<int>) returns (ok: bool, ghost trace: seq<Event>)
      requires Valid() && AnswersAhead(scan.index, target) && forall i :: ForeignTurn(scan.turns(i), me)
      modifies this
      ensures Valid() && world == Run(old(world), trace) && old(world).versions <= world.versions
      ensures target == "" || scan.failing ==> !ok && trace == []
      ensures var active := scan.index(old(world).table, scan.now);
              && (target != "" && !scan.failing ==> Tried(trace, me, active, |active|, scan, parse, time - idleTimeout))
              && (ok ==> Settled(old(world), trace, me, active, |active|, scan, parse, time - idleTimeout))
              && (ok <==> && target != "" && !scan.failing
                          && AllIdleEnd(old(world), me, active, scan.turns, parse, time - idleTimeout, |active|))
              && (target != "" && !scan.failing ==>
                    trace == IdleEvents(old(world).ecs, me, active, scan.turns, parse, time - idleTimeout, |active|))
    {
      hide Inv;
      hide EndedFor;
      hide Run;
      hide ForeignTurn;
      hide ReadsOnly;
      hide Due;
      hide Exempt;
      hide Tried;
      hide Settled;
      hide Succeeds;
      hide Termination;
      hide AllIdleEnd;
      trace := [];
      RunNothing(world);
      if target == "" || scan.failing {
        return false, trace;
      }
      var active := scan.index(world.table, scan.now);
      ListedAreActive(world, active, r => AheadKey(r, target, scan.now), target, scan.now);
      assert Distinct(active);
      hide AheadKey;
      hide Distinct;
      var cutoff := time - idleTimeout;
      NothingTried(world, me, active, scan, parse, cutoff);
      NoneYet(world, me, active, scan.turns, parse, cutoff);
      var errs := 0;
      for i := 0 to |active|
        invariant Valid() && world == Run(old(world), trace) && old(world).versions <= world.versions && errs >= 0
        invariant world.ecs == old(world).ecs
        invariant trace == IdleEvents(world.ecs, me, active, scan.turns, parse, cutoff, i)
        invariant errs == 0 <==> AllIdleEnd(old(world), me, active, scan.turns, parse, cutoff, i)
        invariant Tried(trace, me, active, i, scan, parse, cutoff)
        invariant errs == 0 ==> Settled(old(world), trace, me, active, i, scan, parse, cutoff)
      {
        assert active[i] in active;
        OneMoreIdle(old(world), me, active, scan.turns, parse, cutoff, i);
        var failed, part := CheckIdle(active[i], scan.turns(i), parse, cutoff);
        if failed {
          errs := errs + 1;
        }
        RunConcat(old(world), trace, part);
        OneMoreTried(trace, part, me, active, i, scan, parse, cutoff);
        if errs == 0 {
          OneMoreSettled(old(world), trace, part, me, active, i, scan, parse, cutoff);
        }
        trace := trace + part;
      }
      return errs == 0, trace;
    }

    /** A run: the deadline scan and then, if that succeeded and there is an
        activity checker, the idle scan. If it reports success, every session of
        the target that was active and past its deadline has been ended by it, and
        every one listed as active and before its deadline was ended too or is
        exempt. */
    method RunOnce(deadline: Scan, idle: Scan, time: int, parse: string -> Option<int>)
      returns (ok: bool, ghost trace: seq<Event>, ghost scanned: nat)
      requires Valid() && AnswersExpired(deadline.index, target) && AnswersAhead(idle.index, target)
      requires forall i :: ForeignTurn(deadline.turns(i), me) && ForeignTurn(idle.turns(i), me)
      modifies this
      ensures Valid() && world == Run(old(world), trace) && scanned <= |trace|
      ensures ok ==> target != "" && !deadline.failing
      ensures var expired := deadline.index(old(world).table, deadline.now);
              var mid := Run(old(world), Terminations(old(world).ecs, me, expired, deadline.turns, |expired|));
              var active := idle.index(mid.table, idle.now);
              ok <==>
                && target != "" && !deadline.failing
                && AllDeadlineEnd(old(world), me, expired, deadline.turns, |expired|)
                && (hasActivity && idleTimeout > 0 ==>
                      !idle.failing && AllIdleEnd(mid, me, active, idle.turns, parse, time - idleTimeout, |active|))
      ensures ok ==> forall id :: id in old(world).table && ExpiredRow(old(world).table[id], target, deadline.now) ==>
                EndedFor(old(world), trace, me, id, DeadlineReaperStop)
      ensures ok && hasActivity && idleTimeout > 0 ==>
                var t := Run(old(world), trace[..scanned]).table;
                var active := idle.index(t, idle.now);
                && (forall id :: id in t ==> (t[id] in active <==> AheadRow(t[id], target, idle.now)))
                && Settled(old(world), trace, me, active, |active|, idle, parse, time - idleTimeout)
    {
      hide Inv;
      hide EndedFor;
      hide Run;
      hide ForeignTurn;
      hide Settled;
      hide Tried;
      hide AllDeadlineEnd;
      hide AllIdleEnd;
      hide Terminations;
      hide IdleEvents;
      ok, trace := RunDeadline(deadline);
      scanned := |trace|;
      ExpiredAreListed(old(world), deadline.index(old(world).table, deadline.now), target, deadline.now);
      if !ok || !hasActivity || idleTimeout <= 0 {
        return;
      }
      ghost var listed := world;
      var idleOk, part := RunIdle(idle, time, parse);
      AheadAreListed(listed, idle.index(listed.table, idle.now), target, idle.now);
      RunConcat(old(world), trace, part);
      assert (trace + part)[..scanned] == trace;
      if idleOk {
        BothScans(old(world), listed, trace, part, me, target, deadline, idle, time - idleTimeout, parse);
      }
      ok, trace := idleOk, trace + part;
    }
  }

  predicate Distinct(rs: seq<Session>) {
    forall i, j :: 0 <= i < j < |rs| ==> rs[i].id != rs[j].id
  }

  /** Of the listed sessions the first n have been looked at: exactly the due ones
      among them were tried. */
  ghost predicate Tried(trace: seq<Event>, me: nat, listed: seq<Session>, n: nat, scan: Scan,
                        parse: string -> Option<int>, cutoff: int) {
    forall j :: 0 <= j < |listed| ==>
      (Read(me, Reaping(listed[j], IdleReaperStop)) in trace <==>
        j < n && Due(listed[j], scan.turns(j).activity, parse, cutoff))
  }

  /** The first n listed sessions are ended or exempt. */
  ghost predicate Settled(s: State, trace: seq<Event>, me: nat, listed: seq<Session>, n: nat, scan: Scan,
                          parse: string -> Option<int>, cutoff: int) {
    forall j :: 0 <= j < n && j < |listed| ==>
      || EndedFor(s, trace, me, listed[j].id, IdleReaperStop)
      || Exempt(listed[j], scan.turns(j).activity, parse, cutoff)
  }

  lemma NothingTried(s: State, me: nat, listed: seq<Session>, scan: Scan, parse: string -> Option<int>, cutoff: int)
    ensures Tried([], me, listed, 0, scan, parse, cutoff) && Settled(s, [], me, listed, 0, scan, parse, cutoff)
  {
  }

  lemma OneMoreTried(trace: seq<Event>, part: seq<Event>, me: nat, listed: seq<Session>, i: nat, scan: Scan,
                     parse: string -> Option<int>, cutoff: int)
    requires i < |listed| && Distinct(listed) && Tried(trace, me, listed, i, scan, parse, cutoff)
    requires ReadsOnly(part, me, Read(me, Reaping(listed[i], IdleReaperStop)))
    requires Read(me, Reaping(listed[i], IdleReaperStop)) in part <==>
               Due(listed[i], scan.turns(i).activity, parse, cutoff)
    ensures Tried(trace + part, me, listed, i + 1, scan, parse, cutoff)
  {
    hide Due;
    forall j | 0 <= j < |listed| && j != i ensures Read(me, Reaping(listed[j], IdleReaperStop)) !in part {
      assert listed[j].id != listed[i].id;
    }
  }

  lemma OneMoreSettled(s: State, trace: seq<Event>, part: seq<Event>, me: nat, listed: seq<Session>, i: nat, scan: Scan,
                       parse: string -> Option<int>, cutoff: int)
    requires Inv(s) && i < |listed| && Settled(s, trace, me, listed, i, scan, parse, cutoff)
    requires || EndedFor(Run(s, trace), part, me, listed[i].id, IdleReaperStop)
             || Exempt(listed[i], scan.turns(i).activity, parse, cutoff)
    ensures Settled(s, trace + part, me, listed, i + 1, scan, parse, cutoff)
  {
    hide Inv;
    hide EndedFor;
    hide Exempt;
    forall j | 0 <= j < i && EndedFor(s, trace, me, listed[j].id, IdleReaperStop)
      ensures EndedFor(s, trace + part, me, listed[j].id, IdleReaperStop)
    {
      EndedForStays(s, trace, part, me, listed[j].id, IdleReaperStop);
    }
    if EndedFor(Run(s, trace), part, me, listed[i].id, IdleReaperStop) {
      EndedForAtEnd(s, trace, part, me, listed[i].id, IdleReaperStop);
    }
  }

  predicate ExpiredRow(r: Session, target: string, now: string) {
    r.terms.target == target && r.status == Active && Le(r.terms.deadline, now)
  }

  predicate AheadRow(r: Session, target: string, now: string) {
    r.terms.target == target && r.status == Active && Lt(now, r.terms.deadline)
  }

  lemma ExpiredAreListed(s: State, listed: seq<Session>, target: string, now: string)
    requires Inv(s) && IsAnswer(listed, s.table, r => PastKey(r, target, now))
    ensures forall id :: id in s.table && ExpiredRow(s.table[id], target, now) ==>
              s.table[id] in listed && s.table[id].id == id
  {
    InvKeysAgree(s);
    forall id | id in s.table && ExpiredRow(s.table[id], target, now)
      ensures s.table[id] in listed && s.table[id].id == id {
      PastMeansExpired(s.table, id, target, now);
    }
  }

  lemma AheadAreListed(s: State, listed: seq<Session>, target: string, now: string)
    requires Inv(s) && IsAnswer(listed, s.table, r => AheadKey(r, target, now))
    ensures forall id :: id in s.table ==> (s.table[id] in listed <==> AheadRow(s.table[id], target, now))
  {
    InvKeysAgree(s);
    forall id | id in s.table ensures s.table[id] in listed <==> AheadRow(s.table[id], target, now) {
      AheadMeansUnexpired(s.table, id, target, now);
    }
  }

  /** What the two scans achieved still stands when both are done. */
  lemma BothScans(s: State, mid: State, first: seq<Event>, second: seq<Event>, me: nat, target: string,
                  deadline: Scan, idle: Scan, cutoff: int, parse: string -> Option<int>)
    requires Inv(s) && mid == Run(s, first)
    requires forall id :: id in s.table && ExpiredRow(s.table[id], target, deadline.now) ==>
               EndedFor(s, first, me, id, DeadlineReaperStop)
    requires var active := idle.index(mid.table, idle.now);
               Settled(mid, second, me, active, |active|, idle, parse, cutoff)
    ensures forall id :: id in s.table && ExpiredRow(s.table[id], target, deadline.now) ==>
              EndedFor(s, first + second, me, id, DeadlineReaperStop)
    ensures var active := idle.index(mid.table, idle.now);
              Settled(s, first + second, me, active, |active|, idle, parse, cutoff)
  {
    hide EndedFor;
    hide Inv;
    hide Run;
    hide Exempt;
    hide ExpiredRow;
    forall id | id in s.table && ExpiredRow(s.table[id], target, deadline.now)
      ensures EndedFor(s, first + second, me, id, DeadlineReaperStop)
    {
      EndedForStays(s, first, second, me, id, DeadlineReaperStop);
    }
    var active := idle.index(mid.table, idle.now);
    forall i | 0 <= i < |active| && EndedFor(mid, second, me, active[i].id, IdleReaperStop)
      ensures EndedFor(s, first + second, me, active[i].id, IdleReaperStop)
    {
      EndedForAtEnd(s, first, second, me, active[i].id, IdleReaperStop);
    }
  }

  lemma RunNothing(s: State)
    ensures Run(s, []) == s
  {
  }
}
