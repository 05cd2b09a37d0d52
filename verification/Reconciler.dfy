/** The reconciler's batch loops over the execution rows, while everything else
    that writes them goes on around each item. */
module Reconciling {
  import opened Executions
  import opened ExecutionProtocol
  import opened ExecutionTheorems
  import opened Wrappers
  import opened Remote

  const MAX_DISPATCH_FAILURES: nat := 3

  /** Durations and times in seconds, to any resolution. */
  datatype Config = Config(target: string, maxBatch: int, deadline: real, overhead: real)

  type Clock = string -> Option<real>

  /** The target-status index: its answer for a table. */
  type Index = Table -> seq<Execution>

  ghost predicate Answers(index: Index, target: string, status: Status) {
    forall t :: IsScan(index(t), t, target, status.Text() + "#")
  }

  // ---- Other actors ----------------------------------------------------------------

  predicate Foreign(es: seq<Event>, me: nat) {
    forall i :: 0 <= i < |es| ==> es[i].Approve? || es[i].a != me
  }

  predicate SamePlace(s: State, s': State, me: nat) {
    (me in s'.actors <==> me in s.actors) && (me in s.actors ==> s'.actors[me] == s.actors[me])
  }

  lemma WroteKeepsActors(s: State, id: string, t: Table, net: Net)
    ensures Wrote(s, id, t, net).actors == s.actors
  {
  }

  lemma OthersStep(s: State, e: Event, me: nat)
    requires e.Approve? || e.a != me
    ensures SamePlace(s, Apply(s, e), me)
  {
    hide Wrote;
    hide CanRead;
    hide NewRow;
    hide Active;
    hide Stored;
    forall s0: State, id, t, net ensures Wrote(s0, id, t, net).actors == s0.actors {
      WroteKeepsActors(s0, id, t, net);
    }
  }

  lemma {:induction false} OthersLeaveMyPlace(s: State, es: seq<Event>, me: nat)
    requires Foreign(es, me)
    ensures SamePlace(s, Run(s, es), me)
    decreases |es|
  {
    hide Apply;
    if es != [] {
      OthersLeaveMyPlace(s, es[..|es| - 1], me);
      OthersStep(Run(s, es[..|es| - 1]), es[|es| - 1], me);
    }
  }

  /** Good, and nothing of the tick is left in progress: it holds no claim. */
  ghost predicate Idle(s: State, me: nat) {
    Inv(s) && me !in s.actors
  }

  // ---- Timing out ------------------------------------------------------------------

  /** What happens around one item: events before it, whether the context has
      ended, the time, the timestamp and the fate of the request. */
  datatype Turn = Turn(before: seq<Event>, cancelled: bool, clock: real, now: string, net: Net)

  function Timeout(c: Config, v: Execution): real {
    (if v.request.timeoutSeconds == 0 then c.deadline else v.request.timeoutSeconds as real)
    + (if v.request.mode == Async then c.overhead else 0.0)
  }

  function Since(v: Execution): string {
    if v.dispatchedAt == "" then v.request.createdAt else v.dispatchedAt
  }

  predicate Overdue(c: Config, v: Execution, clock: real, parse: Clock) {
    parse(Since(v)).Some? && clock - parse(Since(v)).value > Timeout(c, v)
  }

  /** A row is overdue if its dispatch, or else its creation, parses and is longer ago than
      its own timeout, or else the deadline, with the overhead added for async ones. */
  lemma OverdueMeans(c: Config, v: Execution, clock: real, parse: Clock)
    ensures var since := parse(if v.dispatchedAt != "" then v.dispatchedAt else v.request.createdAt);
            Overdue(c, v, clock, parse) <==>
              && since.Some?
              && (v.request.timeoutSeconds != 0 && v.request.mode == Sync ==>
                    clock > since.value + v.request.timeoutSeconds as real)
              && (v.request.timeoutSeconds != 0 && v.request.mode == Async ==>
                    clock > since.value + v.request.timeoutSeconds as real + c.overhead)
              && (v.request.timeoutSeconds == 0 && v.request.mode == Sync ==> clock > since.value + c.deadline)
              && (v.request.timeoutSeconds == 0 && v.request.mode == Async ==>
                    clock > since.value + c.deadline + c.overhead)
  {
  }

  function TimeoutOne(s: State, me: nat, c: Config, v: Execution, turn: Turn, parse: Clock): State {
    var s' := Run(s, turn.before);
    if Overdue(c, v, turn.clock, parse)
    then Apply(Apply(s', Read(me, TimingOut(v))), TimeOut(me, turn.now, turn.net))
    else s'
  }

  /** The rest of a timeout pass from the i-th listed row on. */
  function TimeoutFrom(s: State, me: nat, c: Config, listed: seq<Execution>, i: nat, turns: nat -> Turn,
                       parse: Clock): State
    decreases |listed| - i
  {
    if i >= |listed| || i >= c.maxBatch || turns(i).cancelled then s
    else TimeoutFrom(TimeoutOne(s, me, c, listed[i], turns(i), parse), me, c, listed, i + 1, turns, parse)
  }

  // ---- Collecting garbage ------------------------------------------------------------

  function CollectOne(s: State, me: nat, v: Execution, turn: Turn): State {
    Apply(Apply(Run(s, turn.before), Read(me, Collecting(v))), Collect(me, turn.now, turn.net))
  }

  function CollectFrom(s: State, me: nat, c: Config, listed: seq<Execution>, i: nat, turns: nat -> Turn): State
    decreases |listed| - i
  {
    if i >= |listed| || i >= c.maxBatch || turns(i).cancelled then s
    else CollectFrom(CollectOne(s, me, listed[i], turns(i)), me, c, listed, i + 1, turns)
  }

  // ---- Polling jobs -------------------------------------------------------------------

  datatype ConditionType = Complete | FailedJob | OtherType

  datatype Condition = Condition(kind: ConditionType, isTrue: bool)

  /** What polling one execution finds: its job's conditions, if the job is there,
      the elapsed milliseconds and the sizes of its artifacts. */
  datatype PollTurn = PollTurn(turn: Turn, job: Option<seq<Condition>>, elapsed: int, outputBytes: int, logBytes: int,
                               format: string)

  function JobStatus(conditions: seq<Condition>): Option<Status> {
    if conditions == [] then None
    else if conditions[0].isTrue && conditions[0].kind == Complete then Some(Succeeded)
    else if conditions[0].isTrue && conditions[0].kind == FailedJob then Some(Status.Failed)
    else JobStatus(conditions[1..])
  }

  predicate Decisive(c: Condition) {
    c.isTrue && (c.kind == Complete || c.kind == FailedJob)
  }

  /** The first true Complete or Failed condition says how the job ended. */
  predicate Ended(conditions: seq<Condition>, i: nat, status: Status) {
    && i < |conditions| && Decisive(conditions[i]) && (forall j :: 0 <= j < i ==> !Decisive(conditions[j]))
    && status == (if conditions[i].kind == Complete then Succeeded else Status.Failed)
  }

  ghost predicate Finished(conditions: seq<Condition>, status: Status) {
    exists i: nat :: Ended(conditions, i, status)
  }

  lemma {:induction false} JobStatusMeaning(conditions: seq<Condition>, status: Status)
    ensures JobStatus(conditions) == Some(status) <==> Finished(conditions, status)
    decreases |conditions|
  {
    if conditions != [] && !Decisive(conditions[0]) {
      var rest := conditions[1..];
      JobStatusMeaning(rest, status);
      if Finished(rest, status) {
        var i: nat :| Ended(rest, i, status);
        assert conditions[i + 1] == rest[i];
        assert Ended(conditions, i + 1, status);
      }
      if Finished(conditions, status) {
        var i: nat :| Ended(conditions, i, status);
        assert i > 0 && rest[i - 1] == conditions[i];
        assert Ended(rest, i - 1, status);
      }
    } else if conditions != [] {
      assert Ended(conditions, 0, if conditions[0].kind == Complete then Succeeded else Status.Failed);
    }
  }

  function PollUpdates(v: Execution, turn: PollTurn, parse: Clock): Updates {
    Updates(None,
            if v.dispatchedAt != "" && parse(v.dispatchedAt).Some? then turn.elapsed else 0,
            if turn.outputBytes > 0 then Some((turn.outputBytes, turn.format)) else None,
            if turn.logBytes > 0 then Some(turn.logBytes) else None)
  }

  function PollOne(s: State, me: nat, v: Execution, turn: PollTurn, parse: Clock): State {
    var s' := Run(s, turn.turn.before);
    if turn.job.None? || JobStatus(turn.job.value).None? then s'
    else Apply(Apply(s', Read(me, Polling(v))),
               Poll(me, JobStatus(turn.job.value).value, turn.turn.now, PollUpdates(v, turn, parse), turn.turn.net))
  }

  function PollFrom(s: State, me: nat, c: Config, listed: seq<Execution>, i: nat, turns: nat -> PollTurn,
                    parse: Clock): State
    decreases |listed| - i
  {
    if i >= |listed| || i >= c.maxBatch || turns(i).turn.cancelled then s
    else PollFrom(PollOne(s, me, listed[i], turns(i), parse), me, c, listed, i + 1, turns, parse)
  }

  function AsyncOnly(listed: seq<Execution>): seq<Execution> {
    if listed == [] then []
    else
      var last := listed[|listed| - 1];
      AsyncOnly(listed[..|listed| - 1]) + (if last.request.mode == Async then [last] else [])
  }

  // ---- Dispatching --------------------------------------------------------------------

  /** One approved execution: the claim, the invocation of the worker and, if that
      fails, the rollback, with other events in between. */
  datatype DispatchTurn = DispatchTurn(turn: Turn, between: seq<Event>, invoked: bool, after: seq<Event>,
                                       later: string, net: Net)

  /** The world after some items, the executions handed to workers and the number
      of failed hand-overs. */
  datatype Dispatch = Dispatch(world: State, invoked: seq<string>, failures: nat)

  predicate ClaimAcknowledged(s: State, v: Execution, net: Net) {
    net == Delivered && Has(s.table, v.id, Approved)
  }

  function DispatchOne(d: Dispatch, me: nat, v: Execution, t: DispatchTurn): Dispatch {
    var s1 := Apply(Run(d.world, t.turn.before), Read(me, Claiming(v)));
    var s2 := Apply(s1, Claim(me, t.turn.now, t.turn.net));
    if !ClaimAcknowledged(s1, v, t.turn.net) then d.(world := s2)
    else
      var s3 := Apply(Run(s2, t.between), Invoke(me, t.invoked));
      if t.invoked then d.(world := s3, invoked := d.invoked + [v.id])
      else d.(world := Apply(Run(s3, t.after), Rollback(me, t.later, t.net)), failures := d.failures + 1)
  }

  function DispatchFrom(d: Dispatch, me: nat, c: Config, listed: seq<Execution>, i: nat,
                        turns: nat -> DispatchTurn): Dispatch
    decreases |listed| - i
  {
    if i >= |listed| || i >= c.maxBatch || turns(i).turn.cancelled || d.failures >= MAX_DISPATCH_FAILURES then d
    else DispatchFrom(DispatchOne(d, me, listed[i], turns(i)), me, c, listed, i + 1, turns)
  }

  predicate ForeignDispatch(t: DispatchTurn, me: nat) {
    Foreign(t.turn.before, me) && Foreign(t.between, me) && Foreign(t.after, me)
  }

  // ---- Single steps of an idle tick ---------------------------------------------------

  lemma BeginStep(s: State, me: nat, x: Actor)
    requires Idle(s, me) && CanRead(s, x)
    ensures Apply(s, Read(me, x)) == Add(s, me, x) && Inv(Add(s, me, x))
  {
    hide CanRead;
    hide Inv;
    ReadKeeps(s, me, x);
  }

  lemma OthersKeepIdle(s: State, es: seq<Event>, me: nat)
    requires Idle(s, me) && Foreign(es, me)
    ensures Idle(Run(s, es), me) && s.versions <= Run(s, es).versions
  {
    hide Run;
    hide Inv;
    RunKeeps(s, es);
    OthersLeaveMyPlace(s, es, me);
    RunVersionsGrow(s, es);
  }

  lemma DropIsIdle(s: State, me: nat)
    requires Inv(s)
    ensures Idle(Drop(s, me), me)
  {
    hide Inv;
    DropKeeps(s, me);
  }

  lemma MoveEvent(s: State, me: nat, v: Execution, now: string, net: Net)
    requires Inv(s) && me in s.actors && s.actors[me] == TimingOut(v)
    ensures Apply(s, TimeOut(me, now, net)) == Move(s, me, v.id, Dispatched, TimedOut, now, net)
    ensures Idle(Apply(s, TimeOut(me, now, net)), me)
  {
    hide Inv;
    hide StatusKey;
    ApplyKeeps(s, TimeOut(me, now, net));
    hide AfterTransition;
    WroteKeepsActors(Drop(s, me), v.id, AfterTransition(s.table, v.id, Dispatched, TimedOut, now), net);
    hide Wrote;
  }

  lemma CollectEvent(s: State, me: nat, v: Execution, now: string, net: Net)
    requires Inv(s) && me in s.actors && s.actors[me] == Collecting(v)
    ensures Apply(s, Collect(me, now, net)) == Mark(s, me, v.id, now, net)
    ensures Idle(Apply(s, Collect(me, now, net)), me)
  {
    hide Inv;
    ApplyKeeps(s, Collect(me, now, net));
    hide AfterMark;
    WroteKeepsActors(Drop(s, me), v.id, AfterMark(s.table, v.id, now), net);
    hide Wrote;
  }

  lemma TimeoutOneKeepsIdle(s: State, me: nat, c: Config, v: Execution, turn: Turn, parse: Clock)
    requires Idle(s, me) && Foreign(turn.before, me) && v in s.versions && v.status == Dispatched
    ensures var s' := TimeoutOne(s, me, c, v, turn, parse); Idle(s', me) && s.versions <= s'.versions
    ensures var s1, s' := Run(s, turn.before), TimeoutOne(s, me, c, v, turn, parse);
            s' == if Overdue(c, v, turn.clock, parse)
              then Move(Add(s1, me, TimingOut(v)), me, v.id, Dispatched, TimedOut, turn.now, turn.net) else s1
  {
    hide Inv;
    hide Overdue;
    hide Apply;
    hide Run;
    hide Move;
    OthersKeepIdle(s, turn.before, me);
    var s1 := Run(s, turn.before);
    if Overdue(c, v, turn.clock, parse) {
      BeginStep(s1, me, TimingOut(v));
      MoveEvent(Add(s1, me, TimingOut(v)), me, v, turn.now, turn.net);
      VersionsGrow(s1, Read(me, TimingOut(v)));
      VersionsGrow(Add(s1, me, TimingOut(v)), TimeOut(me, turn.now, turn.net));
    }
  }

  lemma CollectOneKeepsIdle(s: State, me: nat, v: Execution, turn: Turn)
    requires Idle(s, me) && Foreign(turn.before, me) && v in s.versions && v.status.Completes() && !v.cleaned
    ensures var s' := CollectOne(s, me, v, turn); Idle(s', me) && s.versions <= s'.versions
    ensures CollectOne(s, me, v, turn)
              == Mark(Add(Run(s, turn.before), me, Collecting(v)), me, v.id, turn.now, turn.net)
  {
    hide Inv;
    hide Apply;
    hide Run;
    hide Mark;
    OthersKeepIdle(s, turn.before, me);
    var s1 := Run(s, turn.before);
    BeginStep(s1, me, Collecting(v));
    CollectEvent(Add(s1, me, Collecting(v)), me, v, turn.now, turn.net);
    VersionsGrow(s1, Read(me, Collecting(v)));
    VersionsGrow(Add(s1, me, Collecting(v)), Collect(me, turn.now, turn.net));
  }

  lemma {:induction false} JobStatusKind(conditions: seq<Condition>)
    ensures JobStatus(conditions).Some? ==>
              JobStatus(conditions).value == Succeeded || JobStatus(conditions).value == Status.Failed
    decreases |conditions|
  {
    if conditions != [] {
      JobStatusKind(conditions[1..]);
    }
  }

  lemma PollEvent(s: State, me: nat, v: Execution, to: Status, now: string, u: Updates, net: Net)
    requires Inv(s) && me in s.actors && s.actors[me] == Polling(v) && (to == Succeeded || to == Status.Failed)
               && u.completedAt.None?
    ensures Apply(s, Poll(me, to, now, u, net)) == MoveWith(s, me, v.id, to, now, u, net)
    ensures Idle(Apply(s, Poll(me, to, now, u, net)), me)
  {
    hide Inv;
    hide StatusKey;
    ApplyKeeps(s, Poll(me, to, now, u, net));
    hide AfterTransitionWith;
    WroteKeepsActors(Drop(s, me), v.id, AfterTransitionWith(s.table, v.id, Dispatched, to, now, u), net);
    hide Wrote;
  }

  lemma PollOneKeepsIdle(s: State, me: nat, v: Execution, turn: PollTurn, parse: Clock)
    requires Idle(s, me) && Foreign(turn.turn.before, me)
    requires v in s.versions && v.status == Dispatched && v.request.mode == Async
    ensures var s' := PollOne(s, me, v, turn, parse); Idle(s', me) && s.versions <= s'.versions
    ensures var s1, s' := Run(s, turn.turn.before), PollOne(s, me, v, turn, parse);
            s' == if turn.job.None? || JobStatus(turn.job.value).None? then s1
                  else MoveWith(Add(s1, me, Polling(v)), me, v.id, JobStatus(turn.job.value).value, turn.turn.now,
                                PollUpdates(v, turn, parse), turn.turn.net)
  {
    hide Inv;
    hide Apply;
    hide Run;
    hide MoveWith;
    OthersKeepIdle(s, turn.turn.before, me);
    var s1 := Run(s, turn.turn.before);
    if turn.job.Some? && JobStatus(turn.job.value).Some? {
      var to, u := JobStatus(turn.job.value).value, PollUpdates(v, turn, parse);
      JobStatusKind(turn.job.value);
      hide JobStatus;
      assert u.completedAt.None?;
      hide PollUpdates;
      BeginStep(s1, me, Polling(v));
      PollEvent(Add(s1, me, Polling(v)), me, v, to, turn.turn.now, u, turn.turn.net);
      VersionsGrow(s1, Read(me, Polling(v)));
      VersionsGrow(Add(s1, me, Polling(v)), Poll(me, to, turn.turn.now, u, turn.turn.net));
    }
  }

  // ---- Claim, hand over, roll back ----------------------------------------------------

  lemma ClaimEvent(s: State, me: nat, v: Execution, now: string, net: Net)
    requires Inv(s) && me in s.actors && s.actors[me] == Claiming(v)
    ensures var s', m := Apply(s, Claim(me, now, net)), Move(s, me, v.id, Approved, Dispatched, now, net);
            && Inv(s') && s.versions <= s'.versions
            && (ClaimAcknowledged(s, v, net) ==>
                  v.id in m.table && m.table[v.id].id == v.id && s' == Add(m, me, Claimed(m.table[v.id])))
            && (!ClaimAcknowledged(s, v, net) ==> s' == m && me !in s'.actors)
  {
    hide Inv;
    hide StatusKey;
    ApplyKeeps(s, Claim(me, now, net));
    VersionsGrow(s, Claim(me, now, net));
    if Has(s.table, v.id, Approved) {
      RowFacts(s, v.id);
    }
  }

  lemma InvokeEvent(s: State, me: nat, w: Execution, ok: bool)
    requires Inv(s) && me in s.actors && s.actors[me] == Claimed(w)
    ensures var s' := Apply(s, Invoke(me, ok));
            && Inv(s') && s.versions <= s'.versions
            && s' == (if ok then Drop(s, me) else Add(s, me, RollingBack(w)))
  {
    hide Inv;
    ApplyKeeps(s, Invoke(me, ok));
    VersionsGrow(s, Invoke(me, ok));
  }

  lemma RollbackEvent(s: State, me: nat, w: Execution, now: string, net: Net)
    requires Inv(s) && me in s.actors && s.actors[me] == RollingBack(w)
    ensures var s' := Apply(s, Rollback(me, now, net));
            && Idle(s', me) && s.versions <= s'.versions
            && s' == Move(s, me, w.id, Dispatched, Approved, now, net)
  {
    hide Inv;
    hide StatusKey;
    ApplyKeeps(s, Rollback(me, now, net));
    VersionsGrow(s, Rollback(me, now, net));
    hide AfterTransition;
    WroteKeepsActors(Drop(s, me), w.id, AfterTransition(s.table, w.id, Dispatched, Approved, now), net);
    hide Wrote;
  }

  lemma OthersKeepMine(s: State, es: seq<Event>, me: nat)
    requires Inv(s) && Foreign(es, me) && me in s.actors
    ensures var s' := Run(s, es);
              Inv(s') && s.versions <= s'.versions && me in s'.actors && s'.actors[me] == s.actors[me]
  {
    hide Run;
    hide Inv;
    RunKeeps(s, es);
    OthersLeaveMyPlace(s, es, me);
    RunVersionsGrow(s, es);
  }

  /** Whatever happens around one item, the tick is left without a claim. */
  lemma DispatchOneKeepsIdle(d: Dispatch, me: nat, v: Execution, t: DispatchTurn)
    requires Idle(d.world, me) && ForeignDispatch(t, me) && v in d.world.versions && v.status == Approved
    ensures var d' := DispatchOne(d, me, v, t); Idle(d'.world, me) && d.world.versions <= d'.world.versions
  {
    hide Inv;
    hide Apply;
    hide Run;
    hide Foreign;
    hide Move;
    var s0 := Run(d.world, t.turn.before);
    OthersKeepIdle(d.world, t.turn.before, me);
    BeginStep(s0, me, Claiming(v));
    VersionsGrow(s0, Read(me, Claiming(v)));
    var s1 := Add(s0, me, Claiming(v));
    ClaimEvent(s1, me, v, t.turn.now, t.turn.net);
    var s2 := Apply(s1, Claim(me, t.turn.now, t.turn.net));
    if ClaimAcknowledged(s1, v, t.turn.net) {
      var w := s2.actors[me].written;
      OthersKeepMine(s2, t.between, me);
      var s3 := Run(s2, t.between);
      InvokeEvent(s3, me, w, t.invoked);
      if t.invoked {
        DropIsIdle(s3, me);
      } else {
        var s4 := Apply(s3, Invoke(me, false));
        OthersKeepMine(s4, t.after, me);
        RollbackEvent(Run(s4, t.after), me, w, t.later, t.net);
      }
    }
  }

  // ---- The reconciler -----------------------------------------------------------------

  lemma ListedFacts(s: State, listed: seq<Execution>, target: string, status: Status)
    requires Inv(s) && IsScan(listed, s.table, target, status.Text() + "#")
    ensures forall v :: v in listed ==> v in s.versions && v.status == status
    ensures Lists(listed, s.table, target, status)
  {
    InvKeysAgree(s);
    ScanListsStatus(listed, s.table, target, status);
    forall v | v in listed ensures v in s.versions {
      assert s.table[v.id] == v;
    }
  }

  lemma InvKeysAgree(s: State)
    requires Inv(s)
    ensures KeysAgree(s.table)
  {
    forall id | id in s.table
      ensures s.table[id].id == id && s.table[id].status.Text() + "#" <= s.table[id].targetStatusKey {
      RowFacts(s, id);
    }
  }

  class Reconciler {
    const me: nat
    const config: Config
    /** The world: the reconciler changes it only through its own requests. */
    var world: State

    constructor (me: nat, config: Config, world: State)
      ensures this.me == me && this.config == config && this.world == world
    {
      this.me, this.config, this.world := me, config, world;
    }

    method Meanwhile(es: seq<Event>)
      requires Inv(world) && Foreign(es, me)
      modifies this
      ensures world == Run(old(world), es) && Inv(world) && SamePlace(old(world), world, me)
      ensures old(world).versions <= world.versions
    {
      hide Apply;
      hide Inv;
      RunKeeps(world, es);
      OthersLeaveMyPlace(world, es, me);
      RunVersionsGrow(world, es);
      world := Run(world, es);
    }

    method TransitionStatus(id: string, from: Status, to: Status, now: string, net: Net) returns (ok: bool)
      modifies this
      ensures world == Move(old(world), me, id, from, to, now, net)
      ensures ok <==> net == Delivered && Has(old(world).table, id, from)
    {
      ok := net == Delivered && Has(world.table, id, from);
      world := Move(world, me, id, from, to, now, net);
    }

    /** Marks the overdue ones among the dispatched executions, oldest first. */
    method TimeoutDispatched(failing: bool, index: Index, turns: nat -> Turn, parse: Clock) returns (ok: bool)
      requires Idle(world, me) && Answers(index, config.target, Dispatched) && forall i :: Foreign(turns(i).before, me)
      modifies this
      ensures Idle(world, me) && ok == !failing
      ensures failing ==> world == old(world)
      ensures !failing ==> world == TimeoutFrom(old(world), me, config, index(old(world).table), 0, turns, parse)
    {
      hide Inv;
      hide Apply;
      hide Run;
      hide TimeoutOne;
      hide Move;
      hide Foreign;
      if failing {
        return false;
      }
      var dispatched := index(world.table);
      ListedFacts(world, dispatched, config.target, Dispatched);
      hide Answers;
      hide IsScan;
      hide Lists;
      for i := 0 to |dispatched|
        invariant Idle(world, me) && old(world).versions <= world.versions
        invariant TimeoutFrom(world, me, config, dispatched, i, turns, parse)
                  == TimeoutFrom(old(world), me, config, dispatched, 0, turns, parse)
      {
        var exec, turn := dispatched[i], turns(i);
        if i >= config.maxBatch || turn.cancelled {
          return true;
        }
        TimeoutOneKeepsIdle(world, me, config, exec, turn, parse);
        ghost var next := TimeoutOne(world, me, config, exec, turn, parse);
        var timeout := exec.request.timeoutSeconds as real;
        if timeout == 0.0 {
          timeout := config.deadline;
        }
        if exec.request.mode == Async {
          timeout := timeout + config.overhead;
        }
        var dispatchedAt := exec.dispatchedAt;
        if dispatchedAt == "" {
          dispatchedAt := exec.request.createdAt;
        }
        Meanwhile(turn.before);
        var t := parse(dispatchedAt);
        if t.Some? && turn.clock - t.value > timeout {
          world := Add(world, me, TimingOut(exec));
          var done := TransitionStatus(exec.id, Dispatched, TimedOut, turn.now, turn.net);
        }
        assert world == next;
      }
      return true;
    }

    /** Marks finished executions as cleaned once their resources are deleted. */
    method GarbageCollect(failing: bool, index: Index, threshold: int, created: string -> Option<int>,
                          turns: nat -> Turn)
      returns (ok: bool)
      requires Idle(world, me) && forall i :: Foreign(turns(i).before, me)
      requires forall t: Table :: ListsEligible(index(t), t, config.target, threshold, created)
      modifies this
      ensures Idle(world, me) && ok == !failing
      ensures failing ==> world == old(world)
      ensures !failing ==> world == CollectFrom(old(world), me, config, index(old(world).table), 0, turns)
    {
      hide Inv;
      hide Apply;
      hide Run;
      hide CollectOne;
      hide Foreign;
      hide Mark;
      if failing {
        return false;
      }
      var terminal := index(world.table);
      EligibleFacts(world, terminal, config.target, threshold, created);
      hide ListsEligible;
      for i := 0 to |terminal|
        invariant Idle(world, me) && old(world).versions <= world.versions
        invariant CollectFrom(world, me, config, terminal, i, turns)
                    == CollectFrom(old(world), me, config, terminal, 0, turns)
      {
        var exec, turn := terminal[i], turns(i);
        if i >= config.maxBatch || turn.cancelled {
          return true;
        }
        CollectOneKeepsIdle(world, me, exec, turn);
        ghost var next := CollectOne(world, me, exec, turn);
        Meanwhile(turn.before);
        world := Mark(Add(world, me, Collecting(exec)), me, exec.id, turn.now, turn.net);
        assert world == next;
      }
      return true;
    }

    /** The job has ended with a status exactly if that is what its first decisive
        condition says. */
    method JobState(conditions: seq<Condition>) returns (status: Option<Status>)
      ensures forall x :: status == Some(x) <==> Finished(conditions, x)
      ensures status == JobStatus(conditions)
    {
      forall x ensures JobStatus(conditions) == Some(x) <==> Finished(conditions, x) {
        JobStatusMeaning(conditions, x);
      }
      for i := 0 to |conditions|
        invariant JobStatus(conditions[i..]) == JobStatus(conditions)
      {
        var c := conditions[i];
        assert conditions[i..][1..] == conditions[i + 1..];
        if c.kind == Complete && c.isTrue {
          return Some(Succeeded);
        }
        if c.kind == FailedJob && c.isTrue {
          return Some(Status.Failed);
        }
      }
      return None;
    }

    method KeepAsync(all: seq<Execution>) returns (kept: seq<Execution>)
      ensures kept == AsyncOnly(all)
    {
      kept := [];
      for i := 0 to |all|
        invariant kept == AsyncOnly(all[..i])
      {
        assert all[..i + 1][..i] == all[..i];
        if all[i].request.mode == Async {
          kept := kept + [all[i]];
        }
      }
      assert all[..|all|] == all;
    }

    /** Records the outcome of the jobs of asynchronous executions. */
    method PollAsyncJobs(failing: bool, index: Index, turns: nat -> PollTurn, parse: Clock) returns (ok: bool)
      requires Idle(world, me) && Answers(index, config.target, Dispatched)
                 && forall i :: Foreign(turns(i).turn.before, me)
      modifies this
      ensures Idle(world, me) && ok == !failing
      ensures failing ==> world == old(world)
      ensures !failing ==>
                world == PollFrom(old(world), me, config, AsyncOnly(index(old(world).table)), 0, turns, parse)
    {
      hide Inv;
      hide Apply;
      hide Run;
      hide PollOne;
      hide MoveWith;
      hide Foreign;
      hide AsyncOnly;
      hide JobStatus;
      if failing {
        return false;
      }
      var all := index(world.table);
      ListedFacts(world, all, config.target, Dispatched);
      var dispatched := KeepAsync(all);
      AsyncMembers(all);
      hide Answers;
      hide IsScan;
      hide Lists;
      for i := 0 to |dispatched|
        invariant Idle(world, me) && old(world).versions <= world.versions
        invariant PollFrom(world, me, config, dispatched, i, turns, parse)
                    == PollFrom(old(world), me, config, dispatched, 0, turns, parse)
      {
        var exec, turn := dispatched[i], turns(i);
        assert exec in dispatched;
        if i >= config.maxBatch || turn.turn.cancelled {
          return true;
        }
        PollOneKeepsIdle(world, me, exec, turn, parse);
        ghost var next := PollOne(world, me, exec, turn, parse);
        Meanwhile(turn.turn.before);
        if turn.job.Some? {
          var status := JobState(turn.job.value);
          if status.Some? {
            var u := CollectUpdates(exec, turn, parse);
            world := MoveWith(Add(world, me, Polling(exec)), me, exec.id, status.value, turn.turn.now, u,
              turn.turn.net);
          }
        }
        assert world == next;
      }
      return true;
    }

    method CollectUpdates(exec: Execution, turn: PollTurn, parse: Clock) returns (u: Updates)
      ensures u == PollUpdates(exec, turn, parse)
    {
      u := Updates(None, 0, None, None);
      if exec.dispatchedAt != "" {
        var t := parse(exec.dispatchedAt);
        if t.Some? {
          u := u.(durationMs := turn.elapsed);
        }
      }
      if turn.outputBytes > 0 {
        u := u.(output := Some((turn.outputBytes, turn.format)));
      }
      if turn.logBytes > 0 {
        u := u.(logBytes := Some(turn.logBytes));
      }
    }

    /** Hands approved executions to workers: claim, invoke, and roll the claim back
        if the invocation fails, up to three failures. */
    method DispatchApproved(failing: bool, index: Index, turns: nat -> DispatchTurn)
      returns (ok: bool, invoked: seq<string>, failures: nat)
      requires Idle(world, me) && Answers(index, config.target, Approved) && forall i :: ForeignDispatch(turns(i), me)
      modifies this
      ensures Idle(world, me) && ok == !failing
      ensures failing ==> world == old(world) && invoked == [] && failures == 0
      ensures !failing ==> Dispatch(world, invoked, failures)
                           == DispatchFrom(Dispatch(old(world), [], 0), me, config, index(old(world).table), 0, turns)
    {
      hide Inv;
      hide Apply;
      hide Run;
      hide DispatchOne;
      hide ForeignDispatch;
      invoked, failures := [], 0;
      if failing {
        return false, invoked, failures;
      }
      var approved := index(world.table);
      ListedFacts(world, approved, config.target, Approved);
      hide Answers;
      hide IsScan;
      hide Lists;
      for i := 0 to |approved|
        invariant Idle(world, me) && old(world).versions <= world.versions
        invariant DispatchFrom(Dispatch(world, invoked, failures), me, config, approved, i, turns)
                  == DispatchFrom(Dispatch(old(world), [], 0), me, config, approved, 0, turns)
      {
        if i >= config.maxBatch || turns(i).turn.cancelled || failures >= MAX_DISPATCH_FAILURES {
          return true, invoked, failures;
        }
        DispatchOneKeepsIdle(Dispatch(world, invoked, failures), me, approved[i], turns(i));
        var handed, failed := HandOver(approved[i], turns(i), invoked, failures);
        if handed {
          invoked := invoked + [approved[i].id];
        } else if failed {
          failures := failures + 1;
        }
      }
      return true, invoked, failures;
    }

    method HandOver(exec: Execution, t: DispatchTurn, ghost invoked: seq<string>, ghost failures: nat)
      returns (handed: bool, failed: bool)
      requires Idle(world, me) && ForeignDispatch(t, me) && exec in world.versions && exec.status == Approved
      modifies this
      ensures !(handed && failed)
      ensures DispatchOne(Dispatch(old(world), invoked, failures), me, exec, t)
              == Dispatch(world, if handed then invoked + [exec.id] else invoked,
                 if failed then failures + 1 else failures)
    {
      hide Inv;
      hide Apply;
      hide Run;
      hide Move;
      handed, failed := false, false;
      Meanwhile(t.turn.before);
      BeginStep(world, me, Claiming(exec));
      world := Add(world, me, Claiming(exec));
      ClaimEvent(world, me, exec, t.turn.now, t.turn.net);
      ghost var claimed := Apply(world, Claim(me, t.turn.now, t.turn.net));
      var ok := TransitionStatus(exec.id, Approved, Dispatched, t.turn.now, t.turn.net);
      if !ok {
        return;
      }
      world := Add(world, me, Claimed(world.table[exec.id]));
      assert world == claimed;
      var written := world.table[exec.id];
      Meanwhile(t.between);
      InvokeEvent(world, me, written, t.invoked);
      if !t.invoked {
        world := Add(world, me, RollingBack(written));
        Meanwhile(t.after);
        RollbackEvent(world, me, written, t.later, t.net);
        var rolledBack := TransitionStatus(exec.id, Dispatched, Approved, t.later, t.net);
        return false, true;
      }
      world := Drop(world, me);
      return true, false;
    }
  }

  lemma EligibleFacts(s: State, listed: seq<Execution>, target: string, threshold: int, created: string -> Option<int>)
    requires Inv(s) && ListsEligible(listed, s.table, target, threshold, created)
    ensures forall v :: v in listed ==> v in s.versions && v.status.Completes() && !v.cleaned
  {
    forall v | v in listed ensures v in s.versions && v.status.Completes() && !v.cleaned {
      assert s.table[v.id] == v;
    }
  }

  lemma {:induction false} AsyncMembers(listed: seq<Execution>)
    ensures forall v :: v in AsyncOnly(listed) <==> v in listed && v.request.mode == Async
    decreases |listed|
  {
    if listed != [] {
      AsyncMembers(listed[..|listed| - 1]);
      assert listed == listed[..|listed| - 1] + [listed[|listed| - 1]];
    }
  }
}
