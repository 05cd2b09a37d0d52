/** The two places that run an action: the API's create endpoint and the worker
    function, each one invocation among whatever else goes on. */
module Dispatching {
  import opened Executions
  import opened ExecutionProtocol
  import opened ExecutionTheorems
  import opened Reconciling
  import opened Handover
  import opened Wrappers
  import opened Remote

  type Params = map<string, string>

  // ---- Requests --------------------------------------------------------------------------

  datatype Parameter = Parameter(name: string, required: bool)

  datatype Meta = Meta(mode: string, locked: bool, timeoutSeconds: int, parameters: seq<Parameter>)

  predicate ValidParams(meta: Meta, params: Params) {
    && (forall p :: p in meta.parameters && p.required ==> p.name in params)
    && (forall k :: k in params ==> exists p :: p in meta.parameters && p.name == k)
  }

  method ValidateParams(meta: Meta, params: Params) returns (ok: bool)
    ensures ok == ValidParams(meta, params)
  {
    var defined := {};
    for i := 0 to |meta.parameters|
      invariant forall k :: k in defined <==> exists j :: 0 <= j < i && meta.parameters[j].name == k
      invariant forall j :: 0 <= j < i && meta.parameters[j].required ==> meta.parameters[j].name in params
    {
      var p := meta.parameters[i];
      defined := defined + {p.name};
      if p.required && p.name !in params {
        assert p in meta.parameters;
        return false;
      }
    }
    var todo := params.Keys;
    while todo != {}
      invariant todo <= params.Keys
      invariant forall k :: k in params && k !in todo ==> k in defined
      decreases |todo|
    {
      var k :| k in todo;
      if k !in defined {
        return false;
      }
      todo := todo - {k};
    }
    return true;
  }

  /** The extra params of a dry run never replace what the caller gave. */
  method WithDryRunParams(params: Params, extra: Params) returns (all: Params)
    ensures all == extra + params
  {
    all := params;
    var todo := extra.Keys;
    while todo != {}
      invariant todo <= extra.Keys && all == (extra - todo) + params
      decreases |todo|
    {
      var k :| k in todo;
      var rest := todo - {k};
      AddExtra(params, extra, todo, k);
      if k !in all {
        all := all[k := extra[k]];
      }
      todo := rest;
    }
    assert extra - {} == extra;
  }

  lemma AddExtra(params: Params, extra: Params, todo: set<string>, k: string)
    requires k in todo && todo <= extra.Keys
    ensures var all := (extra - todo) + params;
            (extra - (todo - {k})) + params == if k in all then all else all[k := extra[k]]
  {
    var all, more := (extra - todo) + params, (extra - (todo - {k})) + params;
    assert more.Keys == all.Keys + {k};
  }

  datatype ModeChoice = InvalidMode | LockedMode | Chosen(mode: Mode)

  /** What a request asks for must be a mode, and the default if the action locks it. */
  function ChooseMode(meta: Meta, requested: string): (c: ModeChoice)
    ensures c.InvalidMode? <==> requested != "" && requested != "sync" && requested != "async"
    ensures c.LockedMode? <==> (requested == "sync" || requested == "async") && requested != meta.mode && meta.locked
    ensures c.Chosen? && requested != "" ==> (c.mode == Sync <==> requested == "sync")
    ensures c.Chosen? && requested == "" ==> (c.mode == Sync <==> meta.mode == "sync" || meta.mode == "")
  {
    if requested != "" && requested != "sync" && requested != "async" then InvalidMode
    else if requested != "" && requested != meta.mode && meta.locked then LockedMode
    else
      var mode := if requested != "" then requested else meta.mode;
      Chosen(if mode == "sync" || mode == "" then Sync else Async)
  }

  /** None if the request exceeds the server's deadline; only requests are bounded. */
  function ChooseTimeout(meta: Meta, requested: int, deadline: int): Option<int> {
    if requested <= 0 then Some(meta.timeoutSeconds)
    else if requested > deadline then None
    else Some(requested)
  }

  // ---- Running an action -------------------------------------------------------------------

  /** How a synchronous run ends: whether the context's deadline passed, whether there
      was an error, the result if any, and how long it took. */
  datatype SyncEnd = SyncEnd(expired: bool, error: bool, result: Option<(bool, int, int)>, durationMs: int)

  /** How a run ends: by its deadline, else by its error or its result. */
  predicate EndsWith(end: SyncEnd, status: Status) {
    && (status == TimedOut <==> end.expired)
    && (status == Status.Failed <==> !end.expired && (end.error || (end.result.Some? && !end.result.value.0)))
    && (status == Succeeded <==> !end.expired && !end.error && (end.result.Some? ==> end.result.value.0))
  }

  function FinalStatus(end: SyncEnd): (status: Status)
    ensures status.Completes() && EndsWith(end, status)
  {
    if end.expired then TimedOut
    else if end.error || (end.result.Some? && !end.result.value.0) then Status.Failed
    else Succeeded
  }

  function SyncUpdates(end: SyncEnd): Updates {
    Updates(None, end.durationMs,
            if end.result.Some? then Some((end.result.value.1, "json")) else None,
            if end.result.Some? then Some(end.result.value.2) else None)
  }

  /** The row of a run whose outcome was stored, against the row before. */
  predicate RecordsRun(r: Execution, before: Execution, end: SyncEnd, now: string) {
    && EndsWith(end, r.status) && r.completedAt == now && r.updatedAt == now
    && r.id == before.id && r.request == before.request && r.dispatchedAt == before.dispatchedAt
    && r.cleaned == before.cleaned && r.cleanedAt == before.cleanedAt
    && r.targetStatusKey == r.status.Text() + "#" + now
    && r.metadata.durationMs == end.durationMs
    && (end.result.Some? ==>
          && r.metadata.outputBytes == end.result.value.1 && r.metadata.logBytes == end.result.value.2
          && r.metadata.outputFormat == "json")
    && (end.result.None? ==>
          && r.metadata.outputBytes == before.metadata.outputBytes && r.metadata.logBytes == before.metadata.logBytes
          && r.metadata.outputFormat == before.metadata.outputFormat)
  }

  lemma RunIsRecorded(before: Execution, end: SyncEnd, now: string)
    ensures RecordsRun(Updated(Moved(before, FinalStatus(end), now), SyncUpdates(end)), before, end, now)
  {
  }

  /** What the worker writes: completedAt once more. */
  function WorkerUpdates(stamp: string, durationMs: int): Updates {
    Updates(Some(stamp), durationMs, None, None)
  }

  lemma FinishStep(s: State, me: nat, v: Execution, to: Status, now: string, u: Updates, net: Net)
    requires me in s.actors && s.actors[me] == ApiSync(v) && to.Completes() && u.completedAt.None?
    ensures Apply(s, Finish(me, to, now, u, net)) == MoveWith(s, me, v.id, to, now, u, net)
  {
  }

  lemma MoveWithMeans(s: State, me: nat, id: string, to: Status, now: string, u: Updates, net: Net)
    requires to.Completes() && u.completedAt.None?
    ensures var s' := MoveWith(s, me, id, to, now, u, net);
            && s'.actors == s.actors - {me}
            && (net != Dropped && Has(s.table, id, Dispatched) ==>
                  && s'.table == s.table[id := Updated(Moved(s.table[id], to, now), u)]
                  && id in s'.table && s'.table[id].status == to)
            && (net == Dropped || !Has(s.table, id, Dispatched) ==> s'.table == s.table)
  {
    hide StatusKey;
  }

  lemma {:induction false} SettledStays(s: State, es: seq<Event>, id: string)
    requires Inv(s) && Settled(s, id)
    ensures Settled(Run(s, es), id)
  {
    SettledIsNotHandedOver(s, es, id);
  }

  /** A settled row is dispatched or has ended. */
  lemma SettledRow(s: State, id: string)
    requires Inv(s) && Settled(s, id)
    ensures id in s.table && (s.table[id].status == Dispatched || s.table[id].status.IsTerminal())
  {
    RowFacts(s, id);
  }

  /** Not one of the handler's own requests. */
  predicate Nothing(s: State, s': State, me: nat) {
    s'.table == s.table && s'.actors == s.actors - {me} && s'.versions == s.versions
  }

  lemma RejectedWrite(s: State, e: Event, me: nat)
    requires (e.WorkerWrite? && me in s.actors && s.actors[me].Working?)
               || (e.DispatchFailed? && me in s.actors && s.actors[me].ApiAsync?)
    requires e.a == me && (e.WorkerWrite? ==> e.to.Completes()) && e.u.completedAt.Some?
    ensures Nothing(s, Apply(s, e), me)
  {
  }

  /** The action that runs instead of a dry run's, if it is registered. */
  datatype DryRunAction = DryRunAction(name: string, meta: Meta, extra: Params, registered: bool)

  datatype CreateCall = CreateCall(target: string, action: string, meta: Meta, params: Params, force: bool,
                                   dryRun: bool,
                                   substitute: Option<DryRunAction>, mode: string, timeoutSeconds: int)
  {
    predicate Substituted() {
      dryRun && substitute.Some?
    }

    function Action(): string {
      if Substituted() then substitute.value.name else action
    }

    function Meta(): Meta {
      if Substituted() then substitute.value.meta else meta
    }

    /** What the caller gave wins over the substitute's extra params. */
    function Params(): Params {
      if Substituted() then substitute.value.extra + params else params
    }

    /** A substitute is one that is there. */
    predicate Registered() {
      Substituted() ==> substitute.value.registered
    }

    /** The request asks for no mode or for one, and not against a lock. */
    predicate ModeAllowed() {
      mode == "" || ((mode == "sync" || mode == "async") && (mode == Meta().mode || !Meta().locked))
    }

    predicate TimeoutAllowed(deadline: int) {
      timeoutSeconds <= 0 || timeoutSeconds <= deadline
    }

    predicate RunsSync() {
      mode == "sync" || (mode == "" && (Meta().mode == "sync" || Meta().mode == ""))
    }
  }

  /** The answer of the cooldown check, where it is made. */
  datatype CooldownAnswer = Unanswered | Clear | Recently

  datatype Answer = BadRequest | TooManyRequests | InternalError | Finished(status: Status) | Accepted

  /** What goes on around a create: others' events before the checks, between the two
      queries of the count, between check and create, and while the action runs; the
      answers of the store. */
  datatype Around = Around(before: seq<Event>, counting: seq<Event>, checked: seq<Event>, running: seq<Event>,
                           valid: bool, write: bool, cooldown: CooldownAnswer,
                           counts: bool, deadline: int, id: string, stamp: string, create: Net, end: SyncEnd,
                           dispatched: bool, now: string, net: Net)

  /** The row a request determines. */
  predicate IsRowOf(row: Execution, call: CreateCall, around: Around) {
    && row.id == around.id && row.status == Dispatched && row.dispatchedAt == around.stamp
    && row.updatedAt == row.completedAt == row.cleanedAt == row.targetStatusKey == "" && !row.cleaned
    && row.metadata == Metadata(0, 0, 0, "")
    && row.request.action == call.Action() && row.request.target == call.target && row.request.dryRun == call.dryRun
    && row.request.params == call.Params() && row.request.createdAt == around.stamp && row.request.dateBucket == ""
    && (row.request.mode == Sync <==> call.RunsSync())
    && (call.timeoutSeconds > 0 ==> row.request.timeoutSeconds == call.timeoutSeconds)
    && (call.timeoutSeconds <= 0 ==> row.request.timeoutSeconds == call.Meta().timeoutSeconds)
  }

  function RowOf(call: CreateCall, around: Around): (row: Execution)
    ensures IsRowOf(row, call, around)
  {
    Execution(around.id,
              Request(call.Action(), call.target, if call.RunsSync() then Sync else Async, call.dryRun, call.Params(),
                      if call.timeoutSeconds > 0 then call.timeoutSeconds else call.Meta().timeoutSeconds,
                      around.stamp, ""),
              Dispatched, "", around.stamp, "", Metadata(0, 0, 0, ""), false, "", "")
  }

  /** When mode and timeout are settled, and as what. */
  lemma ChoicesMean(call: CreateCall, deadline: int)
    ensures var chosen := ChooseMode(call.Meta(), call.mode);
            var timeout := ChooseTimeout(call.Meta(), call.timeoutSeconds, deadline);
            && (chosen.Chosen? <==> call.ModeAllowed())
            && (chosen.Chosen? ==> (chosen.mode == Sync <==> call.RunsSync()))
            && (timeout.Some? <==> call.TimeoutAllowed(deadline))
            && (timeout.Some? ==>
                  timeout.value == if call.timeoutSeconds > 0 then call.timeoutSeconds else call.Meta().timeoutSeconds)
  {
  }

  // ---- When a create is let through ---------------------------------------------------------

  /** The request names an action, real or substituted, that accepts it. */
  predicate ValidCall(call: CreateCall, around: Around) {
    ValidParams(call.meta, call.params) && call.Registered() && around.valid
  }

  /** The cooldown is checked. */
  predicate Cools(call: CreateCall, around: Around) {
    around.write && !call.force && !call.dryRun
  }

  predicate Cooled(call: CreateCall, around: Around) {
    Cools(call, around) ==> around.cooldown == Clear
  }

  /** Unless forced, the count was read and is below the limit. */
  ghost predicate BelowLimit(s: State, me: nat, call: CreateCall, around: Around) {
    call.force || (around.counts && CountedActive(s, me, call.target, around.counting) < s.max)
  }

  ghost predicate AtLimit(s: State, me: nat, call: CreateCall, around: Around) {
    !call.force && around.counts && CountedActive(s, me, call.target, around.counting) >= s.max
  }

  /** Every check passes. */
  ghost predicate LetsThrough(s: State, me: nat, call: CreateCall, around: Around) {
    && ValidCall(call, around) && Cooled(call, around) && BelowLimit(s, me, call, around)
    && call.ModeAllowed() && call.TimeoutAllowed(around.deadline)
  }

  /** The first check that fails is one of the request: its params, its validation, its
      mode or its timeout. */
  ghost predicate IsBad(s: State, me: nat, call: CreateCall, around: Around) {
    || !ValidParams(call.meta, call.params)
    || (call.Registered() && !around.valid)
    || (&& ValidCall(call, around) && Cooled(call, around) && BelowLimit(s, me, call, around)
        && !(call.ModeAllowed() && call.TimeoutAllowed(around.deadline)))
  }

  /** ... it is the cooldown or the limit. */
  ghost predicate IsTooMany(s: State, me: nat, call: CreateCall, around: Around) {
    && ValidCall(call, around)
    && ((Cools(call, around) && around.cooldown == Recently) || (Cooled(call, around) && AtLimit(s, me, call, around)))
  }

  /** ... it is a substitute that is missing, or a question the store does not answer. */
  predicate IsBroken(call: CreateCall, around: Around) {
    && ValidParams(call.meta, call.params)
    && (|| !call.Registered()
        || (&& around.valid
            && ((Cools(call, around) && around.cooldown == Unanswered)
                || (Cooled(call, around) && !call.force && !around.counts))))
  }

  /** The request has passed its checks; others have gone on during its count. */
  function AdmittedAfter(s: State, me: nat, call: CreateCall, around: Around): State {
    if call.force then Apply(s, Force(me, RowOf(call, around)))
    else Apply(Counted(s, me, call.target, around.counting), Admit(me, RowOf(call, around)))
  }

  /** The world when the create arrives. */
  function AtCreate(s: State, me: nat, call: CreateCall, around: Around): State {
    Run(AdmittedAfter(s, me, call, around), around.checked)
  }

  /** The create is carried out and answered: its id is new. */
  predicate Stores(s: State, around: Around) {
    around.create == Delivered && around.id !in s.table
  }

  /** What becomes of the row when the outcome of its run is written. */
  predicate EndsStored(t: Table, t': Table, id: string, around: Around) {
    && id in t && id in t'
    && (around.net != Dropped && t[id].status == Dispatched ==>
          t' == t[id := t'[id]] && RecordsRun(t'[id], t[id], around.end, around.now))
    && (around.net == Dropped || t[id].status != Dispatched ==> t' == t)
    && (around.net != Dropped ==> t'[id].status.IsTerminal())
  }

  /** The world when the action has run. */
  function AfterAction(s: State, me: nat, around: Around): State {
    Run(Apply(s, Create(me, around.create)), around.running)
  }

  /** The handler has counted the dispatched rows; others go on. */
  function Counted(s: State, me: nat, target: string, counting: seq<Event>): State {
    Run(Apply(s, Count(me, target)), counting)
  }

  /** What the count comes to. */
  function CountedActive(s: State, me: nat, target: string, counting: seq<Event>): nat {
    TwoQueryCount(s.table, Counted(s, me, target, counting).table, target)
  }

  /** The handler only counts: it writes nothing. */
  predicate Quiet(es: seq<Event>, me: nat) {
    forall i :: 0 <= i < |es| ==> es[i].Approve? || es[i].a != me || es[i].Count? || es[i].Exit?
  }

  lemma CountStep(s: State, me: nat, target: string)
    requires me !in s.actors
    ensures var s' := Apply(s, Count(me, target));
            && me in s'.actors && s'.actors[me] == Counting(target, |WithStatus(s.table, target, Dispatched)|)
            && s'.table == s.table && s'.max == s.max
  {
    hide WithStatus;
  }

  lemma AdmitStep(s: State, me: nat, row: Execution)
    requires me in s.actors && s.actors[me].Counting? && s.actors[me].target == row.request.target
               && NewRow(row, Dispatched)
    requires s.actors[me].dispatched + |WithStatus(s.table, row.request.target, Approved)| < s.max
    ensures Apply(s, Admit(me, row)) == Add(s, me, Admitted(row, false))
  {
    hide WithStatus;
  }

  lemma ForceStep(s: State, me: nat, row: Execution)
    requires me !in s.actors && NewRow(row, Dispatched)
    ensures Apply(s, Force(me, row)) == Add(s, me, Admitted(row, true))
  {
  }

  lemma {:induction false} MaxStays(s: State, es: seq<Event>)
    ensures Run(s, es).max == s.max
    decreases |es|
  {
    hide Apply;
    if es != [] {
      MaxStays(s, es[..|es| - 1]);
      LimitStays(Run(s, es[..|es| - 1]), es[|es| - 1]);
    }
  }

  lemma CreateStep(s: State, me: nat, row: Execution, forced: bool, net: Net)
    requires Inv(s) && me in s.actors && s.actors[me] == Admitted(row, forced) && NewRow(row, Dispatched)
    ensures var s' := Apply(s, Create(me, net));
            if net == Delivered && row.id !in s.table then
              && me in s'.actors && s'.table == s.table[row.id := Stored(row)] && row.id !in s.apiRows
              && s'.actors[me] == (if row.request.mode == Sync then ApiSync(Stored(row)) else ApiAsync(Stored(row)))
              && row.id in s'.apiRows
            else me !in s'.actors
  {
    hide StatusKey;
    assert forall id :: id in s.apiRows ==> id in s.table;
    hide Inv;
  }

  class Handler {
    const me: nat
    /** The world: a handler changes it only through its own requests. */
    var world: State

    constructor (me: nat, world: State)
      ensures this.me == me && this.world == world
    {
      this.me, this.world := me, world;
    }

    /** Events of others. */
    method Meanwhile(es: seq<Event>, ghost start: State, ghost trace: seq<Event>)
      requires Inv(world) && Foreign(es, me) && world == Run(start, trace)
      modifies this
      ensures world == Run(old(world), es) && Inv(world) && SamePlace(old(world), world, me)
      ensures old(world).versions <= world.versions && world == Run(start, trace + es)
    {
      hide Apply;
      hide Inv;
      RunKeeps(world, es);
      OthersLeaveMyPlace(world, es, me);
      RunVersionsGrow(world, es);
      RunConcat(start, trace, es);
      world := Run(world, es);
    }

    /** One event of this handler. */
    method Do(e: Event, ghost start: State, ghost trace: seq<Event>)
      requires Inv(world) && world == Run(start, trace)
      modifies this
      ensures world == Apply(old(world), e) && Inv(world) && old(world).versions <= world.versions
      ensures world == Run(start, trace + [e])
    {
      hide Apply;
      hide Inv;
      ApplyKeeps(world, e);
      VersionsGrow(world, e);
      RunSnoc(start, trace, e);
      world := Apply(world, e);
    }

    /** The answer may differ from what is stored only if the write lost a race or its
        request was lost; if the request arrives the execution has ended either way. */
    method ExecuteSyncAndRespond(exec: Execution, end: SyncEnd, running: seq<Event>, now: string, net: Net,
                                 ghost start: State, ghost so: seq<Event>)
      returns (status: Status, ghost trace: seq<Event>)
      requires Inv(world) && me in world.actors && world.actors[me] == ApiSync(exec) && Settled(world, exec.id)
      requires Foreign(running, me) && world == Run(start, so)
      modifies this
      ensures Idle(world, me) && world == Run(start, trace) && EndsWith(end, status)
      ensures var t := Run(old(world), running).table;
              && exec.id in t && exec.id in world.table
              && (net != Dropped && t[exec.id].status == Dispatched ==>
                    && world.table == t[exec.id := world.table[exec.id]] && world.table[exec.id].status == status
                    && RecordsRun(world.table[exec.id], t[exec.id], end, now))
              && (net == Dropped || t[exec.id].status != Dispatched ==> world.table == t)
              && (net != Dropped ==> world.table[exec.id].status.IsTerminal())
      ensures old(world).versions <= world.versions
    {
      hide Apply;
      hide Inv;
      hide Settled;
      hide MoveWith;
      SettledStays(world, running, exec.id);
      Meanwhile(running, start, so);
      trace := so + running;
      SettledRow(world, exec.id);
      status := FinalStatus(end);
      var updates := Updates(None, end.durationMs, None, None);
      if end.result.Some? {
        updates := updates.(output := Some((end.result.value.1, "json")), logBytes := Some(end.result.value.2));
      }
      assert updates == SyncUpdates(end);
      RunIsRecorded(world.table[exec.id], end, now);
      hide RecordsRun;
      hide Moved;
      hide Updated;
      hide EndsWith;
      hide SyncUpdates;
      FinishStep(world, me, exec, status, now, updates, net);
      MoveWithMeans(world, me, exec.id, status, now, updates, net);
      Do(Finish(me, status, now, updates, net), start, trace);
      trace := trace + [Finish(me, status, now, updates, net)];
    }

    /** Both queries of the count, with events of others in between. */
    method CountActiveByTarget(target: string, counting: seq<Event>, ghost start: State, ghost so: seq<Event>)
      returns (count: nat, ghost trace: seq<Event>)
      requires Idle(world, me) && Foreign(counting, me) && world == Run(start, so)
      modifies this
      ensures Inv(world) && old(world).versions <= world.versions && world == Run(start, trace)
      ensures me in world.actors && world.actors[me].Counting? && world.actors[me].target == target
      ensures count == world.actors[me].dispatched + |WithStatus(world.table, target, Approved)|
      ensures count == CountedActive(old(world), me, target, counting)
      ensures world == Counted(old(world), me, target, counting) && world.max == old(world).max
      ensures trace == so + [Count(me, target)] + counting
    {
      hide Apply;
      hide Inv;
      hide WithStatus;
      CountStep(world, me, target);
      var dispatched := |WithStatus(world.table, target, Dispatched)|;
      Do(Count(me, target), start, so);
      trace := so + [Count(me, target)];
      MaxStays(world, counting);
      Meanwhile(counting, start, trace);
      trace := trace + counting;
      count := dispatched + |WithStatus(world.table, target, Approved)|;
    }

    /** A refusal after the count. */
    method Refuse(ghost start: State, ghost so: seq<Event>) returns (ghost trace: seq<Event>)
      requires Inv(world) && world == Run(start, so)
      modifies this
      ensures Idle(world, me) && old(world).versions <= world.versions && world == Run(start, trace)
      ensures trace == so + [Exit(me)]
    {
      hide Apply;
      hide Inv;
      ExitStep(world, me);
      Do(Exit(me), start, so);
      trace := so + [Exit(me)];
    }

    /** The checks up to the cooldown; what runs is then settled. */
    static method CheckRequest(call: CreateCall, around: Around)
      returns (refused: Option<Answer>, action: string, meta: Meta, params: Params)
      ensures refused.None? <==> ValidCall(call, around) && Cooled(call, around)
      ensures refused == Some(BadRequest) <==>
                !ValidParams(call.meta, call.params) || (call.Registered() && !around.valid)
      ensures refused == Some(TooManyRequests) <==>
                ValidCall(call, around) && Cools(call, around) && around.cooldown == Recently
      ensures refused == Some(InternalError) <==>
                && ValidParams(call.meta, call.params)
                && (!call.Registered() || (around.valid && Cools(call, around) && around.cooldown == Unanswered))
      ensures refused.Some? ==>
                refused.value == BadRequest || refused.value == TooManyRequests || refused.value == InternalError
      ensures refused.None? ==> action == call.Action() && meta == call.Meta() && params == call.Params()
    {
      hide ValidParams;
      action, meta, params := call.action, call.meta, call.params;
      var ok := ValidateParams(call.meta, call.params);
      if !ok {
        return Some(BadRequest), action, meta, params;
      }
      if call.dryRun && call.substitute.Some? {
        params := WithDryRunParams(call.params, call.substitute.value.extra);
        action := call.substitute.value.name;
        if !call.substitute.value.registered {
          return Some(InternalError), action, meta, params;
        }
        meta := call.substitute.value.meta;
      }
      if !around.valid {
        return Some(BadRequest), action, meta, params;
      }
      if around.write && !call.force && !call.dryRun {
        if around.cooldown == Unanswered {
          return Some(InternalError), action, meta, params;
        }
        if around.cooldown == Recently {
          return Some(TooManyRequests), action, meta, params;
        }
      }
      return None, action, meta, params;
    }

    /** The checks before a row is created, in order; a call that passes is admitted. */
    method Check(call: CreateCall, around: Around, ghost start: State, ghost so: seq<Event>)
      returns (refused: Option<Answer>, row: Execution, ghost trace: seq<Event>)
      requires Idle(world, me) && |around.stamp| >= 10 && Foreign(around.counting, me)
      requires world == Run(start, so) && Quiet(so, me)
      modifies this
      ensures Inv(world) && old(world).versions <= world.versions && world == Run(start, trace)
      ensures refused.Some? ==>
                refused.value == BadRequest || refused.value == TooManyRequests || refused.value == InternalError
      ensures refused.Some? ==> me !in world.actors && Quiet(trace, me)
      ensures refused.None? ==>
                && me in world.actors && world.actors[me] == Admitted(row, call.force) && NewRow(row, Dispatched)
                && row == RowOf(call, around) && world == AdmittedAfter(old(world), me, call, around)
      ensures refused.None? <==> LetsThrough(old(world), me, call, around)
      ensures refused == Some(BadRequest) <==> IsBad(old(world), me, call, around)
      ensures refused == Some(TooManyRequests) <==> IsTooMany(old(world), me, call, around)
      ensures refused == Some(InternalError) <==> IsBroken(call, around)
    {
      hide Apply;
      hide Inv;
      hide CountedActive;
      hide Counted;
      hide WithStatus;
      hide NewRow;
      hide ValidParams;
      hide ChooseMode;
      hide ChooseTimeout;
      hide IsRowOf;
      row := RowOf(call, around);
      trace := so;
      var action, meta, params;
      refused, action, meta, params := CheckRequest(call, around);
      if refused.Some? {
        return refused, row, trace;
      }
      if !call.force {
        if !around.counts {
          return Some(InternalError), row, trace;
        }
        var count;
        count, trace := CountActiveByTarget(call.target, around.counting, start, so);
        if count >= world.max {
          trace := Refuse(start, trace);
          return Some(TooManyRequests), row, trace;
        }
      }
      ChoicesMean(call, around.deadline);
      var chosen := ChooseMode(meta, call.mode);
      var timeout := ChooseTimeout(meta, call.timeoutSeconds, around.deadline);
      if !chosen.Chosen? || timeout.None? {
        if !call.force {
          trace := Refuse(start, trace);
        }
        return Some(BadRequest), row, trace;
      }
      row := Execution(around.id,
        Request(action, call.target, chosen.mode, call.dryRun, params, timeout.value, around.stamp, ""),
                       Dispatched, "", around.stamp, "", Metadata(0, 0, 0, ""), false, "", "");
      RowOfIsNew(call, around);
      assert row == RowOf(call, around);
      if call.force {
        ForceStep(world, me, row);
        Do(Force(me, row), start, trace);
        trace := trace + [Force(me, row)];
      } else {
        AdmitStep(world, me, row);
        Do(Admit(me, row), start, trace);
        trace := trace + [Admit(me, row)];
      }
      return None, row, trace;
    }

    /** Creates the row of an admitted request and runs or dispatches the action. */
    method CreateAndRun(row: Execution, forced: bool, around: Around, ghost start: State, ghost so: seq<Event>)
      returns (answer: Answer, ghost trace: seq<Event>)
      requires Inv(world) && me in world.actors && world.actors[me] == Admitted(row, forced)
      requires NewRow(row, Dispatched) && world == Run(start, so)
      requires Foreign(around.checked, me) && Foreign(around.running, me)
      modifies this
      ensures Idle(world, me) && world == Run(start, trace)
      ensures answer == InternalError || answer == Accepted || answer.Finished?
      ensures var s := Run(old(world), around.checked);
              var created, t := Stores(s, around) && row.id == around.id, AfterAction(s, me, around).table;
              row.id == around.id ==>
                && (answer == InternalError <==> !created)
                && (answer == Accepted <==> created && row.request.mode == Async && around.dispatched)
                && (answer.Finished? && row.request.mode == Sync ==> EndsWith(around.end, answer.status))
                && (answer.Finished? && row.request.mode == Async ==> answer.status == Status.Failed)
                && (created ==>
                      && row.id !in old(world).table && row.id in world.table && row.id in t
                      && world.table[row.id].request == Stored(row).request)
                && (created && row.request.mode == Sync ==> EndsStored(t, world.table, row.id, around))
                && (created && row.request.mode == Async ==> world.table == t)
    {
      hide Apply;
      hide Inv;
      hide Settled;
      ghost var admitted := world;
      Meanwhile(around.checked, start, so);
      trace := so + around.checked;
      ghost var last := world;
      var done := around.create == Delivered && row.id !in world.table;
      RowsStay(admitted, world, row.id);
      CreateStep(world, me, row, forced, around.create);
      Do(Create(me, around.create), start, trace);
      trace := trace + [Create(me, around.create)];
      if !done {
        return InternalError, trace;
      }
      CreateSettles(last, Create(me, around.create), row.id);
      StoredRequest(row);
      hide Stored;
      hide NewRow;
      ghost var created := world;
      if row.request.mode == Sync {
        var status;
        status, trace := ExecuteSyncAndRespond(world.table[row.id], around.end, around.running, around.now, around.net,
          start, trace);
        RequestKept(created, world, row.id);
        return Finished(status), trace;
      }
      answer, trace := AfterDispatch(around, start, trace);
      RequestKept(created, world, row.id);
    }

    /** A failed dispatch is answered as failed, but the write that should record it is
        never carried out: nothing is stored. */
    method AfterDispatch(around: Around, ghost start: State, ghost so: seq<Event>)
      returns (answer: Answer, ghost trace: seq<Event>)
      requires Inv(world) && me in world.actors && world.actors[me].ApiAsync? && world == Run(start, so)
      requires Foreign(around.running, me)
      modifies this
      ensures Idle(world, me) && world == Run(start, trace) && old(world).versions <= world.versions
      ensures world.table == Run(old(world), around.running).table
      ensures answer == if around.dispatched then Accepted else Finished(Status.Failed)
    {
      hide Apply;
      hide Inv;
      Meanwhile(around.running, start, so);
      trace := so + around.running;
      var e := Exit(me);
      ExitStep(world, me);
      if !around.dispatched {
        e := DispatchFailed(me, around.now, WorkerUpdates(around.now, 0), around.net);
        RejectedWrite(world, e, me);
      }
      Do(e, start, trace);
      trace := trace + [e];
      return if around.dispatched then Accepted else Finished(Status.Failed), trace;
    }

    /** A create that is answered with a result or accepted has stored a row with the
        resolved mode, timeout and params, after a count below the limit unless forced;
        a synchronous one has then ended if its last request arrived. */
    method HandleCreate(call: CreateCall, around: Around) returns (answer: Answer, ghost trace: seq<Event>)
      requires Idle(world, me) && |around.stamp| >= 10
      requires Foreign(around.before, me) && Foreign(around.counting, me)
      requires Foreign(around.checked, me) && Foreign(around.running, me)
      modifies this
      ensures Idle(world, me) && world == Run(old(world), trace)
      ensures answer == BadRequest || answer == TooManyRequests ==> Quiet(trace, me)
      ensures var s := Run(old(world), around.before);
              var created := LetsThrough(s, me, call, around) && Stores(AtCreate(s, me, call, around), around);
              var t := AfterAction(AtCreate(s, me, call, around), me, around).table;
              && (answer == BadRequest <==> IsBad(s, me, call, around))
              && (answer == TooManyRequests <==> IsTooMany(s, me, call, around))
              && (answer == InternalError <==> IsBroken(call, around) || (LetsThrough(s, me, call, around) && !created))
              && (answer == Accepted <==> created && !call.RunsSync() && around.dispatched)
              && (answer.Finished? <==> created && (call.RunsSync() || !around.dispatched))
              && (answer.Finished? && call.RunsSync() ==> EndsWith(around.end, answer.status))
              && (answer.Finished? && !call.RunsSync() ==> answer.status == Status.Failed)
              && (created ==>
                    && around.id !in s.table && around.id in world.table
                    && world.table[around.id].request == Stored(RowOf(call, around)).request)
              && (created && call.RunsSync() ==> EndsStored(t, world.table, around.id, around))
              && (created && !call.RunsSync() ==> world.table == t)
    {
      hide Apply;
      hide Inv;
      hide CountedActive;
      hide NewRow;
      hide Stored;
      hide IsRowOf;
      hide LetsThrough;
      hide IsBad;
      hide IsTooMany;
      hide IsBroken;
      hide AdmittedAfter;
      hide AfterAction;
      hide EndsStored;
      hide EndsWith;
      RunNothing(world);
      Meanwhile(around.before, world, []);
      trace := around.before;
      assert [] + around.before == around.before;
      ghost var first := world;
      var refused, row;
      refused, row, trace := Check(call, around, old(world), trace);
      if refused.Some? {
        return refused.value, trace;
      }
      RowsStay(first, world, row.id);
      RowOfIsNew(call, around);
      AnswersExclude(first, me, call, around);
      answer, trace := CreateAndRun(row, call.force, around, old(world), trace);
    }

    /** The worker: it acts only on a row it reads as dispatched, but no write of it is
        ever carried out, so a synchronous run always ends in an error. */
    method RunDispatchedExecution(lookup: Option<Execution>, failing: bool, registered: bool, dispatched: bool,
                                  end: SyncEnd,
                                  before: seq<Event>, running: seq<Event>, now: string, net: Net)
      returns (result: WorkerResult, ghost trace: seq<Event>)
      requires Idle(world, me) && Foreign(before, me) && Foreign(running, me)
      requires lookup.Some? ==> lookup.value in world.versions
      modifies this
      ensures Idle(world, me) && world == Run(old(world), trace)
      ensures result == Skipped <==> !failing && lookup.Some? && lookup.value.status != Dispatched
      ensures result == NotLoaded <==> failing || lookup.None?
      ensures var runs := !failing && lookup.Some? && lookup.value.status == Dispatched;
              && (result == NotRegistered <==> runs && !registered)
              && (result == NotPersisted <==> runs && registered && lookup.value.request.mode == Sync)
              && (result == HandedToJob <==> runs && registered && lookup.value.request.mode == Async && dispatched)
              && (result == NotDispatched <==> runs && registered && lookup.value.request.mode == Async && !dispatched)
              && (!runs ==> trace == before)
              && (runs ==>
                    world.table == Run(Run(old(world), before), [Read(me, Working(lookup.value))] + running).table)
    {
      hide Apply;
      hide Inv;
      RunNothing(world);
      Meanwhile(before, world, []);
      trace := before;
      assert [] + before == before;
      if failing || lookup.None? {
        return NotLoaded, trace;
      }
      var exec := lookup.value;
      if exec.status != Dispatched {
        return Skipped, trace;
      }
      ghost var mid := world;
      BeginStep(world, me, Working(exec));
      Do(Read(me, Working(exec)), old(world), trace);
      trace := trace + [Read(me, Working(exec))];
      RunOneThen(mid, Read(me, Working(exec)), running);
      Meanwhile(running, old(world), trace);
      trace := trace + running;
      if registered && exec.request.mode == Async && dispatched {
        ExitStep(world, me);
        Do(Exit(me), old(world), trace);
        trace := trace + [Exit(me)];
        return HandedToJob, trace;
      }
      var status, duration := Status.Failed, 0;
      result := if !registered then NotRegistered else NotDispatched;
      if registered && exec.request.mode == Sync {
        status, duration, result := FinalStatus(end), end.durationMs, NotPersisted;
      }
      var e := WorkerWrite(me, status, now, WorkerUpdates(now, duration), net);
      RejectedWrite(world, e, me);
      Do(e, old(world), trace);
      trace := trace + [e];
    }
  }

  datatype WorkerResult = NotLoaded | Skipped | NotRegistered | NotDispatched | HandedToJob | NotPersisted

  lemma RunNothing(s: State)
    ensures Run(s, []) == s
  {
  }

  lemma RunOneThen(s: State, e: Event, es: seq<Event>)
    ensures Run(s, [e] + es) == Run(Apply(s, e), es)
  {
    hide Apply;
    RunConcat(s, [e], es);
    RunNothing(s);
    assert [] + [e] == [e];
    RunSnoc(s, [], e);
  }

  lemma ExitStep(s: State, me: nat)
    ensures Apply(s, Exit(me)) == Drop(s, me)
  {
  }

  lemma RowOfIsNew(call: CreateCall, around: Around)
    requires |around.stamp| >= 10
    ensures var row := RowOf(call, around);
            && NewRow(row, Dispatched) && row.id == around.id && row.request.target == call.target
            && (row.request.mode == Sync <==> call.RunsSync()) && |row.request.createdAt| >= 10
  {
  }

  /** A call that is let through fails no check. */
  lemma AnswersExclude(s: State, me: nat, call: CreateCall, around: Around)
    requires LetsThrough(s, me, call, around)
    ensures !IsBad(s, me, call, around) && !IsTooMany(s, me, call, around) && !IsBroken(call, around)
  {
    hide CountedActive;
    hide ValidParams;
  }

  /** Rows that are there stay. */
  lemma RowsStay(s: State, s': State, id: string)
    requires Inv(s) && Inv(s') && s.versions <= s'.versions
    ensures id in s.table ==> id in s'.table && s'.table[id].request == s.table[id].request
  {
    if id in s.table {
      RowFacts(s, id);
      assert s.table[id] in s'.versions;
    }
  }

  lemma RequestKept(s: State, s': State, id: string)
    requires Inv(s) && Inv(s') && s.versions <= s'.versions && id in s.table
    ensures id in s'.table && s'.table[id].request == s.table[id].request
  {
    RowsStay(s, s', id);
  }

  lemma StoredRequest(row: Execution)
    requires |row.request.createdAt| >= 10
    ensures Stored(row).id == row.id && Stored(row).request.mode == row.request.mode
  {
  }
}
