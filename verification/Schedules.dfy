/** Executions side by side: creations, cleanups and dispatches of different executions
    interleave request by request and do not disturb each other. */
module Schedules {
  import opened Wrappers
  import opened Resources
  import opened ResourceTheorems
  import opened Remote

  // ---- Names -------------------------------------------------------------------------

  /** The name belongs to the execution. */
  predicate Owns(id: string, ref: Ref) {
    match ref
    case Namespace(_) => false
    case ServiceAccount(_, _) => ref == Account(id)
    case Secret(_, _) => ref == Creds(id)
    case Role(_, name) => name == ExecName(id)
    case RoleBinding(_, name) => name == ExecName(id)
    case ClusterRole(name) => name == ExecName(id)
    case ClusterRoleBinding(name) => name == ExecName(id)
    case Job(_, _) => ref == JobOf(id)
  }

  lemma SuffixDecides(p: string, a: string, b: string)
    requires p + a == p + b
    ensures a == b
  {
    assert a == (p + a)[|p|..] && b == (p + b)[|p|..];
  }

  /** No name belongs to two executions. */
  lemma OneOwner(id: string, other: string, ref: Ref)
    requires Owns(id, ref) && Owns(other, ref)
    ensures id == other
  {
    match ref
    case Secret(_, _) => SuffixDecides("zoa-creds-", id, other);
    case Job(_, _) => SuffixDecides("zoa-", id, other);
    case _ => SuffixDecides("zoa-exec-", id, other);
  }

  lemma OwnNames(id: string, rbac: Option<Rbac>, params: Params)
    ensures forall o :: o in Plan(id, rbac, params) ==> Owns(id, o.ref)
    ensures forall r :: r in Removal(id, rbac, params) ==> Owns(id, r)
    ensures Owns(id, Creds(id)) && Owns(id, JobOf(id))
  {
  }

  // ---- Steps ---------------------------------------------------------------------------

  /** One object stored or deleted on behalf of an execution, or the namespace they
      all share. */
  datatype Step = PutStep(id: string, put: Object) | DeleteStep(id: string, ref: Ref) | NamespaceStep(id: string) {
    /** It concerns an object of that execution only. */
    predicate Keeps() {
      match this
      case PutStep(_, o) => Owns(id, o.ref)
      case DeleteStep(_, r) => Owns(id, r)
      case NamespaceStep(_) => true
    }
  }

  function Take(c: Cluster, step: Step): Cluster {
    match step
    case PutStep(_, o) => Put(c, o)
    case DeleteStep(_, ref) => c - {ref}
    case NamespaceStep(_) => Put(c, Object(Namespace(JOBS), Plain))
  }

  function TakeAll(c: Cluster, steps: seq<Step>): Cluster {
    if steps == [] then c else Take(TakeAll(c, steps[..|steps| - 1]), steps[|steps| - 1])
  }

  lemma {:induction false} TakeBoth(c: Cluster, steps: seq<Step>, more: seq<Step>)
    ensures TakeAll(c, steps + more) == TakeAll(TakeAll(c, steps), more)
    decreases |more|
  {
    if more == [] {
      assert steps + more == steps;
    } else {
      var front, last := more[..|more| - 1], more[|more| - 1];
      TakeBoth(c, steps, front);
      assert (steps + more)[..|steps + more| - 1] == steps + front;
    }
  }

  lemma TakeOne(c: Cluster, step: Step)
    ensures TakeAll(c, [step]) == Take(c, step)
  {
    assert [step][..0] == [];
  }

  function Own(c: Cluster, id: string): Cluster {
    map r | r in c && Owns(id, r) :: c[r]
  }

  /** An execution's own steps. */
  function Mine(steps: seq<Step>, id: string): seq<Step> {
    if steps == [] then []
    else
      var last := steps[|steps| - 1];
      Mine(steps[..|steps| - 1], id) + (if last.id == id && !last.NamespaceStep? then [last] else [])
  }

  lemma TakeOwn(c: Cluster, step: Step, id: string)
    requires step.Keeps()
    ensures Own(Take(c, step), id) == if step.id == id && !step.NamespaceStep? then Take(Own(c, id), step)
              else Own(c, id)
  {
    hide Account;
    hide Creds;
    hide JobOf;
    hide ExecName;
    if step.id != id && step.PutStep? && Owns(id, step.put.ref) {
      OneOwner(id, step.id, step.put.ref);
    }
    if step.id != id && step.DeleteStep? && Owns(id, step.ref) {
      OneOwner(id, step.id, step.ref);
    }
    assert !Owns(id, Namespace(JOBS));
    hide Owns;
  }

  /** However steps of different executions interleave, the objects of each are what
      its own steps alone would have made of them. */
  lemma {:induction false} ExecutionsAreIndependent(c: Cluster, steps: seq<Step>, id: string)
    requires forall i :: 0 <= i < |steps| ==> steps[i].Keeps()
    ensures Own(TakeAll(c, steps), id) == TakeAll(Own(c, id), Mine(steps, id))
    decreases |steps|
  {
    hide Owns;
    hide Own;
    hide Take;
    if steps != [] {
      var before, last := steps[..|steps| - 1], steps[|steps| - 1];
      ExecutionsAreIndependent(c, before, id);
      TakeOwn(TakeAll(c, before), last, id);
      var mine := Mine(before, id);
      if last.id == id && !last.NamespaceStep? {
        assert (mine + [last])[..|mine|] == mine;
      } else {
        assert mine + [] == mine;
      }
    }
  }

  // ---- Creations, cleanups and dispatches as steps -----------------------------------------

  /** What a create does, whatever the cluster holds. */
  ghost function CreateSteps(id: string, o: Object, r: Request): seq<Step> {
    if Stores(r) then [PutStep(id, o)] else []
  }

  ghost function CreateAllSteps(id: string, os: seq<Object>, requests: nat -> Request, i: nat): seq<Step>
    requires i <= |os|
    decreases |os| - i
  {
    if i == |os| then []
    else
      CreateSteps(id, os[i], requests(i))
      + (if Answers(requests(i)) then CreateAllSteps(id, os, requests, i + 1) else [])
  }

  ghost predicate AllAnswer(n: nat, requests: nat -> Request, i: nat) {
    forall k: nat :: i <= k < n ==> Answers(requests(k))
  }

  ghost function CreationSteps(id: string, rbac: Option<Rbac>, params: Params, requests: nat -> Request): seq<Step> {
    if rbac.Some? && !rbac.value.valid then [] else CreateAllSteps(id, Plan(id, rbac, params), requests, 0)
  }

  function DeleteSteps(id: string, refs: seq<Ref>, fates: nat -> Net, i: nat): seq<Step>
    requires i <= |refs|
    decreases |refs| - i
  {
    if i == |refs| then []
    else (if fates(i) == Dropped then [] else [DeleteStep(id, refs[i])]) + DeleteSteps(id, refs, fates, i + 1)
  }

  function CleanupSteps(id: string, rbac: Option<Rbac>, params: Params, fates: nat -> Net): seq<Step> {
    DeleteSteps(id, Removal(id, rbac, params), fates, 0)
  }

  ghost predicate CreationAnswers(id: string, rbac: Option<Rbac>, params: Params, requests: nat -> Request) {
    (rbac.Some? ==> rbac.value.valid) && AllAnswer(|Plan(id, rbac, params)|, requests, 0)
  }

  /** A dispatch once the namespace is there: its branches do not depend on what the
      cluster holds. */
  ghost function ProvisionSteps(call: AsyncCall): seq<Step> {
    var id := call.id;
    var creation := CreationSteps(id, call.AccountRbac(), call.params, call.resources);
    var secret := CreateSteps(id, Object(Creds(id), Plain), call.secret);
    var job := CreateSteps(id, Object(JobOf(id), Plain), call.job);
    if !CreationAnswers(id, call.AccountRbac(), call.params, call.resources)
      then creation + ErrorSteps(call, ResourcesFailed)
    else if !call.HasRole() then creation + ErrorSteps(call, NoRole)
    else if call.sts != Assumed then creation + ErrorSteps(call, StsFailed)
    else if !Answers(call.secret) then creation + secret + ErrorSteps(call, SecretFailed)
    else if !Answers(call.job) then creation + secret + job + ErrorSteps(call, JobFailed)
    else creation + secret + job
  }

  /** The cleanup on an error. */
  function ErrorSteps(call: AsyncCall, error: AsyncError): seq<Step> {
    CleanupSteps(call.id, CleanupRbac(call, error), call.params, CleanupFates(call, error))
  }

  lemma CreateIsSteps(c: Cluster, id: string, o: Object, r: Request)
    ensures Created(c, o, r).0 == TakeAll(c, CreateSteps(id, o, r)) && (Created(c, o, r).1 <==> Answers(r))
  {
    hide Created;
    hide AnswersFrom;
    hide Leaks;
    CreatedExactly(c, o, r);
    TakeOne(c, PutStep(id, o));
  }

  lemma {:induction false} CreateAllIsSteps(c: Cluster, id: string, os: seq<Object>, requests: nat -> Request, i: nat)
    requires i <= |os|
    ensures CreateAll(c, os, requests, i).0 == TakeAll(c, CreateAllSteps(id, os, requests, i))
    ensures CreateAll(c, os, requests, i).1 <==> AllAnswer(|os|, requests, i)
    decreases |os| - i
  {
    hide Created;
    hide Answers;
    hide CreateSteps;
    if i < |os| {
      CreateIsSteps(c, id, os[i], requests(i));
      var c' := Created(c, os[i], requests(i)).0;
      if Answers(requests(i)) {
        CreateAllIsSteps(c', id, os, requests, i + 1);
        TakeBoth(c, CreateSteps(id, os[i], requests(i)), CreateAllSteps(id, os, requests, i + 1));
        assert AllAnswer(|os|, requests, i) <==> AllAnswer(|os|, requests, i + 1);
      } else {
        assert CreateSteps(id, os[i], requests(i)) + [] == CreateSteps(id, os[i], requests(i));
      }
    }
  }

  lemma CreationIsSteps(c: Cluster, id: string, rbac: Option<Rbac>, params: Params, requests: nat -> Request)
    ensures var (c', ok) := CreatedFor(c, id, rbac, params, requests);
            c' == TakeAll(c, CreationSteps(id, rbac, params, requests))
              && (ok <==> CreationAnswers(id, rbac, params, requests))
  {
    hide Plan;
    if rbac.None? || rbac.value.valid {
      CreateAllIsSteps(c, id, Plan(id, rbac, params), requests, 0);
    }
  }

  lemma {:induction false} DeleteAllIsSteps(c: Cluster, id: string, refs: seq<Ref>, fates: nat -> Net, i: nat)
    requires i <= |refs|
    ensures DeleteAll(c, refs, fates, i) == TakeAll(c, DeleteSteps(id, refs, fates, i))
    decreases |refs| - i
  {
    if i < |refs| {
      var first := if fates(i) == Dropped then [] else [DeleteStep(id, refs[i])];
      DeleteAllIsSteps(Deleted(c, refs[i], fates(i)), id, refs, fates, i + 1);
      TakeOne(c, DeleteStep(id, refs[i]));
      TakeBoth(c, first, DeleteSteps(id, refs, fates, i + 1));
    }
  }

  lemma CleanupIsSteps(c: Cluster, id: string, rbac: Option<Rbac>, params: Params, fates: nat -> Net)
    ensures CleanedUp(c, id, rbac, params, fates) == TakeAll(c, CleanupSteps(id, rbac, params, fates))
  {
    DeleteAllIsSteps(c, id, Removal(id, rbac, params), fates, 0);
  }

  lemma ProvisionIsSteps(c: Cluster, call: AsyncCall)
    ensures Provisioned(c, call).0 == TakeAll(c, ProvisionSteps(call))
  {
    hide CreatedFor;
    hide Created;
    hide CleanedUp;
    hide CreationSteps;
    hide CleanupSteps;
    hide CreateSteps;
    hide CreationAnswers;
    hide Answers;
    hide TakeAll;
    var id := call.id;
    var creation := CreationSteps(id, call.AccountRbac(), call.params, call.resources);
    var secret := CreateSteps(id, Object(Creds(id), Plain), call.secret);
    var job := CreateSteps(id, Object(JobOf(id), Plain), call.job);
    CreationIsSteps(c, id, call.AccountRbac(), call.params, call.resources);
    var c2 := TakeAll(c, creation);
    CreateIsSteps(c2, id, Object(Creds(id), Plain), call.secret);
    TakeBoth(c, creation, secret);
    var c3 := TakeAll(c, creation + secret);
    CreateIsSteps(c3, id, Object(JobOf(id), Plain), call.job);
    TakeBoth(c, creation + secret, job);
    var c4 := TakeAll(c, creation + secret + job);
    forall steps, rbac, fates
      ensures TakeAll(c, steps + CleanupSteps(id, rbac, call.params, fates))
              == CleanedUp(TakeAll(c, steps), id, rbac, call.params, fates)
    {
      CleanupIsSteps(TakeAll(c, steps), id, rbac, call.params, fates);
      TakeBoth(c, steps, CleanupSteps(id, rbac, call.params, fates));
    }
  }

  ghost function DispatchSteps(call: AsyncCall, named: bool): seq<Step> {
    if !call.ready || call.namespace.getFails then []
    else
      (if !named && call.namespace.create != Dropped then [NamespaceStep(call.id)] else [])
      + (if named || call.namespace.create == Delivered then ProvisionSteps(call) else [])
  }

  /** A dispatch is these steps; only whether the namespace was there matters. */
  lemma DispatchIsSteps(c: Cluster, call: AsyncCall)
    ensures Dispatched(c, call).0 == TakeAll(c, DispatchSteps(call, Namespace(JOBS) in c))
  {
    hide Provisioned;
    hide ProvisionSteps;
    var named := Namespace(JOBS) in c;
    if call.ready && !call.namespace.getFails {
      var c1 := Ensured(c, call.namespace).0;
      var first := if !named && call.namespace.create != Dropped then [NamespaceStep(call.id)] else [];
      TakeOne(c, NamespaceStep(call.id));
      assert c1 == TakeAll(c, first);
      ProvisionIsSteps(c1, call);
      TakeBoth(c, first, ProvisionSteps(call));
      assert first + [] == first;
    }
  }

  // ---- Interleaved operations ------------------------------------------------------------

  /** What is done for an execution: its resources are created or cleaned up, or it is
      dispatched once the namespace is there. */
  datatype Operation =
    | Creation(rbac: Option<Rbac>, params: Params, requests: nat -> Request)
    | Cleanup(rbac: Option<Rbac>, params: Params, fates: nat -> Net)
    | Provision(call: AsyncCall)

  predicate Of(id: string, op: Operation) {
    op.Provision? ==> op.call.id == id
  }

  ghost function Steps(id: string, op: Operation): seq<Step> {
    match op
    case Creation(rbac, params, requests) => CreationSteps(id, rbac, params, requests)
    case Cleanup(rbac, params, fates) => CleanupSteps(id, rbac, params, fates)
    case Provision(call) => ProvisionSteps(call)
  }

  function Perform(c: Cluster, id: string, op: Operation): Cluster {
    match op
    case Creation(rbac, params, requests) => CreatedFor(c, id, rbac, params, requests).0
    case Cleanup(rbac, params, fates) => CleanedUp(c, id, rbac, params, fates)
    case Provision(call) => Provisioned(c, call).0
  }

  ghost function AllSteps(id: string, ops: seq<Operation>): seq<Step> {
    if ops == [] then [] else AllSteps(id, ops[..|ops| - 1]) + Steps(id, ops[|ops| - 1])
  }

  /** One operation after another, with nothing else going on. */
  function PerformAll(c: Cluster, id: string, ops: seq<Operation>): Cluster {
    if ops == [] then c else Perform(PerformAll(c, id, ops[..|ops| - 1]), id, ops[|ops| - 1])
  }

  /** The steps are those of the operations of each execution in their order, interleaved
      in any way, with the shared namespace created at any time. */
  ghost predicate Interleaves(steps: seq<Step>, ops: map<string, seq<Operation>>) {
    && (forall i :: 0 <= i < |steps| ==> steps[i].id in ops)
    && (forall id :: id in ops ==>
          Mine(steps, id) == AllSteps(id, ops[id]) && forall op :: op in ops[id] ==> Of(id, op))
  }

  ghost predicate Belong(steps: seq<Step>, id: string) {
    forall s :: s in steps ==> s.id == id && s.Keeps() && !s.NamespaceStep?
  }

  lemma {:induction false} CreateAllBelong(id: string, os: seq<Object>, requests: nat -> Request, i: nat)
    requires i <= |os| && forall o :: o in os ==> Owns(id, o.ref)
    ensures Belong(CreateAllSteps(id, os, requests, i), id)
    decreases |os| - i
  {
    hide Owns;
    hide Answers;
    hide Leaks;
    if i < |os| {
      assert os[i] in os;
      CreateAllBelong(id, os, requests, i + 1);
    }
  }

  lemma {:induction false} DeletesBelong(id: string, refs: seq<Ref>, fates: nat -> Net, i: nat)
    requires i <= |refs| && forall r :: r in refs ==> Owns(id, r)
    ensures Belong(DeleteSteps(id, refs, fates, i), id)
    decreases |refs| - i
  {
    hide Owns;
    if i < |refs| {
      assert refs[i] in refs;
      DeletesBelong(id, refs, fates, i + 1);
    }
  }

  lemma CreationBelongs(id: string, rbac: Option<Rbac>, params: Params, requests: nat -> Request)
    ensures Belong(CreationSteps(id, rbac, params, requests), id)
  {
    OwnNames(id, rbac, params);
    hide Plan;
    CreateAllBelong(id, Plan(id, rbac, params), requests, 0);
  }

  lemma CleanupBelongs(id: string, rbac: Option<Rbac>, params: Params, fates: nat -> Net)
    ensures Belong(CleanupSteps(id, rbac, params, fates), id)
  {
    OwnNames(id, rbac, params);
    hide Removal;
    DeletesBelong(id, Removal(id, rbac, params), fates, 0);
  }

  /** Every operation touches only objects of its execution. */
  lemma StepsBelong(id: string, op: Operation)
    requires Of(id, op)
    ensures Belong(Steps(id, op), id)
  {
    hide CreationSteps;
    hide CleanupSteps;
    hide Answers;
    hide Leaks;
    match op
    case Creation(rbac, params, requests) => CreationBelongs(id, rbac, params, requests);
    case Cleanup(rbac, params, fates) => CleanupBelongs(id, rbac, params, fates);
    case Provision(call) =>
      CreationBelongs(id, call.AccountRbac(), call.params, call.resources);
      forall error ensures Belong(ErrorSteps(call, error), id) {
        CleanupBelongs(id, CleanupRbac(call, error), call.params, CleanupFates(call, error));
      }
      hide ErrorSteps;
      OwnNames(id, None, map[]);
      hide Owns;
      hide CreationAnswers;
  }

  lemma OperationIsSteps(c: Cluster, id: string, op: Operation)
    ensures Perform(c, id, op) == TakeAll(c, Steps(id, op))
  {
    match op
    case Creation(rbac, params, requests) => CreationIsSteps(c, id, rbac, params, requests);
    case Cleanup(rbac, params, fates) => CleanupIsSteps(c, id, rbac, params, fates);
    case Provision(call) => ProvisionIsSteps(c, call);
  }

  lemma {:induction false} OperationsAreSteps(c: Cluster, id: string, ops: seq<Operation>)
    requires forall op :: op in ops ==> Of(id, op)
    ensures PerformAll(c, id, ops) == TakeAll(c, AllSteps(id, ops))
    ensures Belong(AllSteps(id, ops), id)
    decreases |ops|
  {
    hide Perform;
    hide Steps;
    hide TakeAll;
    if ops == [] {
      NoSteps(c);
    } else {
      var front, last := ops[..|ops| - 1], ops[|ops| - 1];
      assert forall op :: op in front ==> op in ops;
      OperationsAreSteps(c, id, front);
      OperationIsSteps(PerformAll(c, id, front), id, last);
      StepsBelong(id, last);
      TakeBoth(c, AllSteps(id, front), Steps(id, last));
    }
  }

  lemma NoSteps(c: Cluster)
    ensures TakeAll(c, []) == c
  {
  }

  lemma {:induction false} OwnStepsAreMine(steps: seq<Step>, id: string)
    requires Belong(steps, id)
    ensures Mine(steps, id) == steps
    decreases |steps|
  {
    if steps != [] {
      assert forall s :: s in steps[..|steps| - 1] ==> s in steps;
      OwnStepsAreMine(steps[..|steps| - 1], id);
    }
  }

  lemma {:induction false} MineHolds(steps: seq<Step>, i: nat)
    requires i < |steps| && !steps[i].NamespaceStep?
    ensures steps[i] in Mine(steps, steps[i].id)
    decreases |steps|
  {
    if i < |steps| - 1 {
      MineHolds(steps[..|steps| - 1], i);
    }
  }

  /** However the creations, cleanups and dispatches of different executions interleave,
      request by request, the objects of each are what its own operations alone, one
      after another, would have made of them. */
  lemma InterleavedIsSequential(c: Cluster, steps: seq<Step>, ops: map<string, seq<Operation>>, id: string)
    requires Interleaves(steps, ops) && id in ops
    ensures Own(TakeAll(c, steps), id) == Own(PerformAll(c, id, ops[id]), id)
  {
    hide Own;
    hide Perform;
    hide Steps;
    hide Owns;
    forall i | 0 <= i < |steps| ensures steps[i].Keeps() {
      if !steps[i].NamespaceStep? {
        MineHolds(steps, i);
        OperationsAreSteps(c, steps[i].id, ops[steps[i].id]);
      }
    }
    OperationsAreSteps(c, id, ops[id]);
    var mine := AllSteps(id, ops[id]);
    OwnStepsAreMine(mine, id);
    ExecutionsAreIndependent(c, steps, id);
    ExecutionsAreIndependent(c, mine, id);
  }

  lemma NothingOwnedIsAbsent(c: Cluster, id: string, rbac: Option<Rbac>, params: Params)
    requires Own(c, id) == map[]
    ensures c.Keys !! Set(Removal(id, rbac, params))
  {
    OwnNames(id, rbac, params);
    hide Removal;
    hide Owns;
    assert forall r :: r in c && Owns(id, r) ==> r in Own(c, id);
  }

  lemma OwnedLeft(c: Cluster, id: string, rbac: Option<Rbac>, params: Params, requests: nat -> Request,
                  fates: nat -> Net)
    requires Own(c, id) == map[]
    ensures var left := CleanedUp(CreatedFor(c, id, rbac, params, requests).0, id, rbac, params, fates);
            Own(left, id).Keys
            == Refs(Plan(id, rbac, params)[..StoredFor(id, rbac, params, requests)]) - Gone(id, rbac, params, fates)
  {
    hide Own;
    hide CreatedFor;
    hide CleanedUp;
    hide Gone;
    hide StoredFor;
    var n := CreatedForMeans(c, id, rbac, params, requests);
    var os := Plan(id, rbac, params)[..n];
    CleanedUpMeans(PutAll(c, os), id, rbac, params, fates);
    NothingOwnedIsAbsent(c, id, rbac, params);
    GoneMeans(id, rbac, params, fates);
    PlanIsRemoved(id, rbac, params);
    PrefixRefs(Plan(id, rbac, params), n);
    OwnNames(id, rbac, params);
    assert forall o :: o in os ==> Owns(id, o.ref);
    hide Plan;
    hide Owns;
    hide Removal;
    hide Set;
    LeftOver(c, os, Gone(id, rbac, params, fates));
    OwnKeys(c, PutAll(c, os) - Gone(id, rbac, params, fates), id, os, Gone(id, rbac, params, fates));
  }

  lemma OwnKeys(c: Cluster, c': Cluster, id: string, os: seq<Object>, gone: set<Ref>)
    requires Own(c, id) == map[] && c'.Keys == c.Keys + (Refs(os) - gone) && forall o :: o in os ==> Owns(id, o.ref)
    ensures Own(c', id).Keys == Refs(os) - gone
  {
    hide Owns;
    assert forall r :: r in c && Owns(id, r) ==> r in Own(c, id);
  }

  /** In particular, whatever other executions create and delete in between, a creation
      and its cleanup leave of an execution exactly what the creation stored and the
      cleanup did not delete: nothing if and only if all of it is deleted. */
  lemma CleanupAmidOthers(c: Cluster, steps: seq<Step>, ops: map<string, seq<Operation>>, id: string,
                          rbac: Option<Rbac>, params: Params, requests: nat -> Request, fates: nat -> Net)
    requires Interleaves(steps, ops) && id in ops
               && ops[id] == [Creation(rbac, params, requests)] + [Cleanup(rbac, params, fates)]
    requires Own(c, id) == map[]
    ensures var stored, gone := Refs(Plan(id, rbac, params)[..StoredFor(id, rbac, params, requests)]),
              Gone(id, rbac, params, fates);
            && Own(TakeAll(c, steps), id).Keys == stored - gone
            && (Own(TakeAll(c, steps), id) == map[] <==> stored <= gone)
  {
    hide Own;
    hide CreatedFor;
    hide CleanedUp;
    hide StoredFor;
    hide Gone;
    hide Refs;
    InterleavedIsSequential(c, steps, ops, id);
    hide Interleaves;
    OwnedLeft(c, id, rbac, params, requests, fates);
    hide Plan;
    var creation := [Creation(rbac, params, requests)];
    assert ops[id][..1] == creation && creation[..0] == [];
    assert PerformAll(c, id, creation) == CreatedFor(c, id, rbac, params, requests).0;
    var own := Own(TakeAll(c, steps), id);
    assert own == map[] <==> own.Keys == {};
    var stored, gone := Refs(Plan(id, rbac, params)[..StoredFor(id, rbac, params, requests)]),
      Gone(id, rbac, params, fates);
    assert own.Keys == stored - gone;
    assert stored <= gone ==> own.Keys == {};
    if own.Keys == {} {
      forall r | r in stored ensures r in gone {
        assert r !in own.Keys;
      }
    }
  }
}
