/** The Kubernetes objects one execution needs: how they are created under retry
    and cleaned up on every path, and what they allow the action to do. */
module Resources {
  import opened Wrappers
  import opened Remote

  const JOBS := "zoa-jobs"

  datatype Ref =
    | Namespace(name: string)
    | ServiceAccount(namespace: string, name: string)
    | Secret(namespace: string, name: string)
    | Role(namespace: string, name: string)
    | RoleBinding(namespace: string, name: string)
    | ClusterRole(name: string)
    | ClusterRoleBinding(name: string)
    | Job(namespace: string, name: string)

  datatype Rule = Rule(apiGroups: seq<string>, resources: seq<string>, verbs: seq<string>)

  datatype Spec = Plain | Rules(rules: seq<Rule>) | Binding(subject: Ref, role: Ref)

  datatype Object = Object(ref: Ref, spec: Spec)

  type Cluster = map<Ref, Spec>

  type Params = map<string, string>

  /** What an action declares, and whether the deny list lets it through. */
  datatype Rbac = Rbac(clusterScoped: bool, namespaceParam: string, rules: seq<Rule>, valid: bool)

  // ---- Names -------------------------------------------------------------------------

  function ExecName(id: string): string {
    "zoa-exec-" + id
  }

  function Account(id: string): Ref {
    ServiceAccount(JOBS, ExecName(id))
  }

  function Creds(id: string): Ref {
    Secret(JOBS, "zoa-creds-" + id)
  }

  function JobOf(id: string): Ref {
    Job(JOBS, "zoa-" + id)
  }

  function TargetNamespace(rbac: Rbac, params: Params): string {
    if rbac.namespaceParam != "" && rbac.namespaceParam in params && params[rbac.namespaceParam] != ""
    then params[rbac.namespaceParam] else JOBS
  }

  function RoleOf(id: string, rbac: Rbac, params: Params): Ref {
    if rbac.clusterScoped then ClusterRole(ExecName(id)) else Role(TargetNamespace(rbac, params), ExecName(id))
  }

  function BindingOf(id: string, rbac: Rbac, params: Params): Ref {
    if rbac.clusterScoped then ClusterRoleBinding(ExecName(id))
      else RoleBinding(TargetNamespace(rbac, params), ExecName(id))
  }

  /** What createResourcesIdempotent creates, in order. */
  function Plan(id: string, rbac: Option<Rbac>, params: Params): seq<Object> {
    [Object(Account(id), Plain)] +
    (if rbac.None? then []
     else [Object(RoleOf(id, rbac.value, params), Rules(rbac.value.rules)),
           Object(BindingOf(id, rbac.value, params), Binding(Account(id), RoleOf(id, rbac.value, params)))])
  }

  /** What cleanupResources deletes, in order. */
  function Removal(id: string, rbac: Option<Rbac>, params: Params): seq<Ref> {
    [Account(id), Creds(id)] +
    (if rbac.None? then [] else [BindingOf(id, rbac.value, params), RoleOf(id, rbac.value, params)])
  }

  // ---- Requests ------------------------------------------------------------------------

  /** A create answered by the API server (created or already there), or an error
      reported to the caller although the object may have been stored; cancelled if
      the context has ended before the next try. */
  datatype Try = Answered | Errored(stored: bool, transient: bool, cancelled: bool)

  /** One create under withRetry: whether the breaker lets it pass, and its tries. */
  datatype Request = Request(allowed: bool, tries: nat -> Try)

  function Put(c: Cluster, o: Object): Cluster {
    if o.ref in c then c else c[o.ref := o.spec]
  }

  function PutAll(c: Cluster, os: seq<Object>): Cluster
    decreases |os|
  {
    if os == [] then c else PutAll(Put(c, os[0]), os[1..])
  }

  /** The tries from the k-th on. */
  function Trying(c: Cluster, o: Object, tries: nat -> Try, k: nat): (Cluster, bool)
    requires k <= MAX_RETRIES
    decreases MAX_RETRIES - k
  {
    if k == MAX_RETRIES then (c, false)
    else
      match tries(k)
      case Answered => (Put(c, o), true)
      case Errored(stored, transient, cancelled) =>
        var c' := if stored then Put(c, o) else c;
        if transient && !cancelled then Trying(c', o, tries, k + 1) else (c', false)
  }

  function Created(c: Cluster, o: Object, r: Request): (Cluster, bool) {
    if r.allowed then Trying(c, o, r.tries, 0) else (c, false)
  }

  /** How a create ends: answered, given up, or cut off because the context ended. */
  datatype Ending = Complete | GivenUp | Cut

  function EndingFrom(tries: nat -> Try, k: nat): Ending
    requires k <= MAX_RETRIES
    decreases MAX_RETRIES - k
  {
    if k == MAX_RETRIES then GivenUp
    else
      match tries(k)
      case Answered => Complete
      case Errored(_, transient, cancelled) =>
        if !transient then GivenUp else if cancelled then Cut else EndingFrom(tries, k + 1)
  }

  function EndingOf(r: Request): Ending {
    if r.allowed then EndingFrom(r.tries, 0) else GivenUp
  }

  /** Creates one after another, up to the first that reports an error. */
  function CreateAll(c: Cluster, os: seq<Object>, requests: nat -> Request, i: nat): (Cluster, bool)
    requires i <= |os|
    decreases |os| - i
  {
    if i == |os| then (c, true)
    else
      var (c', ok) := Created(c, os[i], requests(i));
      if ok then CreateAll(c', os, requests, i + 1) else (c', false)
  }

  function CreatedFor(c: Cluster, id: string, rbac: Option<Rbac>, params: Params, requests: nat -> Request)
    : (Cluster, bool)
  {
    if rbac.Some? && !rbac.value.valid then (c, false) else CreateAll(c, Plan(id, rbac, params), requests, 0)
  }

  /** How n creates in a row end, from the i-th on. */
  function EndingOfAll(n: nat, requests: nat -> Request, i: nat): Ending
    requires i <= n
    decreases n - i
  {
    if i == n then Complete
    else if EndingOf(requests(i)) == Complete then EndingOfAll(n, requests, i + 1)
    else EndingOf(requests(i))
  }

  function CreationEnding(id: string, rbac: Option<Rbac>, params: Params, requests: nat -> Request): Ending {
    if rbac.Some? && !rbac.value.valid then GivenUp else EndingOfAll(|Plan(id, rbac, params)|, requests, 0)
  }

  /** Requests made under a context that has ended are never sent. */
  function Under(ended: bool, fates: nat -> Net): nat -> Net {
    if ended then (i: nat) => Dropped else fates
  }

  function Deleted(c: Cluster, ref: Ref, fate: Net): Cluster {
    if fate == Dropped then c else c - {ref}
  }

  function DeleteAll(c: Cluster, refs: seq<Ref>, fates: nat -> Net, i: nat): Cluster
    requires i <= |refs|
    decreases |refs| - i
  {
    if i == |refs| then c else DeleteAll(Deleted(c, refs[i], fates(i)), refs, fates, i + 1)
  }

  function CleanedUp(c: Cluster, id: string, rbac: Option<Rbac>, params: Params, fates: nat -> Net): Cluster {
    DeleteAll(c, Removal(id, rbac, params), fates, 0)
  }

  // ---- Asynchronous and synchronous executions -------------------------------------------

  datatype NamespaceCall = NamespaceCall(getFails: bool, create: Net)

  function Ensured(c: Cluster, n: NamespaceCall): (Cluster, bool) {
    if n.getFails then (c, false)
    else if Namespace(JOBS) in c then (c, true)
    else (if n.create == Dropped then c else c[Namespace(JOBS) := Plain], n.create == Delivered)
  }

  /** How assuming the STS role ends. */
  datatype Assumption = Assumed | Denied | ContextEnded

  datatype AsyncCall = AsyncCall(id: string, ready: bool, namespace: NamespaceCall, awsApi: bool, write: bool,
                                 rbac: Option<Rbac>, params: Params, readRole: bool, writeRole: bool, sts: Assumption,
                                 resources: nat -> Request, secret: Request, job: Request, fates: nat -> Net)
  {
    function AccountRbac(): Option<Rbac> {
      if awsApi then None else rbac
    }

    predicate HasRole() {
      !awsApi || (if write then writeRole else readRole)
    }
  }

  datatype AsyncError =
    | NotInitialized | NamespaceFailed | ResourcesFailed | NoRole | StsFailed | SecretFailed | JobFailed

  function Dispatched(c: Cluster, call: AsyncCall): (Cluster, Option<AsyncError>) {
    if !call.ready then (c, Some(NotInitialized))
    else
      var (c1, named) := Ensured(c, call.namespace);
      if named then Provisioned(c1, call) else (c1, Some(NamespaceFailed))
  }

  /** Once the namespace is there. Every cleanup runs under the context of the step that
      failed. */
  function Provisioned(c1: Cluster, call: AsyncCall): (Cluster, Option<AsyncError>) {
    var (c2, created) := CreatedFor(c1, call.id, call.AccountRbac(), call.params, call.resources);
    if !created then
      (CleanedUp(c2, call.id, call.AccountRbac(), call.params, CleanupFates(call, ResourcesFailed)),
        Some(ResourcesFailed))
    else if !call.HasRole() then
      (CleanedUp(c2, call.id, call.rbac, call.params, CleanupFates(call, NoRole)), Some(NoRole))
    else if call.sts != Assumed then
      (CleanedUp(c2, call.id, call.rbac, call.params, CleanupFates(call, StsFailed)), Some(StsFailed))
    else
      var (c3, stored) := Created(c2, Object(Creds(call.id), Plain), call.secret);
      if !stored then
        (CleanedUp(c3, call.id, call.rbac, call.params, CleanupFates(call, SecretFailed)), Some(SecretFailed))
      else
        var (c4, started) := Created(c3, Object(JobOf(call.id), Plain), call.job);
        if !started then
          (CleanedUp(c4, call.id, call.AccountRbac(), call.params, CleanupFates(call, JobFailed)), Some(JobFailed))
        else (c4, None)
  }

  /** The step that failed did so because the context had ended. */
  predicate EndedAt(call: AsyncCall, error: AsyncError) {
    match error
    case ResourcesFailed => CreationEnding(call.id, call.AccountRbac(), call.params, call.resources) == Cut
    case StsFailed => call.sts == ContextEnded
    case SecretFailed => EndingOf(call.secret) == Cut
    case JobFailed => EndingOf(call.job) == Cut
    case _ => false
  }

  function CleanupFates(call: AsyncCall, error: AsyncError): nat -> Net {
    Under(EndedAt(call, error), call.fates)
  }

  /** How validating and running the action ends; a panic is recovered. */
  datatype Outcome = Ran(success: bool) | Errored | Panicked

  /** A synchronous kube-api execution; the action may do anything to the cluster. The
      run has expired if its deadline has passed when the action returns. */
  datatype SyncCall = SyncCall(id: string, namespace: NamespaceCall, rbac: Option<Rbac>, params: Params,
                               resources: nat -> Request, client: bool, effect: Cluster -> Cluster, outcome: Outcome,
                               expired: bool, fates: nat -> Net)
  {
    predicate CreationCut() {
      CreationEnding(id, rbac, params, resources) == Cut
    }
  }

  /** The cluster once the action may start, or once setting it up has failed. */
  function Prepared(c: Cluster, call: SyncCall): (Cluster, bool) {
    var (c1, named) := Ensured(c, call.namespace);
    if !named then (c1, false)
    else
      var (c2, created) := CreatedFor(c1, call.id, call.rbac, call.params, call.resources);
      if created && call.client then (c2, true)
      else (CleanedUp(c2, call.id, call.rbac, call.params, Under(call.CreationCut(), call.fates)), false)
  }

  function Executed(c: Cluster, call: SyncCall): (Cluster, bool) {
    var (c1, prepared) := Prepared(c, call);
    if !prepared then (c1, false)
    else
      (CleanedUp(call.effect(c1), call.id, call.rbac, call.params, Under(call.expired, call.fates)),
       call.outcome == Ran(true))
  }

  lemma {:induction false} TryingEnds(c: Cluster, o: Object, tries: nat -> Try, k: nat)
    requires k <= MAX_RETRIES
    ensures Trying(c, o, tries, k).1 <==> EndingFrom(tries, k) == Complete
    decreases MAX_RETRIES - k
  {
    if k < MAX_RETRIES && tries(k).Errored? {
      TryingEnds(if tries(k).stored then Put(c, o) else c, o, tries, k + 1);
    }
  }

  /** A create reports success exactly if it is answered. */
  lemma EndingAgrees(c: Cluster, o: Object, r: Request)
    ensures Created(c, o, r).1 <==> EndingOf(r) == Complete
  {
    TryingEnds(c, o, r.tries, 0);
  }

  // ---- The executor ------------------------------------------------------------------------

  class Executor {
    var cluster: Cluster

    constructor (cluster: Cluster)
      ensures this.cluster == cluster
    {
      this.cluster := cluster;
    }

    /** withRetry around one create. */
    method Create(o: Object, r: Request) returns (ok: bool, cut: bool)
      modifies this
      ensures (cluster, ok) == Created(old(cluster), o, r)
      ensures cut == (EndingOf(r) == Cut)
    {
      if !r.allowed {
        return false, false;
      }
      for attempt := 0 to MAX_RETRIES
        invariant Trying(cluster, o, r.tries, attempt) == Trying(old(cluster), o, r.tries, 0)
        invariant EndingFrom(r.tries, attempt) == EndingFrom(r.tries, 0)
      {
        match r.tries(attempt)
        case Answered =>
          if o.ref !in cluster {
            cluster := cluster[o.ref := o.spec];
          }
          return true, false;
        case Errored(stored, transient, cancelled) =>
          if stored && o.ref !in cluster {
            cluster := cluster[o.ref := o.spec];
          }
          if !transient {
            return false, false;
          }
          if cancelled {
            return false, true;
          }
      }
      return false, false;
    }

    method EnsureNamespace(n: NamespaceCall) returns (ok: bool)
      modifies this
      ensures (cluster, ok) == Ensured(old(cluster), n)
    {
      if n.getFails {
        return false;
      }
      if Namespace(JOBS) in cluster {
        return true;
      }
      if n.create != Dropped {
        cluster := cluster[Namespace(JOBS) := Plain];
      }
      return n.create == Delivered;
    }

    method CreateResourcesIdempotent(id: string, rbac: Option<Rbac>, params: Params, requests: nat -> Request)
      returns (ok: bool, cut: bool)
      modifies this
      ensures (cluster, ok) == CreatedFor(old(cluster), id, rbac, params, requests)
      ensures cut == (CreationEnding(id, rbac, params, requests) == Cut)
    {
      hide Created;
      hide EndingOf;
      ghost var plan := Plan(id, rbac, params);
      cut := false;
      if rbac.Some? && !rbac.value.valid {
        return false, false;
      }
      EndingAgrees(old(cluster), Object(Account(id), Plain), requests(0));
      ok, cut := Create(Object(Account(id), Plain), requests(0));
      assert EndingOfAll(|plan|, requests, 0) == if ok then EndingOfAll(|plan|, requests, 1) else EndingOf(requests(0));
      assert CreateAll(old(cluster), plan, requests, 0) == if ok then CreateAll(cluster, plan, requests, 1)
        else (cluster, false);
      if !ok || rbac.None? {
        return;
      }
      var rules := [];
      for i := 0 to |rbac.value.rules|
        invariant rules == rbac.value.rules[..i]
      {
        rules := rules + [rbac.value.rules[i]];
      }
      assert rules == rbac.value.rules;
      ghost var before := cluster;
      assert CreateAll(before, plan, requests, 1)
             == var (c, done) := Created(before, plan[1], requests(1));
                if done then CreateAll(c, plan, requests, 2) else (c, false);
      ghost var middle := Created(before, plan[1], requests(1)).0;
      EndingAgrees(before, plan[1], requests(1));
      EndingAgrees(middle, plan[2], requests(2));
      assert EndingOfAll(|plan|, requests, 2) == EndingOf(requests(2));
      assert EndingOfAll(|plan|, requests, 1)
             == if EndingOf(requests(1)) == Complete then EndingOfAll(|plan|, requests, 2) else EndingOf(requests(1));
      assert CreateAll(middle, plan, requests, 2) == Created(middle, plan[2], requests(2));
      if rbac.value.clusterScoped {
        ok, cut := Create(Object(ClusterRole(ExecName(id)), Rules(rules)), requests(1));
        if !ok {
          return;
        }
        ok, cut := Create(Object(ClusterRoleBinding(ExecName(id)), Binding(Account(id), ClusterRole(ExecName(id)))),
          requests(2));
      } else {
        var targetNS := JOBS;
        if rbac.value.namespaceParam != "" {
          if rbac.value.namespaceParam in params && params[rbac.value.namespaceParam] != "" {
            targetNS := params[rbac.value.namespaceParam];
          }
        }
        ok, cut := Create(Object(Role(targetNS, ExecName(id)), Rules(rules)), requests(1));
        if !ok {
          return;
        }
        ok, cut := Create(Object(RoleBinding(targetNS, ExecName(id)),
          Binding(Account(id), Role(targetNS, ExecName(id)))), requests(2));
      }
    }

    method Delete(ref: Ref, fate: Net)
      modifies this
      ensures cluster == Deleted(old(cluster), ref, fate)
    {
      if fate != Dropped {
        cluster := cluster - {ref};
      }
    }

    method CleanupResources(id: string, rbac: Option<Rbac>, params: Params, fates: nat -> Net)
      modifies this
      ensures cluster == CleanedUp(old(cluster), id, rbac, params, fates)
    {
      hide Deleted;
      ghost var refs := Removal(id, rbac, params);
      Delete(Account(id), fates(0));
      Delete(Creds(id), fates(1));
      assert DeleteAll(old(cluster), refs, fates, 0) == DeleteAll(cluster, refs, fates, 2);
      if rbac.None? {
        return;
      }
      ghost var before := cluster;
      assert DeleteAll(before, refs, fates, 2) == DeleteAll(Deleted(before, refs[2], fates(2)), refs, fates, 3);
      ghost var after := Deleted(before, refs[2], fates(2));
      assert DeleteAll(after, refs, fates, 3) == Deleted(after, refs[3], fates(3));
      if rbac.value.clusterScoped {
        Delete(ClusterRoleBinding(ExecName(id)), fates(2));
        Delete(ClusterRole(ExecName(id)), fates(3));
      } else {
        var targetNS := JOBS;
        if rbac.value.namespaceParam != "" {
          if rbac.value.namespaceParam in params && params[rbac.value.namespaceParam] != "" {
            targetNS := params[rbac.value.namespaceParam];
          }
        }
        Delete(RoleBinding(targetNS, ExecName(id)), fates(2));
        Delete(Role(targetNS, ExecName(id)), fates(3));
      }
    }

    method CleanupExecution(id: string, rbac: Option<Rbac>, params: Params, fates: nat -> Net, job: Net)
      modifies this
      ensures cluster == Deleted(CleanedUp(old(cluster), id, rbac, params, fates), JobOf(id), job)
    {
      hide CleanedUp;
      CleanupResources(id, rbac, params, fates);
      Delete(JobOf(id), job);
    }

    method DispatchAsync(call: AsyncCall) returns (error: Option<AsyncError>)
      modifies this
      ensures (cluster, error) == Dispatched(old(cluster), call)
    {
      hide CleanedUp;
      hide Created;
      hide CreatedFor;
      hide Ensured;
      hide CreationEnding;
      hide EndingOf;
      hide Under;
      if !call.ready {
        return Some(NotInitialized);
      }
      var ok := EnsureNamespace(call.namespace);
      if !ok {
        return Some(NamespaceFailed);
      }
      var rbacForSA := call.rbac;
      if call.awsApi {
        rbacForSA := None;
      }
      var ended;
      ok, ended := CreateResourcesIdempotent(call.id, rbacForSA, call.params, call.resources);
      if !ok {
        CleanupResources(call.id, rbacForSA, call.params, Under(ended, call.fates));
        return Some(ResourcesFailed);
      }
      if call.awsApi {
        var role := call.readRole;
        if call.write {
          role := call.writeRole;
        }
        if !role {
          CleanupResources(call.id, call.rbac, call.params, Under(false, call.fates));
          return Some(NoRole);
        }
      }
      if call.sts != Assumed {
        CleanupResources(call.id, call.rbac, call.params, Under(call.sts == ContextEnded, call.fates));
        return Some(StsFailed);
      }
      ok, ended := Create(Object(Creds(call.id), Plain), call.secret);
      if !ok {
        CleanupResources(call.id, call.rbac, call.params, Under(ended, call.fates));
        return Some(SecretFailed);
      }
      ok, ended := Create(Object(JobOf(call.id), Plain), call.job);
      if !ok {
        CleanupResources(call.id, rbacForSA, call.params, Under(ended, call.fates));
        return Some(JobFailed);
      }
      return None;
    }

    method BuildKubeParams(call: SyncCall) returns (ok: bool)
      modifies this
      ensures (cluster, ok) == Prepared(old(cluster), call)
    {
      hide CleanedUp;
      hide CreatedFor;
      hide Ensured;
      hide CreationEnding;
      hide Under;
      ok := EnsureNamespace(call.namespace);
      if !ok {
        return;
      }
      var ended;
      ok, ended := CreateResourcesIdempotent(call.id, call.rbac, call.params, call.resources);
      if !ok {
        CleanupResources(call.id, call.rbac, call.params, Under(ended, call.fates));
        return;
      }
      if !call.client {
        CleanupResources(call.id, call.rbac, call.params, Under(ended, call.fates));
        return false;
      }
    }

    /** The deferred cleanup runs however the action ends, under the context of the run. */
    method ExecuteSync(call: SyncCall) returns (success: bool)
      modifies this
      ensures (cluster, success) == Executed(old(cluster), call)
    {
      hide CleanedUp;
      hide Prepared;
      var ok := BuildKubeParams(call);
      if !ok {
        return false;
      }
      cluster := call.effect(cluster);
      success := call.outcome == Ran(true);
      CleanupResources(call.id, call.rbac, call.params, Under(call.expired, call.fates));
    }
  }
}
