/** Cleanup inverts creation on every path, and an action is allowed exactly what it
    declares, for as long as its objects are there. */
module ResourceTheorems {
  import opened Wrappers
  import opened Resources
  import opened Remote
  import Circuit
  import Retry

  // ---- What creates leave behind -----------------------------------------------------

  /** However its tries go, a create leaves the cluster as it was or with the object
      in it; if it reports success the object is in it. */
  lemma {:induction false} TryingMeans(c: Cluster, o: Object, tries: nat -> Try, k: nat)
    requires k <= MAX_RETRIES
    ensures var (c', ok) := Trying(c, o, tries, k); (c' == c && !ok) || c' == Put(c, o)
    decreases MAX_RETRIES - k
  {
    if k < MAX_RETRIES && tries(k).Errored? {
      TryingMeans(c, o, tries, k + 1);
      TryingMeans(Put(c, o), o, tries, k + 1);
    }
  }

  lemma CreatedMeans(c: Cluster, o: Object, r: Request)
    ensures var (c', ok) := Created(c, o, r); (c' == c && !ok) || c' == Put(c, o)
  {
    if r.allowed {
      TryingMeans(c, o, r.tries, 0);
    }
  }

  /** The try is retried. */
  predicate Retried(t: Try) {
    t.Errored? && t.transient && !t.cancelled
  }

  /** From the i-th try on, the k-th is made. */
  ghost predicate Made(tries: nat -> Try, i: nat, k: nat) {
    i <= k < MAX_RETRIES && forall j: nat :: i <= j < k ==> Retried(tries(j))
  }

  /** Some try that is made is answered. */
  ghost predicate AnswersFrom(tries: nat -> Try, i: nat) {
    exists k: nat :: Made(tries, i, k) && tries(k).Answered?
  }

  /** Some try that is made stores the object without an answer. */
  ghost predicate StoresFrom(tries: nat -> Try, i: nat) {
    exists k: nat :: Made(tries, i, k) && tries(k).Errored? && tries(k).stored
  }

  lemma MadeNext(tries: nat -> Try, i: nat)
    requires i < MAX_RETRIES
    ensures Made(tries, i, i)
    ensures Retried(tries(i)) ==> forall k: nat :: k > i ==> (Made(tries, i, k) <==> Made(tries, i + 1, k))
    ensures !Retried(tries(i)) ==> forall k: nat :: Made(tries, i, k) ==> k == i
  {
  }

  lemma FromNext(tries: nat -> Try, i: nat)
    requires i < MAX_RETRIES
    ensures AnswersFrom(tries, i) <==> tries(i).Answered? || (Retried(tries(i)) && AnswersFrom(tries, i + 1))
    ensures StoresFrom(tries, i) <==>
              tries(i).Errored? && (tries(i).stored || (Retried(tries(i)) && StoresFrom(tries, i + 1)))
  {
    MadeNext(tries, i);
    if k: nat :| Made(tries, i, k) && tries(k).Answered? {
      assert k == i || Made(tries, i + 1, k);
    }
    if k: nat :| Made(tries, i, k) && tries(k).Errored? && tries(k).stored {
      assert k == i || Made(tries, i + 1, k);
    }
    if Retried(tries(i)) {
      if k: nat :| Made(tries, i + 1, k) && tries(k).Answered? {
        assert Made(tries, i, k);
      }
      if k: nat :| Made(tries, i + 1, k) && tries(k).Errored? && tries(k).stored {
        assert Made(tries, i, k);
      }
    }
  }

  lemma {:induction false} TryingExactly(c: Cluster, o: Object, tries: nat -> Try, i: nat)
    requires i <= MAX_RETRIES
    ensures var (c', ok) := Trying(c, o, tries, i);
            && (ok <==> AnswersFrom(tries, i))
            && c' == if ok || StoresFrom(tries, i) then Put(c, o) else c
    decreases MAX_RETRIES - i
  {
    hide AnswersFrom;
    hide StoresFrom;
    hide Made;
    if i < MAX_RETRIES {
      FromNext(tries, i);
      if Retried(tries(i)) {
        TryingExactly(if tries(i).stored then Put(c, o) else c, o, tries, i + 1);
      }
    } else {
      NoneMade(tries);
    }
  }

  lemma NoneMade(tries: nat -> Try)
    ensures !AnswersFrom(tries, MAX_RETRIES) && !StoresFrom(tries, MAX_RETRIES)
  {
  }

  /** A create reports an error and yet leaves its object exactly if the breaker lets
      it pass, no try that is made is answered, and one of them stored it. */
  ghost predicate Leaks(r: Request) {
    r.allowed && !AnswersFrom(r.tries, 0) && StoresFrom(r.tries, 0)
  }

  lemma CreatedExactly(c: Cluster, o: Object, r: Request)
    ensures var (c', ok) := Created(c, o, r);
            && (ok <==> r.allowed && AnswersFrom(r.tries, 0))
            && c' == if ok || Leaks(r) then Put(c, o) else c
  {
    TryingExactly(c, o, r.tries, 0);
  }

  /** The create reports success. */
  ghost predicate Answers(r: Request) {
    r.allowed && AnswersFrom(r.tries, 0)
  }

  /** The create stores its object, whatever it reports. */
  ghost predicate Stores(r: Request) {
    Answers(r) || Leaks(r)
  }

  /** A try that is made fails and the context ends before the next one. */
  ghost predicate CutFrom(tries: nat -> Try, i: nat) {
    exists k: nat :: Made(tries, i, k) && tries(k).Errored? && tries(k).transient && tries(k).cancelled
  }

  lemma CutNext(tries: nat -> Try, i: nat)
    requires i < MAX_RETRIES
    ensures CutFrom(tries, i) <==>
              tries(i).Errored? && tries(i).transient && (tries(i).cancelled || CutFrom(tries, i + 1))
  {
    MadeNext(tries, i);
    if k: nat :| Made(tries, i, k) && tries(k).Errored? && tries(k).transient && tries(k).cancelled {
      assert k == i || Made(tries, i + 1, k);
    }
    if Retried(tries(i)) {
      if k: nat :| Made(tries, i + 1, k) && tries(k).Errored? && tries(k).transient && tries(k).cancelled {
        assert Made(tries, i, k);
      }
    }
  }

  lemma {:induction false} CutExactly(tries: nat -> Try, i: nat)
    requires i <= MAX_RETRIES
    ensures EndingFrom(tries, i) == Cut <==> CutFrom(tries, i)
    decreases MAX_RETRIES - i
  {
    hide CutFrom;
    if i < MAX_RETRIES {
      CutNext(tries, i);
      CutExactly(tries, i + 1);
    } else {
      NoneCut(tries);
    }
  }

  lemma NoneCut(tries: nat -> Try)
    ensures !CutFrom(tries, MAX_RETRIES)
  {
  }

  /** A try as the retry loop sees it. */
  predicate Agrees(t: Try, a: Retry.Attempt) {
    match t
    case Answered => a.outcome == Retry.Succeeds || a.outcome == Retry.AlreadyExists
    case Errored(_, transient, cancelled) =>
      a.outcome == (if transient then Retry.Transient else Retry.Permanent) && (transient ==> cancelled == a.cancelled)
  }

  lemma {:induction false} TryingIsRetried(c: Cluster, o: Object, tries: nat -> Try, attempts: seq<Retry.Attempt>,
                                           k: nat, now: Circuit.Time)
    requires k <= MAX_RETRIES <= |attempts| && forall i: nat :: i < MAX_RETRIES ==> Agrees(tries(i), attempts[i])
    ensures Trying(c, o, tries, k).1 <==> Retry.Attempts(attempts, k, now).0 == Retry.Done
    decreases MAX_RETRIES - k
  {
    if k < MAX_RETRIES {
      assert Agrees(tries(k), attempts[k]);
      if Retried(tries(k)) {
        var a := attempts[k];
        TryingIsRetried(if tries(k).stored then Put(c, o) else c, o, tries, attempts, k + 1,
          now + a.took + Retry.Delay(k) + a.late);
      }
    }
  }

  /** A create is a call of withRetry that puts an object: it reports success exactly if
      the retry loop behind the breaker does. */
  lemma CreateIsServed(c: Cluster, o: Object, r: Request, b: Circuit.Breaker, call: Retry.Call)
    requires |call.attempts| >= MAX_RETRIES && (r.allowed <==> Circuit.Admits(b, call.start))
    requires forall i: nat :: i < MAX_RETRIES ==> Agrees(r.tries(i), call.attempts[i])
    ensures Created(c, o, r).1 <==> Retry.Serve(b, call).result == Retry.Done
  {
    TryingIsRetried(c, o, r.tries, call.attempts, 0, call.start);
  }

  lemma {:induction false} PutAllSnoc(c: Cluster, os: seq<Object>, n: nat)
    requires n < |os|
    ensures PutAll(c, os[..n + 1]) == Put(PutAll(c, os[..n]), os[n])
    decreases n
  {
    if n > 0 {
      assert os[..n + 1][1..] == os[1..][..n] && os[..n][1..] == os[1..][..n - 1];
      PutAllSnoc(Put(c, os[0]), os[1..], n - 1);
    } else {
      assert os[..1][1..] == [] && os[..0] == [];
    }
  }

  lemma PutAllAppend(c: Cluster, os: seq<Object>, o: Object)
    ensures PutAll(c, os + [o]) == Put(PutAll(c, os), o)
  {
    assert (os + [o])[..|os| + 1] == os + [o] && (os + [o])[..|os|] == os;
    PutAllSnoc(c, os + [o], |os|);
  }

  /** How many of n objects are stored by creates in a row that stop at the first error. */
  ghost function StoredUpTo(n: nat, requests: nat -> Request, i: nat): (m: nat)
    requires i <= n
    ensures i <= m <= n
    decreases n - i
  {
    if i == n then n
    else if Answers(requests(i)) then StoredUpTo(n, requests, i + 1)
    else if Leaks(requests(i)) then i + 1
    else i
  }

  /** Creates that stop at an error leave a prefix of the plan: the objects up to the one
      whose create reported the error, and that one too if a try of it was carried out. */
  lemma {:induction false} CreateAllMeans(c: Cluster, os: seq<Object>, requests: nat -> Request, i: nat)
    requires i <= |os|
    ensures var (c', ok) := CreateAll(PutAll(c, os[..i]), os, requests, i);
            && c' == PutAll(c, os[..StoredUpTo(|os|, requests, i)])
            && (ok ==> StoredUpTo(|os|, requests, i) == |os|)
    ensures CreateAll(PutAll(c, os[..i]), os, requests, i).1 <==> EndingOfAll(|os|, requests, i) == Complete
    decreases |os| - i
  {
    hide Leaks;
    hide AnswersFrom;
    hide Created;
    hide EndingOf;
    if i < |os| {
      var here := PutAll(c, os[..i]);
      PutAllSnoc(c, os, i);
      CreatedExactly(here, os[i], requests(i));
      EndingAgrees(here, os[i], requests(i));
      if Answers(requests(i)) {
        CreateAllMeans(c, os, requests, i + 1);
      }
    }
  }

  /** The number of objects a creation has stored when it returns. */
  ghost function StoredFor(id: string, rbac: Option<Rbac>, params: Params, requests: nat -> Request): (m: nat)
    ensures m <= |Plan(id, rbac, params)|
  {
    if rbac.Some? && !rbac.value.valid then 0 else StoredUpTo(|Plan(id, rbac, params)|, requests, 0)
  }

  lemma CreatedForMeans(c: Cluster, id: string, rbac: Option<Rbac>, params: Params, requests: nat -> Request)
    returns (n: nat)
    ensures var plan := Plan(id, rbac, params);
            var (c', ok) := CreatedFor(c, id, rbac, params, requests);
            && n == StoredFor(id, rbac, params, requests) <= |plan| && c' == PutAll(c, plan[..n])
               && (ok ==> n == |plan|)
            && (ok <==> CreationEnding(id, rbac, params, requests) == Complete)
  {
    n := StoredFor(id, rbac, params, requests);
    var plan := Plan(id, rbac, params);
    assert plan[..0] == [];
    if rbac.None? || rbac.value.valid {
      CreateAllMeans(c, plan, requests, 0);
    }
  }

  // ---- Cleanup inverts creation ------------------------------------------------------

  function Refs(os: seq<Object>): set<Ref> {
    set o | o in os :: o.ref
  }

  function Set(refs: seq<Ref>): set<Ref> {
    set r | r in refs
  }

  lemma {:induction false} PutAllAdds(c: Cluster, os: seq<Object>)
    ensures PutAll(c, os).Keys == c.Keys + Refs(os)
    ensures forall r :: r in c ==> PutAll(c, os)[r] == c[r]
    decreases |os|
  {
    if os != [] {
      PutAllAdds(Put(c, os[0]), os[1..]);
      assert os == [os[0]] + os[1..];
      assert Refs(os) == {os[0].ref} + Refs(os[1..]);
    }
  }

  /** Every delete arrives, whether or not it is answered. */
  ghost predicate Arrive(fates: nat -> Net) {
    forall i :: fates(i) != Dropped
  }

  /** The names from the i-th on whose delete is carried out. */
  function GoneFrom(refs: seq<Ref>, fates: nat -> Net, i: nat): set<Ref> {
    set k | i <= k < |refs| && fates(k) != Dropped :: refs[k]
  }

  lemma {:induction false} DeleteAllRemoves(c: Cluster, refs: seq<Ref>, fates: nat -> Net, i: nat)
    requires i <= |refs|
    ensures DeleteAll(c, refs, fates, i) == c - GoneFrom(refs, fates, i)
    decreases |refs| - i
  {
    if i < |refs| {
      DeleteAllRemoves(Deleted(c, refs[i], fates(i)), refs, fates, i + 1);
      assert GoneFrom(refs, fates, i) == (if fates(i) == Dropped then {} else {refs[i]}) + GoneFrom(refs, fates, i + 1);
    }
  }

  /** What a cleanup really deletes. */
  function Gone(id: string, rbac: Option<Rbac>, params: Params, fates: nat -> Net): set<Ref> {
    GoneFrom(Removal(id, rbac, params), fates, 0)
  }

  lemma GoneMeans(id: string, rbac: Option<Rbac>, params: Params, fates: nat -> Net)
    ensures Gone(id, rbac, params, fates) <= Set(Removal(id, rbac, params))
    ensures Arrive(fates) ==> Gone(id, rbac, params, fates) == Set(Removal(id, rbac, params))
    ensures Gone(id, rbac, params, Under(true, fates)) == {}
    ensures Account(id) in Gone(id, rbac, params, fates) <==> fates(0) != Dropped
    ensures Creds(id) in Gone(id, rbac, params, fates) <==> fates(1) != Dropped
    ensures rbac.Some? ==>
              && (BindingOf(id, rbac.value, params) in Gone(id, rbac, params, fates) <==> fates(2) != Dropped)
              && (RoleOf(id, rbac.value, params) in Gone(id, rbac, params, fates) <==> fates(3) != Dropped)
  {
    hide ExecName;
    var refs := Removal(id, rbac, params);
    assert refs[0] == Account(id) && refs[1] == Creds(id);
    assert rbac.Some? ==> refs[2] == BindingOf(id, rbac.value, params) && refs[3] == RoleOf(id, rbac.value, params);
    assert forall k :: 0 <= k < |refs| ==> Under(true, fates)(k) == Dropped;
  }

  /** Cleaning up deletes exactly the names whose delete is carried out. */
  lemma CleanedUpMeans(c: Cluster, id: string, rbac: Option<Rbac>, params: Params, fates: nat -> Net)
    ensures CleanedUp(c, id, rbac, params, fates) == c - Gone(id, rbac, params, fates)
  {
    DeleteAllRemoves(c, Removal(id, rbac, params), fates, 0);
  }

  /** Deleting names after putting objects leaves the cluster as it was exactly if none of
      the names was in it before and every object that is new is deleted. */
  lemma DeletingRestores(c: Cluster, os: seq<Object>, refs: set<Ref>)
    ensures PutAll(c, os) - refs == c <==> c.Keys !! refs && Refs(os) <= refs + c.Keys
  {
    PutAllAdds(c, os);
    var c' := PutAll(c, os) - refs;
    assert c'.Keys == (c.Keys + Refs(os)) - refs;
    if c.Keys !! refs && Refs(os) <= refs + c.Keys {
      assert c'.Keys == c.Keys;
    }
  }

  lemma PlanIsRemoved(id: string, rbac: Option<Rbac>, params: Params)
    ensures Refs(Plan(id, rbac, params)) + {Creds(id)} == Set(Removal(id, rbac, params))
  {
    PlanRefs(id, rbac, params);
    RemovalRefs(id, rbac, params);
  }

  lemma PrefixRefs(os: seq<Object>, n: nat)
    requires n <= |os|
    ensures Refs(os[..n]) <= Refs(os)
  {
  }

  /** What creating the resources and then the credentials has stored. */
  ghost function StoredWith(id: string, rbac: Option<Rbac>, params: Params, requests: nat -> Request,
                            secret: Request): seq<Object> {
    Plan(id, rbac, params)[..StoredFor(id, rbac, params, requests)]
      + (if Stores(secret) then [Object(Creds(id), Plain)] else [])
  }

  /** Whatever the creates did and reported and whichever deletes are carried out: a
      cleanup with the same RBAC and params restores the cluster exactly if it held
      nothing under the deleted names and every new object is deleted. If all deletes
      are carried out, that is exactly if it held nothing under the names of the
      execution. */
  lemma CleanupInvertsCreation(c: Cluster, id: string, rbac: Option<Rbac>, params: Params, requests: nat -> Request,
                               secret: Request, fates: nat -> Net)
    ensures var c1 := CreatedFor(c, id, rbac, params, requests).0;
            var c2 := Created(c1, Object(Creds(id), Plain), secret).0;
            var os, gone := StoredWith(id, rbac, params, requests, secret), Gone(id, rbac, params, fates);
            && CleanedUp(c2, id, rbac, params, fates) == PutAll(c, os) - gone
            && (CleanedUp(c2, id, rbac, params, fates) == c <==> c.Keys !! gone && Refs(os) <= gone + c.Keys)
            && (Arrive(fates) ==> (CleanedUp(c2, id, rbac, params, fates) == c
                  <==> c.Keys !! Set(Removal(id, rbac, params))))
  {
    hide CleanedUp;
    hide Plan;
    hide Removal;
    hide CreatedFor;
    hide Created;
    hide Gone;
    hide Leaks;
    hide Answers;
    hide Arrive;
    hide StoredFor;
    var os := StoredWith(id, rbac, params, requests, secret);
    CreationStores(c, id, rbac, params, requests, secret);
    CleanedUpMeans(PutAll(c, os), id, rbac, params, fates);
    DeletingRestores(c, os, Gone(id, rbac, params, fates));
    GoneMeans(id, rbac, params, fates);
    StoredIsRemoved(id, rbac, params, requests, secret);
  }

  lemma CreationStores(c: Cluster, id: string, rbac: Option<Rbac>, params: Params, requests: nat -> Request,
                       secret: Request)
    ensures var c1 := CreatedFor(c, id, rbac, params, requests).0;
            Created(c1, Object(Creds(id), Plain), secret).0 == PutAll(c, StoredWith(id, rbac, params, requests, secret))
  {
    hide CreatedFor;
    hide Created;
    hide Plan;
    hide StoredFor;
    var n := CreatedForMeans(c, id, rbac, params, requests);
    var stored := Plan(id, rbac, params)[..n];
    CreatedExactly(PutAll(c, stored), Object(Creds(id), Plain), secret);
    hide Leaks;
    hide AnswersFrom;
    PutAllAppend(c, stored, Object(Creds(id), Plain));
    assert stored + [] == stored;
  }

  lemma StoredIsRemoved(id: string, rbac: Option<Rbac>, params: Params, requests: nat -> Request, secret: Request)
    ensures Refs(StoredWith(id, rbac, params, requests, secret)) <= Set(Removal(id, rbac, params))
  {
    hide Removal;
    hide Plan;
    hide StoredFor;
    hide Stores;
    PlanIsRemoved(id, rbac, params);
    PrefixRefs(Plan(id, rbac, params), StoredFor(id, rbac, params, requests));
  }

  /** Cleaning up with other RBAC or params than the creation had: the cluster is
      restored exactly if every object of the creation is deleted; with all deletes
      carried out, exactly if no role was created or the same role is deleted. The
      orphan collector, which has none, always leaves roles behind. */
  lemma CleanupNeedsTheRole(c: Cluster, id: string, rbac: Option<Rbac>, params: Params, other: Option<Rbac>,
                            otherParams: Params,
                            fates: nat -> Net)
    requires c.Keys !! Set(Removal(id, rbac, params)) && c.Keys !! Set(Removal(id, other, otherParams))
    ensures var c' := CleanedUp(PutAll(c, Plan(id, rbac, params)), id, other, otherParams, fates);
            var put := Refs(Plan(id, rbac, params));
            && c'.Keys == c.Keys + (put - Gone(id, other, otherParams, fates))
            && (c' == c <==> put <= Gone(id, other, otherParams, fates))
            && (Arrive(fates) ==>
                 (c' == c <==>
                    || rbac.None?
                    || (other.Some? && RoleOf(id, other.value, otherParams) == RoleOf(id, rbac.value, params))))
            && (rbac.Some? && other.None? ==>
                  RoleOf(id, rbac.value, params) in c' && BindingOf(id, rbac.value, params) in c' && c' != c)
            && (Arrive(fates) && rbac.Some? && other.None? ==>
                  c'.Keys == c.Keys + {RoleOf(id, rbac.value, params), BindingOf(id, rbac.value, params)})
  {
    hide CleanedUp;
    hide Plan;
    hide Removal;
    hide RoleOf;
    hide BindingOf;
    hide Gone;
    hide Arrive;
    var plan, gone := Plan(id, rbac, params), Gone(id, other, otherParams, fates);
    CleanedUpMeans(PutAll(c, plan), id, other, otherParams, fates);
    GoneMeans(id, other, otherParams, fates);
    PlanIsRemoved(id, rbac, params);
    WhatIsLeft(id, rbac, params, other, otherParams);
    PutThenDelete(c, plan, gone);
  }

  lemma PutThenDelete(c: Cluster, os: seq<Object>, refs: set<Ref>)
    requires c.Keys !! refs && c.Keys !! Refs(os)
    ensures (PutAll(c, os) - refs).Keys == c.Keys + (Refs(os) - refs)
    ensures PutAll(c, os) - refs == c <==> Refs(os) <= refs
  {
    PutAllAdds(c, os);
    hide PutAll;
    hide Refs;
    var c' := PutAll(c, os) - refs;
    assert c'.Keys == c.Keys + (Refs(os) - refs);
    if !(Refs(os) <= refs) {
      var r :| r in Refs(os) && r !in refs;
      assert r in c' && r !in c;
    }
  }

  /** What a creation puts that a cleanup does not ask for. */
  lemma WhatIsLeft(id: string, rbac: Option<Rbac>, params: Params, other: Option<Rbac>, otherParams: Params)
    ensures var put, deleted := Refs(Plan(id, rbac, params)), Set(Removal(id, other, otherParams));
            && (put <= deleted <==>
                  || rbac.None?
                  || (other.Some? && RoleOf(id, other.value, otherParams) == RoleOf(id, rbac.value, params)))
            && (rbac.Some? && other.None? ==>
                  put - deleted == {RoleOf(id, rbac.value, params), BindingOf(id, rbac.value, params)})
  {
    hide ExecName;
    var put, deleted := Refs(Plan(id, rbac, params)), Set(Removal(id, other, otherParams));
    PlanRefs(id, rbac, params);
    RemovalRefs(id, other, otherParams);
    hide Refs;
    hide Set;
    if rbac.Some? {
      assert RoleOf(id, rbac.value, params) in put;
    }
  }

  lemma PlanRefs(id: string, rbac: Option<Rbac>, params: Params)
    ensures Refs(Plan(id, rbac, params)) ==
            if rbac.None? then {Account(id)}
              else {Account(id), RoleOf(id, rbac.value, params), BindingOf(id, rbac.value, params)}
  {
    var plan := Plan(id, rbac, params);
    if rbac.Some? {
      assert plan == [plan[0], plan[1], plan[2]];
    } else {
      assert plan == [plan[0]];
    }
  }

  lemma RemovalRefs(id: string, rbac: Option<Rbac>, params: Params)
    ensures Set(Removal(id, rbac, params)) ==
            if rbac.None? then {Account(id), Creds(id)}
            else {Account(id), Creds(id), BindingOf(id, rbac.value, params), RoleOf(id, rbac.value, params)}
  {
    var refs := Removal(id, rbac, params);
    if rbac.Some? {
      assert refs == [refs[0], refs[1], refs[2], refs[3]];
    } else {
      assert refs == [refs[0], refs[1]];
    }
  }

  // ---- Repeating creation ------------------------------------------------------------

  lemma {:induction false} PutAllPresent(c: Cluster, os: seq<Object>)
    requires Refs(os) <= c.Keys
    ensures PutAll(c, os) == c
    decreases |os|
  {
    if os != [] {
      assert os[0] in os;
      assert Refs(os[1..]) <= Refs(os);
      PutAllPresent(c, os[1..]);
    }
  }

  lemma {:induction false} PutAllSplit(c: Cluster, os: seq<Object>, n: nat)
    requires n <= |os|
    ensures PutAll(c, os) == PutAll(PutAll(c, os[..n]), os[n..])
    decreases n
  {
    if n > 0 {
      PutAllSplit(Put(c, os[0]), os[1..], n - 1);
      assert os[..n][1..] == os[1..][..n - 1] && os[n..] == os[1..][n - 1..];
    } else {
      assert os[..0] == [] && os[0..] == os;
    }
  }

  /** After any number of creations that were cut short anywhere, one that reports
      success leaves what a single undisturbed creation would have left. */
  lemma RepeatedCreationIsOneCreation(c: Cluster, id: string, rbac: Option<Rbac>, params: Params,
                                      first: nat -> Request, second: nat -> Request)
    ensures var plan := Plan(id, rbac, params);
            var c1 := CreatedFor(c, id, rbac, params, first).0;
            var (c2, ok) := CreatedFor(c1, id, rbac, params, second);
            && (ok ==> c2 == PutAll(c, plan) && Refs(plan) <= c2.Keys)
            && PutAll(c1, plan) == PutAll(c, plan)
  {
    hide CreatedFor;
    var plan := Plan(id, rbac, params);
    hide Plan;
    var n := CreatedForMeans(c, id, rbac, params, first);
    var c1 := CreatedFor(c, id, rbac, params, first).0;
    var m := CreatedForMeans(c1, id, rbac, params, second);
    PutAllSplit(c1, plan, n);
    PutAllAdds(c, plan[..n]);
    PutAllPresent(c1, plan[..n]);
    PutAllSplit(c, plan, n);
    PutAllAdds(c, plan);
    assert plan[..|plan|] == plan;
  }

  // ---- Every error return -----------------------------------------------------------

  /** Nothing was lost or changed, and only objects of the set were added. */
  predicate Extends(c: Cluster, c': Cluster, extra: set<Ref>) {
    && c'.Keys <= c.Keys + extra
    && (forall r :: r in c ==> r in c' && c'[r] == c[r])
  }

  /** No object of the execution is there. */
  predicate Absent(c: Cluster, id: string, rbac: Option<Rbac>, params: Params) {
    c.Keys !! Set(Removal(id, rbac, params)) && JobOf(id) !in c
  }

  lemma EnsuredExtends(c: Cluster, n: NamespaceCall)
    ensures Extends(c, Ensured(c, n).0, {Namespace(JOBS)})
  {
  }

  lemma NamespaceIsForeign(c: Cluster, c1: Cluster, id: string, rbac: Option<Rbac>, params: Params)
    requires Absent(c, id, rbac, params) && Extends(c, c1, {Namespace(JOBS)})
    ensures Absent(c1, id, rbac, params)
  {
    RemovalRefs(id, rbac, params);
    hide Set;
    hide ExecName;
  }

  /** The cleanup of a kube-api action deletes what an account alone needs, too. */
  lemma AccountPlanIsRemoved(call: AsyncCall)
    ensures Refs(Plan(call.id, call.AccountRbac(), call.params)) + {Creds(call.id)}
            <= Set(Removal(call.id, call.rbac, call.params))
    ensures Set(Removal(call.id, call.AccountRbac(), call.params)) <= Set(Removal(call.id, call.rbac, call.params))
  {
    PlanIsRemoved(call.id, call.AccountRbac(), call.params);
    RemovalRefs(call.id, call.AccountRbac(), call.params);
    RemovalRefs(call.id, call.rbac, call.params);
  }

  /** What a dispatch has stored when it returns an error, before it cleans up. */
  ghost function StoredBy(call: AsyncCall, error: AsyncError): seq<Object> {
    var n := StoredFor(call.id, call.AccountRbac(), call.params, call.resources);
    var resources := Plan(call.id, call.AccountRbac(), call.params)[..n];
    var secret := if Stores(call.secret) then [Object(Creds(call.id), Plain)] else [];
    var job := if Stores(call.job) then [Object(JobOf(call.id), Plain)] else [];
    match error
    case NotInitialized => []
    case NamespaceFailed => []
    case ResourcesFailed => resources
    case NoRole => resources
    case StsFailed => resources
    case SecretFailed => resources + secret
    case JobFailed => resources + secret + job
  }

  function CleanupRbac(call: AsyncCall, error: AsyncError): Option<Rbac> {
    if error == ResourcesFailed || error == JobFailed then call.AccountRbac() else call.rbac
  }

  /** What it then deletes: names of the execution whose delete is carried out, and none
      at all if the context had ended. */
  function GoneBy(call: AsyncCall, error: AsyncError): set<Ref> {
    if error == NotInitialized || error == NamespaceFailed then {}
    else Gone(call.id, CleanupRbac(call, error), call.params, CleanupFates(call, error))
  }

  lemma StoreMore(c: Cluster, os: seq<Object>, o: Object, r: Request)
    ensures var (c', ok) := Created(PutAll(c, os), o, r);
            && c' == PutAll(c, os + (if Stores(r) then [o] else []))
            && (ok <==> Answers(r)) && (ok <==> EndingOf(r) == Complete)
  {
    hide Created;
    CreatedExactly(PutAll(c, os), o, r);
    EndingAgrees(PutAll(c, os), o, r);
    hide Leaks;
    hide AnswersFrom;
    PutAllAppend(c, os, o);
    assert os + [] == os;
  }

  /** The namespace is there, or the dispatch has ended before it created anything. */
  function Readied(c: Cluster, call: AsyncCall): Cluster {
    if call.ready then Ensured(c, call.namespace).0 else c
  }

  /** An error return leaves exactly what was stored and not deleted again. */
  lemma ErrorLeaves(c: Cluster, call: AsyncCall)
    ensures var (c', error) := Dispatched(c, call);
            error.Some? ==> c' == PutAll(Readied(c, call), StoredBy(call, error.value)) - GoneBy(call, error.value)
  {
    hide CleanedUp;
    hide CreatedFor;
    hide Created;
    hide Ensured;
    hide Plan;
    hide StoredFor;
    hide Stores;
    hide Answers;
    hide Gone;
    hide PutAll;
    hide CleanupFates;
    var c1 := Ensured(c, call.namespace).0;
    var n := CreatedForMeans(c1, call.id, call.AccountRbac(), call.params, call.resources);
    var resources := Plan(call.id, call.AccountRbac(), call.params)[..n];
    var secret := if Stores(call.secret) then [Object(Creds(call.id), Plain)] else [];
    StoreMore(c1, resources, Object(Creds(call.id), Plain), call.secret);
    StoreMore(c1, resources + secret, Object(JobOf(call.id), Plain), call.job);
    forall c2, rbac, fates
      ensures CleanedUp(c2, call.id, rbac, call.params, fates) == c2 - Gone(call.id, rbac, call.params, fates)
    {
      CleanedUpMeans(c2, call.id, rbac, call.params, fates);
    }
    NothingStored(c);
    NothingStored(c1);
  }

  lemma NothingStored(c: Cluster)
    ensures PutAll(c, []) - {} == c
  {
  }

  /** All of it is named after the execution. */
  lemma StoredByIsRemoved(call: AsyncCall, error: AsyncError)
    ensures Refs(StoredBy(call, error)) <= Set(Removal(call.id, call.rbac, call.params)) + {JobOf(call.id)}
    ensures GoneBy(call, error) <= Set(Removal(call.id, call.rbac, call.params)) - {JobOf(call.id)}
    ensures JobOf(call.id) in Refs(StoredBy(call, error)) <==> error == JobFailed && Stores(call.job)
  {
    hide Plan;
    hide Removal;
    hide StoredFor;
    hide Stores;
    hide Gone;
    hide CleanupFates;
    AccountPlanIsRemoved(call);
    JobIsNoResource(call.id, call.AccountRbac(), call.params);
    JobIsNoResource(call.id, call.rbac, call.params);
    PrefixRefs(Plan(call.id, call.AccountRbac(), call.params),
      StoredFor(call.id, call.AccountRbac(), call.params, call.resources));
    GoneMeans(call.id, CleanupRbac(call, error), call.params, CleanupFates(call, error));
  }

  lemma JobIsNoResource(id: string, rbac: Option<Rbac>, params: Params)
    ensures JobOf(id) !in Refs(Plan(id, rbac, params)) && JobOf(id) != Creds(id)
              && JobOf(id) !in Removal(id, rbac, params)
  {
    PlanRefs(id, rbac, params);
  }

  /** Deletes of some of the names that were not there before. */
  lemma LeftOver(c: Cluster, os: seq<Object>, gone: set<Ref>)
    requires c.Keys !! Refs(os) && c.Keys !! gone
    ensures var c' := PutAll(c, os) - gone;
            && c'.Keys == c.Keys + (Refs(os) - gone)
            && (c' == c <==> Refs(os) <= gone)
  {
    PutThenDelete(c, os, gone);
  }

  /** An error return of DispatchAsync restores the cluster, but for the shared namespace,
      if and only if the delete of every object that was stored is carried out; otherwise
      exactly the others are left, a job that was stored among them. If the step that
      failed did so because the context had ended, no delete is. */
  lemma AsyncErrorsLeaveNothing(c: Cluster, call: AsyncCall)
    requires Absent(c, call.id, call.rbac, call.params)
    ensures var (c', error) := Dispatched(c, call);
            var c1 := Readied(c, call);
            && Extends(c, c1, {Namespace(JOBS)})
            && (error.Some? ==>
                  var stored, gone := StoredBy(call, error.value), GoneBy(call, error.value);
                  && c' == PutAll(c1, stored) - gone
                  && c'.Keys == c1.Keys + (Refs(stored) - gone)
                  && (c' == c1 <==> Refs(stored) <= gone)
                  && (JobOf(call.id) in c' <==> error.value == JobFailed && Leaks(call.job))
                  && (EndedAt(call, error.value) ==> c' == PutAll(c1, stored)))
  {
    hide Dispatched;
    hide Ensured;
    hide StoredBy;
    hide GoneBy;
    hide Set;
    hide Removal;
    hide Leaks;
    hide Answers;
    hide PutAll;
    hide Refs;
    var c1 := Readied(c, call);
    var (c', error) := Dispatched(c, call);
    EnsuredExtends(c, call.namespace);
    ExtendsItself(c);
    NamespaceIsForeign(c, c1, call.id, call.rbac, call.params);
    hide Extends;
    ErrorLeaves(c, call);
    if error.Some? {
      StoredByIsRemoved(call, error.value);
      LeftOver(c1, StoredBy(call, error.value), GoneBy(call, error.value));
      JobNotAnswered(c, call);
      EndedKeepsAll(call, error.value);
      assert EndedAt(call, error.value) ==> c' == PutAll(c1, StoredBy(call, error.value));
    }
  }

  /** When the context has ended the step that failed. */
  lemma EndedExactly(call: AsyncCall)
    ensures EndedAt(call, StsFailed) <==> call.sts == ContextEnded
    ensures EndedAt(call, SecretFailed) <==> call.secret.allowed && CutFrom(call.secret.tries, 0)
    ensures EndedAt(call, JobFailed) <==> call.job.allowed && CutFrom(call.job.tries, 0)
    ensures EndedAt(call, ResourcesFailed) <==>
              CreationEnding(call.id, call.AccountRbac(), call.params, call.resources) == Cut
    ensures !EndedAt(call, NoRole)
  {
    hide CutFrom;
    CutExactly(call.secret.tries, 0);
    CutExactly(call.job.tries, 0);
  }

  lemma StoredIsGone(call: AsyncCall, error: AsyncError)
    requires Arrive(call.fates) && !EndedAt(call, error)
    ensures Refs(StoredBy(call, error)) - {JobOf(call.id)} <= GoneBy(call, error)
  {
    hide EndedAt;
    hide Plan;
    hide Removal;
    hide StoredFor;
    hide Stores;
    hide Gone;
    AccountPlanIsRemoved(call);
    PlanIsRemoved(call.id, call.AccountRbac(), call.params);
    var n := StoredFor(call.id, call.AccountRbac(), call.params, call.resources);
    PrefixRefs(Plan(call.id, call.AccountRbac(), call.params), n);
    GoneMeans(call.id, CleanupRbac(call, error), call.params, call.fates);
  }

  /** While the context lives and every delete is carried out, an error return restores
      the cluster, but for the shared namespace and a job that was stored. */
  lemma LiveErrorsRestore(c: Cluster, call: AsyncCall)
    requires Absent(c, call.id, call.rbac, call.params) && Arrive(call.fates)
    requires var error := Dispatched(c, call).1; error.Some? && !EndedAt(call, error.value)
    ensures var (c', error) := Dispatched(c, call);
            var c1, left := Readied(c, call), error.value == JobFailed && Leaks(call.job);
            && c'.Keys == c1.Keys + (if left then {JobOf(call.id)} else {})
            && (forall r :: r in c1 ==> c'[r] == c1[r])
  {
    hide Dispatched;
    hide StoredBy;
    hide GoneBy;
    hide Leaks;
    hide Ensured;
    hide EndedAt;
    hide Refs;
    hide Arrive;
    var (c', error) := Dispatched(c, call);
    AsyncErrorsLeaveNothing(c, call);
    StoredIsGone(call, error.value);
    PutAllAdds(Readied(c, call), StoredBy(call, error.value));
  }

  lemma JobNotAnswered(c: Cluster, call: AsyncCall)
    ensures Dispatched(c, call).1 == Some(JobFailed) ==> !Answers(call.job)
  {
    hide CleanedUp;
    hide CreatedFor;
    hide Created;
    hide Ensured;
    hide Answers;
    hide CleanupFates;
    var c1 := Ensured(c, call.namespace).0;
    var c2 := CreatedFor(c1, call.id, call.AccountRbac(), call.params, call.resources).0;
    var c3 := Created(c2, Object(Creds(call.id), Plain), call.secret).0;
    StoreMore(c3, [], Object(JobOf(call.id), Plain), call.job);
  }

  lemma EndedKeepsAll(call: AsyncCall, error: AsyncError)
    ensures EndedAt(call, error) ==> GoneBy(call, error) == {}
  {
    hide Gone;
    GoneMeans(call.id, CleanupRbac(call, error), call.params, call.fates);
  }

  lemma ExtendsItself(c: Cluster)
    ensures Extends(c, c, {Namespace(JOBS)})
  {
  }

  /** An input of this kind: the context ends after a try to create the account that was
      carried out. The dispatch is answered as failed and the account stays, whatever
      the deletes would have done. */
  lemma CancelledCreateLeaks(c: Cluster, call: AsyncCall)
    requires Absent(c, call.id, call.rbac, call.params) && call.ready && Ensured(c, call.namespace).1
    requires call.AccountRbac().Some? ==> call.AccountRbac().value.valid
    requires call.resources(0).allowed && call.resources(0).tries(0) == Try.Errored(true, true, true)
    ensures Dispatched(c, call).1 == Some(ResourcesFailed) && Account(call.id) in Dispatched(c, call).0
  {
    hide CleanedUp;
    hide Ensured;
    hide Stores;
    var r := call.resources(0);
    var plan := Plan(call.id, call.AccountRbac(), call.params);
    assert EndingOf(r) == Cut;
    assert CreationEnding(call.id, call.AccountRbac(), call.params, call.resources) == Cut;
    assert plan[0] == Object(Account(call.id), Plain);
    FirstTryStores(r);
    assert StoredFor(call.id, call.AccountRbac(), call.params, call.resources) == 1;
    var n := CreatedForMeans(Ensured(c, call.namespace).0, call.id, call.AccountRbac(), call.params, call.resources);
    hide CreatedFor;
    AsyncErrorsLeaveNothing(c, call);
    PutAllAdds(Readied(c, call), plan[..1]);
    assert plan[..1][0] in plan[..1];
  }

  lemma FirstTryStores(r: Request)
    requires r.allowed && r.tries(0) == Try.Errored(true, true, true)
    ensures Leaks(r) && !Answers(r)
  {
    assert Made(r.tries, 0, 0);
  }

  /** Whatever an error return or a finished run has left, one later collection of the
      execution with the RBAC and the params of its action removes, if its deletes are
      carried out. */
  lemma CollectionFinishes(c: Cluster, os: seq<Object>, gone: set<Ref>, id: string, rbac: Option<Rbac>, params: Params,
                           fates: nat -> Net, job: Net)
    requires Absent(c, id, rbac, params) && Arrive(fates) && job != Dropped
    requires Refs(os) <= Set(Removal(id, rbac, params)) + {JobOf(id)} && gone <= Set(Removal(id, rbac, params))
    ensures Deleted(CleanedUp(PutAll(c, os) - gone, id, rbac, params, fates), JobOf(id), job) == c
  {
    hide CleanedUp;
    hide Removal;
    hide Gone;
    PutAllAdds(c, os);
    CleanedUpMeans(PutAll(c, os) - gone, id, rbac, params, fates);
    GoneMeans(id, rbac, params, fates);
    hide PutAll;
    hide Refs;
    hide Set;
    hide Arrive;
    var c' := Deleted(CleanedUp(PutAll(c, os) - gone, id, rbac, params, fates), JobOf(id), job);
    assert c'.Keys == c.Keys;
  }

  /** When the namespace is ready, and when it is there. */
  lemma EnsuredExactly(c: Cluster, n: NamespaceCall)
    ensures var (c', named) := Ensured(c, n);
            && (named <==> !n.getFails && (Namespace(JOBS) in c || n.create == Delivered))
            && (Namespace(JOBS) in c' <==> Namespace(JOBS) in c || (!n.getFails && n.create != Dropped))
            && Extends(c, c', {Namespace(JOBS)})
  {
  }

  /** An account may have no role to assume: only an aws-api action needs one. */
  lemma HasRoleMeans(call: AsyncCall)
    ensures call.HasRole() <==>
              !call.awsApi || (call.write && call.writeRole) || (!call.write && call.readRole)
    ensures call.AccountRbac() == if call.awsApi then None else call.rbac
  {
  }

  /** A dispatch ends with the first of its steps that fails, and succeeds if none does. */
  lemma DispatchEndsExactly(c: Cluster, call: AsyncCall)
    ensures var error := Dispatched(c, call).1;
            var named := call.ready && Ensured(c, call.namespace).1;
            var ending := CreationEnding(call.id, call.AccountRbac(), call.params, call.resources);
            var created := named && ending == Complete;
            var assumed := created && call.HasRole() && call.sts == Assumed;
            var stored := assumed && Answers(call.secret);
            && (error == Some(NotInitialized) <==> !call.ready)
            && (error == Some(NamespaceFailed) <==> call.ready && !named)
            && (error == Some(ResourcesFailed) <==> named && !created)
            && (error == Some(NoRole) <==> created && !call.HasRole())
            && (error == Some(StsFailed) <==> created && call.HasRole() && call.sts != Assumed)
            && (error == Some(SecretFailed) <==> assumed && !stored)
            && (error == Some(JobFailed) <==> stored && !Answers(call.job))
            && (error.None? <==> stored && Answers(call.job))
  {
    hide CleanedUp;
    hide CreatedFor;
    hide Created;
    hide Ensured;
    hide Answers;
    hide CleanupFates;
    hide CreationEnding;
    var c1 := Ensured(c, call.namespace).0;
    var n := CreatedForMeans(c1, call.id, call.AccountRbac(), call.params, call.resources);
    var c2 := CreatedFor(c1, call.id, call.AccountRbac(), call.params, call.resources).0;
    CreateAnswers(c2, Object(Creds(call.id), Plain), call.secret);
    var c3 := Created(c2, Object(Creds(call.id), Plain), call.secret).0;
    CreateAnswers(c3, Object(JobOf(call.id), Plain), call.job);
  }

  lemma CreateAnswers(c: Cluster, o: Object, r: Request)
    ensures Created(c, o, r).1 <==> Answers(r)
  {
    CreatedExactly(c, o, r);
  }

  /** A creation is complete exactly if its rules pass and every create is answered. */
  lemma {:induction false} AllAnswered(n: nat, requests: nat -> Request, i: nat)
    requires i <= n
    ensures EndingOfAll(n, requests, i) == Complete <==> forall k: nat :: i <= k < n ==> Answers(requests(k))
    decreases n - i
  {
    if i < n {
      EndingAgrees(map[], Object(Namespace(JOBS), Plain), requests(i));
      CreateAnswers(map[], Object(Namespace(JOBS), Plain), requests(i));
      hide EndingOf;
      hide Answers;
      AllAnswered(n, requests, i + 1);
    }
  }

  /** A synchronous execution runs its action exactly if the namespace is ready, its
      objects are created and a client for its account is made; it succeeds exactly if
      the action then returns success. */
  lemma SyncEndsExactly(c: Cluster, call: SyncCall)
    ensures Prepared(c, call).1 <==>
              && Ensured(c, call.namespace).1 && call.client
              && CreationEnding(call.id, call.rbac, call.params, call.resources) == Complete
    ensures Executed(c, call).1 <==> Prepared(c, call).1 && call.outcome == Ran(true)
  {
    hide CleanedUp;
    hide CreatedFor;
    hide Ensured;
    hide CreationEnding;
    hide Under;
    var n := CreatedForMeans(Ensured(c, call.namespace).0, call.id, call.rbac, call.params, call.resources);
  }

  lemma CreatedOk(c: Cluster, o: Object, r: Request)
    requires Created(c, o, r).1
    ensures Created(c, o, r).0 == Put(c, o)
  {
    CreatedMeans(c, o, r);
  }

  /** A dispatch that succeeds has created the account with its roles, the secret
      and the job, and nothing else but the shared namespace. */
  lemma AsyncSuccessCreatesAll(c: Cluster, call: AsyncCall)
    requires Dispatched(c, call).1.None?
    ensures var c1 := Ensured(c, call.namespace).0;
            && Dispatched(c, call).0 == PutAll(c1, Plan(call.id, call.AccountRbac(), call.params)
                                                   + [Object(Creds(call.id), Plain)] + [Object(JobOf(call.id), Plain)])
            && Namespace(JOBS) in c1
  {
    hide CleanedUp;
    hide CreatedFor;
    hide Created;
    var c1 := Ensured(c, call.namespace).0;
    var plan := Plan(call.id, call.AccountRbac(), call.params);
    hide Plan;
    var n := CreatedForMeans(c1, call.id, call.AccountRbac(), call.params, call.resources);
    assert plan[..|plan|] == plan;
    var c2 := PutAll(c1, plan);
    var credentials, job := Object(Creds(call.id), Plain), Object(JobOf(call.id), Plain);
    CreatedOk(c2, credentials, call.secret);
    var c3 := Put(c2, credentials);
    CreatedOk(c3, job, call.job);
    PutAllAppend(c1, plan, credentials);
    PutAllAppend(c1, plan + [credentials], job);
  }

  /** When all else succeeds, a dispatch fails exactly if no try to create the job is
      answered. The job is then left exactly if one of the tries that were made, of at
      most five, was carried out all the same, and its account and its secret exactly
      if their deletes are not. */
  lemma JobCanOutliveItsAccount(c: Cluster, call: AsyncCall)
    requires Absent(c, call.id, call.rbac, call.params)
    requires Dispatched(c, call.(job := Request(true, k => Answered))).1.None?
    ensures var (c', error) := Dispatched(c, call);
            var fates := CleanupFates(call, JobFailed);
            && (error == Some(JobFailed) <==> !Answers(call.job))
            && (error.None? || error == Some(JobFailed))
            && (error == Some(JobFailed) ==>
                  && (JobOf(call.id) in c' <==> call.job.allowed && StoresFrom(call.job.tries, 0))
                  && (Account(call.id) in c' <==> fates(0) == Dropped)
                  && (Creds(call.id) in c' <==> fates(1) == Dropped))
  {
    hide CleanedUp;
    hide CreatedFor;
    hide Created;
    hide Ensured;
    hide AnswersFrom;
    hide StoresFrom;
    hide CleanupFates;
    var c1 := Ensured(c, call.namespace).0;
    var c2 := CreatedFor(c1, call.id, call.AccountRbac(), call.params, call.resources).0;
    var c3 := Created(c2, Object(Creds(call.id), Plain), call.secret).0;
    CreatedExactly(c2, Object(Creds(call.id), Plain), call.secret);
    CreatedExactly(c3, Object(JobOf(call.id), Plain), call.job);
    AsyncErrorsLeaveNothing(c, call);
    if Dispatched(c, call).1 == Some(JobFailed) {
      AllStoredBeforeJob(c1, call);
      EnsuredExtends(c, call.namespace);
      NamespaceIsForeign(c, c1, call.id, call.rbac, call.params);
      RemovalRefs(call.id, call.rbac, call.params);
      GoneMeans(call.id, call.AccountRbac(), call.params, CleanupFates(call, JobFailed));
    }
  }

  lemma AllStoredBeforeJob(c: Cluster, call: AsyncCall)
    requires CreatedFor(c, call.id, call.AccountRbac(), call.params, call.resources).1 && Answers(call.secret)
    ensures {Account(call.id), Creds(call.id)} <= Refs(StoredBy(call, JobFailed))
  {
    hide CreatedFor;
    hide StoredFor;
    var n := CreatedForMeans(c, call.id, call.AccountRbac(), call.params, call.resources);
    var plan := Plan(call.id, call.AccountRbac(), call.params);
    assert plan[..n] == plan;
    var os := StoredBy(call, JobFailed);
    assert os[0] == Object(Account(call.id), Plain) && os[|plan|] == Object(Creds(call.id), Plain);
    assert os[0] in os && os[|plan|] in os;
  }

  // ---- Synchronous executions ----------------------------------------------------------

  /** What a synchronous execution deletes at the end: nothing if the run has expired. */
  function GoneAfter(call: SyncCall): set<Ref> {
    Gone(call.id, call.rbac, call.params, Under(call.expired, call.fates))
  }

  /** What a failed setup deletes: nothing if the context ended during the creates. */
  function GoneInSetup(call: SyncCall): set<Ref> {
    Gone(call.id, call.rbac, call.params, Under(call.CreationCut(), call.fates))
  }

  ghost function StoredInSetup(call: SyncCall): seq<Object> {
    Plan(call.id, call.rbac, call.params)[..StoredFor(call.id, call.rbac, call.params, call.resources)]
  }

  /** An action starts only with its account and roles in place, and nothing else has
      changed but the shared namespace. When the execution returns, however the action
      ended and whatever it did to the cluster, exactly those names of the execution
      are left that are there and whose delete is not carried out; so none is left if
      and only if the deletes of all that are there are. A run past its deadline
      deletes nothing. A setup that fails restores the cluster if and only if all it
      stored is deleted. */
  lemma SyncLeavesNothing(c: Cluster, call: SyncCall)
    requires Absent(c, call.id, call.rbac, call.params)
    ensures var (c0, named) := Ensured(c, call.namespace);
            var (c1, prepared) := Prepared(c, call);
            var c', plan := Executed(c, call).0, Plan(call.id, call.rbac, call.params);
            && Extends(c, c0, {Namespace(JOBS)})
            && (!named ==> c' == c0 && !prepared)
            && (prepared ==>
                  && c1 == PutAll(c0, plan) && Refs(plan) <= c1.Keys
                  && c' == call.effect(c1) - GoneAfter(call)
                  && (c'.Keys !! Set(Removal(call.id, call.rbac, call.params))
                      <==> call.effect(c1).Keys * Set(Removal(call.id, call.rbac, call.params)) <= GoneAfter(call))
                  && (call.effect(c1) == c1 ==> (c' == c0 <==> Refs(plan) <= GoneAfter(call)))
                  && (call.expired ==> c' == call.effect(c1)))
            && (!prepared && named ==>
                  && Executed(c, call) == (PutAll(c0, StoredInSetup(call)) - GoneInSetup(call), false)
                  && (c' == c0 <==> Refs(StoredInSetup(call)) <= GoneInSetup(call))
                  && (call.CreationCut() ==> c' == PutAll(c0, StoredInSetup(call))))
  {
    hide CleanedUp;
    hide CreatedFor;
    hide Ensured;
    hide Removal;
    hide Gone;
    hide Under;
    hide StoredFor;
    hide PutAll;
    hide Set;
    var c0, removal := Ensured(c, call.namespace).0, Set(Removal(call.id, call.rbac, call.params));
    var (c1, prepared) := Prepared(c, call);
    var plan := Plan(call.id, call.rbac, call.params);
    EnsuredExtends(c, call.namespace);
    NamespaceIsForeign(c, c0, call.id, call.rbac, call.params);
    hide Extends;
    SetupMeans(c, call);
    hide Prepared;
    SyncGone(call);
    PlanIsRemoved(call.id, call.rbac, call.params);
    hide Plan;
    if prepared {
      CleanedUpMeans(call.effect(c1), call.id, call.rbac, call.params, Under(call.expired, call.fates));
      PutAllAdds(c0, plan);
      hide Refs;
      LeftOver(c0, plan, GoneAfter(call));
      LeftOf(call.effect(c1), removal, GoneAfter(call));
    } else {
      PrefixRefs(plan, StoredFor(call.id, call.rbac, call.params, call.resources));
      hide Refs;
      LeftOver(c0, StoredInSetup(call), GoneInSetup(call));
    }
  }

  lemma LeftOf(c: Cluster, removal: set<Ref>, gone: set<Ref>)
    requires gone <= removal
    ensures (c - gone).Keys !! removal <==> c.Keys * removal <= gone
    ensures gone == {} ==> c - gone == c
  {
    assert (c - gone).Keys == c.Keys - gone;
  }

  /** A setup ends with the whole plan stored, or its cleanup has run on what was. */
  lemma SetupMeans(c: Cluster, call: SyncCall)
    requires Absent(c, call.id, call.rbac, call.params)
    ensures var (c0, named) := Ensured(c, call.namespace);
            var (c1, prepared) := Prepared(c, call);
            && StoredFor(call.id, call.rbac, call.params, call.resources) <= |Plan(call.id, call.rbac, call.params)|
            && (prepared ==> named && c1 == PutAll(c0, Plan(call.id, call.rbac, call.params)))
            && (!named ==> c1 == c0)
            && (named && !prepared ==> c1 == PutAll(c0, StoredInSetup(call)) - GoneInSetup(call))
  {
    hide CleanedUp;
    hide CreatedFor;
    hide Ensured;
    hide Removal;
    hide Gone;
    hide Under;
    hide StoredFor;
    hide PutAll;
    var c0 := Ensured(c, call.namespace).0;
    var plan := Plan(call.id, call.rbac, call.params);
    hide Plan;
    EnsuredExtends(c, call.namespace);
    NamespaceIsForeign(c, c0, call.id, call.rbac, call.params);
    hide Extends;
    var n := CreatedForMeans(c0, call.id, call.rbac, call.params, call.resources);
    assert plan[..|plan|] == plan;
    CleanedUpMeans(PutAll(c0, plan[..n]), call.id, call.rbac, call.params, Under(call.CreationCut(), call.fates));
  }

  /** While the deadline has not passed and every delete is carried out, nothing named
      after the execution is left, and a run that touched nothing restores the cluster. */
  lemma LiveRunRestores(c: Cluster, call: SyncCall)
    requires Absent(c, call.id, call.rbac, call.params) && Arrive(call.fates)
    requires Prepared(c, call).1 && !call.expired
    ensures var c0, c1, c' := Ensured(c, call.namespace).0, Prepared(c, call).0, Executed(c, call).0;
            && c' == call.effect(c1) - Set(Removal(call.id, call.rbac, call.params))
            && (call.effect(c1) == c1 ==> c' == c0)
  {
    hide Prepared;
    hide Executed;
    hide Ensured;
    hide Gone;
    hide Set;
    hide Plan;
    hide Removal;
    SyncLeavesNothing(c, call);
    GoneMeans(call.id, call.rbac, call.params, call.fates);
    PlanIsRemoved(call.id, call.rbac, call.params);
  }

  /** ... and a setup that fails without its context having ended restores it too. */
  lemma LiveSetupRestores(c: Cluster, call: SyncCall)
    requires Absent(c, call.id, call.rbac, call.params) && Arrive(call.fates)
    requires !Prepared(c, call).1 && !call.CreationCut()
    ensures Executed(c, call).0 == Ensured(c, call.namespace).0
  {
    hide Prepared;
    hide Executed;
    hide Ensured;
    hide Gone;
    hide Set;
    hide Plan;
    hide Removal;
    hide StoredFor;
    SyncLeavesNothing(c, call);
    GoneMeans(call.id, call.rbac, call.params, call.fates);
    PlanIsRemoved(call.id, call.rbac, call.params);
    PrefixRefs(Plan(call.id, call.rbac, call.params), StoredFor(call.id, call.rbac, call.params, call.resources));
  }

  lemma SyncGone(call: SyncCall)
    ensures GoneAfter(call) <= Set(Removal(call.id, call.rbac, call.params))
    ensures GoneInSetup(call) <= Set(Removal(call.id, call.rbac, call.params))
    ensures call.expired ==> GoneAfter(call) == {}
    ensures call.CreationCut() ==> GoneInSetup(call) == {}
  {
    hide Gone;
    hide Set;
    GoneMeans(call.id, call.rbac, call.params, Under(call.expired, call.fates));
    GoneMeans(call.id, call.rbac, call.params, Under(call.CreationCut(), call.fates));
    GoneMeans(call.id, call.rbac, call.params, call.fates);
  }

  // ---- What an action is allowed to do ------------------------------------------------

  /** The binding gives the account a rule, in one namespace or in all. */
  predicate Grants(c: Cluster, b: Ref, account: Ref, where: Option<string>, rule: Rule) {
    && b in c && c[b].Binding? && c[b].subject == account
    && c[b].role in c && c[c[b].role].Rules? && rule in c[c[b].role].rules
    && ((b.ClusterRoleBinding? && where == None) || (b.RoleBinding? && where == Some(b.namespace)))
  }

  ghost predicate Allows(c: Cluster, account: Ref, where: Option<string>, rule: Rule) {
    exists b :: Grants(c, b, account, where, rule)
  }

  function Scope(rbac: Rbac, params: Params): Option<string> {
    if rbac.clusterScoped then None else Some(TargetNamespace(rbac, params))
  }

  /** No binding in the cluster mentions the execution's account or role. */
  predicate Unbound(c: Cluster, id: string, rbac: Option<Rbac>, params: Params) {
    forall b :: b in c && c[b].Binding? ==>
      c[b].subject != Account(id) && (rbac.Some? ==> c[b].role != RoleOf(id, rbac.value, params))
  }

  /** A cluster extended by an account and a role that nothing refers to, and a
      binding of the one to the other. */
  lemma OneBinding(c: Cluster, c': Cluster, id: string, rbac: Rbac, params: Params, account: Ref,
                   where: Option<string>, rule: Rule)
    requires Unbound(c, id, Some(rbac), params) && RoleOf(id, rbac, params) !in c && BindingOf(id, rbac, params) !in c
    requires c'.Keys <= c.Keys + {Account(id), Creds(id), RoleOf(id, rbac, params), BindingOf(id, rbac, params)}
    requires forall r :: r in c ==> r in c' && c'[r] == c[r]
    requires RoleOf(id, rbac, params) in c' && c'[RoleOf(id, rbac, params)] == Rules(rbac.rules)
    requires BindingOf(id, rbac, params) in c'
    requires c'[BindingOf(id, rbac, params)] == Binding(Account(id), RoleOf(id, rbac, params))
    requires Account(id) in c' ==> c'[Account(id)] == Plain
    requires Creds(id) in c' ==> c'[Creds(id)] == Plain
    requires Account(id) !in c && Creds(id) !in c
    ensures Allows(c', account, where, rule) <==>
              || Allows(c, account, where, rule)
              || (account == Account(id) && where == Scope(rbac, params) && rule in rbac.rules)
    ensures !Allows(c, Account(id), where, rule)
  {
    hide ExecName;
    var mine := BindingOf(id, rbac, params);
    forall b | b != mine ensures Grants(c', b, account, where, rule) <==> Grants(c, b, account, where, rule) {
    }
    assert Grants(c', mine, account, where, rule) <==>
      account == Account(id) && where == Scope(rbac, params) && rule in rbac.rules;
    hide Grants;
    if Allows(c, account, where, rule) {
      var b :| Grants(c, b, account, where, rule);
      assert b != mine by { GrantedByPresent(c, b, account, where, rule); }
      assert Grants(c', b, account, where, rule);
    }
    UnboundAllowsNothing(c, id, rbac, params, where, rule);
  }

  lemma UnboundAllowsNothing(c: Cluster, id: string, rbac: Rbac, params: Params, where: Option<string>, rule: Rule)
    requires Unbound(c, id, Some(rbac), params)
    ensures !Allows(c, Account(id), where, rule)
  {
  }

  lemma GrantedByPresent(c: Cluster, b: Ref, account: Ref, where: Option<string>, rule: Rule)
    requires Grants(c, b, account, where, rule)
    ensures b in c && c[b] == Binding(account, c[b].role)
  {
  }

  lemma PlanPut(c: Cluster, id: string, rbac: Rbac, params: Params)
    requires c.Keys !! Set(Removal(id, Some(rbac), params))
    ensures var c', role, binding := PutAll(c, Plan(id, Some(rbac), params)), RoleOf(id, rbac, params),
              BindingOf(id, rbac, params);
            && c'.Keys == c.Keys + {Account(id), role, binding}
            && (forall r :: r in c ==> c'[r] == c[r])
            && c'[role] == Rules(rbac.rules) && c'[binding] == Binding(Account(id), role) && c'[Account(id)] == Plain
            && Account(id) !in c && Creds(id) !in c && role !in c && binding !in c
  {
    hide ExecName;
    var plan := Plan(id, Some(rbac), params);
    PutAllAdds(c, plan);
    PlanRefs(id, Some(rbac), params);
    RemovalRefs(id, Some(rbac), params);
    hide Set;
    hide Refs;
    assert plan == [plan[0]] + [plan[1]] + [plan[2]];
    assert [plan[0]] == [] + [plan[0]];
    PutAllAppend(c, [], plan[0]);
    PutAllAppend(c, [plan[0]], plan[1]);
    PutAllAppend(c, [plan[0]] + [plan[1]], plan[2]);
  }

  /** Once the resources of an execution are created its account may do exactly what
      the action declares, where it declares it, and no other account may do more or
      less than before. */
  lemma LeastPrivilege(c: Cluster, id: string, rbac: Rbac, params: Params, account: Ref, where: Option<string>,
                       rule: Rule)
    requires c.Keys !! Set(Removal(id, Some(rbac), params)) && Unbound(c, id, Some(rbac), params)
    ensures var c' := PutAll(c, Plan(id, Some(rbac), params));
            && (Allows(c', Account(id), where, rule) <==> where == Scope(rbac, params) && rule in rbac.rules)
            && (account != Account(id) ==> (Allows(c', account, where, rule) <==> Allows(c, account, where, rule)))
  {
    hide Plan;
    hide Removal;
    hide Unbound;
    hide Allows;
    hide PutAll;
    PlanPut(c, id, rbac, params);
    var c' := PutAll(c, Plan(id, Some(rbac), params));
    OneBinding(c, c', id, rbac, params, account, where, rule);
    OneBinding(c, c', id, rbac, params, Account(id), where, rule);
  }

  /** A collection without RBAC deletes the account, if that delete is carried out, but
      never what it was allowed: an account of that name still gets it. */
  lemma PrivilegesOutliveTheAccount(c: Cluster, id: string, rbac: Rbac, params: Params, fates: nat -> Net,
                                    where: Option<string>, rule: Rule)
    requires c.Keys !! Set(Removal(id, Some(rbac), params)) && Unbound(c, id, Some(rbac), params)
    ensures var c' := CleanedUp(PutAll(c, Plan(id, Some(rbac), params)), id, None, map[], fates);
            && (Account(id) in c' <==> fates(0) == Dropped)
            && (Allows(c', Account(id), where, rule) <==> where == Scope(rbac, params) && rule in rbac.rules)
  {
    hide Plan;
    hide Unbound;
    hide Allows;
    hide PutAll;
    hide CleanedUp;
    hide Gone;
    PlanPut(c, id, rbac, params);
    var c1 := PutAll(c, Plan(id, Some(rbac), params));
    CleanedUpMeans(c1, id, None, map[], fates);
    GoneMeans(id, None, map[], fates);
    RemovalRefs(id, None, map[]);
    hide Removal;
    var c' := CleanedUp(c1, id, None, map[], fates);
    assert c' == c1 - Gone(id, None, map[], fates);
    OneBinding(c, c', id, rbac, params, Account(id), where, rule);
  }

  /** Objects that are neither rules nor bindings allow nothing. */
  lemma {:induction false} PlainAllowsNothing(c: Cluster, os: seq<Object>, account: Ref, where: Option<string>,
                                              rule: Rule)
    requires forall o :: o in os ==> o.spec == Plain
    ensures Allows(PutAll(c, os), account, where, rule) <==> Allows(c, account, where, rule)
    decreases |os|
  {
    if os != [] {
      var o := os[0];
      forall b ensures Grants(Put(c, o), b, account, where, rule) <==> Grants(c, b, account, where, rule) {
      }
      hide Grants;
      assert forall x :: x in os[1..] ==> x in os;
      PlainAllowsNothing(Put(c, o), os[1..], account, where, rule);
    }
  }

  lemma UnboundDespiteNamespace(c: Cluster, n: NamespaceCall, id: string, rbac: Option<Rbac>, params: Params)
    requires Unbound(c, id, rbac, params)
    ensures Unbound(Ensured(c, n).0, id, rbac, params)
  {
  }

  /** If a dispatch fails because its context has ended after its roles were stored,
      its account may still do exactly what the action declares. */
  lemma CutDispatchKeepsPrivileges(c: Cluster, call: AsyncCall, where: Option<string>, rule: Rule)
    requires call.AccountRbac().Some? && Absent(c, call.id, call.rbac, call.params)
               && Unbound(c, call.id, call.rbac, call.params)
    requires var error := Dispatched(c, call).1; error.Some? && EndedAt(call, error.value)
    requires StoredFor(call.id, call.AccountRbac(), call.params, call.resources)
               == |Plan(call.id, call.AccountRbac(), call.params)|
    ensures var c', rbac := Dispatched(c, call).0, call.rbac.value;
            && Account(call.id) in c'
            && (Allows(c', Account(call.id), where, rule) <==> where == Scope(rbac, call.params) && rule in rbac.rules)
  {
    hide Dispatched;
    hide Ensured;
    hide StoredFor;
    hide Stores;
    hide Allows;
    hide Unbound;
    hide Extends;
    var rbac, error := call.rbac.value, Dispatched(c, call).1.value;
    var c1 := Ensured(c, call.namespace).0;
    AsyncErrorsLeaveNothing(c, call);
    EnsuredExtends(c, call.namespace);
    NamespaceIsForeign(c, c1, call.id, call.rbac, call.params);
    UnboundDespiteNamespace(c, call.namespace, call.id, call.rbac, call.params);
    EndedAfterNamespace(c, call);
    var plan := Plan(call.id, call.rbac, call.params);
    assert plan[0] in plan;
    hide Plan;
    assert plan[..|plan|] == plan;
    var more := StoredBy(call, error)[|plan|..];
    assert StoredBy(call, error) == plan + more;
    assert forall o :: o in more ==> o.spec == Plain;
    hide StoredBy;
    PutAllSplit(c1, plan + more, |plan|);
    assert (plan + more)[..|plan|] == plan && (plan + more)[|plan|..] == more;
    LeastPrivilege(c1, call.id, rbac, call.params, Account(call.id), where, rule);
    PlainAllowsNothing(PutAll(c1, plan), more, Account(call.id), where, rule);
    PutAllAdds(c1, plan + more);
    assert plan[0] in plan + more;
  }

  lemma EndedAfterNamespace(c: Cluster, call: AsyncCall)
    requires var error := Dispatched(c, call).1; error.Some? && EndedAt(call, error.value)
    ensures call.ready && Readied(c, call) == Ensured(c, call.namespace).0
  {
    hide CreatedFor;
    hide Created;
    hide CleanedUp;
    hide CleanupFates;
  }

  /** The same roles and bindings. */
  ghost predicate SameRbac(c: Cluster, c': Cluster) {
    forall r :: (r in c && c[r] != Plain) || (r in c' && c'[r] != Plain) ==> r in c && r in c' && c[r] == c'[r]
  }

  lemma SameRbacSameRights(c: Cluster, c': Cluster, account: Ref, where: Option<string>, rule: Rule)
    requires SameRbac(c, c')
    ensures Allows(c, account, where, rule) <==> Allows(c', account, where, rule)
  {
    forall b ensures Grants(c, b, account, where, rule) <==> Grants(c', b, account, where, rule) {
    }
    hide Grants;
  }

  /** If a synchronous run is past its deadline when the action returns, the cluster is
      just what the action left. Unless the action itself changed roles or bindings, the
      account may still do exactly what the action declares. */
  lemma ExpiredRunKeepsPrivileges(c: Cluster, call: SyncCall, where: Option<string>, rule: Rule)
    requires call.rbac.Some? && Absent(c, call.id, call.rbac, call.params)
               && Unbound(c, call.id, call.rbac, call.params)
    requires Prepared(c, call).1 && call.expired
    ensures var c1, c', rbac := Prepared(c, call).0, Executed(c, call).0, call.rbac.value;
            && Refs(Plan(call.id, call.rbac, call.params)) <= c1.Keys
            && c' == call.effect(c1)
            && (SameRbac(c1, call.effect(c1)) ==>
                  (Allows(c', Account(call.id), where, rule) <==>
                     where == Scope(rbac, call.params) && rule in rbac.rules))
  {
    hide Prepared;
    hide Executed;
    hide Ensured;
    hide Allows;
    hide Unbound;
    hide Extends;
    hide Plan;
    hide SameRbac;
    var c0, c1 := Ensured(c, call.namespace).0, Prepared(c, call).0;
    SyncLeavesNothing(c, call);
    EnsuredExtends(c, call.namespace);
    NamespaceIsForeign(c, c0, call.id, call.rbac, call.params);
    UnboundDespiteNamespace(c, call.namespace, call.id, call.rbac, call.params);
    LeastPrivilege(c0, call.id, call.rbac.value, call.params, Account(call.id), where, rule);
    if SameRbac(c1, call.effect(c1)) {
      SameRbacSameRights(c1, call.effect(c1), Account(call.id), where, rule);
    }
  }
}
