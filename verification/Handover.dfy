/** What the dispatch pass achieves: how often an execution is handed to a worker,
    how far a broken worker function gets, and what a lost rollback leaves. */
module Handover {
  import opened Executions
  import opened ExecutionProtocol
  import opened ExecutionTheorems
  import opened Reconciling
  import opened Passes
  import opened Wrappers
  import opened Remote

  // ---- At most one hand-over ---------------------------------------------------------

  /** The event is an acknowledged hand-over of the execution to a worker. */
  predicate HandsOver(s: State, e: Event, id: string) {
    e.Invoke? && e.ok && e.a in s.actors && s.actors[e.a].Claimed? && s.actors[e.a].written.id == id
  }

  function HandOvers(s: State, es: seq<Event>, id: string): nat {
    if es == [] then 0
    else
      HandOvers(s, es[..|es| - 1], id) + (if HandsOver(Run(s, es[..|es| - 1]), es[|es| - 1], id) then 1 else 0)
  }

  /** Not approved, and nobody holds a claim: it can never be claimed again. */
  ghost predicate Settled(s: State, id: string) {
    && id in s.table && s.table[id].status != Approved
    && forall a :: a in s.actors ==> !Holds(s.actors[a], id)
  }

  lemma SettledAfterHandOver(s: State, e: Event, id: string)
    requires Inv(s) && HandsOver(s, e, id)
    ensures Settled(Apply(s, e), id) && !Settled(s, id)
  {
    hide RowsInv;
    assert ActorOk(s, s.actors[e.a]);
    assert Holds(s.actors[e.a], id);
  }

  /** Only a holder's rollback makes a row approved again. */
  lemma ApprovedByHolder(s: State, e: Event, id: string)
    requires id in s.table && s.table[id].status != Approved && Has(Apply(s, e).table, id, Approved)
    ensures e.Rollback? && e.a in s.actors && Holds(s.actors[e.a], id)
  {
    hide StatusKey;
    hide Active;
    hide CanRead;
  }

  /** Only a claim of an approved row starts a hold. */
  lemma HoldStartsApproved(s: State, e: Event, id: string, a: nat)
    requires a in Apply(s, e).actors && Holds(Apply(s, e).actors[a], id)
    requires forall t :: t in s.table ==> s.table[t].id == t
    ensures (a in s.actors && Holds(s.actors[a], id)) || Has(s.table, id, Approved)
  {
    hide StatusKey;
    hide Active;
  }

  lemma StaysSettled(s: State, e: Event, id: string)
    requires Inv(s) && Settled(s, id)
    ensures Settled(Apply(s, e), id)
  {
    hide Apply;
    var s' := Apply(s, e);
    ApplyKeeps(s, e);
    VersionsGrow(s, e);
    assert s.table[id].id == id && s.table[id] in s'.versions;
    assert id in s'.table;
    assert forall t :: t in s.table ==> s.table[t].id == t;
    hide Inv;
    hide Holds;
    if s'.table[id].status == Approved {
      ApprovedByHolder(s, e, id);
    }
    forall a | a in s'.actors ensures !Holds(s'.actors[a], id) {
      if Holds(s'.actors[a], id) {
        HoldStartsApproved(s, e, id, a);
      }
    }
  }

  /** Whatever ticks race, an execution is handed to a worker, and the hand-over
      acknowledged, at most once in its life; from then on it is never approved
      or claimed again. */
  lemma {:induction false} HandedOverOnce(max: int, es: seq<Event>, id: string)
    ensures HandOvers(Init(max), es, id) <= 1
    ensures HandOvers(Init(max), es, id) == 1 ==> Settled(Run(Init(max), es), id)
    decreases |es|
  {
    hide Apply;
    hide Settled;
    if es != [] {
      var before, e := es[..|es| - 1], es[|es| - 1];
      HandedOverOnce(max, before, id);
      Reachable(max, before);
      var s := Run(Init(max), before);
      if HandsOver(s, e, id) {
        SettledAfterHandOver(s, e, id);
      } else if HandOvers(Init(max), before, id) == 1 {
        StaysSettled(s, e, id);
      }
    }
  }

  /** A settled execution is not handed to any worker any more. */
  lemma {:induction false} SettledIsNotHandedOver(s: State, es: seq<Event>, id: string)
    requires Inv(s) && Settled(s, id)
    ensures HandOvers(s, es, id) == 0 && Settled(Run(s, es), id)
    decreases |es|
  {
    hide Apply;
    hide Settled;
    if es != [] {
      var before, e := es[..|es| - 1], es[|es| - 1];
      SettledIsNotHandedOver(s, before, id);
      RunKeeps(s, before);
      StaysSettled(Run(s, before), e, id);
      if HandsOver(Run(s, before), e, id) {
        SettledAfterHandOver(Run(s, before), e, id);
      }
    }
  }

  // ---- Executions created through the API ----------------------------------------------

  /** Only a create that is carried out adds a row created through the API. */
  lemma OnlyCreatesAdd(s: State, e: Event, id: string)
    requires id !in s.apiRows && id in Apply(s, e).apiRows
    ensures e.Create? && e.a in s.actors && s.actors[e.a].Admitted? && NewRow(s.actors[e.a].row, Dispatched)
    ensures s.actors[e.a].row.id == id && id !in s.table && e.net != Dropped
  {
    hide StatusKey;
    hide Active;
    hide CanRead;
    hide NewRow;
    hide AfterTransition;
    hide AfterTransitionWith;
    hide AfterMark;
  }

  lemma CreateSettles(s: State, e: Event, id: string)
    requires Inv(s) && id !in s.apiRows && id in Apply(s, e).apiRows
    ensures e.Create? && Settled(Apply(s, e), id)
  {
    hide StatusKey;
    OnlyCreatesAdd(s, e, id);
    NotHeldBefore(s, e, id);
    hide Inv;
    assert Apply(s, e) == Created(s, e.a, e.net);
    hide Apply;
  }

  lemma NotHeldBefore(s: State, e: Event, id: string)
    requires Inv(s)
    ensures id !in s.table ==> forall a :: a in s.actors ==> !Holds(s.actors[a], id)
  {
    forall a | a in s.actors && id !in s.table ensures !Holds(s.actors[a], id) {
      assert ActorOk(s, s.actors[a]);
    }
  }

  lemma {:induction false} ApiRowsAreSettled(max: int, es: seq<Event>, id: string)
    requires id in Run(Init(max), es).apiRows
    ensures Settled(Run(Init(max), es), id)
    decreases |es|
  {
    hide Apply;
    hide Settled;
    if es != [] {
      var before, e := es[..|es| - 1], es[|es| - 1];
      Reachable(max, before);
      if id in Run(Init(max), before).apiRows {
        ApiRowsAreSettled(max, before, id);
        StaysSettled(Run(Init(max), before), e, id);
      } else {
        CreateSettles(Run(Init(max), before), e, id);
      }
    }
  }

  /** An execution created through the API is never approved, never claimed and never
      handed to a worker, whatever happens. */
  lemma ApiRowsAreNotHandedOver(max: int, es: seq<Event>, fs: seq<Event>, id: string)
    requires id in Run(Init(max), es).apiRows
    ensures HandOvers(Run(Init(max), es), fs, id) == 0 && !Has(Run(Init(max), es + fs).table, id, Approved)
  {
    hide Apply;
    hide HandOvers;
    ApiRowsAreSettled(max, es, id);
    Reachable(max, es);
    RunConcat(Init(max), es, fs);
    SettledIsNotHandedOver(Run(Init(max), es), fs, id);
  }

  // ---- Executions no worker ever gets ------------------------------------------------

  ghost predicate NeverHandedOver(s: State, id: string) {
    forall es :: HandOvers(s, es, id) == 0
  }

  /** The row can be claimed, its claim can still be passed on, or it can still be
      given back. */
  predicate Available(s: State, id: string)
    requires id in s.table
  {
    || s.table[id].status == Approved
    || exists a :: a in s.actors && Holds(s.actors[a], id) && (s.actors[a].Claimed? || !s.table[id].status.IsTerminal())
  }

  /** Only a claim of an approved row makes its holder ready to invoke. */
  lemma ClaimedStartsApproved(s: State, e: Event, id: string, a: nat)
    requires a in Apply(s, e).actors && Holds(Apply(s, e).actors[a], id) && Apply(s, e).actors[a].Claimed?
    requires forall t :: t in s.table ==> s.table[t].id == t
    ensures (a in s.actors && Holds(s.actors[a], id) && s.actors[a].Claimed?) || Has(s.table, id, Approved)
  {
    hide StatusKey;
    hide WithStatus;
  }

  lemma RowPersists(s: State, e: Event, id: string)
    requires Inv(s) && id in s.table
    ensures id in Apply(s, e).table && (s.table[id].status.IsTerminal() ==> Apply(s, e).table[id].status.IsTerminal())
    ensures forall t :: t in s.table ==> s.table[t].id == t
  {
    hide Apply;
    var s' := Apply(s, e);
    ApplyKeeps(s, e);
    VersionsGrow(s, e);
    assert s.table[id].id == id && s.table[id] in s'.versions;
    assert Precedes(s.table[id], s'.table[id]);
  }

  lemma StaysUnavailable(s: State, e: Event, id: string)
    requires Inv(s) && id in s.table && !Available(s, id)
    ensures id in Apply(s, e).table && !Available(Apply(s, e), id) && !HandsOver(s, e, id)
  {
    hide Apply;
    hide Inv;
    RowPersists(s, e, id);
    if s.table[id].status.IsTerminal() {
      forall a | a in Apply(s, e).actors && Holds(Apply(s, e).actors[a], id) ensures !Apply(s, e).actors[a].Claimed? {
        if Apply(s, e).actors[a].Claimed? {
          ClaimedStartsApproved(s, e, id, a);
        }
      }
    } else {
      assert Settled(s, id);
      StaysSettled(s, e, id);
    }
  }

  lemma {:induction false} UnavailableIsNotHandedOver(s: State, es: seq<Event>, id: string)
    requires Inv(s) && id in s.table && !Available(s, id)
    ensures HandOvers(s, es, id) == 0
    ensures id in Run(s, es).table && !Available(Run(s, es), id)
    decreases |es|
  {
    hide Apply;
    hide Available;
    hide HandsOver;
    if es != [] {
      var before, e := es[..|es| - 1], es[|es| - 1];
      UnavailableIsNotHandedOver(s, before, id);
      RunKeeps(s, before);
      StaysUnavailable(Run(s, before), e, id);
    }
  }

  lemma {:induction false} HandOversAfter(s: State, e: Event, es: seq<Event>, id: string)
    ensures HandOvers(s, [e] + es, id) >= HandOvers(Apply(s, e), es, id)
    ensures Run(s, [e] + es) == Run(Apply(s, e), es)
    decreases |es|
  {
    hide Apply;
    hide HandsOver;
    var all := [e] + es;
    if es == [] {
      assert all == [e] && all[..0] == [];
    } else {
      HandOversAfter(s, e, es[..|es| - 1], id);
      assert all[..|all| - 1] == [e] + es[..|es| - 1];
    }
  }

  lemma HolderHandsOver(s: State, a: nat, id: string)
    requires a in s.actors && Holds(s.actors[a], id) && s.actors[a].Claimed?
    ensures HandOvers(s, [Invoke(a, true)], id) == 1
  {
    hide Apply;
    var es := [Invoke(a, true)];
    assert es[..0] == [];
  }

  /** An approved execution can be handed over by any tick that is not busy. */
  lemma ApprovedIsHandedOver(s: State, a: nat, id: string)
    requires Inv(s) && Has(s.table, id, Approved) && a !in s.actors
    ensures HandOvers(s, [Read(a, Claiming(s.table[id]))] + ([Claim(a, "", Delivered)] + [Invoke(a, true)]), id) >= 1
  {
    hide Apply;
    hide Inv;
    hide HandOvers;
    hide Move;
    var v := s.table[id];
    RowFacts(s, id);
    BeginStep(s, a, Claiming(v));
    var s1 := Add(s, a, Claiming(v));
    ClaimEvent(s1, a, v, "", Delivered);
    var s2 := Apply(s1, Claim(a, "", Delivered));
    HolderHandsOver(s2, a, id);
    HandOversAfter(s1, Claim(a, "", Delivered), [Invoke(a, true)], id);
    HandOversAfter(s, Read(a, Claiming(v)), [Claim(a, "", Delivered)] + [Invoke(a, true)], id);
  }

  lemma GivenBackIsHandedOver(s: State, a: nat, id: string)
    requires Inv(s) && a in s.actors && Holds(s.actors[a], id) && s.actors[a].RollingBack?
               && Has(s.table, id, Dispatched)
    ensures !NeverHandedOver(s, id)
  {
    hide Apply;
    hide Inv;
    hide HandOvers;
    hide StatusKey;
    var w := s.actors[a].written;
    RollbackEvent(s, a, w, "", Delivered);
    var s' := Apply(s, Rollback(a, "", Delivered));
    ApprovedIsHandedOver(s', a, id);
    var es := [Read(a, Claiming(s'.table[id]))] + ([Claim(a, "", Delivered)] + [Invoke(a, true)]);
    HandOversAfter(s, Rollback(a, "", Delivered), es, id);
    assert HandOvers(s, [Rollback(a, "", Delivered)] + es, id) != 0;
  }

  lemma {:induction false} SomeoneIsFree(busy: set<nat>) returns (a: nat)
    ensures forall b :: b in busy ==> b < a
    decreases |busy|
  {
    a := 0;
    if busy != {} {
      var b :| b in busy;
      a := SomeoneIsFree(busy - {b});
      if a <= b {
        a := b + 1;
      }
      assert busy == (busy - {b}) + {b};
    }
  }

  /** Exactly when no worker will ever get an execution: it is not approved, nobody
      is about to invoke a worker for it, and nobody can still give it back. */
  lemma NeverHandedOverIff(s: State, id: string)
    requires Inv(s) && id in s.table
    ensures NeverHandedOver(s, id) <==> !Available(s, id)
  {
    hide Inv;
    hide HandOvers;
    if !Available(s, id) {
      forall es ensures HandOvers(s, es, id) == 0 {
        UnavailableIsNotHandedOver(s, es, id);
      }
    } else if s.table[id].status == Approved {
      var a := SomeoneIsFree(s.actors.Keys);
      ApprovedIsHandedOver(s, a, id);
    } else {
      var a :| a in s.actors && Holds(s.actors[a], id) && (s.actors[a].Claimed? || !s.table[id].status.IsTerminal());
      if s.actors[a].Claimed? {
        HolderHandsOver(s, a, id);
      } else {
        HeldIsDispatched(s, a, id);
        GivenBackIsHandedOver(s, a, id);
      }
    }
  }

  lemma HeldIsDispatched(s: State, a: nat, id: string)
    requires Inv(s) && a in s.actors && Holds(s.actors[a], id)
    ensures id in s.table && (s.table[id].status == Dispatched || s.table[id].status.IsTerminal())
  {
    hide RowsInv;
    assert ActorOk(s, s.actors[a]);
  }

  // ---- How a claim ends ----------------------------------------------------------------

  lemma LastHold(s: State, a: nat, id: string)
    requires Inv(s) && a in s.actors && Holds(s.actors[a], id)
    ensures Settled(Drop(s, a), id)
  {
    hide RowsInv;
    assert ActorOk(s, s.actors[a]);
  }

  /** The only ways for a claim's holder to leave its execution to nobody: it dies
      anywhere, it hands the execution over, or its rollback is lost or too late. */
  lemma HolderLetsGo(s: State, e: Event, id: string)
    requires Inv(s) && !e.Approve? && e.a in s.actors && Holds(s.actors[e.a], id)
    ensures Settled(Apply(s, e), id) <==>
              || e.Exit?
              || HandsOver(s, e, id)
              || (e.Rollback? && s.actors[e.a].RollingBack? && (e.net == Dropped || s.table[id].status.IsTerminal()))
  {
    hide StatusKey;
    LastHold(s, e.a, id);
    HeldIsDispatched(s, e.a, id);
    var x := s.actors[e.a];
    if e.Rollback? && x.RollingBack? {
      assert x.written.id == id;
      RollbackTable(s, e.a, id, e.now, e.net);
      RollbackTableOnly(s, e.a, id, e.now, e.net);
    } else if e.Exit? || HandsOver(s, e, id) {
      assert Apply(s, e) == Drop(s, e.a);
    } else {
      HolderHoldsOn(s, e, id);
      assert Holds(Apply(s, e).actors[e.a], id);
    }
  }

  lemma HolderHoldsOn(s: State, e: Event, id: string)
    requires !e.Approve? && e.a in s.actors && Holds(s.actors[e.a], id)
    requires !e.Exit? && !HandsOver(s, e, id) && !(e.Rollback? && s.actors[e.a].RollingBack?)
    ensures e.a in Apply(s, e).actors && Holds(Apply(s, e).actors[e.a], id)
  {
    hide StatusKey;
    hide WithStatus;
  }

  lemma RollbackTableOnly(s: State, me: nat, id: string, now: string, net: Net)
    ensures Move(s, me, id, Dispatched, Approved, now, net).actors == Drop(s, me).actors
  {
    hide StatusKey;
  }

  /** The world when the rollback of a dispatch arrives. */
  function BeforeRollback(d: Dispatch, me: nat, v: Execution, t: DispatchTurn): State {
    var s2 := Apply(Apply(Run(d.world, t.turn.before), Read(me, Claiming(v))), Claim(me, t.turn.now, t.turn.net));
    Run(Apply(Run(s2, t.between), Invoke(me, false)), t.after)
  }

  predicate EndedMeanwhile(d: Dispatch, me: nat, v: Execution, t: DispatchTurn) {
    TerminalIn(BeforeRollback(d, me, v, t), v.id)
  }

  /** The requests whose fate loses an approved execution: the claim's answer, or the
      invocation and then the rollback, unless the execution ended meanwhile. */
  predicate Strands(d: Dispatch, me: nat, v: Execution, t: DispatchTurn) {
    || t.turn.net == ReplyLost
    || (t.turn.net == Delivered && !t.invoked && (t.net == Dropped || EndedMeanwhile(d, me, v, t)))
  }

  lemma UnansweredClaim(s: State, me: nat, v: Execution, now: string)
    requires Inv(s) && me in s.actors && s.actors[me] == Claiming(v) && Has(s.table, v.id, Approved)
    ensures var s' := Apply(s, Claim(me, now, ReplyLost)); Settled(s', v.id) && Has(s'.table, v.id, Dispatched)
  {
    hide StatusKey;
    ApprovedIsUnclaimed(s, v.id);
    hide Inv;
  }

  lemma LostClaim(s: State, me: nat, v: Execution, now: string)
    requires me in s.actors && s.actors[me] == Claiming(v)
    ensures Apply(s, Claim(me, now, Dropped)) == Drop(s, me)
  {
    hide StatusKey;
  }

  lemma RollbackTable(s: State, me: nat, id: string, now: string, net: Net)
    requires id in s.table && s.table[id].status != Approved
    ensures var t' := Move(s, me, id, Dispatched, Approved, now, net).table;
            id in t' && (t'[id].status == Approved <==> net != Dropped && s.table[id].status == Dispatched)
  {
    hide StatusKey;
  }

  lemma SeenIsThere(s: State, v: Execution)
    requires Inv(s) && v in s.versions
    ensures v.id in s.table
  {
  }

  /** How the row is left after one item whose row is approved when the claim arrives. */
  lemma DispatchOneLeaves(d: Dispatch, me: nat, v: Execution, t: DispatchTurn)
    requires Idle(d.world, me) && ForeignDispatch(t, me) && v in d.world.versions && v.status == Approved
    requires Has(Run(d.world, t.turn.before).table, v.id, Approved)
    ensures var d' := DispatchOne(d, me, v, t);
            && Idle(d'.world, me) && v.id in d'.world.table
            && (d'.invoked == d.invoked <==> !(t.turn.net == Delivered && t.invoked))
            && (Strands(d, me, v, t) ==> Settled(d'.world, v.id))
            && (!Strands(d, me, v, t) && d'.invoked == d.invoked ==> Has(d'.world.table, v.id, Approved))
            && (t.turn.net == ReplyLost ==> Has(d'.world.table, v.id, Dispatched) && d'.failures == d.failures)
  {
    hide Inv;
    hide Apply;
    hide Run;
    hide Foreign;
    hide Move;
    hide Settled;
    hide TerminalIn;
    DispatchOneKeepsIdle(d, me, v, t);
    SeenIsThere(DispatchOne(d, me, v, t).world, v);
    var s0 := Run(d.world, t.turn.before);
    OthersKeepIdle(d.world, t.turn.before, me);
    BeginStep(s0, me, Claiming(v));
    var s1 := Add(s0, me, Claiming(v));
    if t.turn.net == ReplyLost {
      UnansweredClaim(s1, me, v, t.turn.now);
    } else if t.turn.net == Dropped {
      LostClaim(s1, me, v, t.turn.now);
    } else if !t.invoked {
      ClaimEvent(s1, me, v, t.turn.now, Delivered);
      var s2 := Apply(s1, Claim(me, t.turn.now, Delivered));
      var w := s2.actors[me].written;
      OthersKeepMine(s2, t.between, me);
      var s3 := Run(s2, t.between);
      InvokeEvent(s3, me, w, false);
      var s4 := Apply(s3, Invoke(me, false));
      OthersKeepMine(s4, t.after, me);
      RollbackLeaves(BeforeRollback(d, me, v, t), me, w, t.later, t.net);
    }
  }

  lemma RollbackLeaves(s: State, me: nat, w: Execution, now: string, net: Net)
    requires Inv(s) && me in s.actors && s.actors[me] == RollingBack(w)
    ensures var s' := Apply(s, Rollback(me, now, net));
            if net == Dropped || TerminalIn(s, w.id) then Settled(s', w.id) else Has(s'.table, w.id, Approved)
  {
    hide Apply;
    HolderLetsGo(s, Rollback(me, now, net), w.id);
    HeldIsDispatched(s, me, w.id);
    RollbackEvent(s, me, w, now, net);
    hide Inv;
    RollbackTable(s, me, w.id, now, net);
  }

  /** Of an execution that is approved when a tick's claim arrives, exactly these
      fates leave it to nobody: this tick does not hand it over, and no worker
      ever gets it, whatever else happens then. */
  lemma StrandedExactly(d: Dispatch, me: nat, v: Execution, t: DispatchTurn)
    requires Idle(d.world, me) && ForeignDispatch(t, me) && v in d.world.versions && v.status == Approved
    requires Has(Run(d.world, t.turn.before).table, v.id, Approved)
    ensures var d' := DispatchOne(d, me, v, t);
            d'.invoked == d.invoked && NeverHandedOver(d'.world, v.id) <==> Strands(d, me, v, t)
  {
    hide Inv;
    hide DispatchOne;
    hide Run;
    hide Strands;
    hide NeverHandedOver;
    DispatchOneLeaves(d, me, v, t);
    var s' := DispatchOne(d, me, v, t).world;
    NeverHandedOverIff(s', v.id);
    assert Strands(d, me, v, t) ==> t.turn.net != Delivered || !t.invoked by { StrandsMeansNotInvoked(d, me, v, t); }
  }

  lemma StrandsMeansNotInvoked(d: Dispatch, me: nat, v: Execution, t: DispatchTurn)
    ensures Strands(d, me, v, t) ==> t.turn.net != Delivered || !t.invoked
  {
  }

  /** An unanswered claim strands the execution although nothing failed: it is
      dispatched, no invocation was tried, and no failure is counted. */
  lemma LostClaimAnswerStrands(d: Dispatch, me: nat, v: Execution, t: DispatchTurn, es: seq<Event>)
    requires Idle(d.world, me) && ForeignDispatch(t, me) && v in d.world.versions && v.status == Approved
    requires Has(Run(d.world, t.turn.before).table, v.id, Approved) && t.turn.net == ReplyLost
    ensures var d' := DispatchOne(d, me, v, t);
            && Has(d'.world.table, v.id, Dispatched) && Settled(d'.world, v.id) && HandOvers(d'.world, es, v.id) == 0
            && d'.failures == d.failures
  {
    hide Inv;
    hide DispatchOne;
    hide Run;
    hide Settled;
    DispatchOneLeaves(d, me, v, t);
    SettledIsNotHandedOver(DispatchOne(d, me, v, t).world, es, v.id);
  }

  /** If the invocation fails and the rollback does not arrive either, the row
      stays dispatched or ends meanwhile, and no worker ever gets the execution,
      whatever else happens then. */
  lemma LostRollbackStrands(d: Dispatch, me: nat, v: Execution, t: DispatchTurn, es: seq<Event>)
    requires Idle(d.world, me) && ForeignDispatch(t, me) && v in d.world.versions && v.status == Approved
    requires Has(Run(d.world, t.turn.before).table, v.id, Approved)
    requires t.turn.net == Delivered && !t.invoked && t.net == Dropped
    ensures var s := DispatchOne(d, me, v, t).world; Settled(s, v.id) && HandOvers(s, es, v.id) == 0
  {
    hide Inv;
    hide DispatchOne;
    hide Run;
    hide Settled;
    DispatchOneLeaves(d, me, v, t);
    SettledIsNotHandedOver(DispatchOne(d, me, v, t).world, es, v.id);
  }

  // ---- Which rows a pass tries, and which it hands over --------------------------------------

  /** The claim of the row arrives while it is approved, and is answered. */
  predicate Answered(s: State, v: Execution, t: DispatchTurn) {
    t.turn.net == Delivered && Has(Run(s, t.turn.before).table, v.id, Approved)
  }

  /** What follows an answered claim: the invocation and, if it fails, the rollback. */
  function AfterClaim(me: nat, t: DispatchTurn): seq<Event> {
    t.between + ([Invoke(me, t.invoked)] + (if t.invoked then [] else t.after + [Rollback(me, t.later, t.net)]))
  }

  /** The events around one row. */
  function RowEvents(s: State, me: nat, v: Execution, t: DispatchTurn): seq<Event> {
    t.turn.before + ([Read(me, Claiming(v))] + ([Claim(me, t.turn.now, t.turn.net)]
      + (if Answered(s, v, t) then AfterClaim(me, t) else [])))
  }

  /** The events around the first p rows. */
  function EventsUpTo(s: State, me: nat, listed: seq<Execution>, turns: nat -> DispatchTurn, p: nat): seq<Event>
    requires p <= |listed|
  {
    if p == 0 then []
    else
      var es := EventsUpTo(s, me, listed, turns, p - 1);
      es + RowEvents(Run(s, es), me, listed[p - 1], turns(p - 1))
  }

  predicate AnsweredAt(s: State, me: nat, listed: seq<Execution>, turns: nat -> DispatchTurn, p: nat)
    requires p < |listed|
  {
    Answered(Run(s, EventsUpTo(s, me, listed, turns, p)), listed[p], turns(p))
  }

  /** How many of the first p rows were claimed with an answer but could not be handed over. */
  function FailuresBefore(s: State, me: nat, listed: seq<Execution>, turns: nat -> DispatchTurn, p: nat): nat
    requires p <= |listed|
  {
    if p == 0 then 0
    else
      FailuresBefore(s, me, listed, turns, p - 1)
      + (if AnsweredAt(s, me, listed, turns, p - 1) && !turns(p - 1).invoked then 1 else 0)
  }

  function HandedBefore(s: State, me: nat, listed: seq<Execution>, turns: nat -> DispatchTurn, p: nat): seq<string>
    requires p <= |listed|
  {
    if p == 0 then []
    else
      HandedBefore(s, me, listed, turns, p - 1)
      + (if AnsweredAt(s, me, listed, turns, p - 1) && turns(p - 1).invoked then [listed[p - 1].id] else [])
  }

  /** The pass gets to the p-th row: it is within the batch, the context has not ended
      before, and fewer than three rows before it have failed. */
  ghost predicate Tries(s: State, me: nat, c: Config, listed: seq<Execution>, turns: nat -> DispatchTurn, p: nat)
    requires p < |listed|
  {
    && p < c.maxBatch && (forall k: nat :: k <= p ==> !turns(k).turn.cancelled)
    && FailuresBefore(s, me, listed, turns, p) < 3
  }

  lemma {:induction false} TriesEarlier(s: State, me: nat, c: Config, listed: seq<Execution>,
                                        turns: nat -> DispatchTurn, n: nat, p: nat)
    requires n <= p < |listed| && Tries(s, me, c, listed, turns, p)
    ensures Tries(s, me, c, listed, turns, n)
    decreases p - n
  {
    hide AnsweredAt;
    if n < p {
      assert Tries(s, me, c, listed, turns, p - 1);
      TriesEarlier(s, me, c, listed, turns, n, p - 1);
    }
  }

  lemma RunOne(s: State, e: Event)
    ensures Run(s, [e]) == Apply(s, e)
  {
    hide Apply;
    RunSnoc(s, [], e);
    assert [] + [e] == [e];
  }

  lemma RunThen(s: State, e: Event, es: seq<Event>)
    ensures Run(s, [e] + es) == Run(Apply(s, e), es)
  {
    hide Apply;
    RunConcat(s, [e], es);
    RunOne(s, e);
  }

  lemma OneRowIsEvents(d: Dispatch, me: nat, v: Execution, t: DispatchTurn)
    requires Idle(d.world, me) && ForeignDispatch(t, me) && v in d.world.versions && v.status == Approved
    ensures var answered := Answered(d.world, v, t);
            DispatchOne(d, me, v, t)
            == Dispatch(Run(d.world, RowEvents(d.world, me, v, t)),
                        if answered && t.invoked then d.invoked + [v.id] else d.invoked,
                        if answered && !t.invoked then d.failures + 1 else d.failures)
  {
    hide Inv;
    hide Apply;
    hide Run;
    hide Foreign;
    var s1 := Run(d.world, t.turn.before);
    OthersKeepIdle(d.world, t.turn.before, me);
    BeginStep(s1, me, Claiming(v));
    var claim := Claim(me, t.turn.now, t.turn.net);
    var rest := if Answered(d.world, v, t) then AfterClaim(me, t) else [];
    var s2 := Apply(s1, Read(me, Claiming(v)));
    var s3 := Apply(s2, claim);
    RunConcat(d.world, t.turn.before, [Read(me, Claiming(v))] + ([claim] + rest));
    RunThen(s1, Read(me, Claiming(v)), [claim] + rest);
    RunThen(s2, claim, rest);
    if Answered(d.world, v, t) {
      AfterClaimRuns(s3, me, t);
    } else {
      NothingRuns(s3);
    }
  }

  lemma AfterClaimRuns(s: State, me: nat, t: DispatchTurn)
    ensures var s' := Apply(Run(s, t.between), Invoke(me, t.invoked));
            Run(s, AfterClaim(me, t)) ==
              if t.invoked then s' else Apply(Run(s', t.after), Rollback(me, t.later, t.net))
  {
    hide Apply;
    var tail := if t.invoked then [] else t.after + [Rollback(me, t.later, t.net)];
    RunConcat(s, t.between, [Invoke(me, t.invoked)] + tail);
    RunThen(Run(s, t.between), Invoke(me, t.invoked), tail);
    var s' := Apply(Run(s, t.between), Invoke(me, t.invoked));
    if t.invoked {
      NothingRuns(s');
    } else {
      RunSnoc(s', t.after, Rollback(me, t.later, t.net));
    }
  }

  lemma {:induction false} UpToKeepsIdle(s: State, me: nat, listed: seq<Execution>, turns: nat -> DispatchTurn, p: nat)
    requires Idle(s, me) && Rows(s, listed, Approved) && (forall k :: ForeignDispatch(turns(k), me)) && p <= |listed|
    ensures var s' := Run(s, EventsUpTo(s, me, listed, turns, p)); Idle(s', me) && s.versions <= s'.versions
    ensures p < |listed| ==>
              listed[p] in Run(s, EventsUpTo(s, me, listed, turns, p)).versions && listed[p].status == Approved
    ensures p < |listed| ==>
              var es := EventsUpTo(s, me, listed, turns, p);
              Run(s, EventsUpTo(s, me, listed, turns, p + 1))
              == Run(Run(s, es), RowEvents(Run(s, es), me, listed[p], turns(p)))
    decreases p
  {
    hide Inv;
    hide Apply;
    hide Run;
    hide ForeignDispatch;
    hide RowEvents;
    hide DispatchOne;
    if p > 0 {
      UpToKeepsIdle(s, me, listed, turns, p - 1);
      var s1 := Run(s, EventsUpTo(s, me, listed, turns, p - 1));
      assert listed[p - 1] in listed;
      var d := Dispatch(s1, [], 0);
      DispatchOneKeepsIdle(d, me, listed[p - 1], turns(p - 1));
      OneRowIsEvents(d, me, listed[p - 1], turns(p - 1));
    } else {
      NothingRuns(s);
    }
    if p < |listed| {
      assert listed[p] in listed;
      var es := EventsUpTo(s, me, listed, turns, p);
      RunConcat(s, es, RowEvents(Run(s, es), me, listed[p], turns(p)));
    }
  }

  /** How a pass stands after the first p rows. */
  function DispatchedUpTo(s: State, me: nat, listed: seq<Execution>, turns: nat -> DispatchTurn, p: nat): Dispatch
    requires p <= |listed|
  {
    Dispatch(Run(s, EventsUpTo(s, me, listed, turns, p)), HandedBefore(s, me, listed, turns, p),
             FailuresBefore(s, me, listed, turns, p))
  }

  lemma OneMoreRow(s: State, me: nat, listed: seq<Execution>, turns: nat -> DispatchTurn, p: nat)
    requires Idle(s, me) && Rows(s, listed, Approved) && (forall k :: ForeignDispatch(turns(k), me)) && p < |listed|
    ensures DispatchOne(DispatchedUpTo(s, me, listed, turns, p), me, listed[p], turns(p))
            == DispatchedUpTo(s, me, listed, turns, p + 1)
  {
    hide Inv;
    hide Apply;
    hide Run;
    hide ForeignDispatch;
    hide RowEvents;
    hide DispatchOne;
    hide Answered;
    UpToKeepsIdle(s, me, listed, turns, p);
    var d := DispatchedUpTo(s, me, listed, turns, p);
    OneRowIsEvents(d, me, listed[p], turns(p));
    assert d.invoked + [] == d.invoked;
  }

  lemma TriesHere(s: State, me: nat, c: Config, listed: seq<Execution>, turns: nat -> DispatchTurn, p: nat)
    requires p < |listed| && (p > 0 ==> Tries(s, me, c, listed, turns, p - 1))
    ensures Tries(s, me, c, listed, turns, p) <==>
              p < c.maxBatch && !turns(p).turn.cancelled && DispatchedUpTo(s, me, listed, turns, p).failures < 3
  {
    hide AnsweredAt;
    hide EventsUpTo;
    hide HandedBefore;
    hide FailuresBefore;
  }

  lemma DispatchStep(d: Dispatch, me: nat, c: Config, listed: seq<Execution>, i: nat, turns: nat -> DispatchTurn)
    requires i <= |listed|
    ensures DispatchFrom(d, me, c, listed, i, turns) ==
              if i < |listed| && i < c.maxBatch && !turns(i).turn.cancelled && d.failures < 3
              then DispatchFrom(DispatchOne(d, me, listed[i], turns(i)), me, c, listed, i + 1, turns) else d
  {
    hide DispatchOne;
  }

  /** A pass is the events around the rows it gets to. */
  lemma {:induction false} PassIsEvents(s: State, me: nat, c: Config, listed: seq<Execution>,
                                        turns: nat -> DispatchTurn, i: nat) returns (n: nat)
    requires Idle(s, me) && Rows(s, listed, Approved) && (forall k :: ForeignDispatch(turns(k), me)) && i <= |listed|
    requires i > 0 ==> Tries(s, me, c, listed, turns, i - 1)
    ensures i <= n <= |listed|
    ensures DispatchFrom(DispatchedUpTo(s, me, listed, turns, i), me, c, listed, i, turns)
            == DispatchedUpTo(s, me, listed, turns, n)
    ensures n < |listed| ==> !Tries(s, me, c, listed, turns, n)
    ensures n > 0 ==> Tries(s, me, c, listed, turns, n - 1)
    decreases |listed| - i
  {
    hide Idle;
    hide Rows;
    hide ForeignDispatch;
    hide DispatchOne;
    hide DispatchFrom;
    hide DispatchedUpTo;
    hide Tries;
    n := i;
    DispatchStep(DispatchedUpTo(s, me, listed, turns, i), me, c, listed, i, turns);
    if i < |listed| {
      TriesHere(s, me, c, listed, turns, i);
      if Tries(s, me, c, listed, turns, i) {
        OneMoreRow(s, me, listed, turns, i);
        n := PassIsEvents(s, me, c, listed, turns, i + 1);
      }
    }
  }

  // ---- What the events around a row are --------------------------------------------------

  /** The pass sends the claim of this version. */
  function Claims(me: nat, v: Execution): Kind {
    (s: State, e: Event) => e.Claim? && e.a == me && me in s.actors && s.actors[me] == Claiming(v)
  }

  /** The pass hands this execution to a worker, acknowledged. */
  function PassesOn(me: nat, id: string): Kind {
    (s: State, e: Event) => HandsOver(s, e, id) && e.a == me
  }

  lemma OthersClaimNothing(s: State, es: seq<Event>, me: nat, v: Execution, id: string)
    requires Foreign(es, me)
    ensures !Happens(s, es, Claims(me, v)) && !Happens(s, es, PassesOn(me, id))
  {
    hide Run;
  }

  lemma HappensNow(s: State, e: Event, kind: Kind)
    ensures Happens(s, [e], kind) <==> kind(s, e)
  {
    hide Apply;
    assert [e][..0] == [];
    if kind(s, e) {
      assert HappensAt(s, [e], kind, 0);
    }
  }

  lemma HappensFirst(s: State, e: Event, es: seq<Event>, kind: Kind)
    ensures Happens(s, [e] + es, kind) <==> kind(s, e) || Happens(Apply(s, e), es, kind)
  {
    hide Apply;
    hide Happens;
    HappensIn(s, [e], es, kind);
    HappensNow(s, e, kind);
    RunOne(s, e);
  }

  lemma AfterClaimHappens(s: State, me: nat, w: Execution, t: DispatchTurn, x: Execution, id: string)
    requires Inv(s) && me in s.actors && s.actors[me] == Claimed(w) && Foreign(t.between, me) && Foreign(t.after, me)
    ensures !Happens(s, AfterClaim(me, t), Claims(me, x))
    ensures Happens(s, AfterClaim(me, t), PassesOn(me, id)) <==> t.invoked && w.id == id
  {
    hide Inv;
    hide Apply;
    hide Run;
    hide Happens;
    hide Foreign;
    var s1, e := Run(s, t.between), Invoke(me, t.invoked);
    var tail := if t.invoked then [] else t.after + [Rollback(me, t.later, t.net)];
    OthersKeepMine(s, t.between, me);
    OthersClaimNothing(s, t.between, me, x, id);
    forall kind: Kind ensures Happens(s, AfterClaim(me, t), kind) <==>
                                Happens(s, t.between, kind) || kind(s1, e) || Happens(Apply(s1, e), tail, kind) {
      HappensIn(s, t.between, [e] + tail, kind);
      HappensFirst(s1, e, tail, kind);
    }
    var s2 := Apply(s1, e);
    if t.invoked {
      NothingHappens(s2, Claims(me, x));
      NothingHappens(s2, PassesOn(me, id));
    } else {
      OthersClaimNothing(s2, t.after, me, x, id);
      var last := Rollback(me, t.later, t.net);
      HappensIn(s2, t.after, [last], Claims(me, x));
      HappensIn(s2, t.after, [last], PassesOn(me, id));
      HappensNow(Run(s2, t.after), last, Claims(me, x));
      HappensNow(Run(s2, t.after), last, PassesOn(me, id));
    }
  }

  /** Around one row the pass claims just that row, and hands it over exactly if the claim
      was answered and the invocation succeeds. */
  lemma RowHappens(s: State, me: nat, v: Execution, t: DispatchTurn, x: Execution, id: string)
    requires Idle(s, me) && ForeignDispatch(t, me) && v in s.versions && v.status == Approved
    ensures Happens(s, RowEvents(s, me, v, t), Claims(me, x)) <==> x == v
    ensures Happens(s, RowEvents(s, me, v, t), PassesOn(me, id)) <==> Answered(s, v, t) && t.invoked && id == v.id
  {
    hide Inv;
    hide Apply;
    hide Run;
    hide Happens;
    hide Foreign;
    hide AfterClaim;
    hide Move;
    var s1 := Run(s, t.turn.before);
    OthersKeepIdle(s, t.turn.before, me);
    OthersClaimNothing(s, t.turn.before, me, x, id);
    var read, claim := Read(me, Claiming(v)), Claim(me, t.turn.now, t.turn.net);
    var rest := if Answered(s, v, t) then AfterClaim(me, t) else [];
    BeginStep(s1, me, Claiming(v));
    var s2 := Apply(s1, read);
    var s3 := Apply(s2, claim);
    forall kind: Kind ensures Happens(s, RowEvents(s, me, v, t), kind) <==>
                                || Happens(s, t.turn.before, kind) || kind(s1, read) || kind(s2, claim)
                                || Happens(s3, rest, kind) {
      HappensIn(s, t.turn.before, [read] + ([claim] + rest), kind);
      HappensFirst(s1, read, [claim] + rest, kind);
      HappensFirst(s2, claim, rest, kind);
    }
    ClaimEvent(s2, me, v, t.turn.now, t.turn.net);
    if Answered(s, v, t) {
      AfterClaimHappens(s3, me, s3.actors[me].written, t, x, id);
    } else {
      NothingHappens(s3, Claims(me, x));
      NothingHappens(s3, PassesOn(me, id));
    }
  }

  lemma {:induction false} UpToHappens(s: State, me: nat, listed: seq<Execution>, turns: nat -> DispatchTurn, n: nat,
                                       p: nat)
    requires Idle(s, me) && Rows(s, listed, Approved) && (forall k :: ForeignDispatch(turns(k), me))
    requires n <= |listed| && p < |listed|
    ensures var es := EventsUpTo(s, me, listed, turns, n);
            && (Happens(s, es, Claims(me, listed[p])) <==> p < n)
            && (Happens(s, es, PassesOn(me, listed[p].id)) <==>
                  p < n && AnsweredAt(s, me, listed, turns, p) && turns(p).invoked)
    ensures listed[p].id in HandedBefore(s, me, listed, turns, n) <==>
              p < n && AnsweredAt(s, me, listed, turns, p) && turns(p).invoked
    decreases n
  {
    hide Inv;
    hide Run;
    hide Happens;
    hide ForeignDispatch;
    hide RowEvents;
    hide Answered;
    if n == 0 {
      NothingHappens(s, Claims(me, listed[p]));
      NothingHappens(s, PassesOn(me, listed[p].id));
    } else {
      UpToHappens(s, me, listed, turns, n - 1, p);
      UpToKeepsIdle(s, me, listed, turns, n - 1);
      var es := EventsUpTo(s, me, listed, turns, n - 1);
      var v, t := listed[n - 1], turns(n - 1);
      RowHappens(Run(s, es), me, v, t, listed[p], listed[p].id);
      HappensIn(s, es, RowEvents(Run(s, es), me, v, t), Claims(me, listed[p]));
      HappensIn(s, es, RowEvents(Run(s, es), me, v, t), PassesOn(me, listed[p].id));
      assert p != n - 1 ==> listed[p].id != v.id;
    }
  }

  /** Exactly which rows a dispatch pass tries and hands over, whatever others do. It sends
      the claim of the p-th listed row if and only if that row is within the batch, no turn
      up to it is cancelled and fewer than three rows before it have failed; it hands the
      execution to a worker, and counts it as handed over, if and only if in addition the
      row is approved when the claim arrives, the claim is answered and the invocation
      succeeds; and the failures it counts are those of the rows it tried. */
  lemma DispatchesExactly(s: State, me: nat, c: Config, listed: seq<Execution>, turns: nat -> DispatchTurn, p: nat)
    returns (n: nat)
    requires Idle(s, me) && Rows(s, listed, Approved) && (forall k :: ForeignDispatch(turns(k), me)) && p < |listed|
    ensures n <= |listed| && forall q: nat :: q < |listed| ==> (q < n <==> Tries(s, me, c, listed, turns, q))
    ensures var d, es := DispatchFrom(Dispatch(s, [], 0), me, c, listed, 0, turns), EventsUpTo(s, me, listed, turns, n);
            var handed := Tries(s, me, c, listed, turns, p) && AnsweredAt(s, me, listed, turns, p) && turns(p).invoked;
            && d.world == Run(s, es) && d.failures == FailuresBefore(s, me, listed, turns, n)
            && (Happens(s, es, Claims(me, listed[p])) <==> Tries(s, me, c, listed, turns, p))
            && (Happens(s, es, PassesOn(me, listed[p].id)) <==> handed)
            && (listed[p].id in d.invoked <==> handed)
  {
    hide Inv;
    hide Run;
    hide Happens;
    hide ForeignDispatch;
    hide Tries;
    hide AnsweredAt;
    NothingRuns(s);
    n := PassIsEvents(s, me, c, listed, turns, 0);
    forall q: nat | q < |listed| ensures q < n <==> Tries(s, me, c, listed, turns, q) {
      if q < n {
        TriesEarlier(s, me, c, listed, turns, q, n - 1);
      } else if Tries(s, me, c, listed, turns, q) {
        TriesEarlier(s, me, c, listed, turns, n, q);
      }
    }
    UpToHappens(s, me, listed, turns, n, p);
  }

  // ---- The failure budget ------------------------------------------------------------

  /** A pass hands over at most a batch, gives up after three failures, and only
      hands over what it listed. */
  lemma {:induction false} Budget(d: Dispatch, me: nat, c: Config, listed: seq<Execution>, i: nat,
                                  turns: nat -> DispatchTurn)
    requires d.failures <= MAX_DISPATCH_FAILURES
    ensures var d' := DispatchFrom(d, me, c, listed, i, turns);
            && d.failures <= d'.failures <= MAX_DISPATCH_FAILURES
            && d.invoked <= d'.invoked
            && (i <= |listed| && i <= c.maxBatch ==>
                  && (|d'.invoked| - |d.invoked|) + (d'.failures - d.failures) <= c.maxBatch - i
                  && (|d'.invoked| - |d.invoked|) + (d'.failures - d.failures) <= |listed| - i)
            && (forall k :: |d.invoked| <= k < |d'.invoked| ==> exists v :: v in listed && v.id == d'.invoked[k])
    decreases |listed| - i
  {
    hide Apply;
    hide Run;
    if i < |listed| && i < c.maxBatch && !turns(i).turn.cancelled && d.failures < MAX_DISPATCH_FAILURES {
      var next := DispatchOne(d, me, listed[i], turns(i));
      Budget(next, me, c, listed, i + 1, turns);
      assert listed[i] in listed;
    }
  }

  // ---- A worker function that is broken --------------------------------------------------

  /** Nothing else happens, every request to the store arrives, no invocation
      succeeds. */
  predicate Broken(t: DispatchTurn) {
    && t.turn.before == [] && t.between == [] && t.after == [] && !t.turn.cancelled
    && t.turn.net == Delivered && t.net == Delivered && !t.invoked
  }

  /** An approved row that was claimed and rolled back: only its times differ. */
  predicate PutBack(r: Execution, r': Execution) {
    && r.status == Approved
    && r' == r.(updatedAt := r'.updatedAt, dispatchedAt := r'.dispatchedAt,
          targetStatusKey := StatusKey(Approved, r'.updatedAt))
  }

  /** The failed items so far put back at most so many rows and changed no other. */
  ghost predicate OnlyPutBack(t: Table, t': Table, changed: set<string>) {
    && t'.Keys == t.Keys && changed <= t.Keys
    && (forall id :: id in t && id !in changed ==> t'[id] == t[id])
    && (forall id :: id in changed ==> PutBack(t[id], t'[id]))
  }

  lemma MoveTable(s: State, me: nat, id: string, from: Status, to: Status, now: string)
    ensures Move(s, me, id, from, to, now, Delivered).table == AfterTransition(s.table, id, from, to, now)
  {
  }

  lemma NothingRun(s: State)
    ensures Run(s, []) == s
  {
  }

  lemma BrokenOne(d: Dispatch, me: nat, v: Execution, t: DispatchTurn)
    requires Idle(d.world, me) && Broken(t) && v in d.world.versions && v.status == Approved
    ensures var d' := DispatchOne(d, me, v, t);
            && Idle(d'.world, me) && d.world.versions <= d'.world.versions && d'.invoked == d.invoked
            && if Has(d.world.table, v.id, Approved)
               then d'.failures == d.failures + 1
                    && d'.world.table == AfterTransition(AfterTransition(d.world.table, v.id, Approved, Dispatched,
                          t.turn.now),
                                                         v.id, Dispatched, Approved, t.later)
               else d'.failures == d.failures && d'.world.table == d.world.table
  {
    hide Inv;
    hide Apply;
    hide Run;
    hide AfterTransition;
    var s := d.world;
    assert Foreign([], me);
    DispatchOneKeepsIdle(d, me, v, t);
    NothingRun(s);
    BeginStep(s, me, Claiming(v));
    var s1 := Add(s, me, Claiming(v));
    ClaimEvent(s1, me, v, t.turn.now, Delivered);
    MoveTable(s1, me, v.id, Approved, Dispatched, t.turn.now);
    if Has(s.table, v.id, Approved) {
      hide Move;
      var s2 := Apply(s1, Claim(me, t.turn.now, Delivered));
      var w := s2.actors[me].written;
      NothingRun(s2);
      InvokeEvent(s2, me, w, false);
      var s4 := Apply(s2, Invoke(me, false));
      NothingRun(s4);
      RollbackEvent(s4, me, w, t.later, Delivered);
      MoveTable(s4, me, w.id, Dispatched, Approved, t.later);
    } else {
      TransitionCases(s.table, v.id, Approved, Dispatched, t.turn.now);
    }
  }

  lemma OneMorePutBack(t: Table, t1: Table, changed: set<string>, id: string, claimed: string, rolledBack: string)
    requires OnlyPutBack(t, t1, changed) && Has(t1, id, Approved)
    ensures var t2 := AfterTransition(AfterTransition(t1, id, Approved, Dispatched, claimed), id, Dispatched, Approved,
              rolledBack);
            OnlyPutBack(t, t2, changed + {id})
  {
    hide AfterTransition;
    ClaimThenRollback(t1, id, claimed, rolledBack);
    hide StatusKey;
  }

  lemma {:induction false} BrokenFrom(d: Dispatch, me: nat, c: Config, listed: seq<Execution>, i: nat,
                                      turns: nat -> DispatchTurn, start: Table, changed: set<string>)
    returns (touched: set<string>)
    requires Idle(d.world, me) && forall v :: v in listed ==> v in d.world.versions && v.status == Approved
    requires forall k :: Broken(turns(k))
    requires OnlyPutBack(start, d.world.table, changed) && |changed| <= d.failures <= MAX_DISPATCH_FAILURES
    ensures var d' := DispatchFrom(d, me, c, listed, i, turns);
            && d'.invoked == d.invoked && OnlyPutBack(start, d'.world.table, touched)
            && |touched| <= d'.failures <= MAX_DISPATCH_FAILURES
    decreases |listed| - i
  {
    hide Apply;
    hide Run;
    hide Inv;
    hide DispatchOne;
    hide OnlyPutBack;
    hide AfterTransition;
    touched := changed;
    if i < |listed| && i < c.maxBatch && !turns(i).turn.cancelled && d.failures < MAX_DISPATCH_FAILURES {
      var v, t := listed[i], turns(i);
      assert v in listed;
      BrokenOne(d, me, v, t);
      var next := DispatchOne(d, me, v, t);
      if Has(d.world.table, v.id, Approved) {
        OneMorePutBack(start, d.world.table, changed, v.id, t.turn.now, t.later);
        touched := BrokenFrom(next, me, c, listed, i + 1, turns, start, changed + {v.id});
      } else {
        touched := BrokenFrom(next, me, c, listed, i + 1, turns, start, changed);
      }
    }
  }

  /** A worker function that fails every time costs a pass at most three
      executions their place in the queue and loses none: nothing is handed over,
      at most three rows are touched, and each of them is approved again. */
  lemma BrokenFunctionLosesNothing(s: State, me: nat, c: Config, index: Index, turns: nat -> DispatchTurn)
    returns (touched: set<string>)
    requires Idle(s, me) && Answers(index, c.target, Approved) && forall k :: Broken(turns(k))
    ensures var d := DispatchFrom(Dispatch(s, [], 0), me, c, index(s.table), 0, turns);
            && d.invoked == [] && OnlyPutBack(s.table, d.world.table, touched)
            && |touched| <= d.failures <= MAX_DISPATCH_FAILURES
  {
    hide Apply;
    ListedFacts(s, index(s.table), c.target, Approved);
    hide Inv;
    hide Answers;
    hide Lists;
    touched := BrokenFrom(Dispatch(s, [], 0), me, c, index(s.table), 0, turns, s.table, {});
  }
}
