/** How fast the timeout pass and the garbage collector empty their queues, and
    what holds them up. */
module Drain {
  import opened Lex
  import opened Executions
  import opened ExecutionProtocol
  import opened ExecutionTheorems
  import opened Reconciling
  import opened Passes
  import opened Wrappers
  import opened Sets
  import opened Remote

  // ---- The original rows and the newer ones ----------------------------------------

  /** The rows of a set that are in the table just as they were. */
  function Remaining(t: Table, orig: set<Execution>): set<Execution> {
    set v | v in orig && v.id in t && t[v.id] == v
  }

  /** Filed behind every row of the set. */
  ghost predicate Newer(key: string, orig: set<Execution>) {
    forall v :: v in orig ==> Lt(v.targetStatusKey, key)
  }

  /** The timestamp under which an event files a row as dispatched. */
  function Stamp(s: State, e: Event): Option<string> {
    match e
    case Claim(_, now, _) => Some(now)
    case Create(a, _) => if a in s.actors && s.actors[a].Admitted? then Some(s.actors[a].row.request.createdAt)
      else None
    case _ => None
  }

  /** Whatever others dispatch meanwhile is stamped later than the set. */
  ghost predicate NewerRun(s: State, es: seq<Event>, orig: set<Execution>) {
    forall k :: 0 <= k < |es| ==> NewerEvent(Run(s, es[..k]), es[k], orig)
  }

  ghost predicate NewerEvent(s: State, e: Event, orig: set<Execution>) {
    Stamp(s, e).Some? ==> Newer(StatusKey(Dispatched, Stamp(s, e).value), orig)
  }

  /** Every dispatched row of the target is one of the set or filed behind it. */
  ghost predicate Front(t: Table, target: string, orig: set<Execution>) {
    forall id :: id in t && t[id].request.target == target && t[id].status == Dispatched ==>
      t[id] in orig || Newer(t[id].targetStatusKey, orig)
  }

  ghost predicate AllDispatched(orig: set<Execution>) {
    forall v :: v in orig ==> v.status == Dispatched
  }

  predicate Records(e: Event) {
    e.Finish? || e.DispatchFailed? || e.WorkerWrite? || e.Poll? || e.TimeOut? || e.Rollback?
  }

  /** Results, timeouts and rollbacks dispatch nothing. */
  lemma RecordsDispatchNothing(s: State, e: Event, id: string)
    requires Records(e) && Has(Apply(s, e).table, id, Dispatched)
    ensures id in s.table && Apply(s, e).table[id] == s.table[id]
  {
    hide StatusKey;
  }

  lemma InsertsAreStamped(s: State, e: Event, id: string)
    requires (e.Approve? || e.Create? || e.Claim?) && Has(Apply(s, e).table, id, Dispatched)
    ensures || (id in s.table && Apply(s, e).table[id] == s.table[id])
            || (Stamp(s, e).Some? && Apply(s, e).table[id].targetStatusKey == StatusKey(Dispatched, Stamp(s, e).value))
  {
    hide StatusKey;
  }

  /** A row that an event leaves dispatched was so before, or is filed under the
      event's own timestamp. */
  lemma DispatchedIsOldOrStamped(s: State, e: Event, id: string)
    requires Inv(s) && Has(Apply(s, e).table, id, Dispatched)
    ensures || (id in s.table && Apply(s, e).table[id] == s.table[id])
            || (Stamp(s, e).Some? && Apply(s, e).table[id].targetStatusKey == StatusKey(Dispatched, Stamp(s, e).value))
  {
    if e.Approve? || e.Create? || e.Claim? {
      InsertsAreStamped(s, e, id);
    } else if Records(e) {
      RecordsDispatchNothing(s, e, id);
    } else if e.Collect? && e.a in s.actors && s.actors[e.a].Collecting? {
      CollectedIsTerminal(s, e.a);
    }
    hide Inv;
    hide StatusKey;
    hide Active;
    hide CanRead;
  }

  lemma StepKeepsFront(s: State, e: Event, target: string, orig: set<Execution>)
    requires Inv(s) && AllDispatched(orig) && NewerEvent(s, e, orig) && Front(s.table, target, orig)
    ensures Front(Apply(s, e).table, target, orig)
    ensures Remaining(Apply(s, e).table, orig) <= Remaining(s.table, orig)
  {
    hide Apply;
    hide Inv;
    hide StatusKey;
    hide Stamp;
    var t, t' := s.table, Apply(s, e).table;
    forall id | Has(t', id, Dispatched)
      ensures (id in t && t'[id] == t[id]) || Newer(t'[id].targetStatusKey, orig)
    {
      DispatchedIsOldOrStamped(s, e, id);
    }
    forall v | v in Remaining(t', orig) ensures v in Remaining(t, orig) {
      assert Has(t', v.id, Dispatched);
      Irreflexive(v.targetStatusKey);
    }
  }

  lemma {:induction false} RunKeepsFront(s: State, es: seq<Event>, target: string, orig: set<Execution>)
    requires Inv(s) && AllDispatched(orig) && NewerRun(s, es, orig) && Front(s.table, target, orig)
    ensures Front(Run(s, es).table, target, orig)
    ensures Remaining(Run(s, es).table, orig) <= Remaining(s.table, orig)
    decreases |es|
  {
    hide Apply;
    hide Inv;
    hide Front;
    hide Remaining;
    hide NewerEvent;
    if es != [] {
      var before := es[..|es| - 1];
      assert forall k :: 0 <= k < |before| ==> before[..k] == es[..k] && before[k] == es[k];
      RunKeepsFront(s, before, target, orig);
      RunKeeps(s, before);
      StepKeepsFront(Run(s, before), es[|es| - 1], target, orig);
    }
  }

  // ---- One timeout pass ------------------------------------------------------------

  /** The pass is not cut short, its requests arrive, the rows of the set it meets
      are overdue, and what others dispatch meanwhile is newer. */
  ghost predicate GoodPass(s: State, me: nat, c: Config, listed: seq<Execution>, i: nat, turns: nat -> Turn,
                           parse: Clock,
                           orig: set<Execution>)
    decreases |listed| - i
  {
    i < |listed| && i < c.maxBatch ==>
      && !turns(i).cancelled && turns(i).net != Dropped
      && Foreign(turns(i).before, me) && NewerRun(s, turns(i).before, orig)
      && (listed[i] in orig ==> Overdue(c, listed[i], turns(i).clock, parse))
      && GoodPass(TimeoutOne(s, me, c, listed[i], turns(i), parse), me, c, listed, i + 1, turns, parse, orig)
  }

  lemma MoveRemoves(s: State, me: nat, v: Execution, now: string, net: Net, orig: set<Execution>)
    requires net != Dropped && v.status == Dispatched
    ensures v !in Remaining(Move(s, me, v.id, Dispatched, TimedOut, now, net).table, orig)
  {
    hide StatusKey;
  }

  lemma TimeoutOneRemoves(s: State, me: nat, c: Config, v: Execution, turn: Turn, parse: Clock, target: string,
                          orig: set<Execution>)
    requires Idle(s, me) && Foreign(turn.before, me) && v in s.versions && v.status == Dispatched && turn.net != Dropped
    requires AllDispatched(orig) && NewerRun(s, turn.before, orig) && Front(s.table, target, orig)
    requires v in orig ==> Overdue(c, v, turn.clock, parse)
    ensures var s' := TimeoutOne(s, me, c, v, turn, parse);
            && Front(s'.table, target, orig) && v !in Remaining(s'.table, orig)
            && Remaining(s'.table, orig) <= Remaining(s.table, orig)
  {
    hide Apply;
    hide Run;
    hide Inv;
    hide Front;
    hide Overdue;
    hide Move;
    hide NewerRun;
    TimeoutOneKeepsIdle(s, me, c, v, turn, parse);
    OthersKeepIdle(s, turn.before, me);
    RunKeepsFront(s, turn.before, target, orig);
    var s1 := Run(s, turn.before);
    if Overdue(c, v, turn.clock, parse) {
      BeginStep(s1, me, TimingOut(v));
      StepKeepsFront(s1, Read(me, TimingOut(v)), target, orig);
      var s2 := Add(s1, me, TimingOut(v));
      StepKeepsFront(s2, TimeOut(me, turn.now, turn.net), target, orig);
      MoveRemoves(s2, me, v, turn.now, turn.net, orig);
    }
  }

  /** The rows of a listing from i to n. */
  ghost function Slice<T>(listed: seq<T>, i: nat, n: int): set<T> {
    set k | i <= k < n && k < |listed| :: listed[k]
  }

  lemma {:induction false} PassRemoves(s: State, me: nat, c: Config, listed: seq<Execution>, i: nat,
                                       turns: nat -> Turn, parse: Clock,
                                       target: string, orig: set<Execution>)
    requires Idle(s, me) && AllDispatched(orig) && Front(s.table, target, orig)
    requires forall v :: v in listed ==> v in s.versions && v.status == Dispatched
    requires GoodPass(s, me, c, listed, i, turns, parse, orig)
    ensures var s' := TimeoutFrom(s, me, c, listed, i, turns, parse);
            && Idle(s', me) && Front(s'.table, target, orig)
            && Remaining(s'.table, orig) <= Remaining(s.table, orig) - Slice(listed, i, c.maxBatch)
    decreases |listed| - i
  {
    hide Inv;
    hide Front;
    hide Overdue;
    hide TimeoutOne;
    hide Remaining;
    if i < |listed| && i < c.maxBatch {
      var v, turn := listed[i], turns(i);
      var next := TimeoutOne(s, me, c, v, turn, parse);
      assert v in listed;
      TimeoutOneKeepsIdle(s, me, c, v, turn, parse);
      TimeoutOneRemoves(s, me, c, v, turn, parse, target, orig);
      PassRemoves(next, me, c, listed, i + 1, turns, parse, target, orig);
      assert Slice(listed, i, c.maxBatch) == {v} + Slice(listed, i + 1, c.maxBatch);
    }
  }

  // ---- Oldest first ------------------------------------------------------------------

  /** In an oldest-first listing the remaining rows come before all others. */
  lemma RemainingComeFirst(t: Table, target: string, orig: set<Execution>, listed: seq<Execution>, i: nat)
    requires Lists(listed, t, target, Dispatched) && Front(t, target, orig)
    requires forall v :: v in orig ==> v.request.target == target && v.status == Dispatched
    requires i < |Remaining(t, orig)|
    ensures i < |listed| && listed[i] in orig
  {
    var rest := Remaining(t, orig);
    if i >= |listed| || listed[i] !in orig {
      var n := if i < |listed| then i else |listed|;
      forall v | v in rest ensures v in Slice(listed, 0, n) {
        assert v in listed;
        var k :| 0 <= k < |listed| && listed[k] == v;
        if k >= n {
          assert listed[i] in listed;
          if k > i {
            assert Le(listed[i].targetStatusKey, v.targetStatusKey);
            LeOrLt(listed[i].targetStatusKey, v.targetStatusKey);
          }
        }
      }
      SliceAtMost(listed, n);
      SubsetSize(rest, Slice(listed, 0, n));
    }
  }

  lemma {:induction false} SliceAtMost<T>(listed: seq<T>, n: nat)
    requires n <= |listed|
    ensures |Slice(listed, 0, n)| <= n
    decreases n
  {
    if n == 0 {
      assert Slice(listed, 0, 0) == {};
    } else {
      SliceAtMost(listed, n - 1);
      assert Slice(listed, 0, n) == Slice(listed, 0, n - 1) + {listed[n - 1]};
    }
  }

  lemma {:induction false} SliceExactly<T>(listed: seq<T>, n: nat)
    requires n <= |listed| && forall i, j :: 0 <= i < j < |listed| ==> listed[i] != listed[j]
    ensures |Slice(listed, 0, n)| == n
    decreases n
  {
    if n == 0 {
      assert Slice(listed, 0, 0) == {};
    } else {
      SliceExactly(listed, n - 1);
      assert Slice(listed, 0, n) == Slice(listed, 0, n - 1) + {listed[n - 1]};
      assert listed[n - 1] !in Slice(listed, 0, n - 1);
    }
  }

  function Left(n: nat, batch: int): nat {
    if n > batch then (if batch > 0 then n - batch else n) else 0
  }

  /** A pass over an oldest-first listing takes away a whole batch of the set, or
      all that is left. */
  lemma PassDrains(s: State, me: nat, c: Config, listed: seq<Execution>, turns: nat -> Turn, parse: Clock,
                   orig: set<Execution>)
    requires Idle(s, me) && Front(s.table, c.target, orig) && c.maxBatch > 0
    requires forall v :: v in orig ==> v.request.target == c.target && v.status == Dispatched
    requires Lists(listed, s.table, c.target, Dispatched) && GoodPass(s, me, c, listed, 0, turns, parse, orig)
    ensures var s' := TimeoutFrom(s, me, c, listed, 0, turns, parse);
            && Idle(s', me) && Front(s'.table, c.target, orig)
            && |Remaining(s'.table, orig)| <= Left(|Remaining(s.table, orig)|, c.maxBatch)
  {
    hide Front;
    hide GoodPass;
    var rest := Remaining(s.table, orig);
    var n := if |rest| < c.maxBatch then |rest| else c.maxBatch;
    forall v | v in listed ensures v in s.versions && v.status == Dispatched {
      assert v.id in s.table && s.table[v.id] == v;
    }
    hide Inv;
    PassRemoves(s, me, c, listed, 0, turns, parse, c.target, orig);
    forall k | 0 <= k < n ensures k < |listed| && listed[k] in rest {
      RemainingComeFirst(s.table, c.target, orig, listed, k);
      assert listed[k] in listed;
    }
    if n > 0 {
      RemainingComeFirst(s.table, c.target, orig, listed, n - 1);
    }
    assert forall i, j :: 0 <= i < j < |listed| ==> listed[i].id != listed[j].id;
    hide Lists;
    SliceExactly(listed, n);
    hide Remaining;
    hide TimeoutFrom;
    assert Slice(listed, 0, n) <= Slice(listed, 0, c.maxBatch);
    RemovedSize(Remaining(TimeoutFrom(s, me, c, listed, 0, turns, parse).table, orig), rest, Slice(listed, 0, n));
  }

  // ---- Tick after tick -----------------------------------------------------------------

  /** What others do before a tick lists the rows, and during it. */
  datatype Plan = Plan(arrive: seq<Event>, turns: nat -> Turn)

  function Tick(s: State, me: nat, c: Config, index: Index, plan: Plan, parse: Clock): State {
    var s' := Run(s, plan.arrive);
    TimeoutFrom(s', me, c, index(s'.table), 0, plan.turns, parse)
  }

  function Ticks(s: State, me: nat, c: Config, index: Index, plans: seq<Plan>, parse: Clock): State {
    if plans == [] then s else Tick(Ticks(s, me, c, index, plans[..|plans| - 1], parse), me, c, index,
      plans[|plans| - 1], parse)
  }

  ghost predicate GoodTick(s: State, me: nat, c: Config, index: Index, plan: Plan, parse: Clock, orig: set<Execution>) {
    var s' := Run(s, plan.arrive);
    && Foreign(plan.arrive, me) && NewerRun(s, plan.arrive, orig)
    && GoodPass(s', me, c, index(s'.table), 0, plan.turns, parse, orig)
  }

  ghost predicate GoodTicks(s: State, me: nat, c: Config, index: Index, plans: seq<Plan>, parse: Clock,
                            orig: set<Execution>) {
    forall k :: 0 <= k < |plans| ==>
      GoodTick(Ticks(s, me, c, index, plans[..k], parse), me, c, index, plans[k], parse, orig)
  }

  lemma TickDrains(s: State, me: nat, c: Config, index: Index, plan: Plan, parse: Clock, orig: set<Execution>)
    requires Idle(s, me) && Front(s.table, c.target, orig) && c.maxBatch > 0 && Answers(index, c.target, Dispatched)
    requires forall v :: v in orig ==> v.request.target == c.target && v.status == Dispatched
    requires GoodTick(s, me, c, index, plan, parse, orig)
    ensures var s' := Tick(s, me, c, index, plan, parse);
            && Idle(s', me) && Front(s'.table, c.target, orig)
            && |Remaining(s'.table, orig)| <= Left(|Remaining(s.table, orig)|, c.maxBatch)
  {
    hide Inv;
    hide Front;
    hide Remaining;
    hide GoodPass;
    hide TimeoutFrom;
    hide Run;
    hide NewerRun;
    hide IsScan;
    var s1 := Run(s, plan.arrive);
    OthersKeepIdle(s, plan.arrive, me);
    RunKeepsFront(s, plan.arrive, c.target, orig);
    SubsetSize(Remaining(s1.table, orig), Remaining(s.table, orig));
    ListedFacts(s1, index(s1.table), c.target, Dispatched);
    PassDrains(s1, me, c, index(s1.table), plan.turns, parse, orig);
  }

  lemma OneBatchMore(first: nat, before: nat, after: nat, n: nat, batch: nat)
    requires batch > 0 && (before == 0 || before <= first - n * batch) && after <= Left(before, batch)
    ensures after == 0 || after <= first - (n + 1) * batch
  {
    assert (n + 1) * batch == n * batch + batch;
  }

  lemma LastTickIsGood(s: State, me: nat, c: Config, index: Index, plans: seq<Plan>, parse: Clock, orig: set<Execution>)
    requires plans != [] && GoodTicks(s, me, c, index, plans, parse, orig)
    ensures var before := plans[..|plans| - 1];
            && GoodTicks(s, me, c, index, before, parse, orig)
            && GoodTick(Ticks(s, me, c, index, before, parse), me, c, index, plans[|plans| - 1], parse, orig)
  {
    hide GoodTick;
    hide Ticks;
    var before := plans[..|plans| - 1];
    assert forall k :: 0 <= k < |before| ==> before[..k] == plans[..k] && before[k] == plans[k];
  }

  lemma {:induction false} TicksDrain(s: State, me: nat, c: Config, index: Index, plans: seq<Plan>, parse: Clock,
                                      orig: set<Execution>)
    requires Idle(s, me) && Front(s.table, c.target, orig) && c.maxBatch > 0 && Answers(index, c.target, Dispatched)
    requires forall v :: v in orig ==> v.request.target == c.target && v.status == Dispatched
    requires GoodTicks(s, me, c, index, plans, parse, orig)
    ensures var s' := Ticks(s, me, c, index, plans, parse);
            && Idle(s', me) && Front(s'.table, c.target, orig)
            && (|Remaining(s'.table, orig)| == 0
                  || |Remaining(s'.table, orig)| <= |Remaining(s.table, orig)| - |plans| * c.maxBatch)
    decreases |plans|
  {
    hide Inv;
    hide Front;
    hide Remaining;
    hide GoodTick;
    hide Answers;
    hide Tick;
    if plans != [] {
      var before, plan := plans[..|plans| - 1], plans[|plans| - 1];
      LastTickIsGood(s, me, c, index, plans, parse, orig);
      hide GoodTicks;
      TicksDrain(s, me, c, index, before, parse, orig);
      TickDrains(Ticks(s, me, c, index, before, parse), me, c, index, plan, parse, orig);
      hide Left;
      OneBatchMore(|Remaining(s.table, orig)|, |Remaining(Ticks(s, me, c, index, before, parse).table, orig)|,
                   |Remaining(Ticks(s, me, c, index, plans, parse).table, orig)|, |before|, c.maxBatch);
    }
  }

  /** If the n executions dispatched for a target are overdue whenever a pass meets
      them and requests arrive, then after n / maxBatch ticks, rounded up, none of
      them is dispatched any more: whatever is dispatched then was dispatched
      later, however much of that keeps arriving. */
  lemma TimeoutsDrain(s: State, me: nat, c: Config, index: Index, plans: seq<Plan>, parse: Clock, orig: set<Execution>)
    requires Idle(s, me) && c.maxBatch > 0 && Answers(index, c.target, Dispatched)
    requires forall v :: v in orig
               <==> v.id in s.table && s.table[v.id] == v && v.request.target == c.target && v.status == Dispatched
    requires GoodTicks(s, me, c, index, plans, parse, orig) && |plans| * c.maxBatch >= |orig|
    ensures var t := Ticks(s, me, c, index, plans, parse).table;
            && (forall v :: v in orig ==> !(v.id in t && t[v.id] == v))
            && (forall id :: id in t && t[id].request.target == c.target && t[id].status == Dispatched ==>
                  Newer(t[id].targetStatusKey, orig))
  {
    forall id | id in s.table && s.table[id].request.target == c.target && s.table[id].status == Dispatched
      ensures s.table[id] in orig {
      RowFacts(s, id);
    }
    assert Front(s.table, c.target, orig);
    hide Inv;
    assert Remaining(s.table, orig) == orig;
    hide GoodTicks;
    TicksDrain(s, me, c, index, plans, parse, orig);
    var t := Ticks(s, me, c, index, plans, parse).table;
    assert Remaining(t, orig) == {};
    forall v | v in orig ensures !(v.id in t && t[v.id] == v) {
      assert v !in Remaining(t, orig);
    }
    forall id | id in t && t[id].request.target == c.target && t[id].status == Dispatched ensures t[id] !in orig {
      if t[id] in orig {
        RowAt(Ticks(s, me, c, index, plans, parse), id, me);
      }
    }
  }

  lemma RowAt(s: State, id: string, me: nat)
    requires Idle(s, me) && id in s.table
    ensures s.table[id].id == id
  {
    RowFacts(s, id);
  }

  // ---- What holds the timeout pass up ----------------------------------------------------

  lemma {:induction false} OnlyOthersAct(me: nat, items: seq<Item>)
    requires forall p :: 0 <= p < |items| ==> Foreign(items[p].before, me)
    ensures Foreign(Events(me, items), me) <==> forall p :: 0 <= p < |items| ==> items[p].own.None?
    decreases |items|
  {
    if items != [] {
      var front, last := items[..|items| - 1], items[|items| - 1];
      OnlyOthersAct(me, front);
      ForeignBoth(Events(me, front), last.before + OwnEvents(me, last), me);
      ForeignBoth(last.before, OwnEvents(me, last), me);
      assert items == front + [last];
      assert last.own.Some? ==> OwnEvents(me, last)[0] == Read(me, last.own.value.x);
    }
  }

  lemma ForeignBoth(es: seq<Event>, fs: seq<Event>, me: nat)
    ensures Foreign(es + fs, me) <==> Foreign(es, me) && Foreign(fs, me)
  {
    if Foreign(es + fs, me) {
      forall i | 0 <= i < |es| ensures es[i].Approve? || es[i].a != me {
        assert (es + fs)[i] == es[i];
      }
      forall i | 0 <= i < |fs| ensures fs[i].Approve? || fs[i].a != me {
        assert (es + fs)[|es| + i] == fs[i];
      }
    }
  }

  /** A timeout pass sends no request at all exactly if none of the rows it reaches is
      overdue: such rows at the head of the listing use up the batch, however many
      overdue rows are behind them. */
  lemma HeadOfQueueBlocks(s: State, me: nat, c: Config, listed: seq<Execution>, turns: nat -> Turn, parse: Clock)
    requires Idle(s, me) && Rows(s, listed, Dispatched) && forall k :: Foreign(turns(k).before, me)
    ensures var es := Events(me, TimeoutItems(me, c, listed, turns, parse));
            && TimeoutFrom(s, me, c, listed, 0, turns, parse) == Run(s, es)
            && (Foreign(es, me) <==>
                  forall p: nat :: p < |listed| && Reaches(c, Cancelled(turns), p) ==>
                    !Overdue(c, listed[p], turns(p).clock, parse))
  {
    hide Run;
    hide Inv;
    hide Overdue;
    hide Reaches;
    hide Foreign;
    var items := TimeoutItems(me, c, listed, turns, parse);
    TimeoutIsItems(s, me, c, listed, turns, parse, 0);
    NothingRuns(s);
    assert items[..0] == [];
    TimeoutItemsFacts(me, c, listed, turns, parse);
    hide TimeoutItems;
    hide TimeoutFrom;
    OnlyOthersAct(me, items);
  }

  // ---- Garbage collection ------------------------------------------------------------------

  function Uncleaned(t: Table, orig: set<string>): set<string> {
    set id | id in orig && !(id in t && t[id].cleaned)
  }

  lemma UncleanedShrinks(s: State, s': State, orig: set<string>)
    requires Inv(s) && Inv(s') && s.versions <= s'.versions
    ensures Uncleaned(s'.table, orig) <= Uncleaned(s.table, orig)
  {
    hide Inv;
    forall id | id in orig && id in s.table && s.table[id].cleaned ensures id in s'.table && s'.table[id].cleaned {
      RowAdvances(s, s', id);
    }
  }

  /** The pass is not cut short and its requests arrive. */
  predicate GoodCollect(me: nat, c: Config, listed: seq<Execution>, turns: nat -> Turn) {
    forall k :: 0 <= k < |listed| && k < c.maxBatch ==>
      !turns(k).cancelled && turns(k).net != Dropped && Foreign(turns(k).before, me)
  }

  predicate Collectable(s: State, v: Execution) {
    v in s.versions && v.status.Completes() && !v.cleaned
  }

  lemma MarkCleans(s: State, me: nat, id: string, now: string, net: Net)
    requires net != Dropped && id in s.table
    ensures var t' := Mark(s, me, id, now, net).table; id in t' && t'[id].cleaned
  {
  }

  lemma CollectOneCleans(s: State, me: nat, v: Execution, turn: Turn)
    requires Idle(s, me) && Foreign(turn.before, me) && Collectable(s, v) && turn.net != Dropped
    ensures var t' := CollectOne(s, me, v, turn).table; v.id in t' && t'[v.id].cleaned
  {
    hide Inv;
    hide Apply;
    hide Run;
    hide Mark;
    CollectOneKeepsIdle(s, me, v, turn);
    OthersKeepIdle(s, turn.before, me);
    var s1 := Run(s, turn.before);
    VersionIsThere(s1, v);
    MarkCleans(Add(s1, me, Collecting(v)), me, v.id, turn.now, turn.net);
  }

  lemma VersionIsThere(s: State, v: Execution)
    requires Inv(s) && v in s.versions
    ensures v.id in s.table && Precedes(v, s.table[v.id])
  {
    hide RowOk;
    hide Precedes;
  }

  function Ids(listed: seq<Execution>, i: nat, n: int): set<string> {
    set k | i <= k < n && k < |listed| :: listed[k].id
  }

  lemma {:induction false} PassCleans(s: State, me: nat, c: Config, listed: seq<Execution>, i: nat, turns: nat -> Turn,
                                      orig: set<string>)
    requires Idle(s, me) && GoodCollect(me, c, listed, turns) && forall v :: v in listed ==> Collectable(s, v)
    ensures var s' := CollectFrom(s, me, c, listed, i, turns);
            && Idle(s', me) && s.versions <= s'.versions
            && Uncleaned(s'.table, orig) <= Uncleaned(s.table, orig) - Ids(listed, i, c.maxBatch)
    decreases |listed| - i
  {
    hide Inv;
    hide CollectOne;
    hide Foreign;
    if i < |listed| && i < c.maxBatch {
      var v, turn := listed[i], turns(i);
      var next := CollectOne(s, me, v, turn);
      assert v in listed;
      CollectOneKeepsIdle(s, me, v, turn);
      CollectOneCleans(s, me, v, turn);
      UncleanedShrinks(s, next, orig);
      PassCleans(next, me, c, listed, i + 1, turns, orig);
      assert v.id !in Uncleaned(next.table, orig);
      hide Uncleaned;
      assert Ids(listed, i, c.maxBatch) == {v.id} + Ids(listed, i + 1, c.maxBatch);
    }
  }

  lemma {:induction false} IdsSize(listed: seq<Execution>, n: nat)
    requires n <= |listed| && forall i, j :: 0 <= i < j < |listed| ==> listed[i].id != listed[j].id
    ensures |Ids(listed, 0, n)| == n
    decreases n
  {
    if n == 0 {
      assert Ids(listed, 0, 0) == {};
    } else {
      IdsSize(listed, n - 1);
      assert Ids(listed, 0, n) == Ids(listed, 0, n - 1) + {listed[n - 1].id};
      assert listed[n - 1].id !in Ids(listed, 0, n - 1);
    }
  }

  /** What others do before a collection lists its rows, the age limit and the
      listing it gets, and what happens during it. */
  datatype Sweep = Sweep(arrive: seq<Event>, threshold: int, index: Index, turns: nat -> Turn)

  function Swept(s: State, me: nat, c: Config, sweep: Sweep): State {
    var s' := Run(s, sweep.arrive);
    CollectFrom(s', me, c, sweep.index(s'.table), 0, sweep.turns)
  }

  function Sweeps(s: State, me: nat, c: Config, sweeps: seq<Sweep>): State {
    if sweeps == [] then s else Swept(Sweeps(s, me, c, sweeps[..|sweeps| - 1]), me, c, sweeps[|sweeps| - 1])
  }

  /** The listing is what the index holds, nothing but the set is eligible, and the
      pass is good. */
  ghost predicate GoodSweep(s: State, me: nat, c: Config, sweep: Sweep, threshold: int, created: string -> Option<int>,
                            orig: set<string>) {
    var t := Run(s, sweep.arrive).table;
    var listed := sweep.index(t);
    && Foreign(sweep.arrive, me) && sweep.threshold >= threshold
    && ListsEligible(listed, t, c.target, sweep.threshold, created)
    && (forall v :: v in listed ==> v.id in orig)
    && GoodCollect(me, c, listed, sweep.turns)
  }

  ghost predicate GoodSweeps(s: State, me: nat, c: Config, sweeps: seq<Sweep>, threshold: int,
                             created: string -> Option<int>, orig: set<string>) {
    forall k :: 0 <= k < |sweeps| ==>
      GoodSweep(Sweeps(s, me, c, sweeps[..k]), me, c, sweeps[k], threshold, created, orig)
  }

  /** Finished, old enough, cleaned or not. */
  predicate Old(r: Execution, target: string, threshold: int, created: string -> Option<int>) {
    && r.request.target == target && r.status.Completes()
    && created(r.request.createdAt).Some? && created(r.request.createdAt).value < threshold
  }

  ghost predicate AllOld(t: Table, orig: set<string>, target: string, threshold: int, created: string -> Option<int>) {
    forall id :: id in orig ==> id in t && t[id].id == id && Old(t[id], target, threshold, created)
  }

  lemma OldStays(s: State, s': State, orig: set<string>, target: string, threshold: int, created: string -> Option<int>)
    requires Inv(s) && Inv(s') && s.versions <= s'.versions && AllOld(s.table, orig, target, threshold, created)
    ensures AllOld(s'.table, orig, target, threshold, created)
  {
    hide Inv;
    forall id | id in orig ensures id in s'.table && s'.table[id].id == id
      && Old(s'.table[id], target, threshold, created) {
      RowAdvances(s, s', id);
      assert s.table[id].status.IsTerminal();
    }
  }

  /** The listing is then exactly the uncleaned part of the set. */
  lemma ListedAreUncleaned(t: Table, listed: seq<Execution>, orig: set<string>, target: string, threshold: int,
                           later: int,
                           created: string -> Option<int>)
    requires AllOld(t, orig, target, threshold, created) && later >= threshold
    requires ListsEligible(listed, t, target, later, created) && forall v :: v in listed ==> v.id in orig
    ensures Ids(listed, 0, |listed|) == Uncleaned(t, orig)
  {
    forall id | id in Uncleaned(t, orig) ensures id in Ids(listed, 0, |listed|) {
      assert t[id] in listed;
    }
    forall k | 0 <= k < |listed| ensures listed[k].id in Uncleaned(t, orig) {
      assert listed[k] in listed;
    }
  }

  lemma SweepDrains(s: State, me: nat, c: Config, sweep: Sweep, threshold: int, created: string -> Option<int>,
                    orig: set<string>)
    requires Idle(s, me) && c.maxBatch > 0 && AllOld(s.table, orig, c.target, threshold, created)
    requires GoodSweep(s, me, c, sweep, threshold, created, orig)
    ensures var s' := Swept(s, me, c, sweep);
            && Idle(s', me) && AllOld(s'.table, orig, c.target, threshold, created)
            && |Uncleaned(s'.table, orig)| <= Left(|Uncleaned(s.table, orig)|, c.maxBatch)
  {
    hide Inv;
    hide Run;
    hide AllOld;
    hide CollectFrom;
    hide GoodCollect;
    hide Foreign;
    var s1 := Run(s, sweep.arrive);
    var listed := sweep.index(s1.table);
    OthersKeepIdle(s, sweep.arrive, me);
    OldStays(s, s1, orig, c.target, threshold, created);
    UncleanedShrinks(s, s1, orig);
    EligibleFacts(s1, listed, c.target, sweep.threshold, created);
    ListedAreUncleaned(s1.table, listed, orig, c.target, threshold, sweep.threshold, created);
    assert forall i, j :: 0 <= i < j < |listed| ==> listed[i].id != listed[j].id;
    hide ListsEligible;
    var s' := Swept(s, me, c, sweep);
    PassCleans(s1, me, c, listed, 0, sweep.turns, orig);
    OldStays(s1, s', orig, c.target, threshold, created);
    hide Uncleaned;
    var n := if |listed| < c.maxBatch then |listed| else c.maxBatch;
    IdsSize(listed, |listed|);
    IdsSize(listed, n);
    assert Ids(listed, 0, n) <= Ids(listed, 0, c.maxBatch) && Ids(listed, 0, n) <= Ids(listed, 0, |listed|);
    RemovedSize(Uncleaned(s'.table, orig), Uncleaned(s1.table, orig), Ids(listed, 0, n));
    SubsetSize(Uncleaned(s1.table, orig), Uncleaned(s.table, orig));
  }

  lemma LastSweepIsGood(s: State, me: nat, c: Config, sweeps: seq<Sweep>, threshold: int,
                        created: string -> Option<int>, orig: set<string>)
    requires sweeps != [] && GoodSweeps(s, me, c, sweeps, threshold, created, orig)
    ensures var before := sweeps[..|sweeps| - 1];
            && GoodSweeps(s, me, c, before, threshold, created, orig)
            && GoodSweep(Sweeps(s, me, c, before), me, c, sweeps[|sweeps| - 1], threshold, created, orig)
  {
    hide GoodSweep;
    hide Sweeps;
    var before := sweeps[..|sweeps| - 1];
    assert forall k :: 0 <= k < |before| ==> before[..k] == sweeps[..k] && before[k] == sweeps[k];
  }

  lemma {:induction false} SweepsDrain(s: State, me: nat, c: Config, sweeps: seq<Sweep>, threshold: int,
                                       created: string -> Option<int>, orig: set<string>)
    requires Idle(s, me) && c.maxBatch > 0 && AllOld(s.table, orig, c.target, threshold, created)
    requires GoodSweeps(s, me, c, sweeps, threshold, created, orig)
    ensures var s' := Sweeps(s, me, c, sweeps);
            && Idle(s', me) && AllOld(s'.table, orig, c.target, threshold, created)
            && (|Uncleaned(s'.table, orig)| == 0
                  || |Uncleaned(s'.table, orig)| <= |Uncleaned(s.table, orig)| - |sweeps| * c.maxBatch)
    decreases |sweeps|
  {
    hide Inv;
    hide AllOld;
    hide Uncleaned;
    hide Swept;
    hide GoodSweep;
    if sweeps != [] {
      var before, sweep := sweeps[..|sweeps| - 1], sweeps[|sweeps| - 1];
      LastSweepIsGood(s, me, c, sweeps, threshold, created, orig);
      hide GoodSweeps;
      SweepsDrain(s, me, c, before, threshold, created, orig);
      SweepDrains(Sweeps(s, me, c, before), me, c, sweep, threshold, created, orig);
      hide Left;
      OneBatchMore(|Uncleaned(s.table, orig)|, |Uncleaned(Sweeps(s, me, c, before).table, orig)|,
                   |Uncleaned(Sweeps(s, me, c, sweeps).table, orig)|, |before|, c.maxBatch);
    }
  }

  /** If nothing but n eligible executions is eligible and requests arrive, all of
      them are marked cleaned after n / maxBatch collections, rounded up. */
  lemma CollectionsDrain(s: State, me: nat, c: Config, sweeps: seq<Sweep>, threshold: int,
                         created: string -> Option<int>, orig: set<string>)
    requires Idle(s, me) && c.maxBatch > 0
    requires forall id :: id in orig ==> id in s.table && Eligible(s.table[id], c.target, threshold, created)
    requires GoodSweeps(s, me, c, sweeps, threshold, created, orig) && |sweeps| * c.maxBatch >= |orig|
    ensures var t := Sweeps(s, me, c, sweeps).table; forall id :: id in orig ==> id in t && t[id].cleaned
  {
    forall id | id in orig ensures s.table[id].id == id {
      RowAt(s, id, me);
    }
    assert AllOld(s.table, orig, c.target, threshold, created);
    hide Inv;
    assert Uncleaned(s.table, orig) == orig;
    hide GoodSweeps;
    SweepsDrain(s, me, c, sweeps, threshold, created, orig);
    var t := Sweeps(s, me, c, sweeps).table;
    assert Uncleaned(t, orig) == {};
    forall id | id in orig ensures id in t && t[id].cleaned {
      assert id !in Uncleaned(t, orig);
    }
  }

  // ---- What holds the collector up ------------------------------------------------------------

  function Waiting(t: Table, target: string, threshold: int, created: string -> Option<int>): set<string> {
    set id | id in t && t[id].status == Succeeded && Eligible(t[id], target, threshold, created)
  }

  /** The eligible rows of the statuses listed before that rank. */
  function RankedBefore(t: Table, target: string, threshold: int, created: string -> Option<int>,
                        rank: nat): set<string> {
    set id | id in t && Eligible(t[id], target, threshold, created) && Rank(t[id].status) < rank
  }

  function SameBefore(listed: seq<Execution>, p: nat): set<string>
    requires p < |listed|
  {
    set k | 0 <= k < p && listed[k].status == listed[p].status :: listed[k].id
  }

  /** Where a row stands: behind all eligible rows of the statuses before its own, and
      behind those of its own listed before it. */
  lemma PositionByRank(s: State, listed: seq<Execution>, target: string, threshold: int,
                       created: string -> Option<int>, p: nat)
    requires Inv(s) && ListsEligible(listed, s.table, target, threshold, created) && p < |listed|
    ensures p == |RankedBefore(s.table, target, threshold, created, Rank(listed[p].status))| + |SameBefore(listed, p)|
  {
    var ranked, same := RankedBefore(s.table, target, threshold, created, Rank(listed[p].status)),
      SameBefore(listed, p);
    forall k | 0 <= k < |listed|
      ensures listed[k].id in s.table && s.table[listed[k].id] == listed[k] && listed[k].status.Completes() {
      assert listed[k] in listed;
    }
    forall k | 0 <= k < p ensures listed[k].id in ranked + same {
      assert listed[k] in listed;
      assert Rank(listed[k].status) <= Rank(listed[p].status);
    }
    forall id | id in ranked ensures id in Ids(listed, 0, p) {
      RowFacts(s, id);
      assert s.table[id] in listed;
      var k :| 0 <= k < |listed| && listed[k] == s.table[id];
      assert k != p && !(p < k);
    }
    assert forall i, j :: 0 <= i < j < |listed| ==> listed[i].id != listed[j].id;
    assert Ids(listed, 0, p) == ranked + same;
    assert ranked !! same;
    IdsSize(listed, p);
  }

  lemma WaitingAreListed(s: State, listed: seq<Execution>, target: string, threshold: int,
                         created: string -> Option<int>)
    requires Inv(s) && ListsEligible(listed, s.table, target, threshold, created)
    ensures |Waiting(s.table, target, threshold, created)| <= |listed|
  {
    var w := Waiting(s.table, target, threshold, created);
    forall id | id in w ensures id in Ids(listed, 0, |listed|) {
      RowFacts(s, id);
      assert s.table[id] in listed;
    }
    IdsSize(listed, |listed|);
    SubsetSize(w, Ids(listed, 0, |listed|));
  }

  lemma WaitingAreRanked(t: Table, target: string, threshold: int, created: string -> Option<int>, status: Status)
    requires status != Succeeded
    ensures |Waiting(t, target, threshold, created)| <= |RankedBefore(t, target, threshold, created, Rank(status))|
  {
    SubsetSize(Waiting(t, target, threshold, created), RankedBefore(t, target, threshold, created, Rank(status)));
  }

  /** The listing starts with the succeeded rows. */
  lemma SucceededComeFirst(s: State, listed: seq<Execution>, target: string, threshold: int,
                           created: string -> Option<int>, i: nat)
    requires Inv(s) && ListsEligible(listed, s.table, target, threshold, created)
    requires i < |Waiting(s.table, target, threshold, created)|
    ensures i < |listed| && listed[i].status == Succeeded
  {
    hide Inv;
    hide ListsEligible;
    hide Waiting;
    hide RankedBefore;
    WaitingAreListed(s, listed, target, threshold, created);
    if listed[i].status != Succeeded {
      PositionByRank(s, listed, target, threshold, created, i);
      WaitingAreRanked(s.table, target, threshold, created, listed[i].status);
    }
  }

  lemma ListedAreCollectable(s: State, listed: seq<Execution>, target: string, threshold: int,
                             created: string -> Option<int>)
    requires Inv(s) && ListsEligible(listed, s.table, target, threshold, created)
    ensures Collectables(s, listed)
  {
    EligibleFacts(s, listed, target, threshold, created);
  }

  /** A collection sends a request about an eligible row exactly if the rows of the
      statuses before its own, and those of its own listed before it, leave room in the
      batch and the context has not ended before, whatever others do. */
  lemma CollectedExactly(s: State, me: nat, c: Config, listed: seq<Execution>, turns: nat -> Turn, threshold: int,
                         created: string -> Option<int>, p: nat)
    requires Idle(s, me) && ListsEligible(listed, s.table, c.target, threshold, created) && p < |listed|
    requires forall k :: Foreign(turns(k).before, me)
    ensures var es := Events(me, CollectItems(me, c, listed, turns));
            && CollectFrom(s, me, c, listed, 0, turns) == Run(s, es)
            && (Happens(s, es, Sends(me, Collecting(listed[p])))
                <==> && |RankedBefore(s.table, c.target, threshold, created, Rank(listed[p].status))|
                          + |SameBefore(listed, p)| < c.maxBatch
                     && forall k: nat :: k <= p ==> !turns(k).cancelled)
  {
    hide Happens;
    hide Sends;
    hide CollectFrom;
    hide Run;
    PositionByRank(s, listed, c.target, threshold, created, p);
    ListedAreCollectable(s, listed, c.target, threshold, created);
    hide Inv;
    hide ListsEligible;
    hide RankedBefore;
    hide SameBefore;
    hide Foreign;
    CollectSends(s, me, c, listed, turns, p, Collecting(listed[p]));
    assert forall k: nat :: Cancelled(turns)(k) == turns(k).cancelled;
  }

  /** While a batch or more of succeeded executions waits, a collection sends requests
      about these only and does not touch a failed or a timed-out one, however old it
      is and whatever others do. */
  lemma SucceededStarveTheRest(s: State, me: nat, c: Config, listed: seq<Execution>, turns: nat -> Turn, threshold: int,
                               created: string -> Option<int>, id: string, x: Actor)
    requires Idle(s, me) && ListsEligible(listed, s.table, c.target, threshold, created)
    requires |Waiting(s.table, c.target, threshold, created)| >= c.maxBatch && forall k :: Foreign(turns(k).before, me)
    requires id in s.table && s.table[id].status != Succeeded
    ensures var es := Events(me, CollectItems(me, c, listed, turns));
            && CollectFrom(s, me, c, listed, 0, turns) == Run(s, es)
            && (Happens(s, es, Sends(me, x)) ==> x.Collecting? && x.seen.status == Succeeded)
            && !Happens(s, es, Writes(me, id))
  {
    hide Happens;
    hide Sends;
    hide Writes;
    hide CollectFrom;
    hide Run;
    ListedAreCollectable(s, listed, c.target, threshold, created);
    forall q: nat | q < |listed| && Reaches(c, Cancelled(turns), q)
      ensures listed[q].status == Succeeded && listed[q].id != id {
      SucceededComeFirst(s, listed, c.target, threshold, created, q);
      assert listed[q] in listed;
    }
    hide Inv;
    hide Foreign;
    hide Waiting;
    hide Reaches;
    CollectSends(s, me, c, listed, turns, 0, x);
    if p: nat :| p < |listed| && listed[p].id == id {
      CollectWrites(s, me, c, listed, turns, p, id);
    } else if |listed| > 0 {
      CollectWrites(s, me, c, listed, turns, 0, id);
    } else {
      NothingListed(s, me, c, turns, id);
    }
  }

  lemma NothingListed(s: State, me: nat, c: Config, turns: nat -> Turn, id: string)
    ensures !Happens(s, Events(me, CollectItems(me, c, [], turns)), Writes(me, id))
  {
    NothingHappens(s, Writes(me, id));
    assert CollectItems(me, c, [], turns) == [];
  }
}
