/** The reconciler's passes as the requests they send: which listed rows a pass
    reaches, which it writes, and what becomes of them, whatever others do. */
module Passes {
  import opened Executions
  import opened ExecutionProtocol
  import opened ExecutionTheorems
  import opened Reconciling
  import opened Wrappers
  import opened Lex
  import opened Remote

  // ---- Properties of events in a run ---------------------------------------------------

  type Kind = (State, Event) -> bool

  predicate HappensAt(s: State, es: seq<Event>, kind: Kind, k: nat) {
    k < |es| && kind(Run(s, es[..k]), es[k])
  }

  /** An event of this kind happens in the run. */
  ghost predicate Happens(s: State, es: seq<Event>, kind: Kind) {
    exists k: nat :: HappensAt(s, es, kind, k)
  }

  /** Where the events of a concatenation happen. */
  lemma SplitRun(s: State, es: seq<Event>, fs: seq<Event>, kind: Kind, k: nat)
    ensures HappensAt(s, es + fs, kind, k) <==>
              if k < |es| then HappensAt(s, es, kind, k) else HappensAt(Run(s, es), fs, kind, k - |es|)
  {
    hide Run;
    if k < |es| {
      assert (es + fs)[..k] == es[..k];
    } else if k < |es + fs| {
      assert (es + fs)[..k] == es + fs[..k - |es|];
      RunConcat(s, es, fs[..k - |es|]);
    }
  }

  lemma HappensIn(s: State, es: seq<Event>, fs: seq<Event>, kind: Kind)
    ensures Happens(s, es + fs, kind) <==> Happens(s, es, kind) || Happens(Run(s, es), fs, kind)
  {
    hide Run;
    hide HappensAt;
    if k: nat :| HappensAt(s, es + fs, kind, k) {
      SplitRun(s, es, fs, kind, k);
    }
    if k: nat :| HappensAt(s, es, kind, k) {
      SplitRun(s, es, fs, kind, k);
      NotAfter(s, es, kind, k);
    }
    if k: nat :| HappensAt(Run(s, es), fs, kind, k) {
      SplitRun(s, es, fs, kind, |es| + k);
      assert HappensAt(s, es + fs, kind, |es| + k);
    }
  }

  lemma NotAfter(s: State, es: seq<Event>, kind: Kind, k: nat)
    ensures HappensAt(s, es, kind, k) ==> k < |es|
  {
  }

  predicate IsRequest(e: Event) {
    e.TimeOut? || e.Poll? || e.Collect?
  }

  /** The request the pass sends as this actor. */
  function Sends(me: nat, x: Actor): Kind {
    (s: State, e: Event) => IsRequest(e) && e.a == me && me in s.actors && s.actors[me] == x
  }

  predicate SameRow(t: Table, t': Table, id: string) {
    (id in t <==> id in t') && (id in t ==> t'[id] == t[id])
  }

  /** The pass itself changes the row. */
  function Writes(me: nat, id: string): Kind {
    (s: State, e: Event) => !e.Approve? && e.a == me && !SameRow(s.table, Apply(s, e).table, id)
  }

  lemma OthersDoNothingOfMine(s: State, es: seq<Event>, me: nat, x: Actor, id: string)
    requires Foreign(es, me)
    ensures !Happens(s, es, Sends(me, x)) && !Happens(s, es, Writes(me, id))
  {
    hide Run;
    hide Apply;
  }

  // ---- The items of a pass ----------------------------------------------------------

  /** A request the pass makes about a row it listed. */
  datatype Own = Own(x: Actor, e: Event)

  /** What happens around one listed row: others' events, then the pass's request. */
  datatype Item = Item(before: seq<Event>, own: Option<Own>)

  function OwnEvents(me: nat, item: Item): seq<Event> {
    if item.own.None? then [] else [Read(me, item.own.value.x)] + [item.own.value.e]
  }

  function Events(me: nat, items: seq<Item>): seq<Event> {
    if items == [] then []
    else
      var last := items[|items| - 1];
      Events(me, items[..|items| - 1]) + (last.before + OwnEvents(me, last))
  }

  predicate Fits(me: nat, own: Own) {
    && IsRequest(own.e) && own.e.a == me
    && match own.x
       case TimingOut(_) => own.e.TimeOut?
       case Collecting(_) => own.e.Collect?
       case Polling(_) => own.e.Poll? && (own.e.to == Succeeded || own.e.to == Failed) && own.e.u.completedAt.None?
       case _ => false
  }

  predicate GoodItem(s: State, me: nat, item: Item) {
    && Foreign(item.before, me)
    && (item.own.Some? ==> Fits(me, item.own.value) && CanRead(s, item.own.value.x))
  }

  predicate GoodItems(s: State, me: nat, items: seq<Item>) {
    forall p :: 0 <= p < |items| ==> GoodItem(s, me, items[p])
  }

  /** The world when the request about the p-th row arrives. */
  function Arrival(s: State, me: nat, items: seq<Item>, p: nat): State
    requires p < |items|
  {
    Run(Run(s, Events(me, items[..p])), items[p].before)
  }

  lemma StillReadable(s: State, s': State, x: Actor)
    requires CanRead(s, x) && s.versions <= s'.versions
    ensures CanRead(s', x)
  {
  }

  /** The two events of a request. */
  lemma TwoEvents(s: State, me: nat, own: Own)
    ensures var es := [Read(me, own.x)] + [own.e];
            && Run(s, es) == Apply(Apply(s, Read(me, own.x)), own.e)
            && es[..0] == [] && es[..1] == [Read(me, own.x)] && |es| == 2
            && Run(s, es[..0]) == s && Run(s, es[..1]) == Apply(s, Read(me, own.x))
  {
    hide Apply;
    RunSnoc(s, [Read(me, own.x)], own.e);
    RunSnoc(s, [], Read(me, own.x));
    assert [] + [Read(me, own.x)] == [Read(me, own.x)];
  }

  lemma RequestLeavesIdle(s: State, me: nat, own: Own)
    requires Idle(s, me) && Fits(me, own) && CanRead(s, own.x)
    ensures var s' := Apply(Add(s, me, own.x), own.e); Idle(s', me) && s.versions <= s'.versions
    ensures Apply(s, Read(me, own.x)) == Add(s, me, own.x)
  {
    hide Apply;
    hide Inv;
    BeginStep(s, me, own.x);
    var s1 := Add(s, me, own.x);
    VersionsGrow(s1, own.e);
    match own.x
    case TimingOut(v) => MoveEvent(s1, me, v, own.e.now, own.e.net);
    case Collecting(v) => CollectEvent(s1, me, v, own.e.now, own.e.net);
    case Polling(v) => PollEvent(s1, me, v, own.e.to, own.e.now, own.e.u, own.e.net);
  }

  lemma ItemKeepsIdle(s: State, me: nat, item: Item)
    requires Idle(s, me) && GoodItem(s, me, item)
    ensures var s1, s' := Run(s, item.before), Run(s, item.before + OwnEvents(me, item));
            && Idle(s1, me) && Idle(s', me) && s.versions <= s1.versions && s1.versions <= s'.versions
            && s' == Run(s1, OwnEvents(me, item))
            && (item.own.Some? ==> CanRead(s1, item.own.value.x))
  {
    hide Run;
    hide Apply;
    hide Inv;
    hide CanRead;
    hide Fits;
    var s1 := Run(s, item.before);
    OthersKeepIdle(s, item.before, me);
    RunConcat(s, item.before, OwnEvents(me, item));
    if item.own.Some? {
      StillReadable(s, s1, item.own.value.x);
      TwoEvents(s1, me, item.own.value);
      RequestLeavesIdle(s1, me, item.own.value);
    } else {
      NothingRuns(s1);
    }
  }

  lemma NothingRuns(s: State)
    ensures Run(s, []) == s
  {
  }

  lemma {:induction false} ItemsKeepIdle(s: State, me: nat, items: seq<Item>)
    requires Idle(s, me) && GoodItems(s, me, items)
    ensures var s' := Run(s, Events(me, items)); Idle(s', me) && s.versions <= s'.versions && GoodItems(s', me, items)
    decreases |items|
  {
    hide Inv;
    hide Apply;
    hide Run;
    hide CanRead;
    hide Fits;
    if items == [] {
      NothingRuns(s);
    } else {
      var front, last := items[..|items| - 1], items[|items| - 1];
      ItemsKeepIdle(s, me, front);
      var s1 := Run(s, Events(me, front));
      ReadableAgain(s, s1, me, last);
      ItemKeepsIdle(s1, me, last);
      RunConcat(s, Events(me, front), last.before + OwnEvents(me, last));
      forall p | 0 <= p < |items| ensures GoodItem(Run(s, Events(me, items)), me, items[p]) {
        ReadableAgain(s, Run(s, Events(me, items)), me, items[p]);
      }
    }
  }

  lemma ReadableAgain(s: State, s': State, me: nat, item: Item)
    requires GoodItem(s, me, item) && s.versions <= s'.versions
    ensures GoodItem(s', me, item)
  {
    if item.own.Some? {
      StillReadable(s, s', item.own.value.x);
    }
  }

  /** What the items so far have done stays. */
  lemma {:induction false} PrefixRuns(s: State, me: nat, items: seq<Item>, n: nat)
    requires n <= |items| && Idle(s, me) && GoodItems(s, me, items)
    ensures var s1, s' := Run(s, Events(me, items[..n])), Run(s, Events(me, items));
            Idle(s1, me) && Idle(s', me) && s.versions <= s1.versions && s1.versions <= s'.versions
    decreases |items|
  {
    hide Inv;
    hide Run;
    hide GoodItem;
    ItemsKeepIdle(s, me, items);
    if n == |items| {
      assert items[..n] == items;
    } else {
      var front, last := items[..|items| - 1], items[|items| - 1];
      PrefixRuns(s, me, front, n);
      assert front[..n] == items[..n];
      RunConcat(s, Events(me, front), last.before + OwnEvents(me, last));
      RunVersionsGrow(Run(s, Events(me, front)), last.before + OwnEvents(me, last));
    }
  }

  // ---- What a pass sends and writes ------------------------------------------------------

  /** The request changes the row when it arrives. */
  predicate Changes(s: State, me: nat, own: Own, id: string) {
    !SameRow(s.table, Apply(Add(s, me, own.x), own.e).table, id)
  }

  lemma OwnHappens(s: State, me: nat, own: Own, x: Actor, id: string)
    requires Idle(s, me) && Fits(me, own) && CanRead(s, own.x)
    ensures var es := [Read(me, own.x)] + [own.e];
            && (Happens(s, es, Sends(me, x)) <==> x == own.x)
            && (Happens(s, es, Writes(me, id)) <==> Changes(s, me, own, id))
  {
    hide Run;
    hide Inv;
    hide Apply;
    var es := [Read(me, own.x)] + [own.e];
    TwoEvents(s, me, own);
    RequestLeavesIdle(s, me, own);
    hide CanRead;
    var s1 := Apply(s, Read(me, own.x));
    assert s1 == Add(s, me, own.x);
    if x == own.x {
      assert HappensAt(s, es, Sends(me, x), 1);
    }
    if Changes(s, me, own, id) {
      assert HappensAt(s, es, Writes(me, id), 1);
    }
  }

  /** A pass sends a request about a row exactly if one of its items does. */
  lemma {:induction false} PassSends(s: State, me: nat, items: seq<Item>, x: Actor)
    requires Idle(s, me) && GoodItems(s, me, items)
    ensures Happens(s, Events(me, items), Sends(me, x))
            <==> exists p :: 0 <= p < |items| && items[p].own.Some? && items[p].own.value.x == x
    decreases |items|
  {
    hide Inv;
    hide Run;
    hide Happens;
    hide Sends;
    hide Fits;
    hide CanRead;
    if items == [] {
      NothingHappens(s, Sends(me, x));
    } else {
      var front, last := items[..|items| - 1], items[|items| - 1];
      PassSends(s, me, front, x);
      ItemsKeepIdle(s, me, front);
      var s1 := Run(s, Events(me, front));
      ReadableAgain(s, s1, me, last);
      ItemHappens(s1, me, last, x, "");
      HappensIn(s, Events(me, front), last.before + OwnEvents(me, last), Sends(me, x));
      assert forall p :: 0 <= p < |front| ==> front[p] == items[p];
    }
  }

  lemma NothingHappens(s: State, kind: Kind)
    ensures !Happens(s, [], kind)
  {
  }

  lemma ItemHappens(s: State, me: nat, item: Item, x: Actor, id: string)
    requires Idle(s, me) && GoodItem(s, me, item)
    ensures var es := item.before + OwnEvents(me, item);
            && (Happens(s, es, Sends(me, x)) <==> item.own.Some? && item.own.value.x == x)
            && (Happens(s, es, Writes(me, id)) <==>
                  item.own.Some? && Changes(Run(s, item.before), me, item.own.value, id))
  {
    hide Run;
    hide Happens;
    hide Sends;
    hide Writes;
    hide Inv;
    hide CanRead;
    hide Changes;
    hide Fits;
    var s1 := Run(s, item.before);
    ItemKeepsIdle(s, me, item);
    OthersDoNothingOfMine(s, item.before, me, x, id);
    HappensIn(s, item.before, OwnEvents(me, item), Sends(me, x));
    HappensIn(s, item.before, OwnEvents(me, item), Writes(me, id));
    if item.own.Some? {
      OwnHappens(s1, me, item.own.value, x, id);
    } else {
      NothingHappens(s1, Sends(me, x));
      NothingHappens(s1, Writes(me, id));
    }
  }

  ghost predicate ChangedBy(s: State, me: nat, items: seq<Item>, id: string, p: nat) {
    p < |items| && items[p].own.Some? && Changes(Arrival(s, me, items, p), me, items[p].own.value, id)
  }

  /** A pass writes a row exactly if the request of one of its items changes it on
      arrival. */
  lemma {:induction false} PassWrites(s: State, me: nat, items: seq<Item>, id: string)
    requires Idle(s, me) && GoodItems(s, me, items)
    ensures Happens(s, Events(me, items), Writes(me, id)) <==> exists p: nat :: ChangedBy(s, me, items, id, p)
    decreases |items|
  {
    hide Inv;
    hide Run;
    hide Happens;
    hide Writes;
    hide Fits;
    hide CanRead;
    hide Changes;
    if items == [] {
      NothingHappens(s, Writes(me, id));
    } else {
      var front, last := items[..|items| - 1], items[|items| - 1];
      PassWrites(s, me, front, id);
      ItemsKeepIdle(s, me, front);
      var s1 := Run(s, Events(me, front));
      ReadableAgain(s, s1, me, last);
      ItemHappens(s1, me, last, Counting("", 0), id);
      HappensIn(s, Events(me, front), last.before + OwnEvents(me, last), Writes(me, id));
      forall p: nat | p < |front| ensures ChangedBy(s, me, items, id, p) <==> ChangedBy(s, me, front, id, p) {
        assert front[..p] == items[..p] && front[p] == items[p];
      }
      assert ChangedBy(s, me, items, id, |front|)
        <==> last.own.Some? && Changes(Run(s1, last.before), me, last.own.value, id);
    }
  }

  // ---- What a request changes ------------------------------------------------------------

  /** The row after a request that is carried out. */
  function Becomes(own: Own, r: Execution): Execution {
    match own.e
    case TimeOut(_, now, _) => Moved(r, TimedOut, now)
    case Poll(_, to, now, u, _) => Updated(Moved(r, to, now), u)
    case Collect(_, now, _) => r.(cleaned := true, cleanedAt := now)
    case _ => r
  }

  /** The row the request is about. */
  function About(x: Actor): string {
    match x
    case TimingOut(v) => v.id
    case Polling(v) => v.id
    case Collecting(v) => v.id
    case _ => ""
  }

  function NetOf(e: Event): Net {
    match e
    case TimeOut(_, _, net) => net
    case Poll(_, _, _, _, net) => net
    case Collect(_, _, net) => net
    case _ => Dropped
  }

  /** The request is about the row, arrives, and finds the row as it expects it. */
  predicate Succeeds(t: Table, own: Own, id: string) {
    && About(own.x) == id && NetOf(own.e) != Dropped
    && if own.e.Collect? then id in t && !t[id].cleaned else Has(t, id, Dispatched)
  }

  lemma ChangesIff(s: State, me: nat, own: Own, id: string)
    requires Idle(s, me) && Fits(me, own) && CanRead(s, own.x)
    ensures Changes(s, me, own, id) <==> Succeeds(s.table, own, id)
    ensures Changes(s, me, own, id) ==>
              var t' := Apply(Add(s, me, own.x), own.e).table;
                id in s.table && id in t' && t'[id] == Becomes(own, s.table[id])
  {
    SeenRow(s, me, own);
    hide Inv;
    hide CanRead;
    hide Fits;
    var s1, r := Add(s, me, own.x), s.table[About(own.x)];
    AddLooks(s, me, own.x);
    RequestTable(s1, me, own);
    hide Apply;
    hide Add;
    if Succeeds(s.table, own, About(own.x)) {
      BecomesOther(s.table, me, own);
    }
    hide Becomes;
    hide Succeeds;
    SucceedsAbout(s.table, own, id);
  }

  lemma AddLooks(s: State, me: nat, x: Actor)
    ensures Add(s, me, x).table == s.table && me in Add(s, me, x).actors && Add(s, me, x).actors[me] == x
  {
  }

  lemma SucceedsAbout(t: Table, own: Own, id: string)
    ensures Succeeds(t, own, id) ==> id == About(own.x) && id in t
  {
  }

  lemma SeenRow(s: State, me: nat, own: Own)
    requires Inv(s) && Fits(me, own) && CanRead(s, own.x)
    ensures About(own.x) in s.table
  {
  }

  /** A request that succeeds makes a difference. */
  lemma BecomesOther(t: Table, me: nat, own: Own)
    requires About(own.x) in t && Fits(me, own) && Succeeds(t, own, About(own.x))
    ensures Becomes(own, t[About(own.x)]) != t[About(own.x)]
  {
    hide StatusKey;
  }

  lemma RequestTable(s: State, me: nat, own: Own)
    requires me in s.actors && s.actors[me] == own.x && Fits(me, own) && About(own.x) in s.table
    ensures var id, t' := About(own.x), Apply(s, own.e).table;
            t' == if Succeeds(s.table, own, id) then s.table[id := Becomes(own, s.table[id])] else s.table
  {
    hide StatusKey;
  }

  lemma AfterItem(s: State, me: nat, items: seq<Item>, p: nat)
    requires Idle(s, me) && GoodItems(s, me, items) && p < |items| && items[p].own.Some?
    ensures var own, s1 := items[p].own.value, Arrival(s, me, items, p);
            && Idle(s1, me) && Fits(me, own) && CanRead(s1, own.x)
            && Run(s, Events(me, items[..p + 1])) == Apply(Add(s1, me, own.x), own.e)
  {
    hide Run;
    hide Apply;
    hide CanRead;
    hide Inv;
    hide Fits;
    var own := items[p].own.value;
    var s0, s1 := Run(s, Events(me, items[..p])), Arrival(s, me, items, p);
    PrefixRuns(s, me, items, p);
    ReadableAgain(s, s0, me, items[p]);
    ItemKeepsIdle(s0, me, items[p]);
    TwoEvents(s1, me, own);
    RequestLeavesIdle(s1, me, own);
    assert items[..p + 1][..p] == items[..p];
    RunConcat(s, Events(me, items[..p]), items[p].before + OwnEvents(me, items[p]));
  }

  /** The row is that version, but for being collected. */
  predicate EndsAs(r: Execution, x: Execution) {
    r == x.(cleaned := r.cleaned, cleanedAt := r.cleanedAt)
  }

  /** The row is as the request made it, but for being collected. */
  predicate LeftBy(own: Own, r: Execution, t: Table, id: string) {
    && id in t && EndsAs(t[id], Becomes(own, r))
    && (own.e.Collect? ==> t[id] == Becomes(own, r))
  }

  /** A row that a request of the pass changed is left as that request made it. */
  lemma PassLeaves(s: State, me: nat, items: seq<Item>, id: string, p: nat, own: Own, r: Execution)
    requires Idle(s, me) && GoodItems(s, me, items) && ChangedBy(s, me, items, id, p) && items[p].own.value == own
    requires id in Arrival(s, me, items, p).table && Arrival(s, me, items, p).table[id] == r
    ensures LeftBy(own, r, Run(s, Events(me, items)).table, id)
  {
    hide Run;
    hide Apply;
    hide CanRead;
    hide Changes;
    hide Inv;
    hide Events;
    hide Arrival;
    hide Becomes;
    hide Succeeds;
    hide GoodItem;
    hide Precedes;
    hide Fits;
    var s1 := Arrival(s, me, items, p);
    AfterItem(s, me, items, p);
    ChangesIff(s1, me, own, id);
    PrefixRuns(s, me, items, p + 1);
    var s2 := Run(s, Events(me, items[..p + 1]));
    hide Idle;
    RowAdvances(s2, Run(s, Events(me, items)), id);
    EndedStays(me, own, r, Run(s, Events(me, items)).table[id]);
  }

  lemma EndedStays(me: nat, own: Own, r: Execution, r': Execution)
    requires Fits(me, own) && Precedes(Becomes(own, r), r')
    ensures EndsAs(r', Becomes(own, r))
    ensures own.e.Collect? ==> r' == Becomes(own, r)
  {
    hide StatusKey;
  }

  lemma RowAdvances(s: State, s': State, id: string)
    requires Inv(s) && Inv(s') && s.versions <= s'.versions && id in s.table
    ensures id in s'.table && Precedes(s.table[id], s'.table[id])
  {
    hide RowOk;
    hide Precedes;
    assert s.table[id].id == id && s.table[id] in s'.versions;
  }

  /** If only one item concerns a row, the pass writes the row exactly if that item's
      request arrives and finds the row as it expects it. */
  lemma ItemWrites(s: State, me: nat, items: seq<Item>, id: string, p: nat)
    requires Idle(s, me) && GoodItems(s, me, items)
    requires forall q: nat :: q < |items| && items[q].own.Some? && About(items[q].own.value.x) == id ==> q == p
    ensures Happens(s, Events(me, items), Writes(me, id)) <==>
              p < |items| && items[p].own.Some? && Succeeds(Arrival(s, me, items, p).table, items[p].own.value, id)
    ensures p < |items| && items[p].own.Some? && Succeeds(Arrival(s, me, items, p).table, items[p].own.value, id) ==>
              var t := Arrival(s, me, items, p).table;
              id in t && LeftBy(items[p].own.value, t[id], Run(s, Events(me, items)).table, id)
  {
    hide Inv;
    hide Happens;
    hide Writes;
    hide Becomes;
    hide Changes;
    hide Succeeds;
    hide Run;
    hide Apply;
    hide Fits;
    hide CanRead;
    hide Arrival;
    hide Events;
    hide GoodItem;
    hide LeftBy;
    PassWrites(s, me, items, id);
    forall q: nat | q < |items| && items[q].own.Some?
      ensures ChangedBy(s, me, items, id, q) <==> Succeeds(Arrival(s, me, items, q).table, items[q].own.value, id)
      ensures ChangedBy(s, me, items, id, q) ==> q == p
    {
      AfterItem(s, me, items, q);
      ChangesIff(Arrival(s, me, items, q), me, items[q].own.value, id);
      SucceedsAbout(Arrival(s, me, items, q).table, items[q].own.value, id);
    }
    if ChangedBy(s, me, items, id, p) {
      SucceedsAbout(Arrival(s, me, items, p).table, items[p].own.value, id);
      PassLeaves(s, me, items, id, p, items[p].own.value, Arrival(s, me, items, p).table[id]);
    }
  }

  // ---- How far a pass gets ---------------------------------------------------------------

  /** The number of items a pass reaches. */
  function Batch(n: nat, batch: int, cancelled: nat -> bool, i: nat): (b: nat)
    requires i <= n
    ensures i <= b <= n && (b == n || b >= batch || cancelled(b))
    decreases n - i
  {
    if i >= n || i >= batch || cancelled(i) then i else Batch(n, batch, cancelled, i + 1)
  }

  /** The pass gets to the p-th row: it is within the batch and the context has not
      ended before. */
  ghost predicate Reaches(c: Config, cancelled: nat -> bool, p: nat) {
    p < c.maxBatch && forall k: nat :: k <= p ==> !cancelled(k)
  }

  lemma {:induction false} BatchMeans(n: nat, batch: int, cancelled: nat -> bool, i: nat, p: nat)
    requires i <= p < n
    ensures p < Batch(n, batch, cancelled, i) <==> p < batch && forall k: nat :: i <= k <= p ==> !cancelled(k)
    decreases n - i
  {
    if i < p && i < batch && !cancelled(i) {
      BatchMeans(n, batch, cancelled, i + 1, p);
    }
  }

  lemma BatchIsReached(n: nat, c: Config, cancelled: nat -> bool)
    ensures forall p: nat :: p < n ==> (p < Batch(n, c.maxBatch, cancelled, 0) <==> Reaches(c, cancelled, p))
  {
    forall p: nat | p < n ensures p < Batch(n, c.maxBatch, cancelled, 0) <==> Reaches(c, cancelled, p) {
      BatchMeans(n, c.maxBatch, cancelled, 0, p);
    }
  }

  /** Versions of different rows with this status. */
  ghost predicate Rows(s: State, listed: seq<Execution>, status: Status) {
    && (forall v :: v in listed ==> v in s.versions && v.status == status)
    && (forall i, j :: 0 <= i < j < |listed| ==> listed[i].id != listed[j].id)
  }

  // ---- The timeout pass --------------------------------------------------------------

  function Cancelled(turns: nat -> Turn): nat -> bool {
    (k: nat) => turns(k).cancelled
  }

  function TimeoutItem(me: nat, c: Config, v: Execution, turn: Turn, parse: Clock): Item {
    Item(turn.before, if Overdue(c, v, turn.clock, parse) then Some(Own(TimingOut(v), TimeOut(me, turn.now, turn.net)))
      else None)
  }

  function TimeoutItems(me: nat, c: Config, listed: seq<Execution>, turns: nat -> Turn, parse: Clock): seq<Item> {
    seq(Batch(|listed|, c.maxBatch, Cancelled(turns), 0),
        i requires 0 <= i < |listed| => TimeoutItem(me, c, listed[i], turns(i), parse))
  }

  lemma TimeoutOneIsItem(s: State, me: nat, c: Config, v: Execution, turn: Turn, parse: Clock)
    ensures var item := TimeoutItem(me, c, v, turn, parse);
            TimeoutOne(s, me, c, v, turn, parse) == Run(s, item.before + OwnEvents(me, item))
  {
    hide Run;
    hide Apply;
    hide Overdue;
    var item := TimeoutItem(me, c, v, turn, parse);
    RunConcat(s, item.before, OwnEvents(me, item));
    if item.own.Some? {
      TwoEvents(Run(s, item.before), me, item.own.value);
    } else {
      NothingRuns(Run(s, item.before));
    }
  }

  lemma {:induction false} TimeoutIsItems(s: State, me: nat, c: Config, listed: seq<Execution>, turns: nat -> Turn,
                                          parse: Clock, i: nat)
    requires i <= |TimeoutItems(me, c, listed, turns, parse)|
    ensures var items := TimeoutItems(me, c, listed, turns, parse);
            TimeoutFrom(Run(s, Events(me, items[..i])), me, c, listed, i, turns, parse) == Run(s, Events(me, items))
    decreases |listed| - i
  {
    hide Run;
    hide TimeoutOne;
    hide TimeoutItem;
    var items := TimeoutItems(me, c, listed, turns, parse);
    if i < |items| {
      BatchIsReached(|listed|, c, Cancelled(turns));
      var s1 := Run(s, Events(me, items[..i]));
      assert Reaches(c, Cancelled(turns), i);
      assert !Cancelled(turns)(i);
      assert items[..i + 1][..i] == items[..i];
      TimeoutOneIsItem(s1, me, c, listed[i], turns(i), parse);
      RunConcat(s, Events(me, items[..i]), items[i].before + OwnEvents(me, items[i]));
      TimeoutIsItems(s, me, c, listed, turns, parse, i + 1);
    } else {
      assert items[..i] == items;
    }
  }

  lemma TimeoutItemsFacts(me: nat, c: Config, listed: seq<Execution>, turns: nat -> Turn, parse: Clock)
    ensures var items := TimeoutItems(me, c, listed, turns, parse);
            && |items| <= |listed|
            && (forall p: nat :: p < |listed| ==> (p < |items| <==> Reaches(c, Cancelled(turns), p)))
            && (forall p: nat :: p < |items| ==> items[p] == TimeoutItem(me, c, listed[p], turns(p), parse))
  {
    hide TimeoutItem;
    hide Reaches;
    BatchIsReached(|listed|, c, Cancelled(turns));
  }

  lemma TimeoutItemsAreGood(s: State, me: nat, c: Config, listed: seq<Execution>, turns: nat -> Turn, parse: Clock)
    requires Rows(s, listed, Dispatched) && forall k :: Foreign(turns(k).before, me)
    ensures GoodItems(s, me, TimeoutItems(me, c, listed, turns, parse))
  {
    hide Foreign;
    hide Overdue;
    var items := TimeoutItems(me, c, listed, turns, parse);
    forall p | 0 <= p < |items| ensures GoodItem(s, me, items[p]) {
      assert listed[p] in listed;
    }
  }

  /** A timeout pass sends a request about the p-th listed row exactly if it gets that
      far and finds the row overdue, and about nothing else, whatever others do. */
  lemma TimeoutSends(s: State, me: nat, c: Config, listed: seq<Execution>, turns: nat -> Turn, parse: Clock, p: nat,
                     x: Actor)
    requires Idle(s, me) && Rows(s, listed, Dispatched) && forall k :: Foreign(turns(k).before, me)
    ensures var es := Events(me, TimeoutItems(me, c, listed, turns, parse));
            && TimeoutFrom(s, me, c, listed, 0, turns, parse) == Run(s, es)
            && (p < |listed| ==>
                 (Happens(s, es, Sends(me, TimingOut(listed[p])))
                  <==> Reaches(c, Cancelled(turns), p) && Overdue(c, listed[p], turns(p).clock, parse)))
            && (Happens(s, es, Sends(me, x)) ==> x.TimingOut? && x.seen in listed)
  {
    hide Inv;
    hide Foreign;
    hide Overdue;
    hide Happens;
    hide Sends;
    hide Reaches;
    var items := TimeoutItems(me, c, listed, turns, parse);
    TimeoutIsItems(s, me, c, listed, turns, parse, 0);
    NothingRuns(s);
    assert items[..0] == [];
    TimeoutItemsAreGood(s, me, c, listed, turns, parse);
    TimeoutItemsFacts(me, c, listed, turns, parse);
    hide TimeoutItems;
    hide TimeoutFrom;
    hide Rows;
    hide GoodItems;
    PassSends(s, me, items, x);
    if p < |listed| {
      PassSends(s, me, items, TimingOut(listed[p]));
    }
  }

  lemma TimeoutItemMeans(me: nat, c: Config, v: Execution, turn: Turn, parse: Clock, t: Table, r: Execution)
    ensures var own := TimeoutItem(me, c, v, turn, parse).own;
            && (own.Some? <==> Overdue(c, v, turn.clock, parse))
            && (own.Some? ==>
                  && About(own.value.x) == v.id
                  && (Succeeds(t, own.value, v.id) <==> turn.net != Dropped && Has(t, v.id, Dispatched))
                  && Becomes(own.value, r) == Moved(r, TimedOut, turn.now))
  {
    hide Overdue;
    hide Moved;
  }

  /** ... and it writes the row exactly if that request arrives while the row is still
      dispatched, which is then timed out; it writes no row it did not list. */
  lemma TimeoutWrites(s: State, me: nat, c: Config, listed: seq<Execution>, turns: nat -> Turn, parse: Clock, p: nat,
                      other: string)
    requires Idle(s, me) && Rows(s, listed, Dispatched) && (forall k :: Foreign(turns(k).before, me)) && p < |listed|
    ensures var items, id := TimeoutItems(me, c, listed, turns, parse), listed[p].id;
            var s' := TimeoutFrom(s, me, c, listed, 0, turns, parse);
            && s' == Run(s, Events(me, items))
            && (p < |items| <==> Reaches(c, Cancelled(turns), p))
            && (Happens(s, Events(me, items), Writes(me, id))
                <==> && p < |items| && Overdue(c, listed[p], turns(p).clock, parse) && turns(p).net != Dropped
                     && Has(Arrival(s, me, items, p).table, id, Dispatched))
            && (Happens(s, Events(me, items), Writes(me, id)) ==>
                  id in s'.table && EndsAs(s'.table[id],
                    Moved(Arrival(s, me, items, p).table[id], TimedOut, turns(p).now)))
            && (Happens(s, Events(me, items), Writes(me, other)) ==> exists v :: v in listed && v.id == other)
  {
    hide Inv;
    hide Foreign;
    hide Overdue;
    hide Happens;
    hide Writes;
    hide Reaches;
    hide Moved;
    hide Arrival;
    hide EndsAs;
    hide Becomes;
    hide Succeeds;
    hide Has;
    var items, id := TimeoutItems(me, c, listed, turns, parse), listed[p].id;
    TimeoutIsItems(s, me, c, listed, turns, parse, 0);
    NothingRuns(s);
    assert items[..0] == [];
    TimeoutItemsAreGood(s, me, c, listed, turns, parse);
    TimeoutItemsFacts(me, c, listed, turns, parse);
    hide TimeoutItems;
    hide TimeoutFrom;
    hide GoodItems;
    forall q: nat | q < |items| && items[q].own.Some? ensures About(items[q].own.value.x) == listed[q].id {
      TimeoutItemMeans(me, c, listed[q], turns(q), parse, map[], listed[q]);
    }
    ItemWrites(s, me, items, id, p);
    if p < |items| {
      var t := Arrival(s, me, items, p).table;
      TimeoutItemMeans(me, c, listed[p], turns(p), parse, t, if id in t then t[id] else listed[p]);
    }
    hide TimeoutItem;
    if forall v :: v in listed ==> v.id != other {
      forall q: nat | q < |items| && items[q].own.Some? ensures About(items[q].own.value.x) != other {
        assert listed[q] in listed;
      }
      ItemWrites(s, me, items, other, |items|);
    }
  }

  // ---- The polling pass ----------------------------------------------------------------

  function PollCancelled(turns: nat -> PollTurn): nat -> bool {
    (k: nat) => turns(k).turn.cancelled
  }

  function PollItem(me: nat, v: Execution, turn: PollTurn, parse: Clock): Item {
    Item(turn.turn.before,
         if turn.job.None? || JobStatus(turn.job.value).None? then None
         else Some(Own(Polling(v),
           Poll(me, JobStatus(turn.job.value).value, turn.turn.now, PollUpdates(v, turn, parse), turn.turn.net))))
  }

  function PollItems(me: nat, c: Config, listed: seq<Execution>, turns: nat -> PollTurn, parse: Clock): seq<Item> {
    seq(Batch(|listed|, c.maxBatch, PollCancelled(turns), 0),
        i requires 0 <= i < |listed| => PollItem(me, listed[i], turns(i), parse))
  }

  lemma PollOneIsItem(s: State, me: nat, v: Execution, turn: PollTurn, parse: Clock)
    ensures var item := PollItem(me, v, turn, parse);
            PollOne(s, me, v, turn, parse) == Run(s, item.before + OwnEvents(me, item))
  {
    hide Run;
    hide Apply;
    hide JobStatus;
    hide PollUpdates;
    var item := PollItem(me, v, turn, parse);
    RunConcat(s, item.before, OwnEvents(me, item));
    if item.own.Some? {
      TwoEvents(Run(s, item.before), me, item.own.value);
    } else {
      NothingRuns(Run(s, item.before));
    }
  }

  lemma {:induction false} PollIsItems(s: State, me: nat, c: Config, listed: seq<Execution>, turns: nat -> PollTurn,
                                       parse: Clock, i: nat)
    requires i <= |PollItems(me, c, listed, turns, parse)|
    ensures var items := PollItems(me, c, listed, turns, parse);
            PollFrom(Run(s, Events(me, items[..i])), me, c, listed, i, turns, parse) == Run(s, Events(me, items))
    decreases |listed| - i
  {
    hide Run;
    hide PollOne;
    hide PollItem;
    var items := PollItems(me, c, listed, turns, parse);
    if i < |items| {
      BatchIsReached(|listed|, c, PollCancelled(turns));
      var s1 := Run(s, Events(me, items[..i]));
      assert Reaches(c, PollCancelled(turns), i);
      assert !PollCancelled(turns)(i);
      assert items[..i + 1][..i] == items[..i];
      PollOneIsItem(s1, me, listed[i], turns(i), parse);
      RunConcat(s, Events(me, items[..i]), items[i].before + OwnEvents(me, items[i]));
      PollIsItems(s, me, c, listed, turns, parse, i + 1);
    } else {
      assert items[..i] == items;
    }
  }

  lemma PollItemsFacts(me: nat, c: Config, listed: seq<Execution>, turns: nat -> PollTurn, parse: Clock)
    ensures var items := PollItems(me, c, listed, turns, parse);
            && |items| <= |listed|
            && (forall p: nat :: p < |listed| ==> (p < |items| <==> Reaches(c, PollCancelled(turns), p)))
            && (forall p: nat :: p < |items| ==> items[p] == PollItem(me, listed[p], turns(p), parse))
  {
    hide PollItem;
    hide Reaches;
    BatchIsReached(|listed|, c, PollCancelled(turns));
  }

  lemma PollItemIsGood(s: State, me: nat, v: Execution, turn: PollTurn, parse: Clock)
    requires Foreign(turn.turn.before, me) && v in s.versions && v.status == Dispatched && v.request.mode == Async
    ensures GoodItem(s, me, PollItem(me, v, turn, parse))
  {
    hide Foreign;
    if turn.job.Some? {
      JobStatusKind(turn.job.value);
    }
    hide JobStatus;
  }

  lemma PollItemsAreGood(s: State, me: nat, c: Config, listed: seq<Execution>, turns: nat -> PollTurn, parse: Clock)
    requires Rows(s, listed, Dispatched) && (forall v :: v in listed ==> v.request.mode == Async)
    requires forall k :: Foreign(turns(k).turn.before, me)
    ensures GoodItems(s, me, PollItems(me, c, listed, turns, parse))
  {
    hide Foreign;
    PollItemsFacts(me, c, listed, turns, parse);
    var items := PollItems(me, c, listed, turns, parse);
    hide PollItems;
    hide GoodItem;
    hide PollItem;
    forall p | 0 <= p < |items| ensures GoodItem(s, me, items[p]) {
      assert listed[p] in listed;
      PollItemIsGood(s, me, listed[p], turns(p), parse);
    }
  }

  /** Its job is there and has ended. */
  ghost predicate JobEnded(turn: PollTurn) {
    turn.job.Some? && exists x :: Finished(turn.job.value, x)
  }

  lemma PollItemMeans(me: nat, v: Execution, turn: PollTurn, parse: Clock, t: Table, r: Execution, x: Status)
    ensures var own := PollItem(me, v, turn, parse).own;
            && (own.Some? <==> JobEnded(turn))
            && (own.Some? ==>
                  && About(own.value.x) == v.id
                  && (Succeeds(t, own.value, v.id) <==> turn.turn.net != Dropped && Has(t, v.id, Dispatched))
                  && (Finished(turn.job.value, x) ==>
                        Becomes(own.value, r) == Updated(Moved(r, x, turn.turn.now), PollUpdates(v, turn, parse))))
  {
    hide Updated;
    hide Moved;
    hide Finished;
    hide PollUpdates;
    if turn.job.Some? {
      JobStatusMeaning(turn.job.value, x);
      if JobStatus(turn.job.value).Some? {
        JobStatusMeaning(turn.job.value, JobStatus(turn.job.value).value);
      }
      forall y | Finished(turn.job.value, y) ensures JobStatus(turn.job.value) == Some(y) {
        JobStatusMeaning(turn.job.value, y);
      }
    }
    hide JobStatus;
  }

  /** The row of an execution whose job ended with this status. */
  predicate RecordsJob(r: Execution, before: Execution, v: Execution, turn: PollTurn, parse: Clock, x: Status) {
    && r.status == x && r.completedAt == turn.turn.now && r.request == before.request
    && r.metadata.durationMs == (if v.dispatchedAt != "" && parse(v.dispatchedAt).Some? then turn.elapsed else 0)
    && r.metadata.outputBytes == (if turn.outputBytes > 0 then turn.outputBytes else before.metadata.outputBytes)
    && r.metadata.outputFormat == (if turn.outputBytes > 0 then turn.format else before.metadata.outputFormat)
    && r.metadata.logBytes == (if turn.logBytes > 0 then turn.logBytes else before.metadata.logBytes)
  }

  lemma UpdatedRecords(r: Execution, before: Execution, v: Execution, turn: PollTurn, parse: Clock, x: Status)
    requires x.Completes() && EndsAs(r, Updated(Moved(before, x, turn.turn.now), PollUpdates(v, turn, parse)))
    ensures RecordsJob(r, before, v, turn, parse, x)
  {
    hide StatusKey;
  }

  lemma FinishedCompletes(conditions: seq<Condition>, x: Status)
    requires Finished(conditions, x)
    ensures x.Completes()
  {
  }

  /** A polling pass writes the p-th asynchronous row exactly if it gets that far, finds
      the row's job ended, and its request arrives while the row is still dispatched;
      the row then ends with the job's status, its own sizes and the duration since
      its dispatch. It writes no row it did not list. */
  lemma PollWrites(s: State, me: nat, c: Config, listed: seq<Execution>, turns: nat -> PollTurn, parse: Clock, p: nat,
                   other: string, x: Status)
    requires Idle(s, me) && Rows(s, listed, Dispatched) && (forall v :: v in listed ==> v.request.mode == Async)
    requires (forall k :: Foreign(turns(k).turn.before, me)) && p < |listed|
    ensures var items, id := PollItems(me, c, listed, turns, parse), listed[p].id;
            var s' := PollFrom(s, me, c, listed, 0, turns, parse);
            && s' == Run(s, Events(me, items))
            && (p < |items| <==> Reaches(c, PollCancelled(turns), p))
            && (Happens(s, Events(me, items), Writes(me, id))
                <==> && p < |items| && JobEnded(turns(p)) && turns(p).turn.net != Dropped
                     && Has(Arrival(s, me, items, p).table, id, Dispatched))
            && (Happens(s, Events(me, items), Writes(me, id)) && Finished(turns(p).job.value, x) ==>
                  id in s'.table && RecordsJob(s'.table[id], Arrival(s, me, items, p).table[id], listed[p], turns(p),
                    parse, x))
            && (Happens(s, Events(me, items), Writes(me, other)) ==> exists v :: v in listed && v.id == other)
  {
    hide Inv;
    hide Foreign;
    hide Happens;
    hide Writes;
    hide Reaches;
    hide Moved;
    hide Updated;
    hide PollUpdates;
    hide Arrival;
    hide EndsAs;
    hide Becomes;
    hide Succeeds;
    hide Has;
    hide JobStatus;
    hide Finished;
    hide RecordsJob;
    var items, id := PollItems(me, c, listed, turns, parse), listed[p].id;
    PollIsItems(s, me, c, listed, turns, parse, 0);
    NothingRuns(s);
    assert items[..0] == [];
    PollItemsAreGood(s, me, c, listed, turns, parse);
    PollItemsFacts(me, c, listed, turns, parse);
    hide PollItems;
    hide PollFrom;
    hide GoodItems;
    hide PollItem;
    forall q: nat | q < |items| && items[q].own.Some? ensures About(items[q].own.value.x) == listed[q].id {
      PollItemMeans(me, listed[q], turns(q), parse, map[], listed[q], x);
    }
    ItemWrites(s, me, items, id, p);
    if p < |items| {
      var t := Arrival(s, me, items, p).table;
      PollItemMeans(me, listed[p], turns(p), parse, t, if id in t then t[id] else listed[p], x);
      hide JobEnded;
      if Happens(s, Events(me, items), Writes(me, id)) && Finished(turns(p).job.value, x) {
        FinishedCompletes(turns(p).job.value, x);
        UpdatedRecords(Run(s, Events(me, items)).table[id], t[id], listed[p], turns(p), parse, x);
      }
    }
    if forall v :: v in listed ==> v.id != other {
      forall q: nat | q < |items| && items[q].own.Some? ensures About(items[q].own.value.x) != other {
        assert listed[q] in listed;
      }
      ItemWrites(s, me, items, other, |items|);
    }
  }

  /** The rows a tick polls: the dispatched asynchronous ones of its target, each once,
      in the order of the index. */
  lemma AsyncRows(s: State, listed: seq<Execution>, target: string)
    requires Inv(s) && IsScan(listed, s.table, target, Dispatched.Text() + "#")
    ensures Rows(s, listed, Dispatched) && Rows(s, AsyncOnly(listed), Dispatched)
    ensures forall i, j :: 0 <= i < j < |AsyncOnly(listed)| ==>
              Le(AsyncOnly(listed)[i].targetStatusKey, AsyncOnly(listed)[j].targetStatusKey)
    ensures forall v: Execution :: v in AsyncOnly(listed) <==>
              v.id in s.table && s.table[v.id] == v && v.request.target == target && v.status == Dispatched
                && v.request.mode == Async
  {
    ListedFacts(s, listed, target, Dispatched);
    hide IsScan;
    hide Inv;
    AsyncMembers(listed);
    AsyncOnce(listed);
    hide AsyncOnly;
  }

  lemma {:induction false} AsyncOnce(listed: seq<Execution>)
    requires forall i, j :: 0 <= i < j < |listed| ==> listed[i].id != listed[j].id
    requires forall i, j :: 0 <= i < j < |listed| ==> Le(listed[i].targetStatusKey, listed[j].targetStatusKey)
    ensures forall i, j :: 0 <= i < j < |AsyncOnly(listed)| ==> AsyncOnly(listed)[i].id != AsyncOnly(listed)[j].id
    ensures forall i, j :: 0 <= i < j < |AsyncOnly(listed)| ==>
              Le(AsyncOnly(listed)[i].targetStatusKey, AsyncOnly(listed)[j].targetStatusKey)
    decreases |listed|
  {
    if listed != [] {
      var front, last := listed[..|listed| - 1], listed[|listed| - 1];
      AsyncOnce(front);
      AsyncMembers(front);
      forall i | 0 <= i < |AsyncOnly(front)|
        ensures AsyncOnly(front)[i].id != last.id && Le(AsyncOnly(front)[i].targetStatusKey, last.targetStatusKey)
      {
        assert AsyncOnly(front)[i] in front;
      }
    }
  }

  // ---- The collection ------------------------------------------------------------------

  function CollectItem(me: nat, v: Execution, turn: Turn): Item {
    Item(turn.before, Some(Own(Collecting(v), Collect(me, turn.now, turn.net))))
  }

  function CollectItems(me: nat, c: Config, listed: seq<Execution>, turns: nat -> Turn): seq<Item> {
    seq(Batch(|listed|, c.maxBatch, Cancelled(turns), 0), i
      requires 0 <= i < |listed| => CollectItem(me, listed[i], turns(i)))
  }

  lemma CollectOneIsItem(s: State, me: nat, v: Execution, turn: Turn)
    ensures var item := CollectItem(me, v, turn);
              CollectOne(s, me, v, turn) == Run(s, item.before + OwnEvents(me, item))
  {
    hide Run;
    hide Apply;
    var item := CollectItem(me, v, turn);
    RunConcat(s, item.before, OwnEvents(me, item));
    TwoEvents(Run(s, item.before), me, item.own.value);
  }

  lemma {:induction false} CollectIsItems(s: State, me: nat, c: Config, listed: seq<Execution>, turns: nat -> Turn,
                                          i: nat)
    requires i <= |CollectItems(me, c, listed, turns)|
    ensures var items := CollectItems(me, c, listed, turns);
            CollectFrom(Run(s, Events(me, items[..i])), me, c, listed, i, turns) == Run(s, Events(me, items))
    decreases |listed| - i
  {
    hide Run;
    hide CollectOne;
    hide CollectItem;
    var items := CollectItems(me, c, listed, turns);
    if i < |items| {
      BatchIsReached(|listed|, c, Cancelled(turns));
      var s1 := Run(s, Events(me, items[..i]));
      assert Reaches(c, Cancelled(turns), i);
      assert !Cancelled(turns)(i);
      assert items[..i + 1][..i] == items[..i];
      CollectOneIsItem(s1, me, listed[i], turns(i));
      RunConcat(s, Events(me, items[..i]), items[i].before + OwnEvents(me, items[i]));
      CollectIsItems(s, me, c, listed, turns, i + 1);
    } else {
      assert items[..i] == items;
    }
  }

  /** Versions of different finished rows that were not cleaned. */
  ghost predicate Collectables(s: State, listed: seq<Execution>) {
    && (forall v :: v in listed ==> v in s.versions && v.status.Completes() && !v.cleaned)
    && (forall i, j :: 0 <= i < j < |listed| ==> listed[i].id != listed[j].id)
  }

  lemma CollectItemsFacts(s: State, me: nat, c: Config, listed: seq<Execution>, turns: nat -> Turn)
    requires Collectables(s, listed) && forall k :: Foreign(turns(k).before, me)
    ensures var items := CollectItems(me, c, listed, turns);
            && |items| <= |listed| && GoodItems(s, me, items)
            && (forall p: nat :: p < |listed| ==> (p < |items| <==> Reaches(c, Cancelled(turns), p)))
            && (forall p: nat :: p < |items| ==> items[p] == CollectItem(me, listed[p], turns(p)))
  {
    hide Foreign;
    hide Reaches;
    BatchIsReached(|listed|, c, Cancelled(turns));
    var items := CollectItems(me, c, listed, turns);
    forall p | 0 <= p < |items| ensures GoodItem(s, me, items[p]) {
      assert listed[p] in listed;
    }
  }

  /** A collection sends a request about the p-th listed row exactly if it gets that far,
      and about nothing else, whatever others do. */
  lemma CollectSends(s: State, me: nat, c: Config, listed: seq<Execution>, turns: nat -> Turn, p: nat, x: Actor)
    requires Idle(s, me) && Collectables(s, listed) && forall k :: Foreign(turns(k).before, me)
    ensures var es := Events(me, CollectItems(me, c, listed, turns));
            && CollectFrom(s, me, c, listed, 0, turns) == Run(s, es)
            && (p < |listed| ==> (Happens(s, es, Sends(me, Collecting(listed[p])))
                  <==> Reaches(c, Cancelled(turns), p)))
            && (Happens(s, es, Sends(me, x)) ==>
                  exists q: nat :: q < |listed| && Reaches(c, Cancelled(turns), q) && x == Collecting(listed[q]))
  {
    hide Inv;
    hide Foreign;
    hide Happens;
    hide Sends;
    hide Reaches;
    var items := CollectItems(me, c, listed, turns);
    CollectIsItems(s, me, c, listed, turns, 0);
    NothingRuns(s);
    assert items[..0] == [];
    CollectItemsFacts(s, me, c, listed, turns);
    hide CollectItems;
    hide CollectFrom;
    hide GoodItems;
    PassSends(s, me, items, x);
    if p < |listed| {
      PassSends(s, me, items, Collecting(listed[p]));
    }
  }

  lemma CollectItemMeans(me: nat, v: Execution, turn: Turn, t: Table, r: Execution)
    ensures var own := CollectItem(me, v, turn).own.value;
            && About(own.x) == v.id
            && (Succeeds(t, own, v.id) <==> turn.net != Dropped && v.id in t && !t[v.id].cleaned)
            && own.e.Collect? && Becomes(own, r) == r.(cleaned := true, cleanedAt := turn.now)
  {
  }

  /** ... and it marks the row exactly if that request arrives before any other
      collector's; it writes no row it did not list. */
  lemma CollectWrites(s: State, me: nat, c: Config, listed: seq<Execution>, turns: nat -> Turn, p: nat, other: string)
    requires Idle(s, me) && Collectables(s, listed) && (forall k :: Foreign(turns(k).before, me)) && p < |listed|
    ensures var items, id := CollectItems(me, c, listed, turns), listed[p].id;
            var s' := CollectFrom(s, me, c, listed, 0, turns);
            && s' == Run(s, Events(me, items))
            && (p < |items| <==> Reaches(c, Cancelled(turns), p))
            && (Happens(s, Events(me, items), Writes(me, id))
                <==> && p < |items| && turns(p).net != Dropped
                     && id in Arrival(s, me, items, p).table && !Arrival(s, me, items, p).table[id].cleaned)
            && (Happens(s, Events(me, items), Writes(me, id)) ==>
                  && id in s'.table
                  && s'.table[id] == Arrival(s, me, items, p).table[id].(cleaned := true, cleanedAt := turns(p).now))
            && (Happens(s, Events(me, items), Writes(me, other)) ==> exists v :: v in listed && v.id == other)
  {
    hide Inv;
    hide Foreign;
    hide Happens;
    hide Writes;
    hide Reaches;
    hide Arrival;
    hide Becomes;
    hide Succeeds;
    var items, id := CollectItems(me, c, listed, turns), listed[p].id;
    CollectIsItems(s, me, c, listed, turns, 0);
    NothingRuns(s);
    assert items[..0] == [];
    CollectItemsFacts(s, me, c, listed, turns);
    hide CollectItems;
    hide CollectFrom;
    hide GoodItems;
    ItemWrites(s, me, items, id, p);
    if p < |items| {
      var t := Arrival(s, me, items, p).table;
      CollectItemMeans(me, listed[p], turns(p), t, if id in t then t[id] else listed[p]);
    }
    if forall v :: v in listed ==> v.id != other {
      forall q: nat | q < |items| && items[q].own.Some? ensures About(items[q].own.value.x) != other {
        assert listed[q] in listed;
      }
      ItemWrites(s, me, items, other, |items|);
    }
  }
}
