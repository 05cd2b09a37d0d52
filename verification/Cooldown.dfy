/** The write cooldown of handleCreate: no second write to the same target,
    action and params within the cooldown, across any number of midnights. */
module Cooldown {
  import opened Lex
  import opened Timestamps
  import opened Wrappers
  import opened Listing
  import opened ListingTheorems

  type Params = map<string, string>

  // ---- Matching params -----------------------------------------------------------

  /** A Go map read: missing keys give the empty string. */
  function Lookup(m: Params, k: string): string {
    if k in m then m[k] else ""
  }

  predicate Matches(a: Params, b: Params) {
    |a| == |b| && forall k :: k in a ==> Lookup(b, k) == a[k]
  }

  method ParamsMatch(a: Params, b: Params) returns (ok: bool)
    ensures ok == Matches(a, b)
  {
    if |a| != |b| {
      return false;
    }
    var todo := a.Keys;
    while todo != {}
      invariant todo <= a.Keys
      invariant forall k :: k in a && k !in todo ==> Lookup(b, k) == a[k]
      decreases |todo|
    {
      var k :| k in todo;
      if Lookup(b, k) != a[k] {
        return false;
      }
      todo := todo - {k};
    }
    return true;
  }

  /** Equal maps match. */
  lemma EqualParamsMatch(a: Params)
    ensures Matches(a, a)
  {
  }

  lemma SameSizeSubset(a: set<string>, b: set<string>)
    requires a <= b && |a| == |b|
    ensures a == b
  {
    assert b == a + (b - a);
  }

  lemma {:induction false} FreshKey(keys: set<string>, n: nat) returns (k: string)
    ensures k !in keys && |k| >= n
    decreases |keys|
  {
    var candidate := seq(n, i => 'x');
    if candidate in keys {
      k := FreshKey(keys - {candidate}, n + 1);
    } else {
      k := candidate;
    }
  }

  /** Matching tells different maps apart exactly for maps without empty values:
      an empty value matches any key that is missing on the other side. */
  lemma MatchIsEqualityIffNoEmptyValue(a: Params)
    ensures (forall b :: Matches(a, b) ==> a == b) <==> (forall k :: k in a ==> a[k] != "")
  {
    if forall k :: k in a ==> a[k] != "" {
      forall b | Matches(a, b) ensures a == b {
        assert a.Keys <= b.Keys;
        assert |a.Keys| == |a| && |b.Keys| == |b|;
        SameSizeSubset(a.Keys, b.Keys);
      }
    } else {
      var k :| k in a && a[k] == "";
      var other := FreshKey(a.Keys, 0);
      var rest := a - {k};
      var b := rest[other := ""];
      assert a.Keys == rest.Keys + {k} && b.Keys == rest.Keys + {other};
      assert |a| == |a.Keys| && |b| == |b.Keys|;
      assert Matches(a, b) && a != b;
    }
  }

  // ---- One call -------------------------------------------------------------------

  /** A create call and, once admitted, the attributes of its execution row. */
  datatype Call = Call(target: string, action: string, write: bool, params: Params, forced: bool, dryRun: bool,
                       cooldown: nat, checkedAt: Instant, createdAt: Instant)
  {
    function Since(): Instant
      requires cooldown * SECOND <= checkedAt
    {
      checkedAt - cooldown * SECOND
    }
  }

  predicate Checked(c: Call) {
    c.write && !c.forced && !c.dryRun
  }

  /** An earlier row that keeps a checked call out: a real execution of the same
      target, action and params at or after now - cooldown in index order. */
  predicate Blocks(e: Call, c: Call)
    requires c.cooldown * SECOND <= c.checkedAt
  {
    && e.target == c.target && e.action == c.action && !e.dryRun && Matches(e.params, c.params)
    && Le(Format(c.Since()), Format(e.createdAt))
  }

  function Filed(e: Call): Row<Call> {
    Row(Format(e.createdAt)[..10], Format(e.createdAt), e)
  }

  function Table(log: seq<Call>): seq<Row<Call>> {
    seq(|log|, i requires 0 <= i < |log| => Filed(log[i]))
  }

  function Recent(c: Call): Query<Call>
    requires c.cooldown * SECOND <= c.checkedAt
  {
    Request(c.Since(), None, c.checkedAt, (e: Call) => e.target == c.target && e.action == c.action, 0)
  }

  method ListByTargetAndAction(index: Index<Call>, c: Call) returns (recent: seq<Row<Call>>)
    requires c.cooldown * SECOND <= c.checkedAt
    ensures recent == Listed(index, Recent(c))
  {
    recent := ListAllByDateBucket(index, Recent(c));
  }

  /** Skips dry runs, keeps the rows whose params match. */
  method FilterMatchingParams(recent: seq<Row<Call>>, params: Params) returns (matching: seq<Row<Call>>)
    ensures forall r :: r in matching <==> r in recent && !r.item.dryRun && Matches(r.item.params, params)
  {
    matching := [];
    for i := 0 to |recent|
      invariant forall r :: r in matching <==> r in recent[..i] && !r.item.dryRun && Matches(r.item.params, params)
    {
      if !recent[i].item.dryRun {
        var same := ParamsMatch(recent[i].item.params, params);
        if same {
          matching := matching + [recent[i]];
        }
      }
    }
    assert recent[..|recent|] == recent;
  }

  /** The clock is printable and every row so far was created no later. */
  predicate InOrder(log: seq<Call>, c: Call) {
    && Printable(c.checkedAt) && c.cooldown * SECOND <= c.checkedAt <= c.createdAt && Printable(c.createdAt)
    && forall e :: e in log ==> e.createdAt <= c.checkedAt
  }

  lemma {:induction false} InUpToIff(rows: seq<Row<Call>>, q: Query<Call>, dayOf: DayOf<Call>, day: int, r: Row<Call>)
    ensures r in UpTo(rows, q, dayOf, day) <==> r in rows && dayOf(r) <= day && Wanted(q, r)
  {
    if r in rows && dayOf(r) <= day && Wanted(q, r) {
      InUpTo(rows, q, dayOf, day, r);
    }
  }

  lemma TableIsFiled(log: seq<Call>, c: Call)
    requires InOrder(log, c)
    ensures forall r :: r in Table(log) ==> CreatedAt(r, r.item.createdAt) && r == Filed(r.item) && r.item in log
    ensures forall e :: e in log ==> Filed(e) in Table(log)
  {
    forall r | r in Table(log) ensures CreatedAt(r, r.item.createdAt) && r == Filed(r.item) && r.item in log {
      var i :| 0 <= i < |log| && Table(log)[i] == r;
      EarlierIsPrintable(log[i].createdAt, c.checkedAt);
    }
    forall e | e in log ensures Filed(e) in Table(log) {
      var i :| 0 <= i < |log| && log[i] == e;
      assert Table(log)[i] == Filed(e);
    }
  }

  function CreatedDay(): DayOf<Call> {
    (r: Row<Call>) => r.item.createdAt / DAY
  }

  lemma RecentIsDated(log: seq<Call>, c: Call)
    requires InOrder(log, c)
    ensures Dated(Table(log), CreatedDay(), Recent(c))
  {
    TableIsFiled(log, c);
    EarlierIsPrintable(c.Since(), c.checkedAt);
    RequestStartsAt(c.Since(), None, c.checkedAt, Recent(c).keep, 0);
    hide Format;
    hide Table;
    hide Dated;
    hide CreatedAt;
    ClockRowsAreDated(Table(log), (r: Row<Call>) => r.item.createdAt, CreatedDay(), Recent(c), c.Since());
  }

  lemma ScanMembership(log: seq<Call>, c: Call, r: Row<Call>)
    ensures var rows := UpTo(Table(log), Recent(c), CreatedDay(), Recent(c).endDay);
            r in NewestFirst(rows) <==> r in Table(log) && CreatedDay()(r) <= Recent(c).endDay && Wanted(Recent(c), r)
    requires c.cooldown * SECOND <= c.checkedAt
  {
    hide Recent;
    hide Table;
    hide CreatedDay;
    var rows := UpTo(Table(log), Recent(c), CreatedDay(), Recent(c).endDay);
    NewestFirstSorts(rows);
    InUpToIff(Table(log), Recent(c), CreatedDay(), Recent(c).endDay, r);
    assert r in NewestFirst(rows) <==> r in multiset(rows);
  }

  lemma RecentMeans(c: Call, e: Call)
    requires c.cooldown * SECOND <= c.checkedAt
    ensures Wanted(Recent(c), Filed(e))
            <==> e.target == c.target && e.action == c.action && Le(Format(c.Since()), Format(e.createdAt))
    ensures e.createdAt <= c.checkedAt ==> CreatedDay()(Filed(e)) <= Recent(c).endDay
    ensures Recent(c).limit == 0
  {
    hide Format;
  }

  /** The listing finds exactly the rows of the target and action that are recent. */
  lemma ListedIsRecent(log: seq<Call>, index: Index<Call>, c: Call, e: Call)
    requires InOrder(log, c)
    requires Serves(index, Table(log), Recent(c)) && Complete(index, Recent(c), Recent(c).endDay)
    ensures Filed(e) in Listed(index, Recent(c))
            <==> e in log && e.target == c.target && e.action == c.action && Le(Format(c.Since()), Format(e.createdAt))
  {
    RecentIsDated(log, c);
    ListingIsFlatScan(index, Table(log), Recent(c), CreatedDay());
    ScanMembership(log, c, Filed(e));
    TableIsFiled(log, c);
    RecentMeans(c, e);
    hide Format;
    hide Table;
    hide Recent;
    hide UpTo;
    hide NewestFirst;
    hide Listed;
    hide Wanted;
    hide CreatedDay;
    hide Serves;
    hide Complete;
    hide Dated;
    hide Filed;
    assert (Filed(e) in Table(log)) <==> e in log by {
      FiledKeepsCall(e);
    }
  }

  lemma FiledKeepsCall(e: Call)
    ensures Filed(e).item == e
  {
  }

  // ---- The check -----------------------------------------------------------------------

  predicate Admitted(log: seq<Call>, c: Call)
    requires c.cooldown * SECOND <= c.checkedAt
  {
    Checked(c) ==> forall e :: e in log ==> !Blocks(e, c)
  }

  /** The cooldown step of handleCreate on exact, uncut buckets: it lets a write
      through exactly when no earlier execution blocks it. */
  method CheckCooldown(ghost log: seq<Call>, index: Index<Call>, c: Call) returns (ok: bool)
    requires InOrder(log, c)
    requires Serves(index, Table(log), Recent(c)) && Complete(index, Recent(c), Recent(c).endDay)
    ensures ok == Admitted(log, c)
  {
    if !Checked(c) {
      return true;
    }
    var recent := ListByTargetAndAction(index, c);
    var matching := FilterMatchingParams(recent, c.params);
    ok := |matching| == 0;
    CheckIsExact(log, index, c, recent, matching);
  }

  lemma CheckIsExact(log: seq<Call>, index: Index<Call>, c: Call, recent: seq<Row<Call>>, matching: seq<Row<Call>>)
    requires InOrder(log, c) && Checked(c)
    requires Serves(index, Table(log), Recent(c)) && Complete(index, Recent(c), Recent(c).endDay)
    requires recent == Listed(index, Recent(c))
    requires forall r :: r in matching <==> r in recent && !r.item.dryRun && Matches(r.item.params, c.params)
    ensures matching == [] <==> Admitted(log, c)
  {
    hide Format;
    hide Recent;
    hide Table;
    hide Listed;
    hide Matches;
    hide Complete;
    hide Serves;
    RecentIsDated(log, c);
    ListingIsSound(index, Table(log), Recent(c), CreatedDay());
    TableIsFiled(log, c);
    if matching != [] {
      var r := matching[0];
      assert r in matching;
      ListedIsRecent(log, index, c, r.item);
      assert Blocks(r.item, c);
    }
    forall e | e in log && Blocks(e, c) ensures matching != [] {
      ListedIsRecent(log, index, c, e);
      FiledKeepsCall(e);
      assert Filed(e) in matching;
    }
  }

  // ---- Serialised calls -----------------------------------------------------------------

  /** The executions recorded by calls handled one after another. */
  function Handled(calls: seq<Call>): seq<Call>
    requires Serialised(calls)
    decreases |calls|
  {
    if calls == [] then []
    else
      var log, c := Handled(calls[..|calls| - 1]), calls[|calls| - 1];
      if Admitted(log, c) then log + [c] else log
  }

  /** Each call checks after the previous one created its row. */
  predicate Serialised(calls: seq<Call>)
  {
    && (forall i :: 0 <= i < |calls| ==>
          calls[i].cooldown * SECOND <= calls[i].checkedAt <= calls[i].createdAt && Printable(calls[i].createdAt))
    && (forall i, j :: 0 <= i < j < |calls| ==> calls[i].createdAt <= calls[j].checkedAt)
  }

  /** Of two recorded executions with equal target, action and params, neither a
      dry run, a later unforced write was checked more than its cooldown less a
      second after the earlier one was created. */
  lemma {:induction false} CooldownHolds(calls: seq<Call>, i: nat, j: nat)
    requires Serialised(calls) && i < j < |Handled(calls)|
    requires var e, c := Handled(calls)[i], Handled(calls)[j];
             Checked(c) && !e.dryRun && e.target == c.target && e.action == c.action && e.params == c.params
    ensures var e, c := Handled(calls)[i], Handled(calls)[j];
            && c.cooldown * SECOND <= c.checkedAt && Lt(Format(e.createdAt), Format(c.Since()))
            && c.checkedAt + SECOND > e.createdAt + c.cooldown * SECOND
    decreases |calls|
  {
    hide Format;
    var before, c := calls[..|calls| - 1], calls[|calls| - 1];
    assert Serialised(before);
    var log := Handled(before);
    if j < |log| {
      CooldownHolds(before, i, j);
    } else {
      var e := log[i];
      assert e in log && !Blocks(e, c);
      EqualParamsMatch(c.params);
      LeOrLt(Format(c.Since()), Format(e.createdAt));
      HandledAreCalls(before, e);
      assert calls[|calls| - 1] == c;
      BeforeInKeyIsBeforeInTime(e.createdAt, c.Since());
    }
  }

  lemma {:induction false} HandledAreCalls(calls: seq<Call>, e: Call)
    requires Serialised(calls) && e in Handled(calls)
    ensures e in calls
    decreases |calls|
  {
    var before := calls[..|calls| - 1];
    if e in Handled(before) {
      HandledAreCalls(before, e);
    }
  }

  lemma BeforeInKeyIsBeforeInTime(a: Instant, b: Instant)
    requires Lt(Format(a), Format(b)) && Printable(a)
    ensures a < b + SECOND
  {
    if a >= b + SECOND {
      DifferentSecondsOrder(b, a);
      Asymmetric(Format(a), Format(b));
    }
  }
}
