/** The execution rows and the conditional writes that are their only
    synchronisation, with the queries over the target-status index. */
module Executions {
  import opened Lex
  import opened Pages
  import opened Wrappers
  import opened Remote

  /** Unset is the empty status of a row that was never created. */
  datatype Status = Unset | PendingApproval | Approved | Rejected | Dispatched | Succeeded | Failed | TimedOut {
    function Text(): string {
      match this
      case Unset => ""
      case PendingApproval => "pending_approval"
      case Approved => "approved"
      case Rejected => "rejected"
      case Dispatched => "dispatched"
      case Succeeded => "succeeded"
      case Failed => "failed"
      case TimedOut => "timed_out"
    }

    predicate IsTerminal() {
      Succeeded? || Failed? || TimedOut? || Rejected?
    }

    /** A move to this status sets completedAt. */
    predicate Completes() {
      Succeeded? || Failed? || TimedOut?
    }
  }

  datatype Mode = Sync | Async

  datatype Metadata = Metadata(durationMs: int, outputBytes: int, logBytes: int, outputFormat: string)

  /** What a row is created with and never changes. */
  datatype Request = Request(action: string, target: string, mode: Mode, dryRun: bool, params: map<string, string>,
                             timeoutSeconds: int, createdAt: string, dateBucket: string)

  datatype Execution = Execution(
    id: string, request: Request,
    status: Status, updatedAt: string, dispatchedAt: string, completedAt: string, metadata: Metadata,
    cleaned: bool, cleanedAt: string, targetStatusKey: string)

  type Table = map<string, Execution>

  /** The extra attributes a caller of TransitionWithMetadata sets. */
  datatype Updates = Updates(completedAt: Option<string>, durationMs: int, output: Option<(int, string)>,
                             logBytes: Option<int>)

  function StatusKey(status: Status, stamp: string): string {
    status.Text() + "#" + stamp
  }

  // ---- The writes as functions of the table -----------------------------------

  function Stored(row: Execution): Execution
    requires |row.request.createdAt| >= 10
  {
    row.(targetStatusKey := StatusKey(row.status, row.request.createdAt),
         request := row.request.(dateBucket := row.request.createdAt[..10]))
  }

  function AfterCreate(t: Table, row: Execution): Table
    requires |row.request.createdAt| >= 10
  {
    if row.id in t then t else t[row.id := Stored(row)]
  }

  predicate Has(t: Table, id: string, status: Status) {
    id in t && t[id].status == status
  }

  function Moved(row: Execution, to: Status, now: string): Execution {
    row.(status := to, updatedAt := now, targetStatusKey := StatusKey(to, now),
         dispatchedAt := if to == Dispatched then now else row.dispatchedAt,
         completedAt := if to.Completes() then now else row.completedAt)
  }

  function AfterTransition(t: Table, id: string, from: Status, to: Status, now: string): Table {
    if Has(t, id, from) then t[id := Moved(t[id], to, now)] else t
  }

  /** The update expression sets completedAt twice: DynamoDB rejects it. */
  predicate Overlaps(to: Status, u: Updates) {
    to.Completes() && u.completedAt.Some?
  }

  function Updated(row: Execution, u: Updates): Execution {
    row.(completedAt := if u.completedAt.Some? then u.completedAt.value else row.completedAt,
         metadata := Metadata(
           u.durationMs,
           if u.output.Some? then u.output.value.0 else row.metadata.outputBytes,
           if u.logBytes.Some? then u.logBytes.value else row.metadata.logBytes,
           if u.output.Some? then u.output.value.1 else row.metadata.outputFormat))
  }

  predicate Accepts(t: Table, id: string, from: Status, to: Status, u: Updates) {
    Has(t, id, from) && !Overlaps(to, u)
  }

  function AfterTransitionWith(t: Table, id: string, from: Status, to: Status, now: string, u: Updates): Table {
    if Accepts(t, id, from, to, u) then t[id := Updated(Moved(t[id], to, now), u)] else t
  }

  /** An update of a missing key creates a row with nothing else set. */
  function Bare(id: string): Execution {
    Execution(id, Request("", "", Sync, false, map[], 0, "", ""), Unset, "", "", "", Metadata(0, 0, 0, ""), false, "",
      "")
  }

  function AfterMark(t: Table, id: string, now: string): Table {
    if id in t && t[id].cleaned then t
    else t[id := (if id in t then t[id] else Bare(id)).(cleaned := true, cleanedAt := now)]
  }

  // ---- Index keys ---------------------------------------------------------------

  /** Every row is filed under its own status in the target-status index. */
  predicate KeysAgree(t: Table) {
    forall id :: id in t ==> t[id].id == id && t[id].status.Text() + "#" <= t[id].targetStatusKey
  }

  lemma {:induction false} HashEndsStatus(a: string, b: string, k: string)
    requires '#' !in a && '#' !in b
    requires a + "#" <= k && b + "#" <= k
    ensures a == b
  {
    assert (a + "#")[|a|] == '#' == k[|a|] && (b + "#")[|b|] == '#' == k[|b|];
    assert |a| == |b|;
    assert a == (a + "#")[..|a|] == k[..|a|] && b == (b + "#")[..|b|] == k[..|b|];
  }

  /** No key starts with two different statuses. */
  lemma StatusPrefixFree(a: Status, b: Status, k: string)
    requires a.Text() + "#" <= k && b.Text() + "#" <= k
    ensures a == b
  {
    HashEndsStatus(a.Text(), b.Text(), k);
  }

  /** What begins_with answers on the target-status index: the matching rows,
      each once, in key order. */
  ghost predicate IsScan(rs: seq<Execution>, t: Table, target: string, prefix: string) {
    && (forall i, j :: 0 <= i < j < |rs| ==> rs[i].id != rs[j].id && Le(rs[i].targetStatusKey, rs[j].targetStatusKey))
    && (forall r: Execution :: r in rs
          <==> r.id in t && t[r.id] == r && r.request.target == target && prefix <= r.targetStatusKey)
  }

  ghost predicate Lists(rs: seq<Execution>, t: Table, target: string, status: Status) {
    && (forall i, j :: 0 <= i < j < |rs| ==> rs[i].id != rs[j].id && Le(rs[i].targetStatusKey, rs[j].targetStatusKey))
    && (forall r: Execution :: r in rs
          <==> r.id in t && t[r.id] == r && r.request.target == target && r.status == status)
  }

  /** Under key agreement a prefix scan is exactly the rows of a status. */
  lemma ScanListsStatus(rs: seq<Execution>, t: Table, target: string, status: Status)
    requires KeysAgree(t) && IsScan(rs, t, target, status.Text() + "#")
    ensures Lists(rs, t, target, status)
  {
    forall r: Execution | r.id in t && t[r.id] == r && status.Text() + "#" <= r.targetStatusKey
      ensures r.status == status {
      StatusPrefixFree(status, r.status, r.targetStatusKey);
    }
  }

  function WithStatus(t: Table, target: string, status: Status): set<string> {
    set id | id in t && t[id].request.target == target && t[id].status == status
  }

  lemma {:induction false} ListLength(rs: seq<Execution>, ids: set<string>)
    requires forall i, j :: 0 <= i < j < |rs| ==> rs[i].id != rs[j].id
    requires forall r :: r in rs ==> r.id in ids
    requires forall id :: id in ids ==> exists r :: r in rs && r.id == id
    ensures |rs| == |ids|
    decreases |rs|
  {
    if rs == [] {
      assert ids == {};
    } else {
      var last, rest := rs[|rs| - 1], rs[..|rs| - 1];
      forall id | id in ids - {last.id} ensures exists r :: r in rest && r.id == id {
        var r :| r in rs && r.id == id;
      }
      ListLength(rest, ids - {last.id});
    }
  }

  lemma ScanLength(rs: seq<Execution>, t: Table, target: string, status: Status)
    requires KeysAgree(t) && IsScan(rs, t, target, status.Text() + "#")
    ensures |rs| == |WithStatus(t, target, status)|
  {
    ScanListsStatus(rs, t, target, status);
    forall id | id in WithStatus(t, target, status) ensures exists r :: r in rs && r.id == id {
      assert t[id] in rs;
    }
    ListLength(rs, WithStatus(t, target, status));
  }

  // ---- Rows to collect ------------------------------------------------------------

  /** What the garbage collector asks for: finished, not cleaned, created before the
      threshold by the parsed time. */
  predicate Eligible(r: Execution, target: string, threshold: int, parse: string -> Option<int>) {
    && r.request.target == target && r.status.Completes() && !r.cleaned
    && parse(r.request.createdAt).Some? && parse(r.request.createdAt).value < threshold
  }

  function Rank(status: Status): nat {
    match status
    case Succeeded => 0
    case Failed => 1
    case _ => 2
  }

  /** Every eligible row of the first n ranks once, rank after rank. */
  ghost predicate ListsRanks(rs: seq<Execution>, t: Table, target: string, threshold: int,
                             parse: string -> Option<int>, n: nat) {
    && (forall i, j :: 0 <= i < j < |rs| ==> rs[i].id != rs[j].id && Rank(rs[i].status) <= Rank(rs[j].status))
    && (forall r: Execution :: r in rs
          <==> r.id in t && t[r.id] == r && Eligible(r, target, threshold, parse) && Rank(r.status) < n)
  }

  /** Every eligible row once: all succeeded ones, then the failed, then the timed out. */
  ghost predicate ListsEligible(rs: seq<Execution>, t: Table, target: string, threshold: int,
                                parse: string -> Option<int>) {
    ListsRanks(rs, t, target, threshold, parse, 3)
  }

  /** The rows a listing keeps for collection, in order. */
  function Kept(rs: seq<Execution>, threshold: int, parse: string -> Option<int>): (kept: seq<Execution>)
  {
    if rs == [] then []
    else
      var last := rs[|rs| - 1];
      var created := parse(last.request.createdAt);
      Kept(rs[..|rs| - 1], threshold, parse) +
      (if !last.cleaned && created.Some? && created.value < threshold then [last] else [])
  }

  lemma {:induction false} KeptMembers(rs: seq<Execution>, threshold: int, parse: string -> Option<int>, r: Execution)
    ensures r in Kept(rs, threshold, parse) <==>
              && r in rs && !r.cleaned && parse(r.request.createdAt).Some?
                 && parse(r.request.createdAt).value < threshold
    decreases |rs|
  {
    if rs != [] {
      KeptMembers(rs[..|rs| - 1], threshold, parse, r);
      assert rs == rs[..|rs| - 1] + [rs[|rs| - 1]];
    }
  }

  lemma {:induction false} KeptDistinct(rs: seq<Execution>, threshold: int, parse: string -> Option<int>)
    requires forall i, j :: 0 <= i < j < |rs| ==> rs[i].id != rs[j].id
    ensures forall i, j :: 0 <= i < j < |Kept(rs, threshold, parse)| ==>
              Kept(rs, threshold, parse)[i].id != Kept(rs, threshold, parse)[j].id
    decreases |rs|
  {
    if rs != [] {
      var front, last := rs[..|rs| - 1], rs[|rs| - 1];
      KeptDistinct(front, threshold, parse);
      forall r | r in Kept(front, threshold, parse) ensures r.id != last.id {
        KeptMembers(front, threshold, parse, r);
      }
    }
  }

  lemma NoRanks(t: Table, target: string, threshold: int, parse: string -> Option<int>)
    ensures ListsRanks([], t, target, threshold, parse, 0)
  {
  }

  /** The kept rows of the next status go after those of the ranks before. */
  lemma OneMoreRank(rs: seq<Execution>, items: seq<Execution>, t: Table, target: string, threshold: int,
                    parse: string -> Option<int>, status: Status)
    requires status.Completes() && Lists(items, t, target, status)
    requires ListsRanks(rs, t, target, threshold, parse, Rank(status))
    ensures ListsRanks(rs + Kept(items, threshold, parse), t, target, threshold, parse, Rank(status) + 1)
  {
    var kept := Kept(items, threshold, parse);
    KeptDistinct(items, threshold, parse);
    forall r: Execution
      ensures r in kept <==>
                && r in items && !r.cleaned && parse(r.request.createdAt).Some?
                && parse(r.request.createdAt).value < threshold
    {
      KeptMembers(items, threshold, parse, r);
    }
    hide Kept;
    assert forall r: Execution :: r in kept <==>
      r.id in t && t[r.id] == r && Eligible(r, target, threshold, parse) && r.status == status;
    hide Eligible;
    hide Lists;
    RanksAppend(rs, kept, t, target, threshold, parse, status);
  }

  lemma RanksAppend(rs: seq<Execution>, kept: seq<Execution>, t: Table, target: string, threshold: int,
                    parse: string -> Option<int>, status: Status)
    requires status.Completes() && ListsRanks(rs, t, target, threshold, parse, Rank(status))
    requires forall i, j :: 0 <= i < j < |kept| ==> kept[i].id != kept[j].id
    requires forall r: Execution :: r in kept <==>
               r.id in t && t[r.id] == r && Eligible(r, target, threshold, parse) && r.status == status
    ensures ListsRanks(rs + kept, t, target, threshold, parse, Rank(status) + 1)
  {
    var all := rs + kept;
    forall r: Execution
      ensures r in all <==>
                && r.id in t && t[r.id] == r && Eligible(r, target, threshold, parse)
                && Rank(r.status) < Rank(status) + 1
    {
      assert Eligible(r, target, threshold, parse) && Rank(r.status) == Rank(status) ==> r.status == status;
    }
    hide Eligible;
    forall i, j | 0 <= i < j < |all| ensures all[i].id != all[j].id && Rank(all[i].status) <= Rank(all[j].status) {
      if j < |rs| {
      } else if i < |rs| {
        assert all[i] in rs && all[j] in kept;
      } else {
        assert all[i] in kept && all[j] in kept;
      }
    }
  }

  /** Dispatched and approved rows: what the concurrency limit counts. */
  function Active(t: Table, target: string): set<string> {
    WithStatus(t, target, Dispatched) + WithStatus(t, target, Approved)
  }

  /** A row after a transition, attribute by attribute. */
  predicate Transitioned(r: Execution, r': Execution, to: Status, now: string) {
    && r'.id == r.id && r'.request == r.request && r'.status == to && r'.updatedAt == now
    && r'.targetStatusKey == to.Text() + "#" + now
    && (to == Dispatched ==> r'.dispatchedAt == now) && (to != Dispatched ==> r'.dispatchedAt == r.dispatchedAt)
    && r'.cleaned == r.cleaned && r'.cleanedAt == r.cleanedAt
  }

  /** A transition that ends an execution sets completedAt, no other does. */
  predicate CompletedAs(r: Execution, r': Execution, to: Status, now: string) {
    && (to == Succeeded || to == Failed || to == TimedOut ==> r'.completedAt == now)
    && (to != Succeeded && to != Failed && to != TimedOut ==> r'.completedAt == r.completedAt)
  }

  /** The caller's attributes: the ones not given stay. */
  predicate MetadataSet(r: Execution, r': Execution, u: Updates) {
    && r'.metadata.durationMs == u.durationMs
    && (u.output.Some? ==> r'.metadata.outputBytes == u.output.value.0 && r'.metadata.outputFormat == u.output.value.1)
    && (u.output.None? ==>
          r'.metadata.outputBytes == r.metadata.outputBytes && r'.metadata.outputFormat == r.metadata.outputFormat)
    && (u.logBytes.Some? ==> r'.metadata.logBytes == u.logBytes.value)
    && (u.logBytes.None? ==> r'.metadata.logBytes == r.metadata.logBytes)
  }

  lemma MovedMeans(r: Execution, to: Status, now: string)
    ensures var r' := Moved(r, to, now);
            Transitioned(r, r', to, now) && CompletedAs(r, r', to, now) && r'.metadata == r.metadata
  {
  }

  lemma UpdatedMeans(r: Execution, to: Status, now: string, u: Updates)
    ensures var r' := Updated(Moved(r, to, now), u);
            && Transitioned(r, r', to, now) && MetadataSet(r, r', u)
            && (u.completedAt.None? ==> CompletedAs(r, r', to, now))
            && (u.completedAt.Some? ==> r'.completedAt == u.completedAt.value)
  {
  }

  lemma TransitionCases(t: Table, id: string, from: Status, to: Status, now: string)
    ensures Has(t, id, from) ==> AfterTransition(t, id, from, to, now) == t[id := Moved(t[id], to, now)]
    ensures !Has(t, id, from) ==> AfterTransition(t, id, from, to, now) == t
  {
  }

  lemma TransitionWithCases(t: Table, id: string, from: Status, to: Status, now: string, u: Updates)
    ensures Accepts(t, id, from, to, u) ==>
              AfterTransitionWith(t, id, from, to, now, u) == t[id := Updated(Moved(t[id], to, now), u)]
    ensures !Accepts(t, id, from, to, u) ==> AfterTransitionWith(t, id, from, to, now, u) == t
  {
  }

  // ---- The store -----------------------------------------------------------------

  class ExecutionStore {
    var table: Table

    constructor ()
      ensures table == map[]
    {
      table := map[];
    }

    method Create(row: Execution, net: Net) returns (ok: bool)
      requires |row.request.createdAt| >= 10
      modifies this
      ensures ok <==> net == Delivered && row.id !in old(table)
      ensures table == if net == Dropped then old(table) else AfterCreate(old(table), row)
      ensures net != Dropped && row.id !in old(table) ==>
                && row.id in table && table == old(table)[row.id := table[row.id]]
                && table[row.id] == row.(targetStatusKey := row.status.Text() + "#" + row.request.createdAt,
                                         request := row.request.(dateBucket := row.request.createdAt[..10]))
    {
      var stored := row.(targetStatusKey := StatusKey(row.status, row.request.createdAt));
      stored := stored.(request := stored.request.(dateBucket := stored.request.createdAt[..10]));
      ok := false;
      if net != Dropped && row.id !in table {
        table := table[row.id := stored];
        ok := net == Delivered;
      }
    }

    /** The attributes every transition sets. */
    static method SetStatus(row: Execution, to: Status, now: string) returns (r: Execution)
      ensures r == Moved(row, to, now)
    {
      hide StatusKey;
      var dispatchedAt, completedAt := row.dispatchedAt, row.completedAt;
      if to == Dispatched {
        dispatchedAt := now;
      } else if to.Completes() {
        completedAt := now;
      }
      r := row.(status := to, updatedAt := now, targetStatusKey := StatusKey(to, now),
                dispatchedAt := dispatchedAt, completedAt := completedAt);
    }

    /** ... and those a caller adds. */
    static method SetUpdates(row: Execution, u: Updates) returns (r: Execution)
      ensures r == Updated(row, u)
    {
      var completedAt, metadata := row.completedAt, row.metadata.(durationMs := u.durationMs);
      if u.completedAt.Some? {
        completedAt := u.completedAt.value;
      }
      if u.output.Some? {
        metadata := metadata.(outputBytes := u.output.value.0, outputFormat := u.output.value.1);
      }
      if u.logBytes.Some? {
        metadata := metadata.(logBytes := u.logBytes.value);
      }
      r := row.(completedAt := completedAt, metadata := metadata);
    }

    method TransitionStatus(id: string, from: Status, to: Status, now: string, net: Net) returns (ok: bool)
      modifies this
      ensures ok <==> net == Delivered && Has(old(table), id, from)
      ensures table == if net == Dropped then old(table) else AfterTransition(old(table), id, from, to, now)
      ensures net == Dropped || !Has(old(table), id, from) ==> table == old(table)
      ensures net != Dropped && Has(old(table), id, from) ==>
                && id in table && table == old(table)[id := table[id]]
                && Transitioned(old(table)[id], table[id], to, now) && CompletedAs(old(table)[id], table[id], to, now)
                && table[id].metadata == old(table)[id].metadata
    {
      hide Moved;
      hide AfterTransition;
      hide Transitioned;
      hide CompletedAs;
      TransitionCases(table, id, from, to, now);
      ok := false;
      if net != Dropped && id in table && table[id].status == from {
        MovedMeans(table[id], to, now);
        var row := SetStatus(table[id], to, now);
        table := table[id := row];
        ok := net == Delivered;
      }
    }

    method TransitionWithMetadata(id: string, from: Status, to: Status, now: string, u: Updates, net: Net)
      returns (ok: bool)
      modifies this
      ensures ok <==> net == Delivered && Accepts(old(table), id, from, to, u)
      ensures table == if net == Dropped then old(table) else AfterTransitionWith(old(table), id, from, to, now, u)
      ensures net == Dropped || !Accepts(old(table), id, from, to, u) ==> table == old(table)
      ensures net != Dropped && Accepts(old(table), id, from, to, u) ==>
                && id in table && table == old(table)[id := table[id]]
                && Transitioned(old(table)[id], table[id], to, now) && MetadataSet(old(table)[id], table[id], u)
                && (u.completedAt.None? ==> CompletedAs(old(table)[id], table[id], to, now))
                && (u.completedAt.Some? ==> table[id].completedAt == u.completedAt.value)
    {
      hide Moved;
      hide Updated;
      hide AfterTransitionWith;
      hide Transitioned;
      hide CompletedAs;
      hide MetadataSet;
      TransitionWithCases(table, id, from, to, now, u);
      if id in table {
        UpdatedMeans(table[id], to, now, u);
      }
      ok := false;
      if Overlaps(to, u) {
        return;
      }
      if net != Dropped && id in table && table[id].status == from {
        var row := SetStatus(table[id], to, now);
        row := SetUpdates(row, u);
        table := table[id := row];
        ok := net == Delivered;
      }
    }

    method MarkCleaned(id: string, now: string, net: Net) returns (ok: bool)
      modifies this
      ensures ok <==> net == Delivered && !(id in old(table) && old(table)[id].cleaned)
      ensures table == if net == Dropped then old(table) else AfterMark(old(table), id, now)
      ensures net == Dropped || (id in old(table) && old(table)[id].cleaned) ==> table == old(table)
      ensures net != Dropped && !(id in old(table) && old(table)[id].cleaned) ==>
                && id in table && table == old(table)[id := table[id]]
                && table[id].cleaned && table[id].cleanedAt == now
                && (id in old(table) ==> table[id] == old(table)[id].(cleaned := true, cleanedAt := now))
                && (id !in old(table) ==> table[id].status == Unset)
    {
      ok := false;
      if net != Dropped && (id !in table || !table[id].cleaned) {
        var row := if id in table then table[id] else Bare(id);
        table := table[id := row.(cleaned := true, cleanedAt := now)];
        ok := net == Delivered;
      }
    }

    /** The pages of the index are appended in order until the last. */
    method QueryByTargetAndStatus(target: string, status: Status, pages: seq<seq<Execution>>)
      returns (all: seq<Execution>)
      requires IsScan(Flatten(pages), table, target, status.Text() + "#")
      ensures all == Flatten(pages)
      ensures KeysAgree(table) ==> Lists(all, table, target, status)
    {
      all := [];
      for i := 0 to |pages|
        invariant all == Flatten(pages[..i])
      {
        FlattenPrefix(pages, i);
        all := all + pages[i];
      }
      assert pages[..|pages|] == pages;
      if KeysAgree(table) {
        ScanListsStatus(all, table, target, status);
      }
    }

    /** Reads at one table. */
    method QueryTerminalByTarget(target: string, threshold: int, parse: string -> Option<int>,
                                 pages: map<Status, seq<seq<Execution>>>)
      returns (all: seq<Execution>)
      requires forall status: Status :: status.Completes() ==>
                 status in pages && IsScan(Flatten(pages[status]), table, target, status.Text() + "#")
      ensures KeysAgree(table) ==> ListsEligible(all, table, target, threshold, parse)
    {
      hide Lists;
      hide ListsRanks;
      hide IsScan;
      hide Kept;
      hide Status.Text;
      all := [];
      NoRanks(table, target, threshold, parse);
      var statuses := [Succeeded, Failed, TimedOut];
      for i := 0 to |statuses|
        invariant KeysAgree(table) ==> ListsRanks(all, table, target, threshold, parse, i)
      {
        assert Rank(statuses[i]) == i;
        var items := QueryByTargetAndStatus(target, statuses[i], pages[statuses[i]]);
        var kept := Keep(items, threshold, parse);
        if KeysAgree(table) {
          OneMoreRank(all, items, table, target, threshold, parse, statuses[i]);
        }
        all := all + kept;
      }
    }

    method Keep(items: seq<Execution>, threshold: int, parse: string -> Option<int>) returns (kept: seq<Execution>)
      ensures kept == Kept(items, threshold, parse)
    {
      kept := [];
      for i := 0 to |items|
        invariant kept == Kept(items[..i], threshold, parse)
      {
        assert items[..i + 1][..i] == items[..i];
        var exec := items[i];
        if exec.cleaned {
          continue;
        }
        var created := parse(exec.request.createdAt);
        if created.None? {
          continue;
        }
        if created.value < threshold {
          kept := kept + [exec];
        }
      }
      assert items[..|items|] == items;
    }

    /** The table is as it is when the query is answered. */
    method CountByTargetAndStatus(target: string, status: Status, pages: seq<seq<Execution>>, ghost t: Table)
      returns (total: nat)
      requires IsScan(Flatten(pages), t, target, status.Text() + "#")
      ensures total == |Flatten(pages)|
      ensures KeysAgree(t) ==> total == |WithStatus(t, target, status)|
    {
      total := 0;
      for i := 0 to |pages|
        invariant total == |Flatten(pages[..i])|
      {
        FlattenPrefix(pages, i);
        total := total + |pages[i]|;
      }
      assert pages[..|pages|] == pages;
      if KeysAgree(t) {
        ScanLength(Flatten(pages), t, target, status);
      }
    }

    /** The table may move on between the two queries; if it does not, the total is
        every active row once. */
    method CountActiveByTarget(target: string, dispatched: seq<seq<Execution>>, approved: seq<seq<Execution>>,
                               ghost first: Table, ghost second: Table)
      returns (total: nat)
      requires KeysAgree(first) && KeysAgree(second)
      requires IsScan(Flatten(dispatched), first, target, Dispatched.Text() + "#")
      requires IsScan(Flatten(approved), second, target, Approved.Text() + "#")
      ensures total == TwoQueryCount(first, second, target)
      ensures first == second ==> total == |Active(first, target)|
    {
      total := 0;
      var count := CountByTargetAndStatus(target, Dispatched, dispatched, first);
      total := total + count;
      count := CountByTargetAndStatus(target, Approved, approved, second);
      total := total + count;
      assert WithStatus(first, target, Dispatched) !! WithStatus(first, target, Approved);
    }
  }

  // ---- A count is two queries -------------------------------------------------

  /** What CountActiveByTarget returns when the table moves on between its two
      queries: the dispatched rows of one table, the approved rows of another. */
  function TwoQueryCount(first: Table, second: Table, target: string): nat {
    |WithStatus(first, target, Dispatched)| + |WithStatus(second, target, Approved)|
  }

  lemma RemoveOne(s: set<string>, x: string)
    requires x in s
    ensures |s - {x}| == |s| - 1
  {
  }

  /** A claim between the two queries hides the claimed row from both. */
  lemma CountMissesConcurrentClaim(t: Table, target: string, id: string, now: string)
    requires Has(t, id, Approved) && t[id].request.target == target
    ensures TwoQueryCount(t, AfterTransition(t, id, Approved, Dispatched, now), target) == |Active(t, target)| - 1
  {
    hide StatusKey;
    var a := WithStatus(t, target, Approved);
    assert WithStatus(t, target, Dispatched) !! a;
    assert WithStatus(AfterTransition(t, id, Approved, Dispatched, now), target, Approved) == a - {id};
    RemoveOne(a, id);
  }

  /** A rollback between the two queries shows the row to both. */
  lemma CountDoublesConcurrentRollback(t: Table, target: string, id: string, now: string)
    requires Has(t, id, Dispatched) && t[id].request.target == target
    ensures TwoQueryCount(t, AfterTransition(t, id, Dispatched, Approved, now), target) == |Active(t, target)| + 1
  {
    hide StatusKey;
    var a := WithStatus(t, target, Approved);
    assert WithStatus(t, target, Dispatched) !! a;
    assert WithStatus(AfterTransition(t, id, Dispatched, Approved, now), target, Approved) == a + {id};
  }

  /** Claims and rollbacks conserve the active rows. */
  lemma MovesConserveActive(t: Table, target: string, id: string, now: string)
    ensures Active(AfterTransition(t, id, Approved, Dispatched, now), target) == Active(t, target)
    ensures Active(AfterTransition(t, id, Dispatched, Approved, now), target) == Active(t, target)
  {
  }
}
