/** Boundary session rows: conditional status updates, the exec-session append
    and the range queries over the target-status index. */
module Sessions {
  import opened Lex
  import opened Pages
  import opened Wrappers
  import opened Remote

  datatype SessionStatus = Creating | Active | Terminated | Failed {
    function Text(): string {
      match this
      case Creating => "creating"
      case Active => "active"
      case Terminated => "terminated"
      case Failed => "failed"
    }
  }

  datatype StopReason = Unstopped | OperatorStop | DeadlineReaperStop | IdleReaperStop | ProvisionFailed

  /** What handleSessionStart fixes. */
  datatype Terms = Terms(operator: string, target: string, createdAt: string, deadline: string)

  /** An ECS task; a row without one holds three empty strings. */
  datatype Task = Task(arn: string, id: string, cluster: string)

  const NO_TASK := Task("", "", "")

  datatype Session = Session(
    id: string, terms: Terms, dateBucket: string,
    status: SessionStatus, task: Task, terminatedAt: string, stopReason: StopReason,
    execSessionIds: seq<string>, targetStatusKey: string)

  type Table = map<string, Session>

  /** The extra attributes a caller of UpdateStatus sets. */
  datatype Updates = Updates(task: Option<Task>, deadline: Option<string>, stopReason: Option<StopReason>)

  function StatusKey(status: SessionStatus, suffix: string): string {
    status.Text() + "#" + suffix
  }

  /** The new index key; None if the update needs a deadline and carries none. */
  function KeyFor(to: SessionStatus, now: string, u: Updates): Option<string> {
    match to
    case Creating => if u.deadline.Some? then Some(StatusKey(to, u.deadline.value)) else None
    case Active => if u.deadline.Some? then Some(StatusKey(to, u.deadline.value)) else None
    case Terminated => Some(StatusKey(to, now))
    case Failed => Some(StatusKey(to, now))
  }

  predicate Has(t: Table, id: string, status: SessionStatus) {
    id in t && t[id].status == status
  }

  function Stored(row: Session): Session
    requires |row.terms.createdAt| >= 10
  {
    row.(dateBucket := row.terms.createdAt[..10], targetStatusKey := StatusKey(row.status, row.terms.deadline))
  }

  function Updated(row: Session, to: SessionStatus, now: string, u: Updates, key: string): Session {
    row.(status := to,
         terminatedAt := if to == Terminated then now else row.terminatedAt,
         task := if u.task.Some? then u.task.value else row.task,
         terms := if u.deadline.Some? then row.terms.(deadline := u.deadline.value) else row.terms,
         stopReason := if u.stopReason.Some? then u.stopReason.value else row.stopReason,
         targetStatusKey := key)
  }

  function AfterPut(t: Table, row: Session): Table
    requires |row.terms.createdAt| >= 10
  {
    if row.id in t then t else t[row.id := Stored(row)]
  }

  function AfterUpdate(t: Table, id: string, from: SessionStatus, to: SessionStatus, now: string, u: Updates): Table {
    var key := KeyFor(to, now, u);
    if key.Some? && Has(t, id, from) then t[id := Updated(t[id], to, now, u, key.value)] else t
  }

  /** A row after an update, attribute by attribute: those not given stay; it is filed
      under its deadline while it may be open and under the time it ended after that. */
  predicate UpdatedAs(r: Session, r': Session, to: SessionStatus, now: string, u: Updates) {
    && r'.id == r.id && r'.status == to && r'.execSessionIds == r.execSessionIds && r'.dateBucket == r.dateBucket
    && r'.terms.operator == r.terms.operator && r'.terms.target == r.terms.target
    && r'.terms.createdAt == r.terms.createdAt
    && r'.terms.deadline == (if u.deadline.Some? then u.deadline.value else r.terms.deadline)
    && r'.task == (if u.task.Some? then u.task.value else r.task)
    && r'.stopReason == (if u.stopReason.Some? then u.stopReason.value else r.stopReason)
    && (to == Terminated ==> r'.terminatedAt == now) && (to != Terminated ==> r'.terminatedAt == r.terminatedAt)
    && (to == Terminated || to == Failed ==> r'.targetStatusKey == to.Text() + "#" + now)
    && (to == Creating || to == Active ==>
          u.deadline.Some? && r'.targetStatusKey == to.Text() + "#" + u.deadline.value)
  }

  /** An update is refused exactly if it opens a session without a deadline. */
  lemma UpdateMeans(r: Session, to: SessionStatus, now: string, u: Updates)
    ensures KeyFor(to, now, u).None? <==> (to == Creating || to == Active) && u.deadline.None?
    ensures KeyFor(to, now, u).Some? ==> UpdatedAs(r, Updated(r, to, now, u, KeyFor(to, now, u).value), to, now, u)
  {
  }

  predicate MayAttach(t: Table, id: string, operator: string) {
    Has(t, id, Active) && t[id].terms.operator == operator
  }

  function AfterAttach(t: Table, id: string, operator: string, exec: string): Table {
    if MayAttach(t, id, operator) then t[id := t[id].(execSessionIds := t[id].execSessionIds + [exec])] else t
  }

  // ---- Index keys ------------------------------------------------------------------

  /** Each row is filed under its status, an active one under its deadline. */
  predicate KeysAgree(t: Table) {
    forall id :: id in t ==>
      && t[id].id == id && t[id].status.Text() + "#" <= t[id].targetStatusKey
      && (t[id].status == Active ==> t[id].targetStatusKey == StatusKey(Active, t[id].terms.deadline))
  }

  lemma StatusPrefixFree(a: SessionStatus, b: SessionStatus, k: string)
    requires a.Text() + "#" <= k && b.Text() + "#" <= k
    ensures a == b
  {
    var p, q := a.Text(), b.Text();
    assert (p + "#")[|p|] == '#' == k[|p|] && (q + "#")[|q|] == '#' == k[|q|];
    assert |p| == |q|;
    assert p == (p + "#")[..|p|] == k[..|p|] && q == (q + "#")[..|q|] == k[..|q|];
  }

  /** The key condition of ListExpired. */
  predicate PastKey(r: Session, target: string, now: string) {
    r.terms.target == target && Le("active#", r.targetStatusKey) && Le(r.targetStatusKey, StatusKey(Active, now))
  }

  /** The key condition and the filter of ListActiveBeforeDeadline. */
  predicate AheadKey(r: Session, target: string, now: string) {
    r.terms.target == target && "active#" <= r.targetStatusKey && Lt(StatusKey(Active, now), r.targetStatusKey)
  }

  /** Each row of the table that meets a condition, once. */
  ghost predicate IsAnswer(rs: seq<Session>, t: Table, condition: Session -> bool) {
    && (forall i, j :: 0 <= i < j < |rs| ==> rs[i].id != rs[j].id)
    && (forall r: Session :: r in rs <==> r.id in t && t[r.id] == r && condition(r))
  }

  /** Between "active#" and "active#<now>" lie only active rows' keys. */
  lemma PastMeansExpired(t: Table, id: string, target: string, now: string)
    requires KeysAgree(t) && id in t
    ensures PastKey(t[id], target, now)
            <==> t[id].terms.target == target && t[id].status == Active && Le(t[id].terms.deadline, now)
  {
    var r := t[id];
    assert StatusKey(Active, now) == "active#" + now;
    if PastKey(r, target, now) {
      BetweenHasPrefix("active#", now, r.targetStatusKey);
      StatusPrefixFree(Active, r.status, r.targetStatusKey);
    }
    if r.status == Active {
      assert r.targetStatusKey == "active#" + r.terms.deadline;
      SharedPrefixLe("active#", r.terms.deadline, now);
      PrefixBefore("active#", r.targetStatusKey);
    }
  }

  lemma AheadMeansUnexpired(t: Table, id: string, target: string, now: string)
    requires KeysAgree(t) && id in t
    ensures AheadKey(t[id], target, now)
            <==> t[id].terms.target == target && t[id].status == Active && Lt(now, t[id].terms.deadline)
  {
    var r := t[id];
    assert StatusKey(Active, now) == "active#" + now;
    if "active#" <= r.targetStatusKey {
      StatusPrefixFree(Active, r.status, r.targetStatusKey);
    }
    if r.status == Active {
      assert r.targetStatusKey == "active#" + r.terms.deadline;
      SharedPrefix("active#", now, r.terms.deadline);
    }
  }

  /** For one now the two queries part the active sessions of a target: every
      one in exactly one answer, and no other row in either. */
  lemma QueriesPartition(t: Table, target: string, now: string, expired: seq<Session>, ahead: seq<Session>)
    requires KeysAgree(t)
    requires IsAnswer(expired, t, r => PastKey(r, target, now)) && IsAnswer(ahead, t, r => AheadKey(r, target, now))
    ensures forall id :: id in t && t[id].terms.target == target && t[id].status == Active ==>
              (t[id] in expired <==> t[id] !in ahead)
    ensures forall r :: r in expired || r in ahead ==>
              r.id in t && t[r.id] == r && r.terms.target == target && r.status == Active
  {
    forall id | id in t
      ensures PastKey(t[id], target, now) <==>
                t[id].terms.target == target && t[id].status == Active && Le(t[id].terms.deadline, now)
      ensures AheadKey(t[id], target, now) <==>
                t[id].terms.target == target && t[id].status == Active && Lt(now, t[id].terms.deadline)
      ensures Le(t[id].terms.deadline, now) <==> !Lt(now, t[id].terms.deadline)
    {
      PastMeansExpired(t, id, target, now);
      AheadMeansUnexpired(t, id, target, now);
      LeOrLt(t[id].terms.deadline, now);
    }
  }

  /** Read at two times, as one reaper run does, they miss exactly the active
      sessions whose deadline passes in between; none is in both. */
  lemma QueriesApart(t: Table, target: string, first: string, second: string, id: string)
    requires KeysAgree(t) && id in t && t[id].terms.target == target && t[id].status == Active && Le(first, second)
    ensures !PastKey(t[id], target, first) && !AheadKey(t[id], target, second)
            <==> Lt(first, t[id].terms.deadline) && Le(t[id].terms.deadline, second)
    ensures !(PastKey(t[id], target, first) && AheadKey(t[id], target, second))
  {
    PastMeansExpired(t, id, target, first);
    AheadMeansUnexpired(t, id, target, second);
    LeOrLt(t[id].terms.deadline, first);
    LeOrLt(t[id].terms.deadline, second);
    if Le(t[id].terms.deadline, first) {
      LeTransitive(t[id].terms.deadline, first, second);
    }
  }

  // ---- The store -------------------------------------------------------------------

  class SessionStore {
    var table: Table

    constructor ()
      ensures table == map[]
    {
      table := map[];
    }

    method Put(row: Session, net: Net) returns (ok: bool)
      requires |row.terms.createdAt| >= 10
      modifies this
      ensures ok <==> net == Delivered && row.id !in old(table)
      ensures table == if net == Dropped then old(table) else AfterPut(old(table), row)
      ensures net != Dropped && row.id !in old(table) ==>
                && row.id in table && table == old(table)[row.id := table[row.id]]
                && table[row.id] == row.(dateBucket := row.terms.createdAt[..10],
                                         targetStatusKey := row.status.Text() + "#" + row.terms.deadline)
    {
      var stored := row.(dateBucket := row.terms.createdAt[..10]);
      stored := stored.(targetStatusKey := StatusKey(stored.status, stored.terms.deadline));
      ok := false;
      if net != Dropped && row.id !in table {
        table := table[row.id := stored];
        ok := net == Delivered;
      }
    }

    method UpdateStatus(id: string, from: SessionStatus, to: SessionStatus, now: string, u: Updates, net: Net)
      returns (ok: bool)
      modifies this
      ensures ok <==> net == Delivered && KeyFor(to, now, u).Some? && Has(old(table), id, from)
      ensures table == if net == Dropped then old(table) else AfterUpdate(old(table), id, from, to, now, u)
      ensures var arrives := && net != Dropped && Has(old(table), id, from)
                             && !((to == Creating || to == Active) && u.deadline.None?);
              && (!arrives ==> table == old(table))
              && (arrives ==>
                    && id in table && table == old(table)[id := table[id]]
                    && UpdatedAs(old(table)[id], table[id], to, now, u))
    {
      hide KeyFor;
      hide UpdatedAs;
      forall r: Session { UpdateMeans(r, to, now, u); }
      var key := KeyFor(to, now, u);
      if key.None? {
        return false;
      }
      ok := false;
      if net != Dropped && id in table && table[id].status == from {
        var row := table[id];
        var terminatedAt, task, terms, stopReason := row.terminatedAt, row.task, row.terms, row.stopReason;
        if to == Terminated {
          terminatedAt := now;
        }
        if u.task.Some? {
          task := u.task.value;
        }
        if u.deadline.Some? {
          terms := terms.(deadline := u.deadline.value);
        }
        if u.stopReason.Some? {
          stopReason := u.stopReason.value;
        }
        row := row.(status := to, terminatedAt := terminatedAt, task := task, terms := terms,
                    stopReason := stopReason, targetStatusKey := key.value);
        assert row == Updated(table[id], to, now, u, key.value);
        hide Updated;
        table := table[id := row];
        ok := net == Delivered;
      }
    }

    method RecordExecSession(id: string, operator: string, exec: string, net: Net) returns (ok: bool)
      modifies this
      ensures ok <==> net == Delivered && MayAttach(old(table), id, operator)
      ensures table == if net == Dropped then old(table) else AfterAttach(old(table), id, operator, exec)
    {
      ok := false;
      if net != Dropped && id in table && table[id].status == Active && table[id].terms.operator == operator {
        table := table[id := table[id].(execSessionIds := table[id].execSessionIds + [exec])];
        ok := net == Delivered;
      }
    }

    /** None for an empty target, which the store rejects. */
    method ListExpired(target: string, now: string, pages: seq<seq<Session>>) returns (sessions: Option<seq<Session>>)
      requires IsAnswer(Flatten(pages), table, r => PastKey(r, target, now))
      ensures sessions.None? <==> target == ""
      ensures sessions.Some? ==> sessions.value == Flatten(pages)
      ensures sessions.Some? && KeysAgree(table) ==> forall id :: id in table ==>
                (table[id] in sessions.value <==> table[id].terms.target == target && table[id].status == Active
                                                  && Le(table[id].terms.deadline, now))
    {
      if target == "" {
        return None;
      }
      var all := [];
      for i := 0 to |pages|
        invariant all == Flatten(pages[..i])
      {
        FlattenPrefix(pages, i);
        all := all + pages[i];
      }
      assert pages[..|pages|] == pages;
      forall id | KeysAgree(table) && id in table
        ensures table[id] in all <==> table[id].terms.target == target && table[id].status == Active
                                      && Le(table[id].terms.deadline, now)
      {
        PastMeansExpired(table, id, target, now);
      }
      return Some(all);
    }

    method ListActiveBeforeDeadline(target: string, now: string, pages: seq<seq<Session>>)
      returns (sessions: Option<seq<Session>>)
      requires IsAnswer(Flatten(pages), table, r => AheadKey(r, target, now))
      ensures sessions.None? <==> target == ""
      ensures sessions.Some? ==> sessions.value == Flatten(pages)
      ensures sessions.Some? && KeysAgree(table) ==> forall id :: id in table ==>
                (table[id] in sessions.value <==> table[id].terms.target == target && table[id].status == Active
                                                  && Lt(now, table[id].terms.deadline))
    {
      if target == "" {
        return None;
      }
      var all := [];
      for i := 0 to |pages|
        invariant all == Flatten(pages[..i])
      {
        FlattenPrefix(pages, i);
        all := all + pages[i];
      }
      assert pages[..|pages|] == pages;
      forall id | KeysAgree(table) && id in table
        ensures table[id] in all <==> table[id].terms.target == target && table[id].status == Active
                                      && Lt(now, table[id].terms.deadline)
      {
        AheadMeansUnexpired(table, id, target, now);
      }
      return Some(all);
    }
  }
}
