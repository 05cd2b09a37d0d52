/** Who made a request: the caller's ARN, and for boundary tasks the operator of
    the session the task was launched for. */
module Identity {
  import opened Sessions
  import opened SessionProtocol
  import opened SessionTheorems
  import opened Wrappers
  import opened Remote

  // ---- The caller's ARN ----------------------------------------------------------

  /** The parts between slashes; always at least one. */
  function Split(s: string): (parts: seq<string>)
    ensures |parts| >= 1
    decreases |s|
  {
    if s == "" then [""]
    else
      var rest := Split(s[1..]);
      if s[0] == '/' then [""] + rest else [[s[0]] + rest[0]] + rest[1..]
  }

  predicate Contains(s: string, part: string) {
    exists i :: 0 <= i <= |s| && part <= s[i..]
  }

  datatype ArnError = EmptyArn | TooFewParts | NotAssumedRole | EmptySessionName

  datatype Extracted = Named(username: string, role: string) | BadArn(error: ArnError)

  function ExtractSREIdentity(arn: string): Extracted {
    var parts := Split(arn);
    if arn == "" then BadArn(EmptyArn)
    else if |parts| < 3 then BadArn(TooFewParts)
    else if !Contains(arn, "assumed-role") then BadArn(NotAssumedRole)
    else if parts[|parts| - 1] == "" then BadArn(EmptySessionName)
    else Named(parts[|parts| - 1], parts[|parts| - 2])
  }

  lemma {:induction false} SplitAtSlash(a: string, b: string)
    ensures Split(a + "/" + b) == Split(a) + Split(b)
    decreases |a|
  {
    var s := a + "/" + b;
    if a == "" {
      assert s[1..] == b && s[0] == '/';
    } else {
      assert s[1..] == a[1..] + "/" + b && s[0] == a[0];
      SplitAtSlash(a[1..], b);
    }
  }

  lemma {:induction false} NoSlash(s: string)
    ensures '/' !in s <==> Split(s) == [s]
    ensures '/' !in s <==> |Split(s)| == 1
    decreases |s|
  {
    if s != "" {
      NoSlash(s[1..]);
      assert s == [s[0]] + s[1..];
    }
  }

  /** The last part, and what is before its slash. */
  lemma {:induction false} LastPart(s: string) returns (head: string)
    requires |Split(s)| >= 2
    ensures var parts := Split(s);
            && '/' !in parts[|parts| - 1] && s == head + "/" + parts[|parts| - 1]
            && Split(head) == parts[..|parts| - 1]
    decreases |s|
  {
    var rest := Split(s[1..]);
    assert s == [s[0]] + s[1..];
    if |rest| == 1 {
      NoSlash(s[1..]);
      assert s[0] == '/';
      head := "";
      assert s == "" + "/" + s[1..];
    } else {
      var tail := LastPart(s[1..]);
      head := [s[0]] + tail;
      assert head[1..] == tail && s == head + "/" + rest[|rest| - 1];
    }
  }

  /** An ARN names u in role r exactly if it ends in "/r/u" with neither holding a
      slash, u is not empty, and it says assumed-role somewhere. */
  lemma ArnMeaning(arn: string, u: string, r: string)
    ensures ExtractSREIdentity(arn) == Named(u, r) <==>
              && u != "" && '/' !in u && '/' !in r && Contains(arn, "assumed-role")
              && exists head :: arn == head + "/" + r + "/" + u
  {
    hide Contains;
    var parts := Split(arn);
    if ExtractSREIdentity(arn) == Named(u, r) {
      var front := LastPart(arn);
      var head := LastPart(front);
      assert arn == head + "/" + r + "/" + u;
    }
    if '/' !in u && '/' !in r && exists head :: arn == head + "/" + r + "/" + u {
      var head :| arn == head + "/" + r + "/" + u;
      SplitAtSlash(head + "/" + r, u);
      SplitAtSlash(head, r);
      NoSlash(u);
      NoSlash(r);
      assert parts == Split(head) + [r] + [u];
    }
  }

  // ---- Task ids ------------------------------------------------------------------

  predicate HexDigit(c: char) {
    '0' <= c <= '9' || 'a' <= c <= 'f' || 'A' <= c <= 'F'
  }

  predicate TaskIdShaped(s: string) {
    |s| == 32 && forall i :: 0 <= i < |s| ==> HexDigit(s[i])
  }

  method LooksLikeECSTaskID(s: string) returns (ok: bool)
    ensures ok <==> TaskIdShaped(s)
  {
    if |s| != 32 {
      return false;
    }
    for i := 0 to |s|
      invariant forall j :: 0 <= j < i ==> HexDigit(s[j])
    {
      if !HexDigit(s[i]) {
        return false;
      }
    }
    return true;
  }

  // ---- The lookup ----------------------------------------------------------------

  /** What a query of the task-id index with limit 1 may answer. */
  ghost predicate IsTaskAnswer(items: seq<Session>, t: Table, taskId: string) {
    && |items| <= 1
    && (forall r: Session :: r in items ==> r.id in t && t[r.id] == r && r.task.id == taskId)
    && (items == [] ==> forall id :: id in t ==> t[id].task.id != taskId)
  }

  method GetByTaskID(items: seq<Session>, ghost t: Table, ghost taskId: string) returns (session: Option<Session>)
    requires IsTaskAnswer(items, t, taskId)
    ensures session.Some? ==>
              session.value.id in t && t[session.value.id] == session.value && session.value.task.id == taskId
    ensures session.None? ==> forall id :: id in t ==> t[id].task.id != taskId
    ensures session == if items == [] then None else Some(items[0])
  {
    if |items| == 0 {
      return None;
    }
    return Some(items[0]);
  }

  datatype Resolved = Resolved(operator: string, session: string) | Unresolved

  /** The store a caller has: none, one that fails, or one that answers. */
  datatype Store = NoStore | Unreachable | Answering(items: seq<Session>)

  function Resolve(arn: string, sessions: Store): Resolved {
    match ExtractSREIdentity(arn)
    case BadArn(_) => Unresolved
    case Named(name, _) =>
      if sessions == NoStore || !TaskIdShaped(name) then Resolved(name, "")
      else
        match sessions
        case Unreachable => Unresolved
        case Answering(items) => if items == [] then Resolved(name, "")
          else Resolved(items[0].terms.operator, items[0].id)
  }

  method ResolveIdentity(signerARN: string, sessions: Store, ghost t: Table) returns (who: Resolved)
    requires ExtractSREIdentity(signerARN).Named? && sessions.Answering? ==>
               IsTaskAnswer(sessions.items, t, ExtractSREIdentity(signerARN).username)
    ensures who == Resolve(signerARN, sessions)
  {
    hide ExtractSREIdentity;
    if signerARN == "" {
      EmptyIsRefused();
      return Unresolved;
    }
    var extracted := ExtractSREIdentity(signerARN);
    if extracted.BadArn? {
      return Unresolved;
    }
    var sessionName := extracted.username;
    var looksLike := LooksLikeECSTaskID(sessionName);
    if sessions != NoStore && looksLike {
      if sessions == Unreachable {
        return Unresolved;
      }
      var session := GetByTaskID(sessions.items, t, sessionName);
      if session.Some? {
        return Resolved(session.value.terms.operator, session.value.id);
      }
    }
    return Resolved(sessionName, "");
  }

  lemma EmptyIsRefused()
    ensures ExtractSREIdentity("") == BadArn(EmptyArn)
  {
  }

  // ---- Attribution ---------------------------------------------------------------

  /** With one row per task the index with limit 1 is a function: every answer for
      a recorded task is its row. */
  lemma AnswerIsTheRow(ecs: bool, es: seq<Event>, id: string, items: seq<Session>)
    requires id in Run(Init(ecs), es).table && Run(Init(ecs), es).table[id].task.arn != ""
    requires IsTaskAnswer(items, Run(Init(ecs), es).table, Run(Init(ecs), es).table[id].task.id)
    ensures items == [Run(Init(ecs), es).table[id]]
  {
    hide Apply;
    hide Run;
    var t := Run(Init(ecs), es).table;
    assert items != [];
    var other := items[0];
    NoSharedTask(ecs, es, id, id);
    assert other in items && other.task.id == t[id].task.id != "";
    Reachable(ecs, es);
    RowIsBacked(Run(Init(ecs), es), other.id);
    TaskOrNone(Run(Init(ecs), es), other.id);
    NoSharedTask(ecs, es, id, other.id);
  }

  /** A row with a task id has a task. */
  lemma TaskOrNone(s: State, id: string)
    requires Inv(s) && id in s.table && s.table[id].task.id != ""
    ensures s.table[id].task.arn != ""
  {
    assert s.table[id].id == id && s.table[id] in s.versions;
    hide Inv;
    RowFacts(s, s.table[id]);
  }

  /** Whatever joins, terminates and reaper runs do after a session was started, a
      call made by the task its row records is attributed to that session and to
      the operator who started it, if the task id has the usual shape; otherwise
      the id itself is taken for the operator. */
  lemma AttributedToStarter(ecs: bool, es: seq<Event>, row: Session, fs: seq<Event>, arn: string, role: string,
                            items: seq<Session>)
    requires NewSession(row) && row.id !in Run(Init(ecs), es).table
    requires var t := Run(Init(ecs), es + [Start(row, Delivered)] + fs).table;
             row.id in t ==> t[row.id].task.arn != "" && ExtractSREIdentity(arn) == Named(t[row.id].task.id, role)
                             && IsTaskAnswer(items, t, t[row.id].task.id)
    ensures var t := Run(Init(ecs), es + [Start(row, Delivered)] + fs).table;
            && row.id in t
            && Resolve(arn, Answering(items)) ==
               if TaskIdShaped(t[row.id].task.id) then Resolved(row.terms.operator, row.id)
               else Resolved(t[row.id].task.id, "")
  {
    var s1 := Run(Init(ecs), es + [Start(row, Delivered)]);
    RunSnoc(Init(ecs), es, Start(row, Delivered));
    StartPuts(Run(Init(ecs), es), row);
    hide Apply;
    hide Run;
    hide ExtractSREIdentity;
    RowsOnlyAdvance(ecs, es + [Start(row, Delivered)], fs, row.id);
    AnswerIsTheRow(ecs, es + [Start(row, Delivered)] + fs, row.id, items);
    Reachable(ecs, es + [Start(row, Delivered)] + fs);
    RowIsBacked(Run(Init(ecs), es + [Start(row, Delivered)] + fs), row.id);
  }

  lemma StartPuts(s: State, row: Session)
    requires NewSession(row) && row.id !in s.table
    ensures var s' := Apply(s, Start(row, Delivered)); row.id in s'.table && s'.table[row.id].terms == row.terms
  {
  }
}
