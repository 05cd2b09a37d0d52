/** The day-by-day listing over the date-bucket index, shared by executions,
    sessions and audit entries. */
module Listing {
  import opened Lex
  import opened Pages
  import opened Timestamps
  import opened Wrappers

  /** A stored item with the attributes the date-bucket index is keyed by. */
  datatype Row<T> = Row(dateBucket: string, createdAt: string, item: T)

  /** The bounds of a listing; a limit that is not positive means none. */
  datatype Query<!T> = Query(since: string, before: Option<string>, startDay: nat, endDay: nat, keep: T -> bool,
                             limit: int) {
    /** The sort-key half of the key condition. */
    predicate InRange(r: Row<T>) {
      Le(since, r.createdAt) && (before.Some? ==> Le(r.createdAt, before.value))
    }
  }

  /** The request a listing starts from: the range as strings, the days to visit. */
  function Request<T>(since: Instant, before: Option<Instant>, now: Instant, keep: T -> bool, limit: int): Query<T> {
    Query(Format(since), if before.Some? then Some(Format(before.value)) else None,
          since / DAY, (if before.Some? then before.value else now) / DAY, keep, limit)
  }

  const MAX_PAGES: nat := 10

  // ---- What one index query returns ---------------------------------------

  /** Newest first; rows with equal keys keep their order. */
  function Insert<T>(r: Row<T>, s: seq<Row<T>>): (out: seq<Row<T>>) {
    if s == [] || !Lt(r.createdAt, s[0].createdAt) then [r] + s else [s[0]] + Insert(r, s[1..])
  }

  function NewestFirst<T>(rows: seq<Row<T>>): (out: seq<Row<T>>) {
    if rows == [] then [] else Insert(rows[0], NewestFirst(rows[1..]))
  }

  /** The rows of one bucket within the key range, in table order. */
  function Bucket<T>(rows: seq<Row<T>>, q: Query<T>, bucket: string): seq<Row<T>> {
    if rows == [] then []
    else if rows[0].dateBucket == bucket && q.InRange(rows[0]) then [rows[0]] + Bucket(rows[1..], q, bucket)
    else Bucket(rows[1..], q, bucket)
  }

  /** The filter expression, applied to the items a page read. */
  function Keep<T>(s: seq<Row<T>>, keep: T -> bool): (out: seq<Row<T>>)
    ensures |out| <= |s|
  {
    if s == [] then [] else if keep(s[0].item) then [s[0]] + Keep(s[1..], keep) else Keep(s[1..], keep)
  }

  /** The pages one query answers, the last without a LastEvaluatedKey. The
      filter has been applied to each, so a page may be empty; there is always
      at least one. */
  type Answer<T> = p: seq<seq<Row<T>>> | |p| >= 1 witness [[]]

  /** What the index answers for the bucket of a day under one query. */
  type Index<!T> = nat -> Answer<T>

  /** The answers a table gives: the bucket's rows in range that pass the
      filter, newest first, cut into pages anyhow. */
  ghost predicate Serves<T>(index: Index<T>, rows: seq<Row<T>>, q: Query<T>) {
    forall day :: Flatten(index(day)) == Keep(NewestFirst(Bucket(rows, q, DayText(day))), q.keep)
  }

  /** The items a query collects before it stops at the page cap. */
  function Capped<T>(pages: Answer<T>): seq<Row<T>> {
    Flatten(if |pages| <= MAX_PAGES then pages else pages[..MAX_PAGES])
  }

  /** What was collected so far, then every day from one down to the start day. */
  function Collect<T>(index: Index<T>, q: Query<T>, day: int, sofar: seq<Row<T>>): seq<Row<T>>
    decreases day - q.startDay + 1
  {
    if day < q.startDay then sofar
    else Collect(index, q, day - 1, sofar + Capped(index(day)))
  }

  function Take<T>(s: seq<T>, limit: int): seq<T> {
    if limit > 0 && |s| >= limit then s[..limit] else s
  }

  function Listed<T>(index: Index<T>, q: Query<T>): seq<Row<T>>
  {
    Take(Collect(index, q, q.endDay, []), q.limit)
  }

  // ---- The loops -----------------------------------------------------------

  lemma TakeEarly<T>(a: seq<T>, all: seq<T>, limit: int)
    requires limit > 0 && |a| >= limit && a <= all
    ensures Take(all, limit) == a[..limit]
  {
  }

  lemma {:induction false} CollectExtends<T>(index: Index<T>, q: Query<T>, day: int, sofar: seq<Row<T>>)
    ensures sofar <= Collect(index, q, day, sofar)
    decreases day - q.startDay + 1
  {
    if day >= q.startDay {
      CollectExtends(index, q, day - 1, sofar + Capped(index(day)));
    }
  }

  /** A bucket added to what was collected, and the limit then applied. */
  lemma CollectStep<T>(index: Index<T>, q: Query<T>, day: nat, sofar: seq<Row<T>>)
    requires q.startDay <= day
    ensures var reached := sofar + Capped(index(day));
            && Collect(index, q, day, sofar) == Collect(index, q, day - 1, reached)
            && (q.limit > 0 && |reached| >= q.limit ==>
                  Take(Collect(index, q, day, sofar), q.limit) == reached[..q.limit])
  {
    var reached := sofar + Capped(index(day));
    if q.limit > 0 && |reached| >= q.limit {
      CollectExtends(index, q, day - 1, reached);
      TakeEarly(reached, Collect(index, q, day - 1, reached), q.limit);
    }
  }

  lemma NoPages<T>(pages: Answer<T>)
    ensures Flatten(pages[..0]) == []
  {
  }

  /** Reads one bucket page by page, counting what earlier buckets gave; a limit
      that is not positive reads to the cap. */
  method ReadPages<T>(pages: Answer<T>, sofar: seq<Row<T>>, limit: int) returns (out: seq<Row<T>>)
    requires limit > 0 ==> |sofar| < limit
    ensures out == Take(sofar + Capped(pages), limit)
  {
    hide Flatten;
    out := sofar;
    ghost var read := if |pages| <= MAX_PAGES then pages else pages[..MAX_PAGES];
    assert Flatten(read) == Capped(pages);
    hide Capped;
    NoPages(read);
    var page := 0;
    while page < MAX_PAGES
      invariant page <= |read| && out == sofar + Flatten(read[..page])
      invariant limit > 0 ==> |out| < limit
      invariant page == |read| ==> page == MAX_PAGES
      decreases MAX_PAGES - page
    {
      FlattenPrefix(read, page);
      out := out + pages[page];
      page := page + 1;
      if limit > 0 && |out| >= limit {
        FlattenPrefix(read, page);
        TakeEarly(out, sofar + Capped(pages), limit);
        return out[..limit];
      }
      if page == |pages| {
        break;
      }
    }
    assert read[..page] == read;
  }

  /** Executions: each bucket is read to the cap, then the limit is checked. */
  method ListAllByDateBucket<T>(index: Index<T>, q: Query<T>) returns (out: seq<Row<T>>)
    ensures out == Listed(index, q)
  {
    out := [];
    var day: int := q.endDay;
    ghost var all := Collect(index, q, day, []);
    while day >= q.startDay
      invariant Collect(index, q, day, out) == all
      invariant q.limit > 0 ==> |out| < q.limit
      decreases day - q.startDay + 1
    {
      CollectStep(index, q, day, out);
      var items := ReadPages(index(day), [], 0);
      assert items == Capped(index(day));
      out := out + items;
      if q.limit > 0 && |out| >= q.limit {
        return out[..q.limit];
      }
      day := day - 1;
    }
  }

  /** Sessions and audit entries: the limit is checked after each page. */
  method ListAllByPage<T>(index: Index<T>, q: Query<T>) returns (out: seq<Row<T>>)
    ensures out == Listed(index, q)
  {
    out := [];
    var day: int := q.endDay;
    ghost var all := Collect(index, q, day, []);
    while day >= q.startDay
      invariant Collect(index, q, day, out) == all
      invariant q.limit > 0 ==> |out| < q.limit
      decreases day - q.startDay + 1
    {
      CollectStep(index, q, day, out);
      out := ReadPages(index(day), out, q.limit);
      if q.limit > 0 && |out| >= q.limit {
        return;
      }
      day := day - 1;
    }
  }
}
