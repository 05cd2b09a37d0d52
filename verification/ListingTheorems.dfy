/** The bucket listing refines a flat scan: filter all rows, sort newest first,
    take the limit. */
module ListingTheorems {
  import opened Lex
  import opened Pages
  import opened Timestamps
  import opened Wrappers
  import opened Listing

  ghost predicate Descending<T>(s: seq<Row<T>>) {
    forall i, j :: 0 <= i < j < |s| ==> Le(s[j].createdAt, s[i].createdAt)
  }

  // ---- Sorting ----------------------------------------------------------------

  lemma InsertHead<T>(r: Row<T>, s: seq<Row<T>>)
    requires Descending(s) && (s == [] || !Lt(r.createdAt, s[0].createdAt))
    ensures Descending([r] + s)
  {
    forall k | 0 <= k < |s| ensures Le(s[k].createdAt, r.createdAt) {
      LeOrLt(s[0].createdAt, r.createdAt);
      if k > 0 {
        LeTransitive(s[k].createdAt, s[0].createdAt, r.createdAt);
      }
    }
  }

  lemma InsertTail<T>(h: Row<T>, s: seq<Row<T>>)
    requires Descending(s) && forall x :: x in s ==> Le(x.createdAt, h.createdAt)
    ensures Descending([h] + s)
  {
  }

  lemma {:induction false} InsertSorted<T>(r: Row<T>, s: seq<Row<T>>)
    requires Descending(s)
    ensures Descending(Insert(r, s)) && multiset(Insert(r, s)) == multiset{r} + multiset(s)
    decreases |s|
  {
    if s == [] || !Lt(r.createdAt, s[0].createdAt) {
      InsertHead(r, s);
    } else {
      InsertSorted(r, s[1..]);
      assert s == [s[0]] + s[1..];
      forall x | x in Insert(r, s[1..]) ensures Le(x.createdAt, s[0].createdAt) {
        assert x in multiset(Insert(r, s[1..]));
        assert x == r || x in multiset(s[1..]);
      }
      InsertTail(s[0], Insert(r, s[1..]));
    }
  }

  /** Newest-first is a sorted permutation. */
  lemma {:induction false} NewestFirstSorts<T>(rows: seq<Row<T>>)
    ensures Descending(NewestFirst(rows)) && multiset(NewestFirst(rows)) == multiset(rows)
    decreases |rows|
  {
    if rows != [] {
      NewestFirstSorts(rows[1..]);
      InsertSorted(rows[0], NewestFirst(rows[1..]));
      assert rows == [rows[0]] + rows[1..];
    }
  }

  lemma {:induction false} KeepHead<T>(s: seq<Row<T>>, keep: T -> bool, key: string)
    requires Descending(s) && s != [] && !Lt(key, s[0].createdAt)
    ensures Keep(s, keep) == [] || !Lt(key, Keep(s, keep)[0].createdAt)
    decreases |s|
  {
    if !keep(s[0].item) && |s| > 1 {
      LeOrLt(s[1].createdAt, key);
      LeOrLt(s[0].createdAt, key);
      LeTransitive(s[1].createdAt, s[0].createdAt, key);
      KeepHead(s[1..], keep, key);
    }
  }

  lemma {:induction false} KeepInsert<T>(r: Row<T>, s: seq<Row<T>>, keep: T -> bool)
    requires Descending(s)
    ensures Keep(Insert(r, s), keep) == if keep(r.item) then Insert(r, Keep(s, keep)) else Keep(s, keep)
    decreases |s|
  {
    if s == [] || !Lt(r.createdAt, s[0].createdAt) {
      assert ([r] + s)[1..] == s;
      if s != [] {
        KeepHead(s, keep, r.createdAt);
      }
    } else {
      KeepInsert(r, s[1..], keep);
      assert ([s[0]] + Insert(r, s[1..]))[1..] == Insert(r, s[1..]);
      assert ([s[0]] + Keep(s[1..], keep))[1..] == Keep(s[1..], keep);
    }
  }

  /** Filtering what is sorted is sorting what is filtered. */
  lemma {:induction false} KeepNewestFirst<T>(rows: seq<Row<T>>, keep: T -> bool)
    ensures Keep(NewestFirst(rows), keep) == NewestFirst(Keep(rows, keep))
    decreases |rows|
  {
    if rows != [] {
      KeepNewestFirst(rows[1..], keep);
      NewestFirstSorts(rows[1..]);
      KeepInsert(rows[0], NewestFirst(rows[1..]), keep);
      if keep(rows[0].item) {
        assert ([rows[0]] + Keep(rows[1..], keep))[1..] == Keep(rows[1..], keep);
      }
    }
  }

  lemma {:induction false} InsertBefore<T>(r: Row<T>, a: seq<Row<T>>, b: seq<Row<T>>)
    requires forall x :: x in b ==> !Lt(r.createdAt, x.createdAt)
    ensures Insert(r, a + b) == Insert(r, a) + b
    decreases |a|
  {
    if a == [] {
      assert a + b == b;
      if b != [] {
        assert b[0] in b;
      }
    } else if Lt(r.createdAt, a[0].createdAt) {
      assert (a + b)[1..] == a[1..] + b;
      InsertBefore(r, a[1..], b);
    } else {
      assert [r] + (a + b) == ([r] + a) + b;
    }
  }

  lemma {:induction false} InsertAfter<T>(r: Row<T>, a: seq<Row<T>>, b: seq<Row<T>>)
    requires forall x :: x in a ==> Lt(r.createdAt, x.createdAt)
    ensures Insert(r, a + b) == a + Insert(r, b)
    decreases |a|
  {
    if a == [] {
      assert a + b == b;
    } else {
      assert a[0] in a && (a + b)[1..] == a[1..] + b;
      InsertAfter(r, a[1..], b);
    }
  }

  // ---- Days -----------------------------------------------------------------------

  /** The day a row was created, as a number. */
  type DayOf<!T> = Row<T> -> nat

  /** Rows of later days have later keys, and are filed under their day. */
  ghost predicate Dated<T>(rows: seq<Row<T>>, dayOf: DayOf<T>, q: Query<T>) {
    && (forall r, s :: r in rows && s in rows && dayOf(r) < dayOf(s) ==> Lt(r.createdAt, s.createdAt))
    && (forall r, d: nat :: r in rows && d <= q.endDay ==> (r.dateBucket == DayText(d) <==> dayOf(r) == d))
    && (forall r :: r in rows && q.InRange(r) ==> q.startDay <= dayOf(r))
  }

  predicate Wanted<T>(q: Query<T>, r: Row<T>) {
    q.InRange(r) && q.keep(r.item)
  }

  function On<T>(rows: seq<Row<T>>, q: Query<T>, dayOf: DayOf<T>, day: int): (out: seq<Row<T>>)
    ensures forall r :: r in out ==> r in rows && dayOf(r) == day && Wanted(q, r)
  {
    if rows == [] then []
    else if dayOf(rows[0]) == day && Wanted(q, rows[0]) then [rows[0]] + On(rows[1..], q, dayOf, day)
    else On(rows[1..], q, dayOf, day)
  }

  /** Every wanted row of a day or an earlier one, in table order. */
  function UpTo<T>(rows: seq<Row<T>>, q: Query<T>, dayOf: DayOf<T>, day: int): (out: seq<Row<T>>)
    ensures forall r :: r in out ==> r in rows && dayOf(r) <= day && Wanted(q, r)
    ensures multiset(out) <= multiset(rows)
  {
    if rows == [] then []
    else
      assert rows == [rows[0]] + rows[1..];
      if dayOf(rows[0]) <= day && Wanted(q, rows[0]) then [rows[0]] + UpTo(rows[1..], q, dayOf, day)
      else UpTo(rows[1..], q, dayOf, day)
  }

  lemma {:induction false} BucketIsDay<T>(rows: seq<Row<T>>, q: Query<T>, dayOf: DayOf<T>, day: nat)
    requires Dated(rows, dayOf, q) && day <= q.endDay
    ensures Keep(Bucket(rows, q, DayText(day)), q.keep) == On(rows, q, dayOf, day)
    decreases |rows|
  {
    if rows != [] {
      assert forall r :: r in rows[1..] ==> r in rows;
      BucketIsDay(rows[1..], q, dayOf, day);
      assert rows[0].dateBucket == DayText(day) <==> dayOf(rows[0]) == day;
      var rest := Bucket(rows[1..], q, DayText(day));
      assert ([rows[0]] + rest)[1..] == rest;
    }
  }

  lemma NewestFirstMembers<T>(s: seq<Row<T>>, r: Row<T>)
    requires r in NewestFirst(s)
    ensures r in s
  {
    NewestFirstSorts(s);
    assert r in multiset(NewestFirst(s));
  }

  /** A day's rows come before the rows of all earlier days. */
  lemma {:induction false} NewestDayFirst<T>(rows: seq<Row<T>>, q: Query<T>, dayOf: DayOf<T>, day: int)
    requires forall r, s :: r in rows && s in rows && dayOf(r) < dayOf(s) ==> Lt(r.createdAt, s.createdAt)
    ensures NewestFirst(UpTo(rows, q, dayOf, day))
            == NewestFirst(On(rows, q, dayOf, day)) + NewestFirst(UpTo(rows, q, dayOf, day - 1))
    decreases |rows|
  {
    if rows != [] {
      var h, t := rows[0], rows[1..];
      assert forall r :: r in t ==> r in rows;
      NewestDayFirst(t, q, dayOf, day);
      var a, b := NewestFirst(On(t, q, dayOf, day)), NewestFirst(UpTo(t, q, dayOf, day - 1));
      if dayOf(h) == day && Wanted(q, h) {
        assert ([h] + UpTo(t, q, dayOf, day))[1..] == UpTo(t, q, dayOf, day);
        assert ([h] + On(t, q, dayOf, day))[1..] == On(t, q, dayOf, day);
        forall x | x in b ensures !Lt(h.createdAt, x.createdAt) {
          NewestFirstMembers(UpTo(t, q, dayOf, day - 1), x);
          Asymmetric(x.createdAt, h.createdAt);
        }
        InsertBefore(h, a, b);
      } else if dayOf(h) < day && Wanted(q, h) {
        assert ([h] + UpTo(t, q, dayOf, day))[1..] == UpTo(t, q, dayOf, day);
        assert ([h] + UpTo(t, q, dayOf, day - 1))[1..] == UpTo(t, q, dayOf, day - 1);
        forall x | x in a ensures Lt(h.createdAt, x.createdAt) {
          NewestFirstMembers(On(t, q, dayOf, day), x);
        }
        InsertAfter(h, a, b);
      }
    }
  }

  lemma NothingBeforeStart<T>(rows: seq<Row<T>>, q: Query<T>, dayOf: DayOf<T>, day: int)
    requires day < q.startDay
    requires forall r :: r in rows && q.InRange(r) ==> q.startDay <= dayOf(r)
    ensures UpTo(rows, q, dayOf, day) == []
  {
    if UpTo(rows, q, dayOf, day) != [] {
      assert UpTo(rows, q, dayOf, day)[0] in UpTo(rows, q, dayOf, day);
    }
  }

  // ---- The listing --------------------------------------------------------------

  /** The days from one down to the start day, each up to the page cap. */
  function Days<T>(index: Index<T>, q: Query<T>, day: int): seq<Row<T>>
    decreases day - q.startDay + 1
  {
    if day < q.startDay then [] else Capped(index(day)) + Days(index, q, day - 1)
  }

  lemma {:induction false} CollectIsDays<T>(index: Index<T>, q: Query<T>, day: int, sofar: seq<Row<T>>)
    ensures Collect(index, q, day, sofar) == sofar + Days(index, q, day)
    decreases day - q.startDay + 1
  {
    if day >= q.startDay {
      CollectIsDays(index, q, day - 1, sofar + Capped(index(day)));
    }
  }

  lemma CappedIsPrefix<T>(pages: Answer<T>)
    ensures Capped(pages) <= Flatten(pages)
    ensures |pages| <= MAX_PAGES ==> Capped(pages) == Flatten(pages)
  {
    if |pages| > MAX_PAGES {
      FlattenPrefix(pages, MAX_PAGES);
    }
  }

  /** What the index holds for a day is that day's wanted rows, sorted. */
  lemma IndexIsSortedDay<T>(index: Index<T>, rows: seq<Row<T>>, q: Query<T>, dayOf: DayOf<T>, day: nat)
    requires Serves(index, rows, q) && Dated(rows, dayOf, q) && day <= q.endDay
    ensures Flatten(index(day)) == NewestFirst(On(rows, q, dayOf, day))
  {
    KeepNewestFirst(Bucket(rows, q, DayText(day)), q.keep);
    BucketIsDay(rows, q, dayOf, day);
  }

  /** No visited bucket holds wanted rows beyond the page cap. */
  ghost predicate Complete<T>(index: Index<T>, q: Query<T>, day: int) {
    forall d: nat :: q.startDay <= d <= day ==> Capped(index(d)) == Flatten(index(d))
  }

  /** The same days without a page cap. */
  function WholeDays<T>(index: Index<T>, q: Query<T>, day: int): seq<Row<T>>
    decreases day - q.startDay + 1
  {
    if day < q.startDay then [] else Flatten(index(day)) + WholeDays(index, q, day - 1)
  }

  lemma {:induction false} WholeDaysAreFlat<T>(index: Index<T>, rows: seq<Row<T>>, q: Query<T>, dayOf: DayOf<T>,
                                               day: int)
    requires day <= q.endDay
    requires Serves(index, rows, q) && Dated(rows, dayOf, q)
    ensures WholeDays(index, q, day) == NewestFirst(UpTo(rows, q, dayOf, day))
    decreases day - q.startDay + 1
  {
    hide DayText;
    if day < q.startDay {
      NothingBeforeStart(rows, q, dayOf, day);
    } else {
      WholeDaysAreFlat(index, rows, q, dayOf, day - 1);
      NewestDayFirst(rows, q, dayOf, day);
      IndexIsSortedDay(index, rows, q, dayOf, day);
    }
  }

  lemma EqualParts<T>(a: seq<Row<T>>, b: seq<Row<T>>, a': seq<Row<T>>, b': seq<Row<T>>)
    requires |a| <= |a'| && |b| <= |b'| && a + b == a' + b'
    ensures a == a' && b == b'
  {
    assert |a + b| == |a| + |b|;
    assert a == (a + b)[..|a|] && a' == (a' + b')[..|a'|];
    assert b == (a + b)[|a|..] && b' == (a' + b')[|a'|..];
  }

  /** The cap drops nothing exactly when no visited bucket was cut short. */
  lemma {:induction false} CapDropsNothing<T>(index: Index<T>, q: Query<T>, day: int)
    ensures |Days(index, q, day)| <= |WholeDays(index, q, day)|
    ensures Days(index, q, day) == WholeDays(index, q, day) <==> Complete(index, q, day)
    decreases day - q.startDay + 1
  {
    if day >= q.startDay {
      CapDropsNothing(index, q, day - 1);
      CappedIsPrefix(index(day));
      if Days(index, q, day) == WholeDays(index, q, day) {
        EqualParts(Capped(index(day)), Days(index, q, day - 1), Flatten(index(day)), WholeDays(index, q, day - 1));
      }
    }
  }

  /** If the bucket of that day is cut short, m rows are listed with its own. */
  ghost predicate CutLate<T>(index: Index<T>, q: Query<T>, day: int, m: int, d: nat) {
    q.startDay <= d <= day && Capped(index(d)) != Flatten(index(d)) ==>
      |Days(index, q, day)| - |Days(index, q, d - 1)| >= m
  }

  ghost predicate CutAfter<T>(index: Index<T>, q: Query<T>, day: int, m: int) {
    forall d: nat :: CutLate(index, q, day, m, d)
  }

  lemma {:induction false} EarlierDaysAreFewer<T>(index: Index<T>, q: Query<T>, day: int, d: int)
    requires d <= day
    ensures |Days(index, q, d)| <= |Days(index, q, day)|
    decreases day - d
  {
    if d < day {
      EarlierDaysAreFewer(index, q, day - 1, d);
    }
  }

  lemma {:induction false} ListedAreOfTheirDay<T>(index: Index<T>, rows: seq<Row<T>>, q: Query<T>, dayOf: DayOf<T>,
                                                  day: int)
    requires Serves(index, rows, q) && Dated(rows, dayOf, q) && day <= q.endDay
    ensures forall r :: r in Days(index, q, day) ==> dayOf(r) <= day
    decreases day - q.startDay + 1
  {
    hide Dated;
    hide Serves;
    hide Capped;
    hide Flatten;
    if day >= q.startDay {
      ListedAreOfTheirDay(index, rows, q, dayOf, day - 1);
      CappedIsPrefix(index(day));
      DayHoldsItsRows(index, rows, q, dayOf, day);
    }
  }

  lemma DayHoldsItsRows<T>(index: Index<T>, rows: seq<Row<T>>, q: Query<T>, dayOf: DayOf<T>, day: nat)
    requires Serves(index, rows, q) && Dated(rows, dayOf, q) && day <= q.endDay
    ensures forall r :: r in Flatten(index(day)) ==> dayOf(r) == day
  {
    IndexIsSortedDay(index, rows, q, dayOf, day);
    forall r | r in Flatten(index(day)) ensures dayOf(r) == day {
      NewestFirstMembers(On(rows, q, dayOf, day), r);
    }
  }

  lemma TakeOfBoth<T>(a: seq<T>, b: seq<T>, b': seq<T>, m: int)
    requires 0 < m
    ensures |a| >= m ==> Take(a + b, m) == Take(a + b', m)
    ensures |a| < m ==> (Take(a + b, m) == Take(a + b', m) <==> Take(b, m - |a|) == Take(b', m - |a|))
  {
    if |a| >= m {
      assert (a + b)[..m] == a[..m] == (a + b')[..m];
    } else {
      assert Take(a + b, m) == a + Take(b, m - |a|) && Take(a + b', m) == a + Take(b', m - |a|);
      if Take(a + b, m) == Take(a + b', m) {
        assert Take(b, m - |a|) == (a + Take(b, m - |a|))[|a|..] && Take(b', m - |a|) == (a + Take(b', m - |a|))[|a|..];
      }
    }
  }

  /** The rows of a bucket that is cut short while there is still room are missed. */
  lemma CutIsMissed<T>(a: seq<T>, more: seq<T>, b: seq<T>, b': seq<T>, m: int)
    requires |a| < m && more != [] && forall r :: r in b ==> r != more[0]
    ensures Take(a + b, m) != Take((a + more) + b', m)
  {
    assert ((a + more) + b')[|a|] == more[0];
    assert Take((a + more) + b', m)[|a|] == more[0];
    if b != [] {
      assert (a + b)[|a|] == b[0] && b[0] in b;
    }
  }

  lemma CutStep<T>(index: Index<T>, q: Query<T>, day: nat, m: int, d: nat)
    requires q.startDay <= day && 0 < m
    ensures var a, cut := |Capped(index(day))|, Capped(index(day)) != Flatten(index(day));
            && (a >= m ==> CutLate(index, q, day, m, d))
            && (a < m && cut ==> !CutLate(index, q, day, m, day))
            && (a < m && !cut ==> (CutLate(index, q, day, m, d) <==> CutLate(index, q, day - 1, m - a, d)))
  {
    hide Capped;
    hide Flatten;
    assert |Days(index, q, day)| == |Capped(index(day))| + |Days(index, q, day - 1)|;
    if d <= day {
      EarlierDaysAreFewer(index, q, day - 1, d - 1);
    }
  }

  lemma CutNext<T>(index: Index<T>, q: Query<T>, day: nat, m: int)
    requires q.startDay <= day && 0 < m
    ensures var a, cut := |Capped(index(day))|, Capped(index(day)) != Flatten(index(day));
            && (a >= m ==> CutAfter(index, q, day, m))
            && (a < m && cut ==> !CutAfter(index, q, day, m))
            && (a < m && !cut ==> (CutAfter(index, q, day, m) <==> CutAfter(index, q, day - 1, m - a)))
  {
    hide Capped;
    hide Flatten;
    hide Days;
    hide CutLate;
    var a, cut := |Capped(index(day))|, Capped(index(day)) != Flatten(index(day));
    CutStep(index, q, day, m, day);
    if a >= m || (!cut && CutAfter(index, q, day - 1, m - a)) {
      forall d: nat ensures CutLate(index, q, day, m, d) {
        CutStep(index, q, day, m, d);
      }
    }
    if a < m && !cut && CutAfter(index, q, day, m) {
      var earlier, rest := day - 1, m - a;
      forall d: nat ensures CutLate(index, q, earlier, rest, d) {
        CutStep(index, q, day, m, d);
      }
    }
  }

  lemma {:induction false} LimitedDays<T>(index: Index<T>, rows: seq<Row<T>>, q: Query<T>, dayOf: DayOf<T>, day: int,
                                          m: int)
    requires Serves(index, rows, q) && Dated(rows, dayOf, q) && day <= q.endDay && 0 < m
    ensures Take(Days(index, q, day), m) == Take(WholeDays(index, q, day), m) <==> CutAfter(index, q, day, m)
    decreases day - q.startDay + 1
  {
    hide Dated;
    hide Serves;
    hide CutAfter;
    hide Capped;
    hide Flatten;
    hide Take;
    if day < q.startDay {
      NoDaysNoCut(index, q, day, m);
    } else {
      var a, whole := Capped(index(day)), Flatten(index(day));
      var b, b' := Days(index, q, day - 1), WholeDays(index, q, day - 1);
      CappedIsPrefix(index(day));
      CutNext(index, q, day, m);
      if |a| >= m {
        assert whole + b' == a + (whole[|a|..] + b');
        TakeOfBoth(a, b, whole[|a|..] + b', m);
      } else if a == whole {
        TakeOfBoth(a, b, b', m);
        LimitedDays(index, rows, q, dayOf, day - 1, m - |a|);
      } else {
        ListedAreOfTheirDay(index, rows, q, dayOf, day - 1);
        DayHoldsItsRows(index, rows, q, dayOf, day);
        var more := whole[|a|..];
        assert whole == a + more && more[0] in whole;
        CutIsMissed(a, more, b, b', m);
      }
    }
  }

  lemma NoDaysNoCut<T>(index: Index<T>, q: Query<T>, day: int, m: int)
    requires day < q.startDay
    ensures CutAfter(index, q, day, m)
  {
  }

  /** Filter all rows, sort them newest first, take the limit. */
  function FlatScan<T>(rows: seq<Row<T>>, q: Query<T>, dayOf: DayOf<T>): seq<Row<T>> {
    Take(NewestFirst(UpTo(rows, q, dayOf, q.endDay)), q.limit)
  }

  /** Exactly when the bucket-by-bucket listing is the flat scan: without a limit, if no
      bucket is cut short; with one, if every bucket that is cut short, with its own
      rows counted, fills the limit. */
  lemma ListingIsFlatScan<T>(index: Index<T>, rows: seq<Row<T>>, q: Query<T>, dayOf: DayOf<T>)
    requires Serves(index, rows, q) && Dated(rows, dayOf, q)
    ensures Complete(index, q, q.endDay) ==> Listed(index, q) == FlatScan(rows, q, dayOf)
    ensures Listed(index, q) == FlatScan(rows, q, dayOf) <==>
              if q.limit <= 0 then Complete(index, q, q.endDay) else CutAfter(index, q, q.endDay, q.limit)
  {
    CollectIsDays(index, q, q.endDay, []);
    assert [] + Days(index, q, q.endDay) == Days(index, q, q.endDay);
    CapDropsNothing(index, q, q.endDay);
    WholeDaysAreFlat(index, rows, q, dayOf, q.endDay);
    hide CutAfter;
    hide Days;
    hide WholeDays;
    hide Complete;
    if q.limit > 0 {
      LimitedDays(index, rows, q, dayOf, q.endDay, q.limit);
    }
  }

  /** Ten pages a bucket are enough for completeness. */
  lemma WithinCapIsComplete<T>(index: Index<T>, q: Query<T>)
    requires forall d: nat :: q.startDay <= d <= q.endDay ==> |index(d)| <= MAX_PAGES
    ensures Complete(index, q, q.endDay)
  {
    forall d: nat | q.startDay <= d <= q.endDay ensures Capped(index(d)) == Flatten(index(d)) {
      CappedIsPrefix(index(d));
    }
  }

  lemma JoinDescending<T>(a: seq<Row<T>>, b: seq<Row<T>>)
    requires Descending(a) && Descending(b)
    requires forall r, s :: r in a && s in b ==> Le(s.createdAt, r.createdAt)
    ensures Descending(a + b)
  {
    forall i, j | 0 <= i < j < |a + b| ensures Le((a + b)[j].createdAt, (a + b)[i].createdAt) {
      if i < |a| && j >= |a| {
        assert (a + b)[i] in a && (a + b)[j] in b;
      }
    }
  }

  lemma SplitDescending<T>(a: seq<Row<T>>, b: seq<Row<T>>)
    requires Descending(a + b)
    ensures Descending(a) && Descending(b)
    ensures forall r, s :: r in a && s in b ==> Le(s.createdAt, r.createdAt)
  {
    forall i, j | 0 <= i < j < |a| ensures Le(a[j].createdAt, a[i].createdAt) {
      assert (a + b)[i] == a[i] && (a + b)[j] == a[j];
    }
    forall i, j | 0 <= i < j < |b| ensures Le(b[j].createdAt, b[i].createdAt) {
      assert (a + b)[|a| + i] == b[i] && (a + b)[|a| + j] == b[j];
    }
    forall r, s | r in a && s in b ensures Le(s.createdAt, r.createdAt) {
      var i :| 0 <= i < |a| && a[i] == r;
      var j :| 0 <= j < |b| && b[j] == s;
      assert (a + b)[i] == r && (a + b)[|a| + j] == s;
    }
  }

  lemma PrefixKeepsOrder<T>(a: seq<Row<T>>, s: seq<Row<T>>)
    requires Descending(s) && a <= s
    ensures Descending(a) && multiset(a) <= multiset(s)
    ensures forall r :: r in a ==> r in s
  {
    assert s == a + s[|a|..];
    SplitDescending(a, s[|a|..]);
  }

  lemma JoinCut<T>(a: seq<Row<T>>, b: seq<Row<T>>, whole: seq<Row<T>>, earlier: seq<Row<T>>)
    requires Descending(whole + earlier) && a <= whole
    requires Descending(b) && multiset(b) <= multiset(earlier)
    ensures Descending(a + b) && multiset(a + b) <= multiset(whole + earlier)
  {
    SplitDescending(whole, earlier);
    PrefixKeepsOrder(a, whole);
    forall s | s in b ensures s in earlier {
      assert s in multiset(b);
    }
    JoinDescending(a, b);
  }

  /** Cutting buckets short keeps the order and invents nothing. */
  lemma {:induction false} CapKeepsOrder<T>(index: Index<T>, q: Query<T>, day: int)
    requires Descending(WholeDays(index, q, day))
    ensures Descending(Days(index, q, day))
    ensures multiset(Days(index, q, day)) <= multiset(WholeDays(index, q, day))
    decreases day - q.startDay + 1
  {
    if day >= q.startDay {
      SplitDescending(Flatten(index(day)), WholeDays(index, q, day - 1));
      CapKeepsOrder(index, q, day - 1);
      CappedIsPrefix(index(day));
      JoinCut(Capped(index(day)), Days(index, q, day - 1), Flatten(index(day)), WholeDays(index, q, day - 1));
    }
  }

  lemma TakeKeepsOrder<T>(s: seq<Row<T>>, limit: int)
    requires Descending(s)
    ensures Descending(Take(s, limit)) && multiset(Take(s, limit)) <= multiset(s)
  {
    PrefixKeepsOrder(Take(s, limit), s);
  }

  /** Even when buckets are cut short, what is listed is wanted, newest first,
      and no row is listed twice. */
  lemma ListingIsSound<T>(index: Index<T>, rows: seq<Row<T>>, q: Query<T>, dayOf: DayOf<T>)
    requires Serves(index, rows, q) && Dated(rows, dayOf, q)
    ensures Descending(Listed(index, q))
    ensures forall r :: r in Listed(index, q) ==> r in rows && Wanted(q, r)
    ensures multiset(Listed(index, q)) <= multiset(rows)
    ensures q.limit > 0 ==> |Listed(index, q)| <= q.limit
  {
    var all, flat := Days(index, q, q.endDay), UpTo(rows, q, dayOf, q.endDay);
    CollectIsDays(index, q, q.endDay, []);
    assert [] + all == all;
    WholeDaysAreFlat(index, rows, q, dayOf, q.endDay);
    NewestFirstSorts(flat);
    CapKeepsOrder(index, q, q.endDay);
    TakeKeepsOrder(all, q.limit);
    forall r | r in Listed(index, q) ensures r in rows && Wanted(q, r) {
      assert r in multiset(Listed(index, q));
      assert r in multiset(flat);
    }
  }

  // ---- Rows stamped by the clock ---------------------------------------------------

  /** The row was created at a printable instant and filed under its day, as
      Create, Put and Record do. */
  predicate CreatedAt<T>(r: Row<T>, t: Instant) {
    Printable(t) && r.createdAt == Format(t) && r.dateBucket == r.createdAt[..10]
  }

  lemma DayTextInjective(a: nat, b: nat)
    requires DateOf(a).year <= 9999 && DateOf(b).year <= 9999 && DayText(a) == DayText(b)
    ensures a == b
  {
    Irreflexive(DayText(a));
    if a < b {
      DayOrder(a, b);
    } else if b < a {
      DayOrder(b, a);
    }
  }

  lemma EarlierDay(d: nat, e: nat)
    requires d <= e && DateOf(e).year <= 9999
    ensures DateOf(d).year <= 9999
  {
    if d < e {
      DatesAdvance(d, e);
    }
  }

  lemma LaterDayLaterKey(a: Instant, b: Instant)
    requires a / DAY < b / DAY && Printable(b)
    ensures Lt(Format(a), Format(b))
  {
    DayOfSecond(a);
    DayOfSecond(b);
    DifferentSecondsOrder(a, b);
  }

  lemma FiledUnderItsDay<T>(r: Row<T>, t: Instant, d: nat, end: nat)
    requires CreatedAt(r, t) && d <= end && DateOf(end).year <= 9999
    ensures r.dateBucket == DayText(d) <==> t / DAY == d
  {
    hide DayText;
    EarlierDay(d, end);
    if r.dateBucket == DayText(d) {
      DayTextInjective(t / DAY, d);
    }
  }

  /** The range and the days of a query that starts at a printable instant. */
  predicate StartsAt<T>(q: Query<T>, since: Instant) {
    q.since == Format(since) && Printable(since) && q.startDay == since / DAY && DateOf(q.endDay).year <= 9999
  }

  lemma RequestStartsAt<T>(since: Instant, before: Option<Instant>, now: Instant, keep: T -> bool, limit: int)
    requires Printable(since) && Printable(if before.Some? then before.value else now)
    ensures StartsAt(Request(since, before, now, keep, limit), since)
  {
  }

  lemma ClockOrder<T>(rows: seq<Row<T>>, at: Row<T> -> Instant)
    requires forall r :: r in rows ==> CreatedAt(r, at(r))
    ensures forall r, s :: r in rows && s in rows && at(r) / DAY < at(s) / DAY ==> Lt(r.createdAt, s.createdAt)
  {
    forall r, s | r in rows && s in rows && at(r) / DAY < at(s) / DAY ensures Lt(r.createdAt, s.createdAt) {
      LaterDayLaterKey(at(r), at(s));
    }
  }

  lemma ClockFiling<T>(rows: seq<Row<T>>, at: Row<T> -> Instant, end: nat)
    requires forall r :: r in rows ==> CreatedAt(r, at(r))
    requires DateOf(end).year <= 9999
    ensures forall r, d: nat :: r in rows && d <= end ==> (r.dateBucket == DayText(d) <==> at(r) / DAY == d)
  {
    forall r, d: nat | r in rows && d <= end ensures r.dateBucket == DayText(d) <==> at(r) / DAY == d {
      FiledUnderItsDay(r, at(r), d, end);
    }
  }

  lemma ClockRange<T>(rows: seq<Row<T>>, at: Row<T> -> Instant, q: Query<T>, since: Instant)
    requires forall r :: r in rows ==> CreatedAt(r, at(r))
    requires q.since == Format(since) && Printable(since)
    ensures forall r :: r in rows && q.InRange(r) ==> since / DAY <= at(r) / DAY
  {
    forall r | r in rows && q.InRange(r) ensures since / DAY <= at(r) / DAY {
      AtOrAfterDay(since, at(r));
    }
  }

  /** Rows filed by the clock meet what the listing theorems need. */
  lemma ClockRowsAreDated<T>(rows: seq<Row<T>>, at: Row<T> -> Instant, dayOf: DayOf<T>, q: Query<T>, since: Instant)
    requires forall r :: r in rows ==> CreatedAt(r, at(r)) && dayOf(r) == at(r) / DAY
    requires StartsAt(q, since)
    ensures Dated(rows, dayOf, q)
  {
    hide Format;
    hide DayText;
    hide CreatedAt;
    ClockOrder(rows, at);
    ClockFiling(rows, at, q.endDay);
    ClockRange(rows, at, q, since);
  }

  /** The days a bounded listing visits leave out no row in its range. */
  lemma BoundedRangeIsCovered<T>(r: Row<T>, t: Instant, since: Instant, before: Instant, now: Instant,
                              keep: T -> bool, limit: int)
    requires CreatedAt(r, t) && Printable(since) && Printable(before)
    requires var q := Request(since, Some(before), now, keep, limit); q.InRange(r)
    ensures var q := Request(since, Some(before), now, keep, limit); q.startDay <= t / DAY <= q.endDay
  {
    AtOrAfterDay(t, before);
    AtOrAfterDay(since, t);
  }

  /** A wanted row created no later than the last day visited is in the scan. */
  lemma {:induction false} InUpTo<T>(rows: seq<Row<T>>, q: Query<T>, dayOf: DayOf<T>, day: int, r: Row<T>)
    requires r in rows && dayOf(r) <= day && Wanted(q, r)
    ensures r in UpTo(rows, q, dayOf, day)
    decreases |rows|
  {
    if r != rows[0] {
      InUpTo(rows[1..], q, dayOf, day, r);
    }
  }
}
