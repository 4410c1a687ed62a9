/** Keyset paging of history records: pages of at most 256 rows, each query continuing after
    the timestamp and id of the last row of the page before. */
module HistoryPaging {

  const PAGE := 256

  datatype Row<D> = Row(id: nat, ts: nat, data: D)

  /** The WHERE clause: a time range open where its bound is 0, and a position to go on from. */
  datatype Where = Where(begin: nat, end: nat, lastTs: nat, lastId: nat)

  predicate Matches<D>(w: Where, r: Row<D>) {
    && (w.begin == 0 || r.ts >= w.begin)
    && (w.end == 0 || r.ts <= w.end)
    && (r.ts > w.lastTs || (r.ts == w.lastTs && r.id > w.lastId))
  }

  /** ORDER BY timestamp_ms, id. */
  predicate Less<D>(a: Row<D>, b: Row<D>) { a.ts < b.ts || (a.ts == b.ts && a.id < b.id) }

  function Filter<D>(s: seq<Row<D>>, w: Where): seq<Row<D>> {
    if s == [] then []
    else if Matches(w, s[0]) then [s[0]] + Filter(s[1..], w)
    else Filter(s[1..], w)
  }

  function Insert<D>(x: Row<D>, s: seq<Row<D>>): seq<Row<D>> {
    if s == [] then [x]
    else if Less(x, s[0]) then [x] + s
    else [s[0]] + Insert(x, s[1..])
  }

  function Sort<D>(s: seq<Row<D>>): seq<Row<D>> {
    if s == [] then [] else Insert(s[0], Sort(s[1..]))
  }

  function Take<D>(s: seq<Row<D>>, n: nat): seq<Row<D>> { if |s| <= n then s else s[..n] }

  /** apply_query_limit */
  function PageSize(limit: int): (n: nat)
    ensures n == PAGE || 0 < n == limit < PAGE
  {
    if limit > 0 && PAGE > limit then limit else PAGE
  }

  /** history_store_query_yx_page and its yc and dd twins, as a query. */
  function Query<D>(table: seq<Row<D>>, w: Where, limit: int): seq<Row<D>> {
    Take(Sort(Filter(table, w)), PageSize(limit))
  }

  // ---- sorting -----------------------------------------------------------------------

  ghost predicate Ordered<D>(s: seq<Row<D>>) {
    forall i, j :: 0 <= i < j < |s| ==> Less(s[i], s[j])
  }

  ghost predicate DistinctIds<D>(s: seq<Row<D>>) {
    forall i, j :: 0 <= i < j < |s| ==> s[i].id != s[j].id
  }

  lemma {:induction false} InsertBag<D>(x: Row<D>, s: seq<Row<D>>)
    ensures multiset(Insert(x, s)) == multiset(s) + multiset{x}
    decreases |s|
  {
    if s != [] {
      assert s == [s[0]] + s[1..];
      if !Less(x, s[0]) {
        InsertBag(x, s[1..]);
      }
    }
  }

  /** Sorting keeps every row exactly once. */
  lemma {:induction false} SortBag<D>(s: seq<Row<D>>)
    ensures multiset(Sort(s)) == multiset(s)
    decreases |s|
  {
    if s != [] {
      SortBag(s[1..]);
      InsertBag(s[0], Sort(s[1..]));
      assert s == [s[0]] + s[1..];
    }
  }

  lemma {:induction false} InsertOrdered<D>(x: Row<D>, s: seq<Row<D>>)
    requires Ordered(s) && forall i :: 0 <= i < |s| ==> s[i].id != x.id
    ensures Ordered(Insert(x, s))
    ensures forall r :: r in Insert(x, s) ==> r == x || r in s
    decreases |s|
  {
    if s != [] && !Less(x, s[0]) {
      InsertOrdered(x, s[1..]);
      var t := Insert(x, s[1..]);
      forall i | 0 <= i < |t| ensures Less(s[0], t[i]) {
        assert t[i] in t;
      }
    }
  }

  lemma {:induction false} SortOrdered<D>(s: seq<Row<D>>)
    requires DistinctIds(s)
    ensures Ordered(Sort(s))
    decreases |s|
  {
    if s != [] {
      var rest := Sort(s[1..]);
      SortOrdered(s[1..]);
      SortBag(s[1..]);
      forall i | 0 <= i < |rest| ensures rest[i].id != s[0].id {
        assert rest[i] in multiset(s[1..]);
        assert rest[i] in s[1..];
      }
      InsertOrdered(s[0], rest);
    }
  }

  // ---- filtering and sorting commute -------------------------------------------------------

  lemma {:induction false} FilterIn<D>(s: seq<Row<D>>, w: Where, r: Row<D>)
    ensures r in Filter(s, w) <==> r in s && Matches(w, r)
    decreases |s|
  {
    if s != [] {
      FilterIn(s[1..], w, r);
      assert s == [s[0]] + s[1..];
    }
  }

  lemma {:induction false} FilterInsert<D>(x: Row<D>, s: seq<Row<D>>, w: Where)
    requires Ordered(s)
    ensures Filter(Insert(x, s), w) == if Matches(w, x) then Insert(x, Filter(s, w)) else Filter(s, w)
    decreases |s|
  {
    if s != [] {
      if Less(x, s[0]) {
        InsertFirst(x, s, w);
      } else {
        FilterInsert(x, s[1..], w);
      }
    }
  }

  /** x goes before everything that is left of s. */
  lemma {:induction false} InsertFirst<D>(x: Row<D>, s: seq<Row<D>>, w: Where)
    requires Ordered(s) && s != [] && Less(x, s[0])
    ensures Insert(x, Filter(s, w)) == [x] + Filter(s, w)
    ensures Filter([x] + s, w) == if Matches(w, x) then [x] + Filter(s, w) else Filter(s, w)
  {
    assert ([x] + s)[1..] == s;
    var f := Filter(s, w);
    if f != [] {
      FilterIn(s, w, f[0]);
      assert f[0] in f;
      var i :| 0 <= i < |s| && s[i] == f[0];
      assert i > 0 ==> Less(s[0], s[i]);
    }
  }

  lemma {:induction false} FilterSort<D>(s: seq<Row<D>>, w: Where)
    requires DistinctIds(s)
    ensures Sort(Filter(s, w)) == Filter(Sort(s), w)
    decreases |s|
  {
    if s != [] {
      FilterSort(s[1..], w);
      SortOrdered(s[1..]);
      FilterInsert(s[0], Sort(s[1..]), w);
    }
  }

  lemma {:induction false} FilterTwice<D>(s: seq<Row<D>>, v: Where, w: Where)
    requires forall i :: 0 <= i < |s| && Matches(w, s[i]) ==> Matches(v, s[i])
    ensures Filter(Filter(s, v), w) == Filter(s, w)
    decreases |s|
  {
    if s != [] {
      FilterTwice(s[1..], v, w);
    }
  }

  lemma {:induction false} FilterConcat<D>(a: seq<Row<D>>, b: seq<Row<D>>, w: Where)
    ensures Filter(a + b, w) == Filter(a, w) + Filter(b, w)
    decreases |a|
  {
    if a == [] {
      assert a + b == b;
    } else {
      assert (a + b)[1..] == a[1..] + b;
      FilterConcat(a[1..], b, w);
    }
  }

  lemma {:induction false} FilterNone<D>(s: seq<Row<D>>, w: Where)
    requires forall i :: 0 <= i < |s| ==> !Matches(w, s[i])
    ensures Filter(s, w) == []
    decreases |s|
  {
    if s != [] {
      FilterNone(s[1..], w);
    }
  }

  lemma {:induction false} FilterAll<D>(s: seq<Row<D>>, w: Where)
    requires forall i :: 0 <= i < |s| ==> Matches(w, s[i])
    ensures Filter(s, w) == s
    decreases |s|
  {
    if s != [] {
      FilterAll(s[1..], w);
    }
  }

  // ---- one page ---------------------------------------------------------------------------------

  /** All rows of the time range, in order. */
  function Whole<D>(table: seq<Row<D>>, begin: nat, end: nat): seq<Row<D>> {
    Sort(Filter(table, Where(begin, end, 0, 0)))
  }

  lemma {:induction false} FilterDistinct<D>(s: seq<Row<D>>, w: Where)
    requires DistinctIds(s)
    ensures DistinctIds(Filter(s, w))
    decreases |s|
  {
    if s != [] {
      FilterDistinct(s[1..], w);
      forall i | 0 <= i < |Filter(s[1..], w)| ensures Filter(s[1..], w)[i].id != s[0].id {
        FilterIn(s[1..], w, Filter(s[1..], w)[i]);
      }
    }
  }

  lemma {:induction false} WholeOrdered<D>(table: seq<Row<D>>, begin: nat, end: nat)
    requires DistinctIds(table)
    ensures Ordered(Whole(table, begin, end))
  {
    FilterDistinct(table, Where(begin, end, 0, 0));
    SortOrdered(Filter(table, Where(begin, end, 0, 0)));
  }

  lemma {:induction false} QueryWhole<D>(table: seq<Row<D>>, begin: nat, end: nat, ts: nat, id: nat)
    requires DistinctIds(table)
    ensures Sort(Filter(table, Where(begin, end, ts, id))) == Filter(Whole(table, begin, end), Where(begin, end, ts, id))
  {
    var v, w := Where(begin, end, 0, 0), Where(begin, end, ts, id);
    FilterSort(table, v);
    FilterSort(table, w);
    FilterTwice(Sort(table), v, w);
  }

  /** Continuing after row m - 1 of the whole result gives its rows from m on. */
  lemma {:induction false} PageAfter<D>(table: seq<Row<D>>, begin: nat, end: nat, m: nat)
    requires DistinctIds(table) && 0 < m <= |Whole(table, begin, end)|
    ensures var s := Whole(table, begin, end);
            Sort(Filter(table, Where(begin, end, s[m - 1].ts, s[m - 1].id))) == s[m..]
  {
    var s := Whole(table, begin, end);
    var w := Where(begin, end, s[m - 1].ts, s[m - 1].id);
    QueryWhole(table, begin, end, s[m - 1].ts, s[m - 1].id);
    RestMatches(table, begin, end, m);
    FilterNone(s[..m], w);
    FilterAll(s[m..], w);
    FilterConcat(s[..m], s[m..], w);
    assert s[..m] + s[m..] == s;
  }

  lemma {:induction false} RestMatches<D>(table: seq<Row<D>>, begin: nat, end: nat, m: nat)
    requires DistinctIds(table) && 0 < m <= |Whole(table, begin, end)|
    ensures var s := Whole(table, begin, end);
            var w := Where(begin, end, s[m - 1].ts, s[m - 1].id);
            && (forall i :: 0 <= i < m ==> !Matches(w, s[i]))
            && (forall i :: m <= i < |s| ==> Matches(w, s[i]))
  {
    var s, v := Whole(table, begin, end), Where(begin, end, 0, 0);
    WholeOrdered(table, begin, end);
    SortBag(Filter(table, v));
    forall i | m <= i < |s| ensures Matches(Where(begin, end, s[m - 1].ts, s[m - 1].id), s[i]) {
      assert s[i] in multiset(Filter(table, v));
      FilterIn(table, v, s[i]);
      assert Less(s[m - 1], s[i]);
    }
    forall i | 0 <= i < m ensures !Matches(Where(begin, end, s[m - 1].ts, s[m - 1].id), s[i]) {
      assert i < m - 1 ==> Less(s[i], s[m - 1]);
    }
  }

  // ---- the loop -----------------------------------------------------------------------------------

  /** What is sent: everything when the pages are full ones, else only the first page; cut
      where the connection goes down after `alive` records. */
  function Sent<D>(table: seq<Row<D>>, begin: nat, end: nat, limit: int, alive: nat): seq<Row<D>> {
    var s := Whole(table, begin, end);
    Take(if PageSize(limit) == PAGE then s else Take(s, PageSize(limit)), alive)
  }

  /** One of the three loops of send_history_data_records with the query before it; the
      client is active for the first `alive` records. */
  method SendHistory<D>(table: seq<Row<D>>, begin: nat, end: nat, limit: int, alive: nat)
    returns (sent: seq<Row<D>>)
    requires DistinctIds(table)
    ensures sent == Sent(table, begin, end, limit, alive)
  {
    ghost var s, n := Whole(table, begin, end), PageSize(limit);
    var page := Query(table, Where(begin, end, 0, 0), limit);
    ghost var m := 0;
    sent := [];
    while |page| > 0 && |sent| < alive
      invariant 0 <= m <= |s| && page == Take(s[m..], n)
      invariant sent == Take(s[..m], alive)
      invariant m > 0 ==> n == PAGE
      decreases |s| - m
    {
      sent := SendPage(sent, page, alive);
      PageSent(s, m, n, alive);
      m := m + |page|;
      var last := page[|page| - 1];
      if |page| < PAGE {
        break;
      }
      PageAfter(table, begin, end, m);
      page := Query(table, Where(begin, end, last.ts, last.id), limit);
    }
    Stopped(s, m, n, alive);
  }

  /** The inner loop: record by record while the client is active. */
  method SendPage<D>(before: seq<Row<D>>, page: seq<Row<D>>, alive: nat) returns (sent: seq<Row<D>>)
    requires |before| <= alive
    ensures sent == Take(before + page, alive)
  {
    sent := before;
    var i := 0;
    while i < |page| && |sent| < alive
      invariant 0 <= i <= |page| && sent == before + page[..i] && |sent| <= alive
    {
      sent := sent + [page[i]];
      i := i + 1;
    }
  }

  lemma {:induction false} PageSent<D>(s: seq<Row<D>>, m: nat, n: nat, alive: nat)
    requires m <= |s|
    ensures var page := Take(s[m..], n);
            m + |page| <= |s| && Take(Take(s[..m], alive) + page, alive) == Take(s[..m + |page|], alive)
  {
    var page := Take(s[m..], n);
    assert s[..m] + page == s[..m + |page|];
    if m > alive {
      assert (s[..alive] + page)[..alive] == s[..alive] == s[..m + |page|][..alive];
      assert s[..m][..alive] == s[..alive];
    }
  }

  /** Where the loop can stop, what has been sent is what `Sent` says. */
  lemma {:induction false} Stopped<D>(s: seq<Row<D>>, m: nat, n: nat, alive: nat)
    requires m <= |s|
    requires m == (if n == PAGE then |s| else |Take(s, n)|) || (alive <= m && (n == PAGE || m <= n))
    ensures Take(s[..m], alive) == Take(if n == PAGE then s else Take(s, n), alive)
  {
  }

  /** The result of the range query: strictly ordered, every row of the table at most once,
      and a row is in it exactly when its time is in the range, except for a row with time and
      id both 0, which the start position shuts out. */
  lemma {:induction false} WholeIsRange<D>(table: seq<Row<D>>, begin: nat, end: nat, r: Row<D>)
    requires DistinctIds(table)
    ensures Ordered(Whole(table, begin, end))
    ensures r in Whole(table, begin, end) <==>
            && r in table && (begin == 0 || r.ts >= begin) && (end == 0 || r.ts <= end)
            && (r.id > 0 || r.ts > 0)
  {
    var f := Filter(table, Where(begin, end, 0, 0));
    WholeOrdered(table, begin, end);
    SortBag(f);
    assert r in Sort(f) <==> r in multiset(Sort(f));
    assert r in f <==> r in multiset(f);
    FilterIn(table, Where(begin, end, 0, 0), r);
  }

  /** All rows are sent if and only if the configured query limit is off, is at least a page,
      or covers them all, and the client stays active long enough. */
  lemma {:induction false} SentAllIff<D>(table: seq<Row<D>>, begin: nat, end: nat, limit: int, alive: nat)
    ensures Sent(table, begin, end, limit, alive) == Whole(table, begin, end) <==>
            && (limit <= 0 || limit >= PAGE || |Whole(table, begin, end)| <= limit)
            && |Whole(table, begin, end)| <= alive
  {
  }

  /** A limit of one row, two rows in range: the second is never sent. */
  lemma {:induction false} SmallLimitStopsEarly()
    ensures var table := [Row(1, 10, 'a'), Row(2, 20, 'b')];
            Whole(table, 0, 0) == table && Sent(table, 0, 0, 1, 100) == [Row(1, 10, 'a')]
  {
  }
}
