/** Keyset paging of an event's gallery, against the full sort. */
module AssetPaging {

  import opened Common

  /** A live asset of the event: its id and its capture time, which may be missing. */
  datatype Row = Row(id: nat, capturedAt: Option<int>)

  datatype Cursor = Cursor(capturedAt: Option<int>, id: nat)

  datatype PageOf = PageOf(rows: seq<Row>, next: Option<Cursor>)

  // --- (capturedAt desc, id desc), missing times first as the database puts them ---

  predicate Before(a: Row, b: Row) {
    match (a.capturedAt, b.capturedAt)
    case (None, None) => a.id > b.id
    case (None, Some(_)) => true
    case (Some(_), None) => false
    case (Some(s), Some(t)) => s > t || (s == t && a.id > b.id)
  }

  ghost predicate Sorted(s: seq<Row>) {
    forall i, j :: 0 <= i < j < |s| ==> Before(s[i], s[j])
  }

  lemma {:induction false} EmptyElements(s: seq<Row>)
    ensures Elements(s) == {} <==> s == []
  {
    if s != [] {
      assert s[0] in Elements(s);
    }
  }

  /** A set has at most one sorted listing. */
  lemma {:induction false} SortedIsUnique(s: seq<Row>, t: seq<Row>)
    requires Sorted(s) && Sorted(t) && Elements(s) == Elements(t)
    ensures s == t
  {
    if s == [] || t == [] {
      EmptyElements(s);
      EmptyElements(t);
    } else {
      assert t[0] in Elements(t) && t[0] in Elements(s) && s[0] in Elements(t);
      forall r | r in s[1..] ensures r in t[1..] {
        assert r in Elements(s);
        assert r in t;
      }
      forall r | r in t[1..] ensures r in s[1..] {
        assert r in Elements(t);
        assert r in s;
      }
      SortedIsUnique(s[1..], t[1..]);
      assert s == [s[0]] + s[1..] && t == [t[0]] + t[1..];
    }
  }

  // --- the query ---

  /** The cursor predicate. A missing time in the cursor is compared as the epoch, and a row with a
      missing time compares as unknown, so it is left out. */
  predicate PastCursor(r: Row, c: Cursor) {
    var at := if c.capturedAt.Some? then c.capturedAt.value else 0;
    r.capturedAt.Some? && (r.capturedAt.value < at || (r.capturedAt.value == at && r.id < c.id))
  }

  ghost predicate Matching(rows: set<Row>, cursor: Option<Cursor>, r: Row) {
    r in rows && (cursor.Some? ==> PastCursor(r, cursor.value))
  }

  /** `all` is the sorted list of all matching rows. */
  ghost predicate AllMatching(rows: set<Row>, cursor: Option<Cursor>, all: seq<Row>) {
    Sorted(all) && forall r :: r in Elements(all) <==> Matching(rows, cursor, r)
  }

  function Cut(all: seq<Row>, limit: nat): seq<Row> {
    if |all| <= limit then all else all[..limit]
  }

  ghost predicate QueryResult(rows: set<Row>, cursor: Option<Cursor>, limit: nat, result: seq<Row>) {
    exists all :: AllMatching(rows, cursor, all) && result == Cut(all, limit)
  }

  /** `list`: one row more than asked for tells whether another page exists. */
  function PageFrom(fetched: seq<Row>, limit: nat): PageOf
    requires limit > 0
  {
    var hasMore := |fetched| > limit;
    var page := if hasMore then fetched[..limit] else fetched;
    PageOf(page, if hasMore then Some(Cursor(page[|page| - 1].capturedAt, page[|page| - 1].id)) else None)
  }

  ghost predicate ListResult(rows: set<Row>, cursor: Option<Cursor>, limit: nat, p: PageOf)
    requires limit > 0
  {
    exists fetched :: QueryResult(rows, cursor, limit + 1, fetched) && p == PageFrom(fetched, limit)
  }

  /** The pages a client gets by following `nextCursor` from `cursor` until there is none. */
  ghost predicate Walk(rows: set<Row>, cursor: Option<Cursor>, limit: nat, pages: seq<PageOf>)
    requires limit > 0
    decreases |pages|
  {
    && pages != []
    && ListResult(rows, cursor, limit, pages[0])
    && if pages[0].next.Some? then Walk(rows, pages[0].next, limit, pages[1..]) else |pages| == 1
  }

  function Concat(pages: seq<PageOf>): seq<Row> {
    if pages == [] then [] else pages[0].rows + Concat(pages[1..])
  }

  function CursorOf(r: Row): Cursor {
    Cursor(r.capturedAt, r.id)
  }

  // --- one page ---

  /** The rows past the cursor are exactly the rest of the sort from `k` on. */
  ghost predicate StandsAt(rows: set<Row>, cursor: Option<Cursor>, s: seq<Row>, k: nat) {
    k <= |s| && forall r :: Matching(rows, cursor, r) <==> r in s[k..]
  }

  lemma {:induction false} PageIsNextSlice(rows: set<Row>, cursor: Option<Cursor>, s: seq<Row>, k: nat, limit: nat, p: PageOf)
    requires limit > 0 && Sorted(s) && StandsAt(rows, cursor, s, k) && ListResult(rows, cursor, limit, p)
    ensures |s| - k <= limit ==> p == PageOf(s[k..], None)
    ensures |s| - k > limit ==> p == PageOf(s[k..k + limit], Some(CursorOf(s[k + limit - 1])))
  {
    var fetched :| QueryResult(rows, cursor, limit + 1, fetched) && p == PageFrom(fetched, limit);
    var all :| AllMatching(rows, cursor, all) && fetched == Cut(all, limit + 1);
    AllMatchingIsRest(rows, cursor, s, k, all);
  }

  lemma {:induction false} AllMatchingIsRest(rows: set<Row>, cursor: Option<Cursor>, s: seq<Row>, k: nat, all: seq<Row>)
    requires Sorted(s) && StandsAt(rows, cursor, s, k) && AllMatching(rows, cursor, all)
    ensures all == s[k..]
  {
    forall r: Row ensures r in Elements(all) <==> r in Elements(s[k..]) {
    }
    SortedIsUnique(all, s[k..]);
  }

  lemma {:induction false} WalkYieldsRest(rows: set<Row>, cursor: Option<Cursor>, s: seq<Row>, k: nat, limit: nat, pages: seq<PageOf>)
    requires limit > 0 && Sorted(s) && Elements(s) == rows && StandsAt(rows, cursor, s, k)
    requires |s| - k > limit ==> s[k + limit - 1].capturedAt.Some?
    requires Walk(rows, cursor, limit, pages)
    ensures Concat(pages) == s[k..]
    decreases |pages|
  {
    PageIsNextSlice(rows, cursor, s, k, limit, pages[0]);
    assert Concat(pages) == pages[0].rows + Concat(pages[1..]);
    if |s| - k > limit {
      var m := k + limit - 1;
      WalkYieldsRest(rows, pages[0].next, s, m + 1, limit, pages[1..]);
      assert s[k..] == s[k..k + limit] + s[k + limit..];
    } else {
      assert pages[1..] == [];
    }
  }

  // --- the whole walk ---

  /** Exactly when paging loses nothing: there is only one page, or the last row of the first page has
      a capture time, or every later row has one too and is older than the epoch, ties going by id. */
  ghost predicate Lossless(s: seq<Row>, limit: nat)
    requires limit > 0
  {
    || |s| <= limit
    || s[limit - 1].capturedAt.Some?
    || forall j :: limit <= j < |s| ==>
         s[j].capturedAt.Some? && (s[j].capturedAt.value < 0 || (s[j].capturedAt.value == 0 && s[j].id < s[limit - 1].id))
  }

  lemma {:induction false} WalkStaysPast(rows: set<Row>, c: Cursor, limit: nat, pages: seq<PageOf>)
    requires limit > 0 && Walk(rows, Some(c), limit, pages)
    ensures forall r :: r in Concat(pages) ==> PastCursor(r, c)
    decreases |pages|
  {
    var fetched :| QueryResult(rows, Some(c), limit + 1, fetched) && pages[0] == PageFrom(fetched, limit);
    forall r | r in fetched ensures PastCursor(r, c) {
      var all :| AllMatching(rows, Some(c), all) && fetched == Cut(all, limit + 1);
      assert r in Elements(all);
    }
    if pages[0].next.Some? {
      var last := fetched[limit - 1];
      assert last in fetched && pages[0].next == Some(CursorOf(last));
      WalkStaysPast(rows, CursorOf(last), limit, pages[1..]);
    } else {
      assert pages[1..] == [];
    }
  }

  /** Following the cursors from the start yields the full sort, each row once and in order, exactly
      when the first page does not end on a row without a capture time that has newer rows behind it. */
  lemma {:induction false} PagingEqualsSort(rows: set<Row>, s: seq<Row>, limit: nat, pages: seq<PageOf>)
    requires limit > 0 && Sorted(s) && Elements(s) == rows && Walk(rows, None, limit, pages)
    ensures Concat(pages) == s <==> Lossless(s, limit)
    ensures (forall r :: r in rows ==> r.capturedAt.Some?) ==> Concat(pages) == s
  {
    assert s[0..] == s;
    if |s| <= limit || s[limit - 1].capturedAt.Some? {
      WalkYieldsRest(rows, None, s, 0, limit, pages);
    } else {
      assert s[limit - 1] in Elements(s);
      PageIsNextSlice(rows, None, s, 0, limit, pages[0]);
      assert s == s[..limit] + s[limit..] && s[0..limit] == s[..limit];
      assert Concat(pages) == s[..limit] + Concat(pages[1..]);
      assert Concat(pages) == s <==> Concat(pages[1..]) == s[limit..];
      EpochWalk(rows, s, limit, pages[1..]);
    }
  }

  /** The rest of a walk whose first page ended on a row without a capture time. */
  lemma {:induction false} EpochWalk(rows: set<Row>, s: seq<Row>, limit: nat, pages: seq<PageOf>)
    requires 0 < limit < |s| && Sorted(s) && Elements(s) == rows && s[limit - 1].capturedAt.None?
    requires Walk(rows, Some(CursorOf(s[limit - 1])), limit, pages)
    ensures Concat(pages) == s[limit..] <==> Lossless(s, limit)
  {
    var c := CursorOf(s[limit - 1]);
    if Lossless(s, limit) {
      assert |s| - limit > limit ==> PastCursor(s[limit + limit - 1], c);
      WalkYieldsRest(rows, Some(c), s, limit, limit, pages);
    } else if Concat(pages) == s[limit..] {
      WalkStaysPast(rows, c, limit, pages);
      forall j | limit <= j < |s| ensures PastCursor(s[j], c) {
        assert s[limit..][j - limit] == s[j];
      }
      assert false;
    }
  }

  // --- following the cursors terminates ---

  function Filter(s: seq<Row>, cursor: Option<Cursor>): seq<Row> {
    if s == [] then []
    else (if cursor.Some? && !PastCursor(s[0], cursor.value) then [] else [s[0]]) + Filter(s[1..], cursor)
  }

  lemma {:induction false} FilterMeans(s: seq<Row>, cursor: Option<Cursor>)
    requires Sorted(s)
    ensures Sorted(Filter(s, cursor))
    ensures forall r :: r in Filter(s, cursor) <==> r in s && (cursor.Some? ==> PastCursor(r, cursor.value))
  {
    if s != [] {
      FilterMeans(s[1..], cursor);
      var rest := Filter(s[1..], cursor);
      forall i | 0 <= i < |rest| ensures Before(s[0], rest[i]) {
        assert rest[i] in s[1..];
      }
    }
  }

  lemma {:induction false} FilterIsQuery(s: seq<Row>, cursor: Option<Cursor>, limit: nat)
    requires Sorted(s)
    ensures var all := Filter(s, cursor); QueryResult(Elements(s), cursor, limit, Cut(all, limit))
  {
    FilterMeans(s, cursor);
    var all := Filter(s, cursor);
    forall r: Row ensures r in Elements(all) <==> Matching(Elements(s), cursor, r) {
    }
  }

  lemma {:induction false} WalkAppend(rows: set<Row>, cursor: Option<Cursor>, limit: nat, pages: seq<PageOf>, p: PageOf)
    requires limit > 0 && Partial(rows, cursor, limit, pages)
    requires ListResult(rows, if pages == [] then cursor else pages[|pages| - 1].next, limit, p)
    ensures p.next.Some? ==> Partial(rows, cursor, limit, pages + [p])
    ensures p.next.None? ==> Walk(rows, cursor, limit, pages + [p])
    decreases |pages|
  {
    if pages != [] {
      assert (pages + [p])[1..] == pages[1..] + [p];
      WalkAppend(rows, pages[0].next, limit, pages[1..], p);
    }
  }

  /** A walk that has not ended yet. */
  ghost predicate Partial(rows: set<Row>, cursor: Option<Cursor>, limit: nat, pages: seq<PageOf>)
    requires limit > 0
    decreases |pages|
  {
    pages == [] || (ListResult(rows, cursor, limit, pages[0]) && pages[0].next.Some? && Partial(rows, pages[0].next, limit, pages[1..]))
  }

  /** The client's loop over the sorted table: it always comes to an end, nulls or not. */
  method FollowCursors(s: seq<Row>, limit: nat) returns (pages: seq<PageOf>)
    requires limit > 0 && Sorted(s)
    ensures Walk(Elements(s), None, limit, pages)
  {
    pages := [];
    var cursor: Option<Cursor> := None;
    while true
      invariant Partial(Elements(s), None, limit, pages)
      invariant cursor == if pages == [] then None else pages[|pages| - 1].next
      decreases |Filter(s, cursor)|
    {
      var p := List(s, cursor, limit);
      WalkAppend(Elements(s), None, limit, pages, p);
      pages := pages + [p];
      if p.next.None? {
        return;
      }
      cursor := p.next;
    }
  }

  /** One request: a page of the query, with less left behind its cursor. */
  method List(s: seq<Row>, cursor: Option<Cursor>, limit: nat) returns (p: PageOf)
    requires limit > 0 && Sorted(s)
    ensures ListResult(Elements(s), cursor, limit, p)
    ensures p.next.Some? ==> |Filter(s, p.next)| < |Filter(s, cursor)|
  {
    var all := Filter(s, cursor);
    FilterIsQuery(s, cursor, limit + 1);
    p := PageFrom(Cut(all, limit + 1), limit);
    if p.next.Some? {
      FilterShrinks(s, cursor, all[limit - 1]);
    }
  }

  lemma {:induction false} FilterShrinks(s: seq<Row>, cursor: Option<Cursor>, r: Row)
    requires Sorted(s) && r in Filter(s, cursor)
    ensures |Filter(s, Some(CursorOf(r)))| < |Filter(s, cursor)|
  {
    FilterMeans(s, cursor);
    FilterMeans(s, Some(CursorOf(r)));
    var wide, narrow := Filter(s, cursor), Filter(s, Some(CursorOf(r)));
    forall x | x in narrow ensures x in wide {
      PastIsTransitive(x, r, cursor);
    }
    assert r !in narrow;
    SortedCardinality(wide);
    SortedCardinality(narrow);
    assert Elements(narrow) <= Elements(wide) - {r};
    assert Elements(wide) == (Elements(wide) - {r}) + {r};
    SubsetCardinality(Elements(narrow), Elements(wide) - {r});
  }

  lemma {:induction false} PastIsTransitive(x: Row, r: Row, cursor: Option<Cursor>)
    requires PastCursor(x, CursorOf(r)) && (cursor.Some? ==> PastCursor(r, cursor.value))
    ensures cursor.Some? ==> PastCursor(x, cursor.value)
  {
  }

  lemma {:induction false} SortedCardinality(s: seq<Row>)
    requires Sorted(s)
    ensures |Elements(s)| == |s|
  {
    if s != [] {
      SortedCardinality(s[1..]);
      assert Elements(s) == {s[0]} + Elements(s[1..]);
      assert s[0] !in Elements(s[1..]);
    }
  }
}
