/** The rows the face pipeline works on, and the event-scoped k-nearest search over them.

    Identifiers are natural numbers: only their equality and their order (used when ids are
    paged) matter. An embedding is represented by the face that owns it, so the distance
    between two embeddings is a function of two faces. */
module FaceTables {

  import opened Common

  type FaceId = nat
  type PersonId = nat
  type EventId = nat
  type AssetId = nat

  datatype Source = MachineLearning | OtherSource

  datatype Asset = Asset(event: EventId, deleted: bool)

  datatype Face = Face(asset: AssetId, source: Source, embedded: bool, deleted: bool, person: Option<PersonId>)

  /** `cover` is the face a person was created for; deleting that face clears it. */
  datatype Person = Person(event: EventId, cover: Option<FaceId>)

  datatype Tables = Tables(assets: map<AssetId, Asset>, faces: map<FaceId, Face>, persons: map<PersonId, Person>)

  /** Recognition settings of one event. */
  datatype Config = Config(maxDistance: real, minFaces: int)

  /** What a run of recognition jobs does not change: the embeddings and the settings. */
  datatype World = World(dist: (FaceId, FaceId) -> real, config: EventId -> Config)

  /** Cosine distance: symmetric, never negative, zero from an embedding to itself. */
  ghost predicate ValidWorld(w: World) {
    && (forall f, g :: w.dist(f, g) == w.dist(g, f))
    && (forall f, g :: w.dist(f, g) >= 0.0)
    && (forall f :: w.dist(f, f) == 0.0)
  }

  /** The join of a face with its asset finds a live row. */
  predicate Found(db: Tables, f: FaceId) {
    && f in db.faces
    && !db.faces[f].deleted
    && db.faces[f].asset in db.assets
    && !db.assets[db.faces[f].asset].deleted
  }

  function EventOf(db: Tables, f: FaceId): EventId
    requires Found(db, f)
  {
    db.assets[db.faces[f].asset].event
  }

  function PersonOf(db: Tables, f: FaceId): Option<PersonId> {
    if f in db.faces then db.faces[f].person else None
  }

  predicate Assigned(db: Tables, f: FaceId) {
    PersonOf(db, f).Some?
  }

  /** A row the search of event `e` may return. */
  predicate Searchable(db: Tables, e: EventId, f: FaceId) {
    Found(db, f) && EventOf(db, f) == e && db.faces[f].embedded
  }

  function Pool(db: Tables, e: EventId, hasPerson: bool): set<FaceId> {
    set f | f in db.faces && Searchable(db, e, f) && (hasPerson ==> Assigned(db, f))
  }

  // --- k-nearest search: order, limit, and only then the distance filter ---

  ghost predicate Distinct<T>(s: seq<T>) {
    forall i, j :: 0 <= i < j < |s| ==> s[i] != s[j]
  }

  /** `rows` is one result of ordering `pool` by distance to `probe` and keeping `k` rows.
      Ties may come out in any order. */
  ghost predicate KNearest(w: World, pool: set<FaceId>, probe: FaceId, k: nat, rows: seq<FaceId>) {
    && Distinct(rows)
    && (forall x :: x in rows ==> x in pool)
    && |rows| == (if k <= |pool| then k else |pool|)
    && (forall i, j :: 0 <= i < j < |rows| ==> w.dist(rows[i], probe) <= w.dist(rows[j], probe))
    && (forall x, y :: x in rows && y in pool && y !in rows ==> w.dist(x, probe) <= w.dist(y, probe))
  }

  function Within(w: World, probe: FaceId, maxDistance: real, rows: seq<FaceId>): seq<FaceId> {
    if rows == [] then []
    else (if w.dist(rows[0], probe) <= maxDistance then [rows[0]] else []) + Within(w, probe, maxDistance, rows[1..])
  }

  ghost predicate SearchResult(w: World, db: Tables, e: EventId, probe: FaceId, maxDistance: real, k: nat,
                               hasPerson: bool, matches: seq<FaceId>)
  {
    exists rows :: KNearest(w, Pool(db, e, hasPerson), probe, k, rows) && matches == Within(w, probe, maxDistance, rows)
  }

  /** Reference definition of what a search is about: everything in the pool within reach. */
  ghost function InReach(w: World, pool: set<FaceId>, probe: FaceId, maxDistance: real): set<FaceId> {
    set x | x in pool && w.dist(x, probe) <= maxDistance
  }

  lemma {:induction false} DistinctCardinality<T>(s: seq<T>)
    requires Distinct(s)
    ensures |Elements(s)| == |s|
  {
    if s != [] {
      DistinctCardinality(s[1..]);
      assert Elements(s) == {s[0]} + Elements(s[1..]);
    }
  }

  lemma {:induction false} WithinElements(w: World, probe: FaceId, maxDistance: real, rows: seq<FaceId>)
    requires Distinct(rows)
    ensures var r := Within(w, probe, maxDistance, rows);
            Distinct(r) && forall x :: x in r <==> x in rows && w.dist(x, probe) <= maxDistance
  {
    if rows != [] {
      WithinElements(w, probe, maxDistance, rows[1..]);
      assert forall x :: x in rows <==> x == rows[0] || x in rows[1..];
    }
  }

  /** Limiting before filtering loses no count: a search returns as many rows as lie within reach,
      up to the limit, and nothing out of reach. */
  lemma {:induction false} SearchCounts(w: World, pool: set<FaceId>, probe: FaceId, maxDistance: real, k: nat, rows: seq<FaceId>)
    requires KNearest(w, pool, probe, k, rows)
    ensures var r := Within(w, probe, maxDistance, rows);
            var reach := InReach(w, pool, probe, maxDistance);
            && (forall x :: x in r ==> x in reach)
            && |r| == if k <= |reach| then k else |reach|
  {
    var r := Within(w, probe, maxDistance, rows);
    var reach := InReach(w, pool, probe, maxDistance);
    WithinElements(w, probe, maxDistance, rows);
    DistinctCardinality(r);
    DistinctCardinality(rows);
    SubsetCardinality(Elements(r), reach);
    SubsetCardinality(reach, pool);
    if far :| far in rows && w.dist(far, probe) > maxDistance {
      assert Elements(r) == reach;
      SubsetCardinality(Elements(r), Elements(rows));
    } else {
      assert Elements(r) == Elements(rows);
      if |rows| == |pool| {
        SubsetCardinality(Elements(rows), pool);
        assert Elements(rows) == pool;
        assert reach == pool;
      }
    }
  }

  ghost predicate Nondecreasing(w: World, probe: FaceId, rows: seq<FaceId>) {
    forall i, j :: 0 <= i < j < |rows| ==> w.dist(rows[i], probe) <= w.dist(rows[j], probe)
  }

  lemma {:induction false} WithinKeepsOrder(w: World, probe: FaceId, maxDistance: real, rows: seq<FaceId>)
    requires Distinct(rows) && Nondecreasing(w, probe, rows)
    ensures Nondecreasing(w, probe, Within(w, probe, maxDistance, rows))
  {
    if rows != [] {
      var rest := Within(w, probe, maxDistance, rows[1..]);
      WithinKeepsOrder(w, probe, maxDistance, rows[1..]);
      WithinElements(w, probe, maxDistance, rows[1..]);
      forall i | 0 <= i < |rest| ensures w.dist(rows[0], probe) <= w.dist(rest[i], probe) {
        assert rest[i] in rows[1..];
      }
    }
  }

  /** The matches come nearest first, and nothing left out is nearer than any of them. */
  lemma {:induction false} SearchIsNearest(w: World, pool: set<FaceId>, probe: FaceId, maxDistance: real, k: nat, rows: seq<FaceId>)
    requires KNearest(w, pool, probe, k, rows)
    ensures var r := Within(w, probe, maxDistance, rows);
            && Nondecreasing(w, probe, r)
            && forall x, y :: x in r && y in pool && y !in r ==> w.dist(x, probe) <= w.dist(y, probe)
  {
    WithinKeepsOrder(w, probe, maxDistance, rows);
    WithinElements(w, probe, maxDistance, rows);
  }

  /** The faces a search of event `e` is to find: live, with an embedding, on live photos of the event,
      within reach, and with a person if asked for. */
  ghost function Eligible(w: World, db: Tables, e: EventId, probe: FaceId, maxDistance: real, hasPerson: bool): set<FaceId> {
    set x | x in db.faces
            && !db.faces[x].deleted && db.faces[x].embedded
            && db.faces[x].asset in db.assets && db.assets[db.faces[x].asset] == Asset(e, false)
            && (hasPerson ==> db.faces[x].person.Some?)
            && w.dist(x, probe) <= maxDistance
  }

  /** A search finds nothing else, and as many of them as there are up to the limit. */
  lemma {:induction false} SearchFinds(w: World, db: Tables, e: EventId, probe: FaceId, maxDistance: real, k: nat,
                                       hasPerson: bool, matches: seq<FaceId>)
    requires SearchResult(w, db, e, probe, maxDistance, k, hasPerson, matches)
    ensures forall x :: x in matches ==> x in Eligible(w, db, e, probe, maxDistance, hasPerson)
    ensures Distinct(matches)
    ensures |matches| == if k <= |Eligible(w, db, e, probe, maxDistance, hasPerson)| then k else |Eligible(w, db, e, probe, maxDistance, hasPerson)|
  {
    var rows :| KNearest(w, Pool(db, e, hasPerson), probe, k, rows) && matches == Within(w, probe, maxDistance, rows);
    SearchCounts(w, Pool(db, e, hasPerson), probe, maxDistance, k, rows);
    WithinElements(w, probe, maxDistance, rows);
    assert InReach(w, Pool(db, e, hasPerson), probe, maxDistance) == Eligible(w, db, e, probe, maxDistance, hasPerson);
  }

  /** `rows` has been taken from `pool` nearest first and `rest` is what is left. */
  ghost predicate Taken(w: World, pool: set<FaceId>, probe: FaceId, rows: seq<FaceId>, rest: set<FaceId>) {
    && Distinct(rows)
    && rest == pool - Elements(rows) && Elements(rows) <= pool
    && |rows| + |rest| == |pool|
    && (forall i, j :: 0 <= i < j < |rows| ==> w.dist(rows[i], probe) <= w.dist(rows[j], probe))
    && (forall x, y :: x in rows && y in rest ==> w.dist(x, probe) <= w.dist(y, probe))
  }

  lemma {:induction false} TakeNearest(w: World, pool: set<FaceId>, probe: FaceId, rows: seq<FaceId>, rest: set<FaceId>, best: FaceId)
    requires Taken(w, pool, probe, rows, rest)
    requires best in rest && forall y :: y in rest ==> w.dist(best, probe) <= w.dist(y, probe)
    ensures Taken(w, pool, probe, rows + [best], rest - {best})
  {
    var rows', rest' := rows + [best], rest - {best};
    assert Elements(rows') == Elements(rows) + {best};
    assert best !in rows by {
      assert best !in Elements(rows);
    }
    forall i, j | 0 <= i < j < |rows'|
      ensures rows'[i] != rows'[j] && w.dist(rows'[i], probe) <= w.dist(rows'[j], probe)
    {
      if j == |rows| {
        assert rows[i] in rows;
      }
    }
    forall x, y | x in rows' && y in rest'
      ensures w.dist(x, probe) <= w.dist(y, probe)
    {
      assert x in rows || x == best;
    }
  }

  /** The database's side of a search: repeatedly take a nearest remaining row. */
  method NearestRows(w: World, pool: set<FaceId>, probe: FaceId, k: nat) returns (rows: seq<FaceId>)
    ensures KNearest(w, pool, probe, k, rows)
  {
    rows := [];
    var rest := pool;
    while |rows| < k && rest != {}
      invariant |rows| <= k && Taken(w, pool, probe, rows, rest)
      decreases |rest|
    {
      var best := Nearest(w, rest, probe);
      TakeNearest(w, pool, probe, rows, rest, best);
      rows, rest := rows + [best], rest - {best};
    }
    TakenIsKNearest(w, pool, probe, k, rows, rest);
  }

  lemma {:induction false} TakenIsKNearest(w: World, pool: set<FaceId>, probe: FaceId, k: nat, rows: seq<FaceId>, rest: set<FaceId>)
    requires Taken(w, pool, probe, rows, rest) && |rows| <= k && (|rows| < k ==> rest == {})
    ensures KNearest(w, pool, probe, k, rows)
  {
  }

  method Nearest(w: World, pool: set<FaceId>, probe: FaceId) returns (best: FaceId)
    requires pool != {}
    ensures best in pool
    ensures forall y :: y in pool ==> w.dist(best, probe) <= w.dist(y, probe)
  {
    best :| best in pool;
    var rest := pool - {best};
    while rest != {}
      invariant best in pool && rest <= pool
      invariant forall y :: y in pool ==> y in rest || w.dist(best, probe) <= w.dist(y, probe)
      decreases rest
    {
      var x :| x in rest;
      if w.dist(x, probe) < w.dist(best, probe) {
        best := x;
      }
      rest := rest - {x};
    }
  }

  lemma {:induction false} NearestExists(w: World, pool: set<FaceId>, probe: FaceId) returns (best: FaceId)
    requires pool != {}
    ensures best in pool && forall y :: y in pool ==> w.dist(best, probe) <= w.dist(y, probe)
    decreases |pool|
  {
    var first :| first in pool;
    var rest := pool - {first};
    if rest == {} {
      best := first;
    } else {
      var other := NearestExists(w, rest, probe);
      best := if w.dist(other, probe) < w.dist(first, probe) then other else first;
    }
    forall y | y in pool ensures w.dist(best, probe) <= w.dist(y, probe) {
      assert y == first || y in rest;
    }
  }

  /** Every search has a result. */
  lemma {:induction false} SearchExists(w: World, pool: set<FaceId>, probe: FaceId, k: nat) returns (rows: seq<FaceId>, rest: set<FaceId>)
    ensures |rows| <= k && Taken(w, pool, probe, rows, rest) && (|rows| < k ==> rest == {})
    ensures KNearest(w, pool, probe, k, rows)
  {
    if k == 0 {
      rows, rest := [], pool;
    } else {
      rows, rest := SearchExists(w, pool, probe, k - 1);
      if rest != {} {
        var best := NearestExists(w, rest, probe);
        TakeNearest(w, pool, probe, rows, rest, best);
        rows, rest := rows + [best], rest - {best};
      }
    }
    TakenIsKNearest(w, pool, probe, k, rows, rest);
  }

  datatype Searched = Rows(matches: seq<FaceId>) | InvalidNumResults

  /** `searchFaces`: rejects a row count outside 1..1000, else searches one event. */
  method SearchFaces(w: World, db: Tables, e: EventId, probe: FaceId, maxDistance: real, numResults: int,
                     hasPerson: bool) returns (r: Searched)
    ensures r.InvalidNumResults? <==> !(1 <= numResults <= 1000)
    ensures r.Rows? ==> SearchResult(w, db, e, probe, maxDistance, numResults, hasPerson, r.matches)
  {
    if numResults < 1 || numResults > 1000 {
      return InvalidNumResults;
    }
    var rows := NearestRows(w, Pool(db, e, hasPerson), probe, numResults);
    r := Rows(Within(w, probe, maxDistance, rows));
  }
}
