/** Queue-driven, two-pass (core, then deferred) density clustering of faces.

    `FaceRecognize` jobs are taken from the head of one FIFO queue, one at a time. A job reads the
    tables (`Decides`) and then writes them (`Commit`); with a single consumer the two together are
    one `Step`. The two halves are also run by two interleaved consumers, to show what the
    single-consumer rule protects. */
module Clustering {

  import opened Common
  import opened FaceTables

  datatype Job = Job(face: FaceId, deferred: bool)

  datatype System = System(db: Tables, queue: seq<Job>)

  datatype Outcome =
    | Failed
    | Skipped
    | Deferred
    | NoPerson
    | Join(person: PersonId)
    | CreatePerson

  // --- the handler: what one job decides ---

  /** A live machine-learning face with an embedding: the only kind a job may assign. */
  predicate Candidate(db: Tables, f: FaceId) {
    Found(db, f) && db.faces[f].source == MachineLearning && db.faces[f].embedded
  }

  function FirstPerson(db: Tables, matches: seq<FaceId>): Option<PersonId> {
    if matches == [] then None
    else if Assigned(db, matches[0]) then PersonOf(db, matches[0])
    else FirstPerson(db, matches[1..])
  }

  function Choose(db: Tables, minFaces: int, deferred: bool, matches: seq<FaceId>, withPerson: seq<FaceId>): Outcome {
    if minFaces > 1 && |matches| <= 1 then Skipped
    else
      var isCore := |matches| >= minFaces;
      if !isCore && !deferred then Deferred
      else
        var direct := FirstPerson(db, matches);
        var person := if direct.Some? || withPerson == [] then direct else PersonOf(db, withPerson[0]);
        match person
        case Some(p) => Join(p)
        case None => if isCore then CreatePerson else NoPerson
  }

  ghost predicate Decides(w: World, db: Tables, job: Job, out: Outcome) {
    var f := job.face;
    if !Found(db, f) then out == Failed
    else if db.faces[f].source != MachineLearning then out == Skipped
    else if !db.faces[f].embedded then out == Failed
    else if Assigned(db, f) then out == Skipped
    else
      var e := EventOf(db, f);
      var cfg := w.config(e);
      if !(1 <= cfg.minFaces <= 1000) then out == Failed
      else exists matches, withPerson ::
        && SearchResult(w, db, e, f, cfg.maxDistance, cfg.minFaces, false, matches)
        && SearchResult(w, db, e, f, cfg.maxDistance, 1, true, withPerson)
        && out == Choose(db, cfg.minFaces, job.deferred, matches, withPerson)
  }

  function AssignFace(db: Tables, f: FaceId, p: PersonId): Tables
    requires f in db.faces
  {
    db.(faces := db.faces[f := db.faces[f].(person := Some(p))])
  }

  function Founding(db: Tables, f: FaceId, newId: PersonId): Tables
    requires Found(db, f)
  {
    AssignFace(db.(persons := db.persons[newId := Person(EventOf(db, f), Some(f))]), f, newId)
  }

  /** What one job writes. `newId` is the id a new person would get. */
  function Commit(s: System, f: FaceId, out: Outcome, newId: PersonId): System
    requires out.Join? || out.CreatePerson? ==> f in s.db.faces
    requires out.CreatePerson? ==> Found(s.db, f)
  {
    match out
    case Deferred => s.(queue := s.queue + [Job(f, true)])
    case Join(p) => s.(db := AssignFace(s.db, f, p))
    case CreatePerson => s.(db := Founding(s.db, f, newId))
    case _ => s
  }

  ghost predicate StepWith(w: World, s: System, s': System, out: Outcome, newId: PersonId) {
    && s.queue != []
    && Decides(w, s.db, s.queue[0], out)
    && newId !in s.db.persons
    && s' == Commit(s.(queue := s.queue[1..]), s.queue[0].face, out, newId)
  }

  /** One job of the single consumer. */
  ghost predicate Step(w: World, s: System, s': System) {
    exists out, newId :: StepWith(w, s, s', out, newId)
  }

  ghost predicate Run(w: World, run: seq<System>) {
    run != [] && forall i :: 0 <= i < |run| - 1 ==> Step(w, run[i], run[i + 1])
  }

  // --- density, independent of any assignment ---

  ghost function Neighbours(w: World, db: Tables, f: FaceId): set<FaceId>
    requires Found(db, f)
  {
    InReach(w, Pool(db, EventOf(db, f), false), f, w.config(EventOf(db, f)).maxDistance)
  }

  /** At least `minFaces` faces of the event within reach, itself included. */
  ghost predicate Core(w: World, db: Tables, f: FaceId) {
    Candidate(db, f) && |Neighbours(w, db, f)| >= w.config(EventOf(db, f)).minFaces
  }

  ghost predicate Near(w: World, db: Tables, f: FaceId, g: FaceId) {
    && Found(db, f) && Found(db, g)
    && EventOf(db, f) == EventOf(db, g)
    && w.dist(f, g) <= w.config(EventOf(db, f)).maxDistance
  }

  /** The same faces and assets; only assignments may differ. */
  ghost predicate SameFaces(db: Tables, db': Tables) {
    && db.assets == db'.assets
    && db.faces.Keys == db'.faces.Keys
    && forall f :: f in db.faces ==> db'.faces[f] == db.faces[f].(person := db'.faces[f].person)
  }

  lemma {:induction false} SameFacesSameDensity(w: World, db: Tables, db': Tables)
    requires SameFaces(db, db')
    ensures forall f :: Candidate(db, f) == Candidate(db', f) && Found(db, f) == Found(db', f)
    ensures forall f :: Found(db, f) ==> EventOf(db, f) == EventOf(db', f) && Neighbours(w, db, f) == Neighbours(w, db', f)
    ensures forall f :: Core(w, db, f) == Core(w, db', f)
    ensures forall f, g :: Near(w, db, f, g) == Near(w, db', f, g)
  {
  }

  // --- what one job achieves ---

  /** The faces, the persons and every assignment of `db` are still there. */
  ghost predicate Grows(db: Tables, db': Tables) {
    && SameFaces(db, db')
    && (forall f :: Assigned(db, f) ==> PersonOf(db', f) == PersonOf(db, f))
    && (forall p :: p in db.persons ==> p in db'.persons && db'.persons[p] == db.persons[p])
  }

  lemma {:induction false} CommitGrows(s: System, f: FaceId, out: Outcome, newId: PersonId)
    requires out.Join? || out.CreatePerson? ==> Found(s.db, f) && !Assigned(s.db, f)
    requires newId !in s.db.persons
    ensures var s' := Commit(s, f, out, newId);
            && Grows(s.db, s'.db)
            && (forall g :: g != f ==> PersonOf(s'.db, g) == PersonOf(s.db, g))
            && (s'.queue == s.queue || s'.queue == s.queue + [Job(f, true)])
  {
    if out.Join? {
    } else if out.CreatePerson? {
    }
  }

  /** A step keeps the faces, keeps every assignment, and assigns at most the face of its job. */
  lemma {:induction false} StepFrame(w: World, s: System, s': System)
    requires Step(w, s, s')
    ensures Grows(s.db, s'.db)
    ensures forall f :: f != s.queue[0].face ==> PersonOf(s'.db, f) == PersonOf(s.db, f)
    ensures s'.queue == s.queue[1..] || s'.queue == s.queue[1..] + [Job(s.queue[0].face, true)]
  {
    var out, newId :| StepWith(w, s, s', out, newId);
    CommitGrows(s.(queue := s.queue[1..]), s.queue[0].face, out, newId);
  }

  lemma {:induction false} FirstPersonSound(db: Tables, matches: seq<FaceId>)
    ensures FirstPerson(db, matches).Some? ==>
              exists m :: m in matches && PersonOf(db, m) == FirstPerson(db, matches)
    ensures FirstPerson(db, matches).None? ==> forall m :: m in matches ==> !Assigned(db, m)
  {
    if matches != [] && !Assigned(db, matches[0]) {
      FirstPersonSound(db, matches[1..]);
    }
  }

  ghost predicate NearPerson(w: World, db: Tables, f: FaceId, g: FaceId) {
    Near(w, db, f, g) && db.faces[g].embedded && Assigned(db, g)
  }

  /** The two searches of one job, restated by density and present assignments only. */
  ghost predicate Searched(w: World, db: Tables, f: FaceId, matches: seq<FaceId>, withPerson: seq<FaceId>)
    requires Found(db, f)
  {
    var minFaces := w.config(EventOf(db, f)).minFaces;
    && |matches| == (if minFaces <= |Neighbours(w, db, f)| then minFaces else |Neighbours(w, db, f)|)
    && (forall m :: m in matches ==> Near(w, db, f, m) && db.faces[m].embedded)
    && (forall m :: m in withPerson ==> NearPerson(w, db, f, m))
    && (withPerson == [] ==> forall g :: !NearPerson(w, db, f, g))
  }

  lemma {:induction false} SearchMeans(w: World, db: Tables, f: FaceId, hasPerson: bool, k: nat, matches: seq<FaceId>)
    requires ValidWorld(w) && Found(db, f)
    requires SearchResult(w, db, EventOf(db, f), f, w.config(EventOf(db, f)).maxDistance, k, hasPerson, matches)
    ensures var e := EventOf(db, f);
            var reach := InReach(w, Pool(db, e, hasPerson), f, w.config(e).maxDistance);
            && |matches| == (if k <= |reach| then k else |reach|)
            && forall m :: m in matches ==> m in reach
  {
    var e := EventOf(db, f);
    var rows :| KNearest(w, Pool(db, e, hasPerson), f, k, rows) && matches == Within(w, f, w.config(e).maxDistance, rows);
    SearchCounts(w, Pool(db, e, hasPerson), f, w.config(e).maxDistance, k, rows);
  }

  lemma {:induction false} DecisionSearches(w: World, db: Tables, job: Job, out: Outcome) returns (matches: seq<FaceId>, withPerson: seq<FaceId>)
    requires ValidWorld(w) && Decides(w, db, job, out)
    requires Candidate(db, job.face) && !Assigned(db, job.face)
    requires 1 <= w.config(EventOf(db, job.face)).minFaces <= 1000
    ensures Searched(w, db, job.face, matches, withPerson)
    ensures out == Choose(db, w.config(EventOf(db, job.face)).minFaces, job.deferred, matches, withPerson)
  {
    var f := job.face;
    var e := EventOf(db, f);
    var cfg := w.config(e);
    matches, withPerson :|
      && SearchResult(w, db, e, f, cfg.maxDistance, cfg.minFaces, false, matches)
      && SearchResult(w, db, e, f, cfg.maxDistance, 1, true, withPerson)
      && out == Choose(db, cfg.minFaces, job.deferred, matches, withPerson);
    SearchMeans(w, db, f, false, cfg.minFaces, matches);
    PersonSearchMeans(w, db, f, withPerson);
  }

  /** The one-row search among assigned faces comes back empty exactly if none is in reach. */
  lemma {:induction false} PersonSearchMeans(w: World, db: Tables, f: FaceId, withPerson: seq<FaceId>)
    requires ValidWorld(w) && Found(db, f)
    requires SearchResult(w, db, EventOf(db, f), f, w.config(EventOf(db, f)).maxDistance, 1, true, withPerson)
    ensures forall m :: m in withPerson ==> NearPerson(w, db, f, m)
    ensures withPerson == [] ==> forall g :: !NearPerson(w, db, f, g)
  {
    var e := EventOf(db, f);
    SearchMeans(w, db, f, true, 1, withPerson);
    var reach := InReach(w, Pool(db, e, true), f, w.config(e).maxDistance);
    forall m | m in withPerson ensures NearPerson(w, db, f, m) {
      assert m in reach && w.dist(f, m) == w.dist(m, f);
    }
    forall g: FaceId | NearPerson(w, db, f, g)
      ensures withPerson != []
    {
      assert w.dist(f, g) == w.dist(g, f);
      assert g in reach;
      SubsetCardinality({g}, reach);
    }
  }

  /** A core face always leaves its job with a person, found or new. */
  lemma {:induction false} CoreGetsPerson(w: World, db: Tables, job: Job, out: Outcome)
    requires ValidWorld(w) && Decides(w, db, job, out)
    requires Core(w, db, job.face) && !Assigned(db, job.face)
    requires 1 <= w.config(EventOf(db, job.face)).minFaces <= 1000
    ensures out.Join? || out.CreatePerson?
  {
    var matches, withPerson := DecisionSearches(w, db, job, out);
  }

  /** A face with a core neighbour is never dropped on its first visit: it is assigned or put back once. */
  lemma {:induction false} NeighbourIsKept(w: World, db: Tables, job: Job, out: Outcome, g: FaceId)
    requires ValidWorld(w) && Decides(w, db, job, out)
    requires Candidate(db, job.face) && !Assigned(db, job.face)
    requires 1 <= w.config(EventOf(db, job.face)).minFaces <= 1000
    requires g != job.face && Near(w, db, job.face, g) && db.faces[g].embedded
    ensures !job.deferred ==> out.Join? || out.CreatePerson? || out == Deferred
    ensures Assigned(db, g) ==> out.Join? || (out == Deferred && !job.deferred)
  {
    var f := job.face;
    var matches, withPerson := DecisionSearches(w, db, job, out);
    assert w.dist(f, f) <= w.dist(f, g) == w.dist(g, f);
    SubsetCardinality({f, g}, Neighbours(w, db, f));
    FirstPersonSound(db, matches);
    if Assigned(db, g) {
      assert NearPerson(w, db, f, g);
      assert withPerson != [] && withPerson[0] in withPerson;
    }
  }

  /** On its first visit such a face, unless core, is put back and nothing else, even next to a person. */
  lemma {:induction false} BorderIsDeferred(w: World, db: Tables, job: Job, out: Outcome, g: FaceId)
    requires ValidSettings(w) && Decides(w, db, job, out) && !job.deferred
    requires Candidate(db, job.face) && !Assigned(db, job.face) && !Core(w, db, job.face)
    requires g != job.face && Near(w, db, job.face, g) && db.faces[g].embedded
    ensures out == Deferred
  {
    var f := job.face;
    assert w.dist(f, f) <= w.dist(f, g) == w.dist(g, f);
    SubsetCardinality({f, g}, Neighbours(w, db, f));
    DecisionMeans(w, db, job, out);
  }

  /** A new person is founded only by a core face with no assigned face in reach. */
  lemma {:induction false} FoundingIsIsolated(w: World, db: Tables, job: Job, out: Outcome)
    requires ValidWorld(w) && Decides(w, db, job, out)
    requires Candidate(db, job.face) && !Assigned(db, job.face)
    requires 1 <= w.config(EventOf(db, job.face)).minFaces <= 1000
    requires out.CreatePerson?
    ensures Core(w, db, job.face)
    ensures forall g :: !NearPerson(w, db, job.face, g)
  {
    var matches, withPerson := DecisionSearches(w, db, job, out);
    FirstPersonSound(db, matches);
    if withPerson != [] {
      assert withPerson[0] in withPerson;
    }
  }

  /** A face joins the person of some assigned face in reach. */
  lemma {:induction false} JoiningIsNear(w: World, db: Tables, job: Job, out: Outcome) returns (g: FaceId)
    requires ValidWorld(w) && Decides(w, db, job, out)
    requires Candidate(db, job.face) && !Assigned(db, job.face)
    requires 1 <= w.config(EventOf(db, job.face)).minFaces <= 1000
    requires out.Join?
    ensures NearPerson(w, db, job.face, g) && PersonOf(db, g) == Some(out.person)
  {
    var matches, withPerson := DecisionSearches(w, db, job, out);
    FirstPersonSound(db, matches);
    var direct := FirstPerson(db, matches);
    if direct.Some? {
      g :| g in matches && PersonOf(db, g) == direct;
    } else {
      g := withPerson[0];
      assert g in withPerson;
    }
  }

  /** The face has no company: the density search found nothing but itself. */
  ghost predicate Lonely(w: World, db: Tables, f: FaceId)
    requires Found(db, f)
  {
    w.config(EventOf(db, f)).minFaces > 1 && |Neighbours(w, db, f)| <= 1
  }

  ghost predicate KnownNearby(w: World, db: Tables, f: FaceId) {
    exists g :: NearPerson(w, db, f, g)
  }

  /** Everything a job may decide, by density and present assignments alone. On a first visit only a core
      face gets a person; any other that has company is put back, and joins or founds nothing. */
  lemma {:induction false} DecisionMeans(w: World, db: Tables, job: Job, out: Outcome)
    requires ValidSettings(w) && Decides(w, db, job, out)
    ensures !Found(db, job.face) ==> out == Failed
    ensures Found(db, job.face) && db.faces[job.face].source != MachineLearning ==> out == Skipped
    ensures Found(db, job.face) && db.faces[job.face].source == MachineLearning && !db.faces[job.face].embedded ==> out == Failed
    ensures Candidate(db, job.face) && Assigned(db, job.face) ==> out == Skipped
    ensures Candidate(db, job.face) && !Assigned(db, job.face) ==> UnassignedMeans(w, db, job, out)
  {
    if Candidate(db, job.face) && !Assigned(db, job.face) {
      var matches, withPerson := DecisionSearches(w, db, job, out);
      FirstPersonSound(db, matches);
      if withPerson != [] {
        assert withPerson[0] in withPerson && NearPerson(w, db, job.face, withPerson[0]);
      }
      if m :| m in matches && Assigned(db, m) {
        assert NearPerson(w, db, job.face, m);
      }
    }
  }

  ghost predicate UnassignedMeans(w: World, db: Tables, job: Job, out: Outcome)
    requires Found(db, job.face)
  {
    var lonely, core, known := Lonely(w, db, job.face), Core(w, db, job.face), KnownNearby(w, db, job.face);
    && (out == Skipped <==> lonely)
    && (out == Deferred <==> !lonely && !core && !job.deferred)
    && (out.Join? <==> !lonely && (core || job.deferred) && known)
    && (out.CreatePerson? <==> core && !known)
    && (out == NoPerson <==> !lonely && !core && job.deferred && !known)
  }

  lemma {:induction false} FirstPersonIsFirst(db: Tables, matches: seq<FaceId>) returns (i: nat)
    requires FirstPerson(db, matches).Some?
    ensures i < |matches| && PersonOf(db, matches[i]) == FirstPerson(db, matches)
    ensures forall j :: 0 <= j < i ==> !Assigned(db, matches[j])
  {
    if Assigned(db, matches[0]) {
      i := 0;
    } else {
      i := FirstPersonIsFirst(db, matches[1..]);
      i := i + 1;
      assert forall j :: 0 < j < i ==> matches[j] == matches[1..][j - 1];
    }
  }

  lemma {:induction false} FirstMatchIsNearest(w: World, db: Tables, f: FaceId, k: nat, matches: seq<FaceId>) returns (g: FaceId)
    requires Found(db, f) && FirstPerson(db, matches).Some?
    requires SearchResult(w, db, EventOf(db, f), f, w.config(EventOf(db, f)).maxDistance, k, false, matches)
    ensures g in matches && PersonOf(db, g) == FirstPerson(db, matches)
    ensures forall h :: h in Pool(db, EventOf(db, f), true) ==> w.dist(g, f) <= w.dist(h, f)
  {
    var e := EventOf(db, f);
    var rows :| KNearest(w, Pool(db, e, false), f, k, rows) && matches == Within(w, f, w.config(e).maxDistance, rows);
    SearchIsNearest(w, Pool(db, e, false), f, w.config(e).maxDistance, k, rows);
    var i := FirstPersonIsFirst(db, matches);
    g := matches[i];
    forall h | h in Pool(db, e, true) ensures w.dist(g, f) <= w.dist(h, f) {
      assert h in Pool(db, e, false);
      if h in matches {
        var j :| 0 <= j < |matches| && matches[j] == h;
        assert i <= j;
      }
    }
  }

  lemma {:induction false} OnlyMatchIsNearest(w: World, db: Tables, f: FaceId, matches: seq<FaceId>)
    requires Found(db, f) && matches != []
    requires SearchResult(w, db, EventOf(db, f), f, w.config(EventOf(db, f)).maxDistance, 1, true, matches)
    ensures forall h :: h in Pool(db, EventOf(db, f), true) ==> w.dist(matches[0], f) <= w.dist(h, f)
  {
    var e := EventOf(db, f);
    var rows :| KNearest(w, Pool(db, e, true), f, 1, rows) && matches == Within(w, f, w.config(e).maxDistance, rows);
    SearchIsNearest(w, Pool(db, e, true), f, w.config(e).maxDistance, 1, rows);
    forall h | h in Pool(db, e, true) ensures w.dist(matches[0], f) <= w.dist(h, f) {
      if h in matches {
        var j :| 0 <= j < |matches| && matches[j] == h;
      }
    }
  }

  /** Of all persons, a face joins that of the nearest assigned face of its event, although it asks for
      only `minFaces` neighbours at first. */
  lemma {:induction false} JoinsTheNearest(w: World, db: Tables, job: Job, out: Outcome) returns (g: FaceId)
    requires Decides(w, db, job, out) && out.Join?
    ensures Candidate(db, job.face) && PersonOf(db, g) == Some(out.person)
    ensures forall h :: h in Pool(db, EventOf(db, job.face), true) ==> w.dist(g, job.face) <= w.dist(h, job.face)
  {
    var f := job.face;
    var e := EventOf(db, f);
    var cfg := w.config(e);
    var matches, withPerson :|
      && SearchResult(w, db, e, f, cfg.maxDistance, cfg.minFaces, false, matches)
      && SearchResult(w, db, e, f, cfg.maxDistance, 1, true, withPerson)
      && out == Choose(db, cfg.minFaces, job.deferred, matches, withPerson);
    if FirstPerson(db, matches).Some? {
      g := FirstMatchIsNearest(w, db, f, cfg.minFaces, matches);
    } else {
      OnlyMatchIsNearest(w, db, f, withPerson);
      g := withPerson[0];
    }
  }

  // --- coverage: draining the queue leaves only noise unassigned ---

  ghost predicate ValidSettings(w: World) {
    ValidWorld(w) && forall e :: 1 <= w.config(e).minFaces <= 1000
  }

  ghost predicate Queued(q: seq<Job>, f: FaceId) {
    exists i :: 0 <= i < |q| && q[i].face == f
  }

  /** `f` has a job that will run when `c` has been dealt with. */
  ghost predicate RunsAfter(s: System, f: FaceId, c: FaceId, i: int) {
    && 0 <= i < |s.queue| && s.queue[i].face == f
    && (Assigned(s.db, c) || Queued(s.queue[..i], c))
  }

  ghost predicate Served(s: System, f: FaceId, c: FaceId) {
    || Assigned(s.db, f)
    || Job(f, false) in s.queue
    || exists i :: RunsAfter(s, f, c, i)
  }

  ghost predicate CoresPending(w: World, s: System, e: EventId) {
    forall c :: Core(w, s.db, c) && EventOf(s.db, c) == e ==> Assigned(s.db, c) || Queued(s.queue, c)
  }

  ghost predicate BordersPending(w: World, s: System, e: EventId) {
    forall f, c :: Candidate(s.db, f) && Core(w, s.db, c) && EventOf(s.db, c) == e && Near(w, s.db, f, c) ==> Served(s, f, c)
  }

  /** The starting point: every unassigned candidate of the event has a first-pass job somewhere in
      the queue. Other jobs, repeats and other events' jobs may be mixed in freely. */
  ghost predicate AllQueued(s: System, e: EventId) {
    forall f :: Candidate(s.db, f) && EventOf(s.db, f) == e && !Assigned(s.db, f) ==> Job(f, false) in s.queue
  }

  lemma {:induction false} QueuedAfterPop(s: System, s': System, c: FaceId)
    requires s.queue != [] && (s'.queue == s.queue[1..] || s'.queue == s.queue[1..] + [Job(s.queue[0].face, true)])
    requires Queued(s.queue, c) && c != s.queue[0].face
    ensures Queued(s'.queue, c) && Queued(s.queue[1..], c)
  {
    var i :| 0 <= i < |s.queue| && s.queue[i].face == c;
    assert s'.queue[i - 1] == s.queue[i] && s.queue[1..][i - 1] == s.queue[i];
  }

  lemma {:induction false} HeadCoreAssigned(w: World, s: System, s': System)
    requires ValidSettings(w) && Step(w, s, s') && Core(w, s.db, s.queue[0].face)
    ensures Assigned(s'.db, s.queue[0].face)
  {
    var out, newId :| StepWith(w, s, s', out, newId);
    if !Assigned(s.db, s.queue[0].face) {
      CoreGetsPerson(w, s.db, s.queue[0], out);
    }
  }

  lemma {:induction false} HeadBorderServed(w: World, s: System, s': System, f: FaceId, c: FaceId)
    requires ValidSettings(w) && Step(w, s, s')
    requires f == s.queue[0].face && Candidate(s.db, f) && Core(w, s.db, c) && Near(w, s.db, f, c)
    requires Assigned(s.db, c) || (!s.queue[0].deferred && Queued(s.queue, c))
    ensures Served(s', f, c)
  {
    var out, newId :| StepWith(w, s, s', out, newId);
    StepFrame(w, s, s');
    if Assigned(s.db, f) {
    } else if f == c {
      HeadCoreAssigned(w, s, s');
    } else {
      NeighbourIsKept(w, s.db, s.queue[0], out, c);
      if out == Deferred {
        DeferredIsServed(s, s', f, c);
      }
    }
  }

  lemma {:induction false} DeferredIsServed(s: System, s': System, f: FaceId, c: FaceId)
    requires s.queue != [] && f == s.queue[0].face && f != c && s'.queue == s.queue[1..] + [Job(f, true)]
    requires Assigned(s'.db, c) || Queued(s.queue, c)
    ensures Served(s', f, c)
  {
    var last := |s'.queue| - 1;
    assert s'.queue[..last] == s.queue[1..];
    if !Assigned(s'.db, c) {
      QueuedAfterPop(s, s', c);
    }
    assert RunsAfter(s', f, c, last);
  }

  lemma {:induction false} LaterBorderServed(w: World, s: System, s': System, f: FaceId, c: FaceId, i: int)
    requires ValidSettings(w) && Step(w, s, s')
    requires Core(w, s.db, c) && RunsAfter(s, f, c, i) && i > 0
    ensures Served(s', f, c)
  {
    StepFrame(w, s, s');
    assert s'.queue[i - 1] == s.queue[i];
    assert s'.queue[..i - 1] == s.queue[1..i];
    if !Assigned(s.db, c) {
      if c == s.queue[0].face {
        HeadCoreAssigned(w, s, s');
      } else {
        var j :| 0 <= j < i && s.queue[..i][j].face == c;
        assert s'.queue[..i - 1][j - 1].face == c;
      }
    }
    assert RunsAfter(s', f, c, i - 1);
  }

  lemma {:induction false} BorderStaysServed(w: World, s: System, s': System, f: FaceId, c: FaceId)
    requires ValidSettings(w) && Step(w, s, s')
    requires Candidate(s.db, f) && Core(w, s.db, c) && Near(w, s.db, f, c)
    requires Assigned(s.db, c) || Queued(s.queue, c)
    requires Served(s, f, c)
    ensures Served(s', f, c)
  {
    StepFrame(w, s, s');
    if Assigned(s.db, f) {
    } else if Job(f, false) in s.queue {
      var i :| 0 <= i < |s.queue| && s.queue[i] == Job(f, false);
      if i == 0 {
        HeadBorderServed(w, s, s', f, c);
      } else {
        assert s'.queue[i - 1] == Job(f, false);
      }
    } else {
      var i :| RunsAfter(s, f, c, i);
      if i == 0 {
        HeadBorderServed(w, s, s', f, c);
      } else {
        LaterBorderServed(w, s, s', f, c, i);
      }
    }
  }

  lemma {:induction false} StepKeepsPending(w: World, s: System, s': System, e: EventId)
    requires ValidSettings(w) && Step(w, s, s')
    requires CoresPending(w, s, e) && BordersPending(w, s, e)
    ensures CoresPending(w, s', e) && BordersPending(w, s', e)
  {
    StepFrame(w, s, s');
    SameFacesSameDensity(w, s.db, s'.db);
    forall c: FaceId | Core(w, s'.db, c) && EventOf(s'.db, c) == e
      ensures Assigned(s'.db, c) || Queued(s'.queue, c)
    {
      if Assigned(s.db, c) {
      } else if c == s.queue[0].face {
        HeadCoreAssigned(w, s, s');
      } else {
        QueuedAfterPop(s, s', c);
      }
    }
    forall f: FaceId, c: FaceId | Candidate(s'.db, f) && Core(w, s'.db, c) && EventOf(s'.db, c) == e && Near(w, s'.db, f, c)
      ensures Served(s', f, c)
    {
      BorderStaysServed(w, s, s', f, c);
    }
  }

  function Work(q: seq<Job>): nat {
    if q == [] then 0 else (if q[0].deferred then 1 else 2) + Work(q[1..])
  }

  lemma {:induction false} WorkAppend(q: seq<Job>, j: Job)
    ensures Work(q + [j]) == Work(q) + if j.deferred then 1 else 2
  {
    if q == [] {
      assert q + [j] == [j];
    } else {
      assert (q + [j])[1..] == q[1..] + [j];
      WorkAppend(q[1..], j);
    }
  }

  /** Each job is visited at most twice: a deferred visit never defers again. */
  lemma {:induction false} StepDoesWork(w: World, s: System, s': System)
    requires Step(w, s, s')
    ensures Work(s'.queue) < Work(s.queue)
  {
    WorkAppend(s.queue[1..], Job(s.queue[0].face, true));
  }

  lemma {:induction false} RunKeepsPending(w: World, run: seq<System>, e: EventId, n: nat)
    requires ValidSettings(w) && Run(w, run) && n < |run|
    requires CoresPending(w, run[0], e) && BordersPending(w, run[0], e)
    ensures CoresPending(w, run[n], e) && BordersPending(w, run[n], e)
    ensures Work(run[n].queue) + n <= Work(run[0].queue)
    ensures SameFaces(run[0].db, run[n].db)
  {
    if n > 0 {
      RunKeepsPending(w, run, e, n - 1);
      assert Step(w, run[n - 1], run[n]);
      StepKeepsPending(w, run[n - 1], run[n], e);
      StepDoesWork(w, run[n - 1], run[n]);
      StepFrame(w, run[n - 1], run[n]);
    }
  }

  /** Not noise: a core face of the event, or a face within reach of one. */
  ghost predicate Dense(w: World, db: Tables, e: EventId, f: FaceId) {
    Candidate(db, f) && exists c :: Core(w, db, c) && EventOf(db, c) == e && (f == c || Near(w, db, f, c))
  }

  /** Every drain of the queue terminates, and when it ends every core face of the event and every
      face within reach of one has a person: only density noise is left. */
  lemma {:induction false} Coverage(w: World, run: seq<System>, e: EventId)
    requires ValidSettings(w) && Run(w, run) && AllQueued(run[0], e)
    ensures |run| <= Work(run[0].queue) + 1
    ensures run[|run| - 1].queue == [] ==>
              forall f :: Dense(w, run[0].db, e, f) ==> Assigned(run[|run| - 1].db, f)
  {
    var first, last := run[0], run[|run| - 1];
    forall c: FaceId | Core(w, first.db, c) && EventOf(first.db, c) == e && !Assigned(first.db, c)
      ensures Queued(first.queue, c)
    {
      assert Job(c, false) in first.queue;
    }
    RunKeepsPending(w, run, e, |run| - 1);
    SameFacesSameDensity(w, first.db, last.db);
  }

  // --- cluster shape ---

  /** A chain of faces of person `p`, from its founder to `f`, each hop within reach. */
  ghost predicate Chain(w: World, db: Tables, p: PersonId, f: FaceId, path: seq<FaceId>)
    requires p in db.persons
  {
    && path != [] && Some(path[0]) == db.persons[p].cover && path[|path| - 1] == f
    && (forall i :: 0 <= i < |path| ==> PersonOf(db, path[i]) == Some(p))
    && (forall i :: 0 <= i < |path| - 1 ==> w.dist(path[i], path[i + 1]) <= w.config(db.persons[p].event).maxDistance)
  }

  ghost predicate Linked(w: World, db: Tables, f: FaceId) {
    && Found(db, f) && Assigned(db, f)
    && PersonOf(db, f).value in db.persons
    && db.persons[PersonOf(db, f).value].event == EventOf(db, f)
    && exists path :: Chain(w, db, PersonOf(db, f).value, f, path)
  }

  ghost predicate FounderStays(w: World, db: Tables, p: PersonId)
    requires p in db.persons
  {
    && db.persons[p].cover.Some?
    && var f := db.persons[p].cover.value;
      Core(w, db, f) && PersonOf(db, f) == Some(p) && EventOf(db, f) == db.persons[p].event
  }

  ghost predicate OutOfReach(w: World, p: Person, q: Person) {
    p.cover.Some? && q.cover.Some? ==> w.dist(p.cover.value, q.cover.value) > w.config(p.event).maxDistance
  }

  ghost predicate FoundersApart(w: World, db: Tables) {
    forall p, q :: p in db.persons && q in db.persons && p != q && db.persons[p].event == db.persons[q].event ==>
      OutOfReach(w, db.persons[p], db.persons[q])
  }

  /** A person of the event that is not one of `base`. */
  predicate Founded(db: Tables, e: EventId, base: set<PersonId>, p: PersonId) {
    p in db.persons && p !in base && db.persons[p].event == e
  }

  /** The shape of one event's clusters, apart from the persons of `base`: founders are core faces out of
      each other's reach, and every assigned face a search could find is chained to one of them. */
  ghost predicate WellShaped(w: World, db: Tables, e: EventId, base: set<PersonId>) {
    && (forall p :: Founded(db, e, base, p) ==> FounderStays(w, db, p))
    && (forall f :: Searchable(db, e, f) && Assigned(db, f) ==> Linked(w, db, f) && PersonOf(db, f).value !in base)
    && (forall p, q :: Founded(db, e, base, p) && Founded(db, e, base, q) && p != q ==>
          OutOfReach(w, db.persons[p], db.persons[q]))
  }

  lemma {:induction false} ChainSurvives(w: World, db: Tables, db': Tables, f: FaceId)
    requires Grows(db, db') && Linked(w, db, f)
    ensures Linked(w, db', f)
  {
    var p := PersonOf(db, f).value;
    var path :| Chain(w, db, p, f, path);
    forall i | 0 <= i < |path| ensures PersonOf(db', path[i]) == Some(p) {
      assert Assigned(db, path[i]);
    }
    assert Chain(w, db', p, f, path);
  }

  lemma {:induction false} ChainExtends(w: World, db: Tables, p: PersonId, g: FaceId, path: seq<FaceId>, f: FaceId)
    requires p in db.persons && Chain(w, db, p, g, path) && PersonOf(db, f) == Some(p)
    requires w.dist(g, f) <= w.config(db.persons[p].event).maxDistance
    ensures Chain(w, db, p, f, path + [f])
  {
  }

  /** Some founder of the event stands within reach of `f`. */
  ghost predicate FounderInReach(w: World, db: Tables, e: EventId, base: set<PersonId>, f: FaceId) {
    exists q :: Founded(db, e, base, q) && !OutOfReach(w, db.persons[q], Person(e, Some(f)))
  }

  lemma {:induction false} FoundersStay(w: World, db: Tables, db': Tables, e: EventId, base: set<PersonId>, p: PersonId)
    requires Grows(db, db') && Founded(db, e, base, p) && FounderStays(w, db, p)
    ensures FounderStays(w, db', p)
  {
    SameFacesSameDensity(w, db, db');
  }

  /** Joining a face in reach keeps the shape, however old the decision is. */
  lemma {:induction false} JoiningKeepsShape(w: World, db: Tables, f: FaceId, g: FaceId, e: EventId, base: set<PersonId>)
    requires ValidWorld(w) && WellShaped(w, db, e, base)
    requires !Assigned(db, f) && NearPerson(w, db, f, g)
    ensures WellShaped(w, AssignFace(db, f, PersonOf(db, g).value), e, base)
  {
    var p := PersonOf(db, g).value;
    var db' := AssignFace(db, f, p);
    forall q | Founded(db', e, base, q) ensures FounderStays(w, db', q) {
      FoundersStay(w, db, db', e, base, q);
    }
    forall h | Searchable(db', e, h) && Assigned(db', h) ensures Linked(w, db', h) && PersonOf(db', h).value !in base {
      if h == f {
        JoinerLinked(w, db, f, g, e, base);
      } else {
        assert Searchable(db, e, h);
        ChainSurvives(w, db, db', h);
      }
    }
  }

  lemma {:induction false} JoinerLinked(w: World, db: Tables, f: FaceId, g: FaceId, e: EventId, base: set<PersonId>)
    requires ValidWorld(w) && WellShaped(w, db, e, base)
    requires !Assigned(db, f) && NearPerson(w, db, f, g) && EventOf(db, f) == e
    ensures Linked(w, AssignFace(db, f, PersonOf(db, g).value), f) && PersonOf(db, g).value !in base
  {
    var p := PersonOf(db, g).value;
    var db' := AssignFace(db, f, p);
    assert Searchable(db, e, g);
    ChainSurvives(w, db, db', g);
    var path :| Chain(w, db', p, g, path);
    assert w.dist(g, f) == w.dist(f, g);
    ChainExtends(w, db', p, g, path, f);
  }

  lemma {:induction false} FoundedFaces(w: World, db: Tables, f: FaceId, newId: PersonId, e: EventId, base: set<PersonId>)
    requires WellShaped(w, db, e, base) && base <= db.persons.Keys
    requires Core(w, db, f) && !Assigned(db, f) && newId !in db.persons
    ensures var db' := Founding(db, f, newId);
            && (forall p :: Founded(db', e, base, p) ==> FounderStays(w, db', p))
            && forall h :: Searchable(db', e, h) && Assigned(db', h) ==> Linked(w, db', h) && PersonOf(db', h).value !in base
  {
    var db' := Founding(db, f, newId);
    SameFacesSameDensity(w, db, db');
    forall p | Founded(db', e, base, p) ensures FounderStays(w, db', p) {
      if p != newId {
        FoundersStay(w, db, db', e, base, p);
      }
    }
    forall h | Searchable(db', e, h) && Assigned(db', h) ensures Linked(w, db', h) && PersonOf(db', h).value !in base {
      if h == f {
        assert Chain(w, db', newId, f, [f]);
      } else {
        assert Searchable(db, e, h);
        ChainSurvives(w, db, db', h);
      }
    }
  }

  /** Founding a person keeps the shape of the event exactly when no founder of the event stands within
      reach by the time of the write. */
  lemma {:induction false} FoundingKeepsShape(w: World, db: Tables, f: FaceId, newId: PersonId, e: EventId, base: set<PersonId>)
    requires ValidWorld(w) && WellShaped(w, db, e, base) && base <= db.persons.Keys
    requires Core(w, db, f) && !Assigned(db, f) && newId !in db.persons
    ensures var db' := Founding(db, f, newId);
            && (WellShaped(w, db', e, base) <==> !(EventOf(db, f) == e && FounderInReach(w, db, e, base, f)))
            && (WellShaped(w, db', e, base) || Split(w, db', e, base))
  {
    var db' := Founding(db, f, newId);
    FoundedFaces(w, db, f, newId, e, base);
    if EventOf(db, f) == e && FounderInReach(w, db, e, base, f) {
      var q :| Founded(db, e, base, q) && !OutOfReach(w, db.persons[q], Person(e, Some(f)));
      assert Founded(db', e, base, q) && Founded(db', e, base, newId) && !OutOfReach(w, db'.persons[q], db'.persons[newId]);
    } else {
    }
  }

  lemma {:induction false} NoFounderInReach(w: World, db: Tables, f: FaceId, e: EventId, base: set<PersonId>)
    requires ValidWorld(w) && WellShaped(w, db, e, base) && Found(db, f) && forall g :: !NearPerson(w, db, f, g)
    ensures !(EventOf(db, f) == e && FounderInReach(w, db, e, base, f))
  {
    forall q | Founded(db, e, base, q) && EventOf(db, f) == e ensures OutOfReach(w, db.persons[q], Person(e, Some(f))) {
      assert FounderStays(w, db, q);
      var g := db.persons[q].cover.value;
      assert !NearPerson(w, db, f, g);
      assert w.dist(f, g) == w.dist(g, f);
    }
  }

  /** Two persons of the event were founded within each other's reach. */
  ghost predicate Split(w: World, db: Tables, e: EventId, base: set<PersonId>) {
    exists p, q :: Founded(db, e, base, p) && Founded(db, e, base, q) && p != q && !OutOfReach(w, db.persons[p], db.persons[q])
  }

  /** One job keeps the shape of every event's clusters, whatever persons were there before. */
  lemma {:induction false} StepKeepsShape(w: World, s: System, s': System, e: EventId, base: set<PersonId>)
    requires ValidSettings(w) && Step(w, s, s') && WellShaped(w, s.db, e, base) && base <= s.db.persons.Keys
    ensures WellShaped(w, s'.db, e, base) && base <= s'.db.persons.Keys
    ensures forall f :: Assigned(s'.db, f) && !Assigned(s.db, f) ==> Candidate(s.db, f)
  {
    var out, newId :| StepWith(w, s, s', out, newId);
    var f := s.queue[0].face;
    StepFrame(w, s, s');
    if out.CreatePerson? {
      FoundingIsIsolated(w, s.db, s.queue[0], out);
      NoFounderInReach(w, s.db, f, e, base);
      FoundingKeepsShape(w, s.db, f, newId, e, base);
    } else if out.Join? {
      var g := JoiningIsNear(w, s.db, s.queue[0], out);
      JoiningKeepsShape(w, s.db, f, g, e, base);
    }
  }

  /** No face a search of the event could find is assigned: so after a forced reset of the event, whatever
      the other events hold. */
  ghost predicate NoneAssigned(db: Tables, e: EventId) {
    forall f :: Searchable(db, e, f) ==> !Assigned(db, f)
  }

  /** What a run left of the event's clusters: the shape, over the persons it created, and every face it
      assigned chained to one of them. */
  ghost predicate Clustered(w: World, first: Tables, last: Tables, e: EventId) {
    && WellShaped(w, last, e, first.persons.Keys)
    && forall f :: Assigned(last, f) && !Assigned(first, f) ==>
         && Candidate(first, f)
         && (EventOf(first, f) == e ==> Linked(w, last, f) && PersonOf(last, f).value !in first.persons)
  }

  lemma {:induction false} RunKeepsShape(w: World, run: seq<System>, n: nat, e: EventId, base: set<PersonId>)
    requires ValidSettings(w) && Run(w, run) && n < |run|
    requires WellShaped(w, run[0].db, e, base) && base <= run[0].db.persons.Keys
    ensures WellShaped(w, run[n].db, e, base) && base <= run[n].db.persons.Keys
    ensures SameFaces(run[0].db, run[n].db)
    ensures forall f :: Assigned(run[n].db, f) && !Assigned(run[0].db, f) ==> Candidate(run[0].db, f)
  {
    if n > 0 {
      RunKeepsShape(w, run, n - 1, e, base);
      assert Step(w, run[n - 1], run[n]);
      StepKeepsShape(w, run[n - 1], run[n], e, base);
      StepFrame(w, run[n - 1], run[n]);
      SameFacesSameDensity(w, run[0].db, run[n - 1].db);
    }
  }

  /** In every run of one-at-a-time jobs from an event without assigned faces, the founders of the event's
      new persons are core faces out of each other's reach, and every face assigned is chained to its
      person's founder. Other events, and persons left over from before, may look like anything. */
  lemma {:induction false} ClusterShape(w: World, run: seq<System>, n: nat, e: EventId)
    requires ValidSettings(w) && Run(w, run) && n < |run| && NoneAssigned(run[0].db, e)
    ensures Clustered(w, run[0].db, run[n].db, e)
  {
    RunKeepsShape(w, run, n, e, run[0].db.persons.Keys);
    SameFacesSameDensity(w, run[0].db, run[n].db);
    forall f | Assigned(run[n].db, f) && !Assigned(run[0].db, f) && EventOf(run[0].db, f) == e
      ensures Linked(w, run[n].db, f) && PersonOf(run[n].db, f).value !in run[0].db.persons
    {
      assert Searchable(run[n].db, e, f);
    }
  }

  // --- the two passes ---

  /** Only core faces of the event have a person yet. */
  ghost predicate OnlyCores(w: World, db: Tables, e: EventId) {
    forall f :: Searchable(db, e, f) && Assigned(db, f) ==> Core(w, db, f)
  }

  /** A chain to the founder over core faces alone. */
  ghost predicate CoreChain(w: World, db: Tables, p: PersonId, f: FaceId, path: seq<FaceId>)
    requires p in db.persons
  {
    Chain(w, db, p, f, path) && forall i :: 0 <= i < |path| ==> Core(w, db, path[i])
  }

  ghost predicate CoreLinked(w: World, db: Tables, f: FaceId) {
    && Found(db, f) && Assigned(db, f) && PersonOf(db, f).value in db.persons
    && db.persons[PersonOf(db, f).value].event == EventOf(db, f)
    && exists path :: CoreChain(w, db, PersonOf(db, f).value, f, path)
  }

  ghost predicate CoresLinked(w: World, db: Tables, e: EventId) {
    forall f :: Core(w, db, f) && EventOf(db, f) == e && Assigned(db, f) ==> CoreLinked(w, db, f)
  }

  predicate FirstVisits(q: seq<Job>) {
    forall i :: 0 <= i < |q| ==> !q[i].deferred
  }

  predicate Revisits(q: seq<Job>) {
    forall i :: 0 <= i < |q| ==> q[i].deferred
  }

  /** First visits come before revisits, and only faces that are not core are revisited. */
  ghost predicate TwoPasses(w: World, s: System) {
    && (exists k :: 0 <= k <= |s.queue| && FirstVisits(s.queue[..k]) && Revisits(s.queue[k..]))
    && forall i :: 0 <= i < |s.queue| && s.queue[i].deferred ==> !Core(w, s.db, s.queue[i].face)
  }

  lemma {:induction false} PassesAfterStep(q: seq<Job>, q': seq<Job>, k: int)
    requires 0 <= k <= |q| && FirstVisits(q[..k]) && Revisits(q[k..]) && q != []
    requires q' == q[1..] || q' == q[1..] + [Job(q[0].face, true)]
    ensures exists k' :: 0 <= k' <= |q'| && FirstVisits(q'[..k']) && Revisits(q'[k'..])
    ensures Revisits(q) ==> Revisits(q')
  {
    var k' := if k > 0 then k - 1 else 0;
    assert q'[..k'] == q[1..][..k'];
    assert q'[k'..] == q[1..][k'..] || q'[k'..] == q[1..][k'..] + [Job(q[0].face, true)];
    if k > 0 {
      assert q[1..][..k - 1] == q[..k][1..] && q[1..][k - 1..] == q[k..];
    } else {
      assert q[k..] == q;
    }
  }

  lemma {:induction false} DeferredIsNotCore(w: World, s: System, s': System)
    requires ValidSettings(w) && Step(w, s, s') && s'.queue != s.queue[1..]
    ensures s'.queue == s.queue[1..] + [Job(s.queue[0].face, true)] && !Core(w, s.db, s.queue[0].face)
  {
    var out, newId :| StepWith(w, s, s', out, newId);
    DecisionMeans(w, s.db, s.queue[0], out);
  }

  lemma {:induction false} StepKeepsPasses(w: World, s: System, s': System)
    requires ValidSettings(w) && Step(w, s, s') && TwoPasses(w, s)
    ensures TwoPasses(w, s') && (Revisits(s.queue) ==> Revisits(s'.queue))
  {
    StepFrame(w, s, s');
    var k :| 0 <= k <= |s.queue| && FirstVisits(s.queue[..k]) && Revisits(s.queue[k..]);
    PassesAfterStep(s.queue, s'.queue, k);
    RevisitsStayBorder(w, s, s');
  }

  lemma {:induction false} RevisitsStayBorder(w: World, s: System, s': System)
    requires ValidSettings(w) && Step(w, s, s')
    requires forall i :: 0 <= i < |s.queue| && s.queue[i].deferred ==> !Core(w, s.db, s.queue[i].face)
    ensures forall i :: 0 <= i < |s'.queue| && s'.queue[i].deferred ==> !Core(w, s'.db, s'.queue[i].face)
  {
    StepFrame(w, s, s');
    SameFacesSameDensity(w, s.db, s'.db);
    if s'.queue != s.queue[1..] {
      DeferredIsNotCore(w, s, s');
    }
    forall i | 0 <= i < |s'.queue| && s'.queue[i].deferred ensures !Core(w, s'.db, s'.queue[i].face) {
      if i < |s.queue| - 1 {
        assert s'.queue[i] == s.queue[i + 1];
      }
    }
  }

  lemma {:induction false} CoreLinkSurvives(w: World, db: Tables, db': Tables, f: FaceId)
    requires Grows(db, db') && CoreLinked(w, db, f)
    ensures CoreLinked(w, db', f)
  {
    SameFacesSameDensity(w, db, db');
    var p := PersonOf(db, f).value;
    var path :| CoreChain(w, db, p, f, path);
    forall i | 0 <= i < |path| ensures PersonOf(db', path[i]) == Some(p) {
      assert Assigned(db, path[i]);
    }
    assert CoreChain(w, db', p, f, path);
  }

  /** A first visit that assigns a face of the event: it is core, and linked through core faces. */
  lemma {:induction false} FirstVisitLinks(w: World, s: System, s': System, e: EventId)
    requires ValidSettings(w) && Step(w, s, s') && !s.queue[0].deferred && OnlyCores(w, s.db, e) && CoresLinked(w, s.db, e)
    requires Searchable(s.db, e, s.queue[0].face) && !Assigned(s.db, s.queue[0].face) && Assigned(s'.db, s.queue[0].face)
    ensures Core(w, s.db, s.queue[0].face) && CoreLinked(w, s'.db, s.queue[0].face)
  {
    var out, newId :| StepWith(w, s, s', out, newId);
    FirstVisitIsCore(w, s.db, s.queue[0], out);
    if out.CreatePerson? {
      FoundingLinks(w, s.db, s.queue[0].face, newId);
    } else {
      var g := JoiningIsNear(w, s.db, s.queue[0], out);
      assert Searchable(s.db, e, g);
      JoiningLinks(w, s.db, s.queue[0].face, g);
    }
  }

  /** On a first visit a face gets a person only if it is core. */
  lemma {:induction false} FirstVisitIsCore(w: World, db: Tables, job: Job, out: Outcome)
    requires ValidSettings(w) && Decides(w, db, job, out) && !job.deferred && (out.Join? || out.CreatePerson?)
    ensures Core(w, db, job.face)
  {
    DecisionMeans(w, db, job, out);
  }

  lemma {:induction false} FoundingLinks(w: World, db: Tables, f: FaceId, newId: PersonId)
    requires Core(w, db, f) && !Assigned(db, f) && newId !in db.persons
    ensures CoreLinked(w, Founding(db, f, newId), f)
  {
    var db' := Founding(db, f, newId);
    SameFacesSameDensity(w, db, db');
    assert CoreChain(w, db', newId, f, [f]);
  }

  lemma {:induction false} JoiningLinks(w: World, db: Tables, f: FaceId, g: FaceId)
    requires ValidWorld(w) && Core(w, db, f) && !Assigned(db, f) && NearPerson(w, db, f, g) && CoreLinked(w, db, g)
    ensures CoreLinked(w, AssignFace(db, f, PersonOf(db, g).value), f)
  {
    var p := PersonOf(db, g).value;
    var db' := AssignFace(db, f, p);
    SameFacesSameDensity(w, db, db');
    CoreLinkSurvives(w, db, db', g);
    var path :| CoreChain(w, db', p, g, path);
    assert w.dist(g, f) == w.dist(f, g);
    ChainExtends(w, db', p, g, path, f);
    assert CoreChain(w, db', p, f, path + [f]);
  }

  /** What the head of the queue does to the event: nothing, or it links a core face, or it is a revisit. */
  lemma {:induction false} HeadOfPasses(w: World, s: System, s': System, e: EventId)
    requires ValidSettings(w) && Step(w, s, s') && TwoPasses(w, s)
    requires CoresLinked(w, s.db, e) && (OnlyCores(w, s.db, e) || Revisits(s.queue))
    ensures s.queue[0].deferred ==> Revisits(s.queue) && !Core(w, s.db, s.queue[0].face)
    ensures !s.queue[0].deferred && Searchable(s.db, e, s.queue[0].face) && !Assigned(s.db, s.queue[0].face) && Assigned(s'.db, s.queue[0].face) ==>
              Core(w, s.db, s.queue[0].face) && CoreLinked(w, s'.db, s.queue[0].face)
  {
    var k :| 0 <= k <= |s.queue| && FirstVisits(s.queue[..k]) && Revisits(s.queue[k..]);
    if !s.queue[0].deferred && Searchable(s.db, e, s.queue[0].face) && !Assigned(s.db, s.queue[0].face) && Assigned(s'.db, s.queue[0].face) {
      FirstVisitLinks(w, s, s', e);
    }
  }

  lemma {:induction false} StepKeepsOnlyCores(w: World, s: System, s': System, e: EventId)
    requires ValidSettings(w) && Step(w, s, s') && TwoPasses(w, s)
    requires CoresLinked(w, s.db, e) && (OnlyCores(w, s.db, e) || Revisits(s.queue))
    ensures OnlyCores(w, s'.db, e) || Revisits(s'.queue)
  {
    HeadOfPasses(w, s, s', e);
    StepKeepsPasses(w, s, s');
    StepFrame(w, s, s');
    SameFacesSameDensity(w, s.db, s'.db);
  }

  lemma {:induction false} StepKeepsCoreLinks(w: World, s: System, s': System, e: EventId)
    requires ValidSettings(w) && Step(w, s, s') && TwoPasses(w, s)
    requires CoresLinked(w, s.db, e) && (OnlyCores(w, s.db, e) || Revisits(s.queue))
    ensures CoresLinked(w, s'.db, e)
  {
    HeadOfPasses(w, s, s', e);
    StepFrame(w, s, s');
    SameFacesSameDensity(w, s.db, s'.db);
    forall g | Core(w, s'.db, g) && EventOf(s'.db, g) == e && Assigned(s'.db, g) ensures CoreLinked(w, s'.db, g) {
      if Assigned(s.db, g) {
        CoreLinkSurvives(w, s.db, s'.db, g);
      }
    }
  }

  /** The two passes: from an event without assigned faces and a queue of first visits only, no face that
      is not core gets a person while a first visit is left, and every core face with a person is chained
      to its founder by core faces alone. So a border face never bridges two groups of core faces. */
  lemma {:induction false} CoresFirst(w: World, run: seq<System>, n: nat, e: EventId)
    requires ValidSettings(w) && Run(w, run) && n < |run|
    requires NoneAssigned(run[0].db, e) && FirstVisits(run[0].queue)
    ensures CoresLinked(w, run[n].db, e)
    ensures (exists j :: j in run[n].queue && !j.deferred) ==> OnlyCores(w, run[n].db, e)
    ensures TwoPasses(w, run[n]) && (OnlyCores(w, run[n].db, e) || Revisits(run[n].queue))
  {
    if n == 0 {
      var q := run[0].queue;
      assert q[..|q|] == q && q[|q|..] == [];
      assert FirstVisits(q[..|q|]) && Revisits(q[|q|..]);
    } else {
      CoresFirst(w, run, n - 1, e);
      assert Step(w, run[n - 1], run[n]);
      StepKeepsPasses(w, run[n - 1], run[n]);
      StepKeepsOnlyCores(w, run[n - 1], run[n], e);
      StepKeepsCoreLinks(w, run[n - 1], run[n], e);
    }
  }

  // --- two consumers: the read and the write of a job are separate steps ---

  /** What a consumer has decided but not yet written. */
  datatype Consumers = Consumers(sys: System, decided: map<nat, (Job, Outcome)>)

  ghost predicate ReadStep(w: World, c: Consumers, c': Consumers, worker: nat, out: Outcome) {
    && worker !in c.decided && c.sys.queue != []
    && Decides(w, c.sys.db, c.sys.queue[0], out)
    && c' == Consumers(c.sys.(queue := c.sys.queue[1..]), c.decided[worker := (c.sys.queue[0], out)])
  }

  ghost predicate WriteStep(c: Consumers, c': Consumers, worker: nat, newId: PersonId) {
    && worker in c.decided && newId !in c.sys.db.persons
    && var (job, out) := c.decided[worker];
      && (out.Join? || out.CreatePerson? ==> Found(c.sys.db, job.face))
      && c' == Consumers(Commit(c.sys, job.face, out, newId), c.decided - {worker})
  }

  ghost predicate ConsumerStep(w: World, c: Consumers, c': Consumers) {
    || (exists worker, out :: ReadStep(w, c, c', worker, out))
    || (exists worker, newId :: WriteStep(c, c', worker, newId))
  }

  ghost predicate ConsumerRun(w: World, run: seq<Consumers>) {
    run != [] && forall i :: 0 <= i < |run| - 1 ==> ConsumerStep(w, run[i], run[i + 1])
  }

  /** A consumer that writes before anyone else reads takes exactly a `Step`. */
  lemma {:induction false} ReadThenWriteIsStep(w: World, c: Consumers, c1: Consumers, c2: Consumers, worker: nat, out: Outcome, newId: PersonId)
    requires ReadStep(w, c, c1, worker, out) && WriteStep(c1, c2, worker, newId)
    ensures Step(w, c.sys, c2.sys) && c2.decided == c.decided
  {
    assert StepWith(w, c.sys, c2.sys, out, newId);
  }

  /** A pending decision still is one on the tables as they are. */
  ghost predicate PendingValid(w: World, c: Consumers) {
    forall worker :: worker in c.decided ==> Decides(w, c.sys.db, c.decided[worker].0, c.decided[worker].1)
  }

  lemma {:induction false} WriteIsStep(w: World, c: Consumers, c': Consumers, worker: nat, newId: PersonId)
    requires WriteStep(c, c', worker, newId) && PendingValid(w, c)
    ensures Step(w, System(c.sys.db, [c.decided[worker].0] + c.sys.queue), c'.sys)
  {
    var (job, out) := c.decided[worker];
    var s := System(c.sys.db, [job] + c.sys.queue);
    assert s.queue[1..] == c.sys.queue && s.(queue := s.queue[1..]) == c.sys;
    assert StepWith(w, s, c'.sys, out, newId);
  }

  /** Any number of consumers keep the shape as long as never more than one decision is pending. */
  lemma {:induction false} OnePendingKeepsShape(w: World, run: seq<Consumers>, n: nat, e: EventId, base: set<PersonId>)
    requires ValidSettings(w) && ConsumerRun(w, run) && n < |run| && run[0].decided == map[]
    requires forall i :: 0 <= i < |run| ==> |run[i].decided| <= 1
    requires WellShaped(w, run[0].sys.db, e, base) && base <= run[0].sys.db.persons.Keys
    ensures WellShaped(w, run[n].sys.db, e, base) && base <= run[n].sys.db.persons.Keys && PendingValid(w, run[n])
  {
    if n > 0 {
      OnePendingKeepsShape(w, run, n - 1, e, base);
      assert ConsumerStep(w, run[n - 1], run[n]);
      OnePendingTurn(w, run[n - 1], run[n], e, base);
    }
  }

  lemma {:induction false} OnePendingTurn(w: World, c: Consumers, c': Consumers, e: EventId, base: set<PersonId>)
    requires ValidSettings(w) && ConsumerStep(w, c, c') && |c.decided| <= 1 && |c'.decided| <= 1 && PendingValid(w, c)
    requires WellShaped(w, c.sys.db, e, base) && base <= c.sys.db.persons.Keys
    ensures WellShaped(w, c'.sys.db, e, base) && base <= c'.sys.db.persons.Keys && PendingValid(w, c')
  {
    if worker, out :| ReadStep(w, c, c', worker, out) {
      assert c'.decided.Keys == c.decided.Keys + {worker};
      assert |c'.decided| == |c.decided| + 1;
    } else {
      var worker, newId :| WriteStep(c, c', worker, newId);
      OnlyOne(c.decided, worker);
      WriteIsStep(w, c, c', worker, newId);
      StepKeepsShape(w, System(c.sys.db, [c.decided[worker].0] + c.sys.queue), c'.sys, e, base);
    }
  }

  lemma {:induction false} OnlyOne<K, V>(m: map<K, V>, k: K)
    requires k in m && |m| <= 1
    ensures m - {k} == map[]
  {
    SubsetCardinality({k}, m.Keys);
  }

  /** Every job can be decided. */
  lemma {:induction false} DecisionExists(w: World, db: Tables, job: Job) returns (out: Outcome)
    ensures Decides(w, db, job, out)
  {
    var f := job.face;
    if !Found(db, f) {
      return Failed;
    } else if db.faces[f].source != MachineLearning {
      return Skipped;
    } else if !db.faces[f].embedded {
      return Failed;
    } else if Assigned(db, f) {
      return Skipped;
    }
    var e := EventOf(db, f);
    var cfg := w.config(e);
    if !(1 <= cfg.minFaces <= 1000) {
      return Failed;
    }
    var rows, rest := SearchExists(w, Pool(db, e, false), f, cfg.minFaces);
    var rows1, rest1 := SearchExists(w, Pool(db, e, true), f, 1);
    var matches, withPerson := Within(w, f, cfg.maxDistance, rows), Within(w, f, cfg.maxDistance, rows1);
    assert SearchResult(w, db, e, f, cfg.maxDistance, cfg.minFaces, false, matches);
    assert SearchResult(w, db, e, f, cfg.maxDistance, 1, true, withPerson);
    out := Choose(db, cfg.minFaces, job.deferred, matches, withPerson);
  }

  lemma {:induction false} FirstCoreFounds(w: World, db: Tables, f: FaceId)
    requires ValidSettings(w) && Core(w, db, f) && forall g :: !Assigned(db, g)
    ensures Decides(w, db, Job(f, false), CreatePerson)
  {
    var out := DecisionExists(w, db, Job(f, false));
    CoreGetsPerson(w, db, Job(f, false), out);
    if out.Join? {
      var g := JoiningIsNear(w, db, Job(f, false), out);
    }
  }

  // --- overlapping decisions, exactly ---

  /** A pending decision, however old: the face to join through is still there, the founder still core. */
  ghost predicate Stands(w: World, db: Tables, f: FaceId, out: Outcome) {
    match out
    case Join(p) => exists g :: NearPerson(w, db, f, g) && PersonOf(db, g) == Some(p)
    case CreatePerson => Core(w, db, f)
    case _ => true
  }

  ghost predicate PendingStands(w: World, c: Consumers) {
    forall worker :: worker in c.decided ==> Stands(w, c.sys.db, c.decided[worker].0.face, c.decided[worker].1)
  }

  lemma {:induction false} StandsWhenRead(w: World, db: Tables, job: Job, out: Outcome)
    requires ValidSettings(w) && Decides(w, db, job, out)
    ensures Stands(w, db, job.face, out)
  {
    if out.CreatePerson? {
      FoundingIsIsolated(w, db, job, out);
    } else if out.Join? {
      var g := JoiningIsNear(w, db, job, out);
    }
  }

  lemma {:induction false} StandsLater(w: World, db: Tables, db': Tables, f: FaceId, out: Outcome)
    requires Grows(db, db') && Stands(w, db, f, out)
    ensures Stands(w, db', f, out)
  {
    SameFacesSameDensity(w, db, db');
    if out.Join? {
      var g :| NearPerson(w, db, f, g) && PersonOf(db, g) == Some(out.person);
      assert NearPerson(w, db', f, g) && PersonOf(db', g) == Some(out.person);
    }
  }

  /** The write puts a person on a face that has none by then. */
  ghost predicate WritesAfresh(c: Consumers, worker: nat)
    requires worker in c.decided
  {
    var (job, out) := c.decided[worker];
    out.Join? || out.CreatePerson? ==> !Assigned(c.sys.db, job.face)
  }

  /** The write founds a person of the event although a founder of it stands within reach by then. */
  ghost predicate FoundsInReach(w: World, c: Consumers, worker: nat, e: EventId, base: set<PersonId>)
    requires worker in c.decided
  {
    var (job, out) := c.decided[worker];
    && out.CreatePerson? && Found(c.sys.db, job.face) && EventOf(c.sys.db, job.face) == e
    && FounderInReach(w, c.sys.db, e, base, job.face)
  }

  ghost predicate SplitsAt(w: World, c: Consumers, c': Consumers, e: EventId, base: set<PersonId>) {
    exists worker, newId :: WriteStep(c, c', worker, newId) && FoundsInReach(w, c, worker, e, base)
  }

  ghost predicate Afresh(c: Consumers, c': Consumers) {
    forall worker, newId :: WriteStep(c, c', worker, newId) ==> WritesAfresh(c, worker)
  }

  /** No face has two decisions landing on it. */
  ghost predicate AllAfresh(run: seq<Consumers>) {
    forall k :: 0 <= k < |run| - 1 ==> Afresh(run[k], run[k + 1])
  }

  lemma {:induction false} WriteShape(w: World, c: Consumers, c': Consumers, worker: nat, newId: PersonId, e: EventId, base: set<PersonId>)
    requires ValidWorld(w) && WriteStep(c, c', worker, newId) && PendingStands(w, c) && WritesAfresh(c, worker)
    requires WellShaped(w, c.sys.db, e, base) && base <= c.sys.db.persons.Keys
    ensures if FoundsInReach(w, c, worker, e, base) then Split(w, c'.sys.db, e, base) else WellShaped(w, c'.sys.db, e, base)
  {
    var (job, out) := c.decided[worker];
    assert Stands(w, c.sys.db, job.face, out);
    if out.CreatePerson? {
      FoundingKeepsShape(w, c.sys.db, job.face, newId, e, base);
    } else if out.Join? {
      var g :| NearPerson(w, c.sys.db, job.face, g) && PersonOf(c.sys.db, g) == Some(out.person);
      JoiningKeepsShape(w, c.sys.db, job.face, g, e, base);
    }
  }

  lemma {:induction false} TurnKeepsPending(w: World, c: Consumers, c': Consumers)
    requires ValidSettings(w) && ConsumerStep(w, c, c') && PendingStands(w, c)
    requires Afresh(c, c')
    ensures PendingStands(w, c') && Grows(c.sys.db, c'.sys.db)
  {
    if worker, out :| ReadStep(w, c, c', worker, out) {
      StandsWhenRead(w, c.sys.db, c.sys.queue[0], out);
    } else {
      var worker, newId :| WriteStep(c, c', worker, newId);
      CommitGrows(c.sys, c.decided[worker].0.face, c.decided[worker].1, newId);
      forall v | v in c'.decided ensures Stands(w, c'.sys.db, c'.decided[v].0.face, c'.decided[v].1) {
        StandsLater(w, c.sys.db, c'.sys.db, c.decided[v].0.face, c.decided[v].1);
      }
    }
  }

  lemma {:induction false} TurnShape(w: World, c: Consumers, c': Consumers, e: EventId, base: set<PersonId>)
    requires ValidSettings(w) && ConsumerStep(w, c, c') && PendingStands(w, c)
    requires Afresh(c, c')
    requires WellShaped(w, c.sys.db, e, base) && base <= c.sys.db.persons.Keys
    ensures if SplitsAt(w, c, c', e, base) then Split(w, c'.sys.db, e, base) else WellShaped(w, c'.sys.db, e, base)
  {
    if worker, newId :| WriteStep(c, c', worker, newId) && FoundsInReach(w, c, worker, e, base) {
      WriteShape(w, c, c', worker, newId, e, base);
    } else if worker, newId :| WriteStep(c, c', worker, newId) {
      WriteShape(w, c, c', worker, newId, e, base);
    }
  }

  /** Exactly when overlapping splits a person: after any run of any number of consumers, however their
      reads and writes overlap, the event's clusters are in shape if and only if no write founded a person
      while a founder of the event stood within reach of its face. */
  lemma {:induction false} OverlapSplitsExactly(w: World, run: seq<Consumers>, n: nat, e: EventId, base: set<PersonId>)
    requires ValidSettings(w) && ConsumerRun(w, run) && n < |run| && run[0].decided == map[] && AllAfresh(run)
    requires WellShaped(w, run[0].sys.db, e, base) && base <= run[0].sys.db.persons.Keys
    ensures WellShaped(w, run[n].sys.db, e, base) <==> forall k :: 0 <= k < n ==> !SplitsAt(w, run[k], run[k + 1], e, base)
    ensures WellShaped(w, run[n].sys.db, e, base) || Split(w, run[n].sys.db, e, base)
    ensures PendingStands(w, run[n]) && base <= run[n].sys.db.persons.Keys
  {
    if n > 0 {
      OverlapSplitsExactly(w, run, n - 1, e, base);
      var c, c' := run[n - 1], run[n];
      assert ConsumerStep(w, c, c');
      assert Afresh(c, run[n - 1 + 1]);
      TurnKeepsPending(w, c, c');
      if WellShaped(w, c.sys.db, e, base) {
        TurnShape(w, c, c', e, base);
      } else {
      }
    }
  }

  /** What the single-consumer rule is for: whenever two core faces lie within each other's reach and
      nobody is assigned yet, two consumers that both read before either writes found two persons for
      the one identity. */
  lemma {:induction false} InterleavedConsumersSplitAPerson(w: World, db: Tables, f: FaceId, g: FaceId) returns (run: seq<Consumers>)
    requires ValidSettings(w) && db.persons == map[] && forall x :: !Assigned(db, x)
    requires f != g && Core(w, db, f) && Core(w, db, g) && Near(w, db, f, g)
    ensures ConsumerRun(w, run)
    ensures run[0] == Consumers(System(db, [Job(f, false), Job(g, false)]), map[])
    ensures run[|run| - 1].sys.queue == [] && run[|run| - 1].decided == map[]
    ensures !FoundersApart(w, run[|run| - 1].sys.db)
  {
    var c0 := Consumers(System(db, [Job(f, false), Job(g, false)]), map[]);
    var c1, c2 := TwoReads(w, db, f, g);
    var c3, c4 := TwoWrites(w, c2, f, g);
    run := FourSteps(w, c0, c1, c2, c3, c4);
  }

  lemma {:induction false} FourSteps(w: World, c0: Consumers, c1: Consumers, c2: Consumers, c3: Consumers, c4: Consumers) returns (run: seq<Consumers>)
    requires ConsumerStep(w, c0, c1) && ConsumerStep(w, c1, c2) && ConsumerStep(w, c2, c3) && ConsumerStep(w, c3, c4)
    ensures |run| == 5 && run[0] == c0 && run[4] == c4 && ConsumerRun(w, run)
  {
    run := [c0, c1, c2, c3, c4];
    forall i | 0 <= i < 4 ensures ConsumerStep(w, run[i], run[i + 1]) {
      if i == 0 {
      } else if i == 1 {
      } else if i == 2 {
      }
    }
  }

  lemma {:induction false} TwoReads(w: World, db: Tables, f: FaceId, g: FaceId) returns (c1: Consumers, c2: Consumers)
    requires ValidSettings(w) && forall x :: !Assigned(db, x)
    requires Core(w, db, f) && Core(w, db, g)
    ensures ConsumerStep(w, Consumers(System(db, [Job(f, false), Job(g, false)]), map[]), c1)
    ensures ConsumerStep(w, c1, c2)
    ensures c2 == Consumers(System(db, []), map[0 := (Job(f, false), CreatePerson), 1 := (Job(g, false), CreatePerson)])
  {
    c1 := ReadFounds(w, Consumers(System(db, [Job(f, false), Job(g, false)]), map[]), f, 0);
    c2 := ReadFounds(w, c1, g, 1);
  }

  lemma {:induction false} ReadFounds(w: World, c: Consumers, f: FaceId, worker: nat) returns (c': Consumers)
    requires ValidSettings(w) && Core(w, c.sys.db, f) && (forall x :: !Assigned(c.sys.db, x))
    requires c.sys.queue != [] && c.sys.queue[0] == Job(f, false) && worker !in c.decided
    ensures ConsumerStep(w, c, c')
    ensures c' == Consumers(c.sys.(queue := c.sys.queue[1..]), c.decided[worker := (Job(f, false), CreatePerson)])
  {
    FirstCoreFounds(w, c.sys.db, f);
    c' := Consumers(c.sys.(queue := c.sys.queue[1..]), c.decided[worker := (Job(f, false), CreatePerson)]);
    assert ReadStep(w, c, c', worker, CreatePerson);
  }

  lemma {:induction false} TwoWrites(w: World, c2: Consumers, f: FaceId, g: FaceId) returns (c3: Consumers, c4: Consumers)
    requires c2.sys.db.persons == map[] && f != g && Near(w, c2.sys.db, f, g)
    requires c2.decided == map[0 := (Job(f, false), CreatePerson), 1 := (Job(g, false), CreatePerson)]
    ensures ConsumerStep(w, c2, c3) && ConsumerStep(w, c3, c4)
    ensures c4.decided == map[] && c4.sys.queue == c2.sys.queue && !FoundersApart(w, c4.sys.db)
  {
    c3 := Consumers(Commit(c2.sys, f, CreatePerson, 0), c2.decided - {0});
    c4 := Consumers(Commit(c3.sys, g, CreatePerson, 1), c3.decided - {1});
    assert WriteStep(c2, c3, 0, 0);
    assert WriteStep(c3, c4, 1, 1);
    var persons := c4.sys.db.persons;
    assert persons[0].cover == Some(f) && persons[1].cover == Some(g);
    assert !OutOfReach(w, persons[0], persons[1]);
  }
}
