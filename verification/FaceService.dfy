/** The recognition service over its tables: the job handler, the drain of the queue by its one
    consumer, and the re-run entry point that pages every unassigned face into the queue. */
module FaceService {

  import opened Common
  import opened FaceTables
  import opened Clustering

  const QUEUE_ALL_PAGE_SIZE: nat := 1000

  // --- table updates ---

  predicate MachineFaceOf(db: Tables, e: EventId, f: FaceId) {
    && f in db.faces && db.faces[f].source == MachineLearning
    && db.faces[f].asset in db.assets
    && db.assets[db.faces[f].asset].event == e && !db.assets[db.faces[f].asset].deleted
  }

  /** `unassignByEvent`: detach every machine-learning face of the event. */
  function Unassign(db: Tables, e: EventId): Tables {
    db.(faces := map f | f in db.faces ::
      if MachineFaceOf(db, e, f) then db.faces[f].(person := None) else db.faces[f])
  }

  function WithoutFaces(db: Tables): set<PersonId> {
    set p | p in db.persons && !exists f :: f in db.faces && !db.faces[f].deleted && db.faces[f].person == Some(p)
  }

  /** Deleting a person clears the foreign key of the faces that still point at it. */
  function DeletePersons(db: Tables, ids: set<PersonId>): Tables {
    db.(persons := db.persons - ids,
        faces := map f | f in db.faces ::
          if db.faces[f].person.Some? && db.faces[f].person.value in ids then db.faces[f].(person := None) else db.faces[f])
  }

  function Cleanup(db: Tables): Tables {
    DeletePersons(db, WithoutFaces(db))
  }

  /** Every face the event's searches can find came from detection, the only source the code writes. */
  ghost predicate AllMachine(db: Tables, e: EventId) {
    forall f :: Searchable(db, e, f) ==> db.faces[f].source == MachineLearning
  }

  lemma {:induction false} ResetUnassigns(db: Tables, e: EventId)
    requires AllMachine(db, e)
    ensures NoneAssigned(Cleanup(Unassign(db, e)), e)
  {
  }

  /** A detected face on a live photo of the event: what a forced re-run detaches. */
  predicate Detached(db: Tables, e: EventId, f: FaceId)
    requires f in db.faces
  {
    && db.faces[f].source == MachineLearning && db.faces[f].asset in db.assets
    && db.assets[db.faces[f].asset] == Asset(e, false)
  }

  /** The reset of a forced re-run: exactly the detected faces on live photos of the event lose their
      person, no other live face does, and exactly the persons left without a live face go. */
  lemma {:induction false} ResetMeans(db: Tables, e: EventId)
    ensures var db' := Cleanup(Unassign(db, e));
            && SameFaces(db, db')
            && (forall f :: f in db.faces && Detached(db, e, f) ==> db'.faces[f].person == None)
            && (forall f :: f in db.faces && !Detached(db, e, f) && !db.faces[f].deleted ==> db'.faces[f] == db.faces[f])
            && (forall f :: f in db.faces && db'.faces[f].person.Some? ==> db'.faces[f] == db.faces[f])
            && (forall p :: p in db'.persons ==> p in db.persons && db'.persons[p] == db.persons[p])
            && (forall p :: p in db.persons ==>
                  (p in db'.persons <==>
                   exists f :: f in db.faces && !db.faces[f].deleted && db.faces[f].person == Some(p) && !Detached(db, e, f)))
  {
    UnassignMeans(db, e);
    LeftWithoutFaces(db, e);
  }

  lemma {:induction false} UnassignMeans(db: Tables, e: EventId)
    ensures Unassign(db, e).persons == db.persons && Unassign(db, e).assets == db.assets
    ensures Unassign(db, e).faces.Keys == db.faces.Keys
    ensures forall f :: f in db.faces ==>
              Unassign(db, e).faces[f] == if Detached(db, e, f) then db.faces[f].(person := None) else db.faces[f]
  {
  }

  lemma {:induction false} LeftWithoutFaces(db: Tables, e: EventId)
    ensures forall p :: p in db.persons ==>
              (p in WithoutFaces(Unassign(db, e)) <==>
               !exists f :: f in db.faces && !db.faces[f].deleted && db.faces[f].person == Some(p) && !Detached(db, e, f))
  {
    var once := Unassign(db, e);
    UnassignMeans(db, e);
    forall p | p in db.persons
      ensures p in WithoutFaces(once) <==>
              !exists f :: f in db.faces && !db.faces[f].deleted && db.faces[f].person == Some(p) && !Detached(db, e, f)
    {
      if p !in WithoutFaces(once) {
        var f :| f in once.faces && !once.faces[f].deleted && once.faces[f].person == Some(p);
        assert f in db.faces && !Detached(db, e, f);
      }
      if f :| f in db.faces && !db.faces[f].deleted && db.faces[f].person == Some(p) && !Detached(db, e, f) {
        assert once.faces[f].person == Some(p);
      }
    }
  }

  /** The rows `getUnassignedFaceIds` walks. */
  function UnassignedIds(db: Tables, e: EventId): set<FaceId> {
    set f | f in db.faces && Found(db, f) && EventOf(db, f) == e && !Assigned(db, f) && db.faces[f].source == MachineLearning
  }

  ghost predicate Ascending(ids: seq<FaceId>) {
    forall i, j :: 0 <= i < j < |ids| ==> ids[i] < ids[j]
  }

  /** `ids` lists the least elements of `pool` in order and `rest` is what remains. */
  ghost predicate Listed(pool: set<FaceId>, ids: seq<FaceId>, rest: set<FaceId>) {
    && Ascending(ids)
    && pool == Elements(ids) + rest
    && (forall x, y :: x in Elements(ids) && y in rest ==> x < y)
  }

  /** The rows of a page query: ids past the last one of the page before. */
  function Past(pool: set<FaceId>, after: Option<FaceId>): set<FaceId> {
    set x | x in pool && (after.Some? ==> x > after.value)
  }

  lemma {:induction false} ListedConcat(pool: set<FaceId>, ids: seq<FaceId>, rest: set<FaceId>, page: seq<FaceId>, rest': set<FaceId>)
    requires Listed(pool, ids, rest) && Listed(rest, page, rest')
    ensures Listed(pool, ids + page, rest')
  {
    assert Elements(ids + page) == Elements(ids) + Elements(page);
    forall i, j | 0 <= i < j < |ids + page| ensures (ids + page)[i] < (ids + page)[j] {
      if i < |ids| <= j {
        assert ids[i] in Elements(ids) && page[j - |ids|] in Elements(page);
      }
    }
  }

  lemma {:induction false} PastLast(pool: set<FaceId>, ids: seq<FaceId>, rest: set<FaceId>)
    requires Listed(pool, ids, rest) && ids != []
    ensures rest == Past(pool, Some(ids[|ids| - 1]))
  {
    var last := ids[|ids| - 1];
    assert last in Elements(ids);
    assert forall x :: x in Elements(ids) ==> x <= last;
  }

  /** One page of the walk: the least `limit` ids past `after`, in order. */
  method PageAfter(pool: set<FaceId>, after: Option<FaceId>, limit: nat) returns (page: seq<FaceId>, ghost rest: set<FaceId>)
    ensures Listed(Past(pool, after), page, rest)
    ensures |page| <= limit && (|page| < limit ==> rest == {})
  {
    page := [];
    var left := Past(pool, after);
    while |page| < limit && left != {}
      invariant Listed(Past(pool, after), page, left) && |page| <= limit
      decreases left
    {
      var least := Least(left);
      assert Listed(left, [least], left - {least});
      ListedConcat(Past(pool, after), page, left, [least], left - {least});
      page, left := page + [least], left - {least};
    }
    rest := left;
  }

  method Least(s: set<FaceId>) returns (least: FaceId)
    requires s != {}
    ensures least in s && forall x :: x in s ==> least <= x
  {
    least :| least in s;
    var rest := s - {least};
    while rest != {}
      invariant least in s && rest <= s
      invariant forall x :: x in s ==> x in rest || least <= x
      decreases rest
    {
      var x :| x in rest;
      if x < least {
        least := x;
      }
      rest := rest - {x};
    }
  }

  function FirstPass(ids: seq<FaceId>): seq<Job> {
    seq(|ids|, i requires 0 <= i < |ids| => Job(ids[i], false))
  }

  lemma {:induction false} FirstPassAppend(ids: seq<FaceId>, page: seq<FaceId>)
    ensures FirstPass(ids + page) == FirstPass(ids) + FirstPass(page)
  {
  }

  lemma {:induction false} FirstPassCovers(before: seq<Job>, ids: seq<FaceId>, s: System, e: EventId)
    requires s.queue == before + FirstPass(ids)
    requires forall x :: x in UnassignedIds(s.db, e) ==> x in ids
    ensures AllQueued(s, e)
  {
    forall f: FaceId | Candidate(s.db, f) && EventOf(s.db, f) == e && !Assigned(s.db, f)
      ensures Job(f, false) in s.queue
    {
      assert f in UnassignedIds(s.db, e);
      var i :| 0 <= i < |ids| && ids[i] == f;
      assert s.queue[|before| + i] == Job(f, false);
    }
  }

  lemma {:induction false} RunGrows(w: World, run: seq<System>, s: System)
    requires Run(w, run) && Step(w, run[|run| - 1], s)
    ensures Run(w, run + [s])
  {
  }

  class Service {
    const world: World
    var db: Tables
    var queue: seq<Job>
    var nextPerson: PersonId

    constructor (world: World, db: Tables, queue: seq<Job>, nextPerson: PersonId)
      requires forall p :: p in db.persons ==> p < nextPerson
      ensures Valid() && this.world == world && State() == System(db, queue)
    {
      this.world, this.db, this.queue, this.nextPerson := world, db, queue, nextPerson;
    }

    ghost predicate Valid()
      reads this
    {
      forall p :: p in db.persons ==> p < nextPerson
    }

    ghost function State(): System
      reads this
    {
      System(db, queue)
    }

    /** `handleRecognizeFaces`: its result and its writes are those of a decision on the present tables. */
    method HandleRecognizeFaces(job: Job) returns (out: Outcome)
      requires Valid()
      modifies this
      ensures Valid()
      ensures Decides(world, old(db), job, out)
      ensures old(nextPerson) !in old(db).persons
      ensures State() == Commit(old(State()), job.face, out, old(nextPerson))
    {
      var f := job.face;
      if !Found(db, f) {
        return Failed;
      }
      if db.faces[f].source != MachineLearning {
        return Skipped;
      }
      if !db.faces[f].embedded {
        return Failed;
      }
      if db.faces[f].person.Some? {
        return Skipped;
      }
      var e := EventOf(db, f);
      var cfg := world.config(e);
      var first := SearchFaces(world, db, e, f, cfg.maxDistance, cfg.minFaces, false);
      if first.InvalidNumResults? {
        return Failed;
      }
      var second := SearchFaces(world, db, e, f, cfg.maxDistance, 1, true);
      assert second.Rows?;
      out := Choose(db, cfg.minFaces, job.deferred, first.matches, second.matches);
      match out {
        case Deferred =>
          queue := queue + [Job(f, true)];
        case Join(p) =>
          db := AssignFace(db, f, p);
        case CreatePerson =>
          db := db.(persons := db.persons[nextPerson := Person(e, Some(f))]);
          db := AssignFace(db, f, nextPerson);
          nextPerson := nextPerson + 1;
        case _ =>
      }
    }

    /** The consumer takes the oldest job. */
    method TakeJob()
      requires Valid() && queue != []
      modifies this
      ensures Valid() && Step(world, old(State()), State())
    {
      var job := queue[0];
      queue := queue[1..];
      label taken:
      var out := HandleRecognizeFaces(job);
      assert StepWith(world, old(State()), State(), out, old(nextPerson));
    }

    /** Draining ends, and leaves nothing but noise of any event whose unassigned faces were all queued. */
    method Drain()
      requires Valid()
      modifies this
      ensures Valid() && queue == []
      ensures ValidSettings(world) ==>
                forall e, f :: AllQueued(old(State()), e) && Dense(world, old(db), e, f) ==> Assigned(db, f)
      ensures ValidSettings(world) ==> forall e :: NoneAssigned(old(db), e) ==> Clustered(world, old(db), db, e)
      ensures ValidSettings(world) && FirstVisits(old(queue)) ==> forall e :: NoneAssigned(old(db), e) ==> CoresLinked(world, db, e)
    {
      ghost var run := [State()];
      while queue != []
        invariant Valid() && Run(world, run) && run[0] == old(State()) && run[|run| - 1] == State()
        decreases Work(queue)
      {
        ghost var before := State();
        TakeJob();
        StepDoesWork(world, before, State());
        RunGrows(world, run, State());
        run := run + [State()];
      }
      if ValidSettings(world) {
        forall e: EventId | AllQueued(run[0], e)
          ensures forall f :: Dense(world, run[0].db, e, f) ==> Assigned(db, f)
        {
          Coverage(world, run, e);
        }
        forall e: EventId | NoneAssigned(run[0].db, e) ensures Clustered(world, run[0].db, db, e) {
          ClusterShape(world, run, |run| - 1, e);
        }
        forall e: EventId | NoneAssigned(run[0].db, e) && FirstVisits(run[0].queue) ensures CoresLinked(world, db, e) {
          CoresFirst(world, run, |run| - 1, e);
        }
      }
    }

    /** A re-run of clustering for one event, drained to the end: whatever was queued before, every core
        face of the event and every face within reach of one ends up with a person. A forced one leaves
        the event's clusters in shape, whatever other events and left-over persons look like. */
    method ReCluster(e: EventId, force: bool)
      requires Valid() && ValidSettings(world)
      modifies this
      ensures Valid() && queue == []
      ensures forall f :: Dense(world, if force then Cleanup(Unassign(old(db), e)) else old(db), e, f) ==> Assigned(db, f)
      ensures force && AllMachine(old(db), e) ==> Clustered(world, Cleanup(Unassign(old(db), e)), db, e)
      ensures force && AllMachine(old(db), e) && FirstVisits(old(queue)) ==> CoresLinked(world, db, e)
    {
      if AllMachine(db, e) {
        ResetUnassigns(db, e);
      }
      var ids := QueueRecognizeFaces(e, force);
      label queued:
      Drain();
      assert AllQueued(old@queued(State()), e);
    }

    /** `handleQueueRecognizeFaces`, once detection has gone quiet: pages through the unassigned faces
        of the event and queues each exactly once, in id order, for the first pass. */
    method QueueRecognizeFaces(e: EventId, force: bool) returns (ids: seq<FaceId>)
      requires Valid()
      modifies this
      ensures Valid()
      ensures db == if force then Cleanup(Unassign(old(db), e)) else old(db)
      ensures Ascending(ids) && forall x :: x in ids <==> x in db.faces && !db.faces[x].deleted && Detached(db, e, x) && db.faces[x].person == None
      ensures queue == old(queue) + FirstPass(ids)
      ensures AllQueued(State(), e)
    {
      if force {
        db := Unassign(db, e);
        db := Cleanup(db);
      }
      ids := QueueUnassigned(e);
      FirstPassCovers(old(queue), ids, State(), e);
    }

    method QueueUnassigned(e: EventId) returns (ids: seq<FaceId>)
      modifies this`queue
      ensures Ascending(ids) && forall x :: x in ids <==> x in UnassignedIds(db, e)
      ensures queue == old(queue) + FirstPass(ids)
    {
      ids := [];
      var afterId: Option<FaceId> := None;
      var pool := UnassignedIds(db, e);
      ghost var rest := pool;
      while true
        invariant Listed(pool, ids, rest) && rest == Past(pool, afterId)
        invariant queue == old(queue) + FirstPass(ids)
        decreases rest
      {
        ghost var rest';
        var page;
        page, rest' := PageAfter(pool, afterId, QUEUE_ALL_PAGE_SIZE);
        if page == [] {
          break;
        }
        ListedConcat(pool, ids, rest, page, rest');
        FirstPassAppend(ids, page);
        queue := queue + FirstPass(page);
        ids := ids + page;
        assert page[|page| - 1] in Elements(page);
        PastLast(pool, ids, rest');
        afterId, rest := Some(page[|page| - 1]), rest';
      }
    }
  }
}
