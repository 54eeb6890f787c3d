/** Event isolation: no face, person, participant or photo is ever related across events.

    The pipeline is a state machine over one step per database statement that matters here. A
    recognition job reads in one step and writes in a later one, so other steps, and other
    recognition jobs, may come in between. */
module EventIsolation {

  import opened Common
  import opened FaceTables
  import opened Clustering
  import FaceService

  type ParticipantId = nat
  type WorkerId = nat
  type RequestId = nat

  /** A recognition decision that has been read but not yet written. */
  datatype InFlight = InFlight(face: FaceId, event: EventId, out: Outcome)

  /** A merge request between its statements: the sources checked so far, and whether their faces have
      been moved. */
  datatype Merging = Merging(event: EventId, target: PersonId, sources: set<PersonId>, moved: bool)

  datatype Library = Library(
    db: Tables,
    participants: map<ParticipantId, EventId>,
    // the face a photo was matched by, cleared when that face is deleted
    matches: map<(ParticipantId, AssetId), Option<FaceId>>,
    inFlight: map<WorkerId, InFlight>,
    merges: map<RequestId, Merging>,
    // random ids are never handed out twice
    usedFaces: set<FaceId>,
    usedPersons: set<PersonId>)

  // --- merge ---

  datatype MergeResult = Merged(count: nat, moved: nat) | TargetNotFound | NothingToMerge | SourceNotFound(id: PersonId)

  function FacesOf(db: Tables, people: set<PersonId>): set<FaceId> {
    set f | f in db.faces && db.faces[f].person.Some? && db.faces[f].person.value in people
  }

  /** `reassignFacesOfPeople`, deleted faces included. */
  function MoveFaces(db: Tables, target: PersonId, sources: set<PersonId>): Tables {
    db.(faces := map f | f in db.faces ::
      if f in FacesOf(db, sources) then db.faces[f].(person := Some(target)) else db.faces[f])
  }

  function MergeTables(db: Tables, target: PersonId, sources: set<PersonId>): Tables {
    FaceService.DeletePersons(MoveFaces(db, target, sources), sources)
  }

  predicate PersonIn(db: Tables, e: EventId, p: PersonId) {
    p in db.persons && db.persons[p].event == e
  }

  /** Every face keeps its row but for the person: the target for the sources' faces, its own for the rest. */
  ghost predicate FacesMoved(db: Tables, db': Tables, target: PersonId, sources: set<PersonId>) {
    && db'.faces.Keys == db.faces.Keys
    && forall f :: f in db.faces ==>
         db'.faces[f] == if f in FacesOf(db, sources) then db.faces[f].(person := Some(target)) else db.faces[f]
  }

  /** Merging moves exactly the sources' faces to the target, loses no face, touches no other
      assignment and deletes exactly the sources. */
  lemma {:induction false} MergeConserves(db: Tables, target: PersonId, sources: set<PersonId>)
    requires target !in sources
    ensures var db' := MergeTables(db, target, sources);
            && db'.assets == db.assets && db'.persons == db.persons - sources
            && FacesMoved(db, db', target, sources)
            && FacesOf(db', sources) == {}
            && FacesOf(db', {target}) == FacesOf(db, {target}) + FacesOf(db, sources)
            && |FacesOf(db', {target})| == |FacesOf(db, {target})| + |FacesOf(db, sources)|
  {
  }

  class PersonService {
    var db: Tables

    constructor (db: Tables)
      ensures this.db == db
    {
      this.db := db;
    }

    /** `merge`: refuses a missing target, an empty source list and any source of another event,
        changing nothing; otherwise merges the listed persons, repeats and the target itself ignored. */
    method Merge(e: EventId, target: PersonId, ids: seq<PersonId>) returns (r: MergeResult)
      modifies this
      ensures r.TargetNotFound? <==> !PersonIn(old(db), e, target)
      ensures r.NothingToMerge? <==> PersonIn(old(db), e, target) && Elements(ids) <= {target}
      ensures r.SourceNotFound? ==> r.id in ids && !PersonIn(old(db), e, r.id)
      ensures r.Merged? ==> forall p :: p in ids ==> PersonIn(old(db), e, p)
      ensures r.Merged? ==> var sources := Elements(ids) - {target};
                            && db == MergeTables(old(db), target, sources)
                            && r.count == |sources| && r.moved == |FacesOf(old(db), sources)|
      ensures !r.Merged? ==> db == old(db)
    {
      if !PersonIn(db, e, target) {
        return TargetNotFound;
      }
      var sources := (set p | p in ids) - {target};
      assert sources == Elements(ids) - {target};
      if sources == {} {
        return NothingToMerge;
      }
      var unchecked := sources;
      while unchecked != {}
        invariant unchecked <= sources
        invariant forall p :: p in sources - unchecked ==> PersonIn(db, e, p)
        decreases unchecked
      {
        var id :| id in unchecked;
        if !PersonIn(db, e, id) {
          return SourceNotFound(id);
        }
        unchecked := unchecked - {id};
      }
      var moved := FacesOf(db, sources);
      db := MoveFaces(db, target, sources);
      db := FaceService.DeletePersons(db, sources);
      r := Merged(|sources|, |moved|);
    }
  }

  // --- selfie matching ---

  datatype Hit = Hit(face: FaceId, asset: AssetId, distance: real)

  /** The smallest distance at which any selfie found the face. */
  ghost predicate BestOf(hits: seq<seq<Hit>>, best: map<FaceId, Hit>) {
    && (forall f :: f in best ==> best[f].face == f && exists i :: 0 <= i < |hits| && best[f] in hits[i])
    && (forall i, h :: 0 <= i < |hits| && h in hits[i] ==> h.face in best && best[h.face].distance <= h.distance)
  }

  ghost predicate BestSoFar(done: seq<seq<Hit>>, row: seq<Hit>, best: map<FaceId, Hit>) {
    && (forall f :: f in best ==> best[f].face == f && (best[f] in row || exists i :: 0 <= i < |done| && best[f] in done[i]))
    && (forall i, h :: 0 <= i < |done| && h in done[i] ==> h.face in best && best[h.face].distance <= h.distance)
    && (forall h :: h in row ==> h.face in best && best[h.face].distance <= h.distance)
  }

  /** The loop of `matchParticipant`: one search per selfie, keeping the nearest hit of each face. */
  method BestHits(hits: seq<seq<Hit>>) returns (best: map<FaceId, Hit>)
    ensures BestOf(hits, best)
  {
    best := map[];
    for i := 0 to |hits|
      invariant BestOf(hits[..i], best)
    {
      best := KeepNearest(hits[..i], hits[i], best);
      assert hits[..i + 1] == hits[..i] + [hits[i]];
    }
    assert hits[..|hits|] == hits;
  }

  method KeepNearest(ghost done: seq<seq<Hit>>, row: seq<Hit>, before: map<FaceId, Hit>) returns (best: map<FaceId, Hit>)
    requires BestOf(done, before)
    ensures BestOf(done + [row], best)
  {
    best := before;
    for j := 0 to |row|
      invariant BestSoFar(done, row[..j], best)
    {
      HitSeen(done, row[..j], best, row[j]);
      assert row[..j + 1] == row[..j] + [row[j]];
      best := Keep(best, row[j]);
    }
    assert row[..|row|] == row;
    RowDone(done, row, best);
  }

  /** A hit replaces the one kept for its face only if it is strictly nearer. */
  function Keep(best: map<FaceId, Hit>, hit: Hit): map<FaceId, Hit> {
    if hit.face !in best || hit.distance < best[hit.face].distance then best[hit.face := hit] else best
  }

  lemma {:induction false} HitSeen(done: seq<seq<Hit>>, row: seq<Hit>, best: map<FaceId, Hit>, hit: Hit)
    requires BestSoFar(done, row, best)
    ensures BestSoFar(done, row + [hit], Keep(best, hit))
  {
  }

  lemma {:induction false} RowDone(done: seq<seq<Hit>>, row: seq<Hit>, best: map<FaceId, Hit>)
    requires BestSoFar(done, row, best)
    ensures BestOf(done + [row], best)
  {
    var all := done + [row];
    forall f | f in best
      ensures exists i :: 0 <= i < |all| && best[f] in all[i]
    {
      if best[f] in row {
        assert all[|done|] == row;
      } else {
        var i :| 0 <= i < |done| && best[f] in done[i];
        assert all[i] == done[i];
      }
    }
  }

  // --- steps ---

  /** Detection refresh of one asset: new unassigned faces in, vanished faces out, embeddings written for
      the `rewritten` ones. It is one statement: if one of those has an embedding already, or two rows
      `clash` on one face, nothing happens. */
  ghost predicate RefreshStep(s: Library, s': Library, asset: AssetId, added: set<FaceId>, removed: set<FaceId>,
                              rewritten: set<FaceId>, clash: bool)
  {
    && asset in s.db.assets
    && added !! s.usedFaces && removed !! rewritten
    && (forall f :: f in removed + rewritten ==> f in s.db.faces && s.db.faces[f].asset == asset)
    && if clash || exists f :: f in rewritten && s.db.faces[f].embedded then s' == s
       else
         var kept := map f | f in s.db.faces && f !in removed ::
           if f in rewritten then s.db.faces[f].(embedded := true) else s.db.faces[f];
         var persons' := map p | p in s.db.persons ::
           if s.db.persons[p].cover.Some? && s.db.persons[p].cover.value in removed
           then s.db.persons[p].(cover := None) else s.db.persons[p];
         && s' == s.(
           db := s.db.(faces := kept + (map f | f in added :: Face(asset, MachineLearning, true, false, None)), persons := persons'),
           matches := map m | m in s.matches :: if s.matches[m].Some? && s.matches[m].value in removed then None else s.matches[m],
           usedFaces := s.usedFaces + added)
  }

  /** A recognition job decides; with more than one consumer several may be in flight. */
  ghost predicate ReadStep(w: World, s: Library, s': Library, worker: WorkerId, job: Job, out: Outcome) {
    && ValidSettings(w) && worker !in s.inFlight
    && Found(s.db, job.face) && Decides(w, s.db, job, out)
    && s' == s.(inFlight := s.inFlight[worker := InFlight(job.face, EventOf(s.db, job.face), out)])
  }

  /** The next statement of a decided job, on whatever the tables hold by now: a new person is created
      first, and the face then assigned to it like to any other. The foreign keys refuse a person or a
      cover face that has been deleted in the meantime. */
  ghost predicate WriteStep(s: Library, s': Library, worker: WorkerId, newId: PersonId) {
    && worker in s.inFlight && newId !in s.usedPersons
    && var d := s.inFlight[worker];
       if d.out.Join? && d.out.person in s.db.persons && d.face in s.db.faces then
         s' == s.(db := AssignFace(s.db, d.face, d.out.person), inFlight := s.inFlight - {worker})
       else if d.out.CreatePerson? && d.face in s.db.faces then
         s' == s.(db := s.db.(persons := s.db.persons[newId := Person(d.event, Some(d.face))]),
                  inFlight := s.inFlight[worker := d.(out := Join(newId))],
                  usedPersons := s.usedPersons + {newId})
       else s' == s.(inFlight := s.inFlight - {worker})
  }

  // a merge reads its target, reads each source, moves the faces and deletes the sources

  ghost predicate MergeBeginStep(s: Library, s': Library, id: RequestId, e: EventId, target: PersonId) {
    id !in s.merges && PersonIn(s.db, e, target) && s' == s.(merges := s.merges[id := Merging(e, target, {}, false)])
  }

  ghost predicate MergeCheckStep(s: Library, s': Library, id: RequestId, p: PersonId) {
    && id in s.merges && !s.merges[id].moved && p != s.merges[id].target && PersonIn(s.db, s.merges[id].event, p)
    && s' == s.(merges := s.merges[id := s.merges[id].(sources := s.merges[id].sources + {p})])
  }

  /** The foreign key refuses to move faces to a target deleted in the meantime; the request then fails. */
  ghost predicate MergeMoveStep(s: Library, s': Library, id: RequestId) {
    && id in s.merges && !s.merges[id].moved
    && var m := s.merges[id];
       if FacesOf(s.db, m.sources) != {} && m.target !in s.db.persons then s' == s.(merges := s.merges - {id})
       else s' == s.(db := MoveFaces(s.db, m.target, m.sources), merges := s.merges[id := m.(moved := true)])
  }

  ghost predicate MergeDeleteStep(s: Library, s': Library, id: RequestId) {
    && id in s.merges && s.merges[id].moved
    && s' == s.(db := FaceService.DeletePersons(s.db, s.merges[id].sources), merges := s.merges - {id})
  }

  // --- arrivals ---

  ghost predicate AssetStep(s: Library, s': Library, a: AssetId, e: EventId) {
    a !in s.db.assets && s' == s.(db := s.db.(assets := s.db.assets[a := Asset(e, false)]))
  }

  ghost predicate ParticipantStep(s: Library, s': Library, who: ParticipantId, e: EventId) {
    who !in s.participants && s' == s.(participants := s.participants[who := e])
  }

  ghost predicate UnassignStep(s: Library, s': Library, e: EventId) {
    s' == s.(db := FaceService.Unassign(s.db, e))
  }

  ghost predicate CleanupStep(s: Library, s': Library) {
    s' == s.(db := FaceService.Cleanup(s.db))
  }

  /** Photos are soft-deleted; they keep their event. */
  ghost predicate DeleteAssetStep(s: Library, s': Library, a: AssetId) {
    a in s.db.assets && s' == s.(db := s.db.(assets := s.db.assets[a := s.db.assets[a].(deleted := true)]))
  }

  /** `matchParticipant` inserts a row per hit unless the photo is already matched. Hits come from the
      search of the participant's own event. */
  ghost predicate MatchStep(s: Library, s': Library, who: ParticipantId, hits: set<FaceId>) {
    && who in s.participants
    && (forall f :: f in hits ==> Searchable(s.db, s.participants[who], f))
    && s'.matches.Keys == s.matches.Keys + (set f | f in hits :: (who, s.db.faces[f].asset))
    && (forall m :: m in s.matches ==> s'.matches[m] == s.matches[m])
    && (forall m :: m in s'.matches && m !in s.matches ==>
         exists f :: f in hits && m == (who, s.db.faces[f].asset) && s'.matches[m] == Some(f))
    && s' == s.(matches := s'.matches)
  }

  /** Every photo a selfie hit is matched to the guest, through one of the faces that hit it if it was not
      matched before; nobody else's matches and no earlier ones change. */
  lemma {:induction false} MatchMeans(s: Library, s': Library, who: ParticipantId, hits: set<FaceId>)
    requires MatchStep(s, s', who, hits)
    ensures forall f :: f in hits ==> (who, s.db.faces[f].asset) in s'.matches
    ensures forall a :: (who, a) in s'.matches && (who, a) !in s.matches ==>
              s'.matches[(who, a)].Some? && s'.matches[(who, a)].value in hits
              && s.db.faces[s'.matches[(who, a)].value].asset == a
    ensures forall m :: m in s.matches ==> m in s'.matches && s'.matches[m] == s.matches[m]
    ensures forall other, a :: other != who ==> ((other, a) in s'.matches <==> (other, a) in s.matches)
    ensures s'.db == s.db && s'.participants == s.participants
  {
  }

  /** One statement of whatever runs against the database. */
  datatype Action =
    | AddAsset(a: AssetId, event: EventId)
    | AddParticipant(who: ParticipantId, event: EventId)
    | Refresh(asset: AssetId, added: set<FaceId>, removed: set<FaceId>, rewritten: set<FaceId>, clash: bool)
    | Decide(worker: WorkerId, job: Job, out: Outcome)
    | Write(worker: WorkerId, newId: PersonId)
    | MergeBegin(id: RequestId, event: EventId, target: PersonId)
    | MergeCheck(id: RequestId, source: PersonId)
    | MergeMove(id: RequestId)
    | MergeDelete(id: RequestId)
    | UnassignEvent(event: EventId)
    | CleanUp
    | DeleteAsset(a: AssetId)
    | MatchSelfies(who: ParticipantId, hits: set<FaceId>)

  ghost predicate LibraryStep(w: World, s: Library, s': Library, a: Action) {
    match a
    case AddAsset(id, e) => AssetStep(s, s', id, e)
    case AddParticipant(who, e) => ParticipantStep(s, s', who, e)
    case Refresh(asset, added, removed, rewritten, clash) => RefreshStep(s, s', asset, added, removed, rewritten, clash)
    case Decide(worker, job, out) => ReadStep(w, s, s', worker, job, out)
    case Write(worker, newId) => WriteStep(s, s', worker, newId)
    case MergeBegin(id, e, target) => MergeBeginStep(s, s', id, e, target)
    case MergeCheck(id, p) => MergeCheckStep(s, s', id, p)
    case MergeMove(id) => MergeMoveStep(s, s', id)
    case MergeDelete(id) => MergeDeleteStep(s, s', id)
    case UnassignEvent(e) => UnassignStep(s, s', e)
    case CleanUp => CleanupStep(s, s')
    case DeleteAsset(id) => DeleteAssetStep(s, s', id)
    case MatchSelfies(who, hits) => MatchStep(s, s', who, hits)
  }

  // --- the invariant ---

  predicate FaceIsolated(db: Tables, f: FaceId)
    requires f in db.faces
  {
    && db.faces[f].asset in db.assets
    && (db.faces[f].person.Some? ==> PersonIn(db, db.assets[db.faces[f].asset].event, db.faces[f].person.value))
  }

  ghost predicate FacesIsolated(db: Tables) {
    forall f :: f in db.faces ==> FaceIsolated(db, f)
  }

  ghost predicate MatchIsolated(s: Library, who: ParticipantId, a: AssetId)
    requires (who, a) in s.matches
  {
    && who in s.participants && a in s.db.assets && s.db.assets[a].event == s.participants[who]
    && (s.matches[(who, a)].Some? ==>
         var f := s.matches[(who, a)].value; f in s.db.faces && s.db.faces[f].asset == a)
  }

  ghost predicate MatchesIsolated(s: Library) {
    forall who, a :: (who, a) in s.matches ==> MatchIsolated(s, who, a)
  }

  /** A stale decision still points into its own event. */
  ghost predicate DecisionIsolated(s: Library, d: InFlight) {
    && d.face in s.usedFaces
    && (d.face in s.db.faces ==> s.db.faces[d.face].asset in s.db.assets && s.db.assets[s.db.faces[d.face].asset].event == d.event)
    && (d.out.Join? ==> d.out.person in s.usedPersons && (d.out.person in s.db.persons ==> PersonIn(s.db, d.event, d.out.person)))
  }

  ghost predicate IdsUsed(s: Library) {
    s.db.faces.Keys <= s.usedFaces && s.db.persons.Keys <= s.usedPersons
  }

  /** A merge under way still concerns one event only. */
  ghost predicate MergeIsolated(s: Library, m: Merging) {
    && m.target !in m.sources && m.sources + {m.target} <= s.usedPersons
    && forall p :: p in m.sources + {m.target} && p in s.db.persons ==> s.db.persons[p].event == m.event
  }

  ghost predicate Isolated(s: Library) {
    && FacesIsolated(s.db) && MatchesIsolated(s) && IdsUsed(s)
    && (forall worker :: worker in s.inFlight ==> DecisionIsolated(s, s.inFlight[worker]))
    && (forall id :: id in s.merges ==> MergeIsolated(s, s.merges[id]))
  }

  lemma {:induction false} RefreshIsolates(s: Library, s': Library, asset: AssetId, added: set<FaceId>, removed: set<FaceId>,
                                           rewritten: set<FaceId>, clash: bool)
    requires Isolated(s) && RefreshStep(s, s', asset, added, removed, rewritten, clash)
    ensures Isolated(s')
  {
  }

  lemma {:induction false} ReadIsolates(w: World, s: Library, s': Library, worker: WorkerId, job: Job, out: Outcome)
    requires Isolated(s) && ReadStep(w, s, s', worker, job, out)
    ensures Isolated(s')
  {
    if out.Join? {
      var g := JoiningIsNear(w, s.db, job, out);
      assert FaceIsolated(s.db, g);
    }
    forall x | x in s'.inFlight ensures DecisionIsolated(s', s'.inFlight[x]) {
      if x != worker {
        assert DecisionIsolated(s, s.inFlight[x]);
      }
    }
  }

  lemma {:induction false} WriteIsolates(s: Library, s': Library, worker: WorkerId, newId: PersonId)
    requires Isolated(s) && WriteStep(s, s', worker, newId)
    ensures Isolated(s')
  {
    assert DecisionIsolated(s, s.inFlight[worker]);
  }

  /** Steps that only move or clear assignments and delete persons. */
  lemma {:induction false} ReassignIsolates(s: Library, s': Library)
    requires Isolated(s) && SameFaces(s.db, s'.db) && s' == s.(db := s'.db, merges := s'.merges)
    requires forall p :: p in s'.db.persons ==> p in s.db.persons && s'.db.persons[p] == s.db.persons[p]
    requires FacesIsolated(s'.db) && forall id :: id in s'.merges ==> MergeIsolated(s, s'.merges[id])
    ensures Isolated(s')
  {
  }

  lemma {:induction false} DeletePersonsIsolates(db: Tables, ids: set<PersonId>)
    requires FacesIsolated(db)
    ensures FacesIsolated(FaceService.DeletePersons(db, ids))
  {
  }

  predicate MergeAction(a: Action) {
    a.MergeBegin? || a.MergeCheck? || a.MergeMove? || a.MergeDelete?
  }

  /** Every statement of a merge, however late it comes, keeps isolation. */
  lemma {:induction false} MergeIsolates(w: World, s: Library, s': Library, a: Action)
    requires Isolated(s) && LibraryStep(w, s, s', a) && MergeAction(a)
    ensures Isolated(s')
  {
    match a {
      case MergeBegin(id, e, target) =>
      case MergeCheck(id, p) =>
        assert MergeIsolated(s, s.merges[id]);
      case MergeMove(id) =>
        MoveIsolates(s, s', id);
      case MergeDelete(id) =>
        DeletePersonsIsolates(s.db, s.merges[id].sources);
        ReassignIsolates(s, s');
    }
  }

  lemma {:induction false} MoveIsolates(s: Library, s': Library, id: RequestId)
    requires Isolated(s) && MergeMoveStep(s, s', id)
    ensures Isolated(s')
  {
    assert MergeIsolated(s, s.merges[id]);
    forall f | f in s'.db.faces ensures FaceIsolated(s'.db, f) {
      assert FaceIsolated(s.db, f);
    }
  }

  lemma {:induction false} MaintenanceIsolates(s: Library, s': Library, e: EventId, a: AssetId)
    requires Isolated(s)
    requires UnassignStep(s, s', e) || CleanupStep(s, s') || DeleteAssetStep(s, s', a)
    ensures Isolated(s')
  {
    if UnassignStep(s, s', e) {
      ReassignIsolates(s, s');
    } else if CleanupStep(s, s') {
      DeletePersonsIsolates(s.db, FaceService.WithoutFaces(s.db));
      ReassignIsolates(s, s');
    } else {
      DeleteAssetIsolates(s, s', a);
    }
  }

  lemma {:induction false} DeleteAssetIsolates(s: Library, s': Library, a: AssetId)
    requires Isolated(s) && DeleteAssetStep(s, s', a)
    ensures Isolated(s')
  {
    forall x | x in s'.inFlight ensures DecisionIsolated(s', s'.inFlight[x]) {
      assert DecisionIsolated(s, s.inFlight[x]);
    }
  }

  lemma {:induction false} MatchIsolates(s: Library, s': Library, who: ParticipantId, hits: set<FaceId>)
    requires Isolated(s) && MatchStep(s, s', who, hits)
    ensures Isolated(s')
  {
  }

  lemma {:induction false} ArrivalIsolates(s: Library, s': Library, id: nat, e: EventId)
    requires Isolated(s) && (AssetStep(s, s', id, e) || ParticipantStep(s, s', id, e))
    ensures Isolated(s')
  {
  }

  lemma {:induction false} StepIsolates(w: World, s: Library, s': Library, a: Action)
    requires Isolated(s) && LibraryStep(w, s, s', a)
    ensures Isolated(s')
  {
    match a {
      case AddAsset(id, e) => ArrivalIsolates(s, s', id, e);
      case AddParticipant(who, e) => ArrivalIsolates(s, s', who, e);
      case Refresh(asset, added, removed, rewritten, clash) => RefreshIsolates(s, s', asset, added, removed, rewritten, clash);
      case Decide(worker, job, out) => ReadIsolates(w, s, s', worker, job, out);
      case Write(worker, newId) => WriteIsolates(s, s', worker, newId);
      case UnassignEvent(e) => MaintenanceIsolates(s, s', e, 0);
      case CleanUp => MaintenanceIsolates(s, s', 0, 0);
      case DeleteAsset(id) => MaintenanceIsolates(s, s', 0, id);
      case MatchSelfies(who, hits) => MatchIsolates(s, s', who, hits);
      case _ => MergeIsolates(w, s, s', a);
    }
  }

  ghost predicate LibraryRun(w: World, run: seq<Library>, actions: seq<Action>) {
    |run| == |actions| + 1 && forall i :: 0 <= i < |actions| ==> LibraryStep(w, run[i], run[i + 1], actions[i])
  }

  lemma {:induction false} RunIsolates(w: World, run: seq<Library>, actions: seq<Action>, n: nat)
    requires LibraryRun(w, run, actions) && Isolated(run[0]) && n < |run|
    ensures Isolated(run[n])
  {
    if n > 0 {
      RunIsolates(w, run, actions, n - 1);
      StepIsolates(w, run[n - 1], run[n], actions[n - 1]);
    }
  }

  /** After any mix of steps, every assigned face and its person, and every matched participant and
      photo, share one event. */
  lemma {:induction false} IsolationHolds(w: World, run: seq<Library>, actions: seq<Action>, n: nat)
    requires LibraryRun(w, run, actions) && Isolated(run[0]) && n < |run|
    ensures var s := run[n];
            && (forall f :: f in s.db.faces ==> FaceIsolated(s.db, f))
            && (forall who, a :: (who, a) in s.matches ==> MatchIsolated(s, who, a))
  {
    RunIsolates(w, run, actions, n);
  }

  // --- what a merge keeps when other statements come in between ---

  /** The delete takes no face's person away exactly when the sources have no faces by then. */
  lemma {:induction false} DeleteLosesExactly(s: Library, s': Library, id: RequestId)
    requires MergeDeleteStep(s, s', id)
    ensures (forall f :: PersonOf(s'.db, f) == PersonOf(s.db, f)) <==> FacesOf(s.db, s.merges[id].sources) == {}
  {
    var sources := s.merges[id].sources;
    if f :| f in FacesOf(s.db, sources) {
      assert PersonOf(s'.db, f) == None && PersonOf(s.db, f).Some?;
    } else {
      forall f ensures PersonOf(s'.db, f) == PersonOf(s.db, f) {
        assert f !in FacesOf(s.db, sources);
      }
    }
  }

  /** A step that gives one of these persons a face: a decision to join it, or a merge into it. */
  ghost predicate Refills(s: Library, a: Action, people: set<PersonId>) {
    match a
    case Write(worker, _) => worker in s.inFlight && s.inFlight[worker].out.Join? && s.inFlight[worker].out.person in people
    case MergeMove(id) => id in s.merges && s.merges[id].target in people
    case _ => false
  }

  /** A step that takes the face from its person or gives it another. */
  ghost predicate Diverts(s: Library, a: Action, f: FaceId) {
    match a
    case Refresh(_, _, removed, _, _) => f in removed
    case Write(worker, _) => worker in s.inFlight && s.inFlight[worker].face == f
    case MergeMove(id) => id in s.merges && f in FacesOf(s.db, s.merges[id].sources)
    case MergeDelete(id) => id in s.merges && f in FacesOf(s.db, s.merges[id].sources)
    case UnassignEvent(e) => FaceService.MachineFaceOf(s.db, e, f)
    case CleanUp => f in FacesOf(s.db, FaceService.WithoutFaces(s.db))
    case _ => false
  }

  /** `f` keeps its row and its person. */
  predicate Keeps(db: Tables, db': Tables, f: FaceId) {
    f in db'.faces && PersonOf(db', f) == PersonOf(db, f)
  }

  lemma {:induction false} RefreshKeeps(s: Library, s': Library, a: Action, f: FaceId)
    requires a.Refresh? && RefreshStep(s, s', a.asset, a.added, a.removed, a.rewritten, a.clash)
    requires f in s.db.faces && f in s.usedFaces && f !in a.removed
    ensures Keeps(s.db, s'.db, f)
  {
  }

  lemma {:induction false} WriteKeeps(s: Library, s': Library, worker: WorkerId, newId: PersonId, f: FaceId)
    requires WriteStep(s, s', worker, newId) && f in s.db.faces && s.inFlight[worker].face != f
    ensures Keeps(s.db, s'.db, f)
  {
  }

  lemma {:induction false} MergeKeeps(w: World, s: Library, s': Library, a: Action, f: FaceId)
    requires LibraryStep(w, s, s', a) && MergeAction(a) && f in s.db.faces && !Diverts(s, a, f)
    ensures Keeps(s.db, s'.db, f)
  {
  }

  lemma {:induction false} OnlyDivertersChange(w: World, s: Library, s': Library, a: Action, f: FaceId)
    requires Isolated(s) && LibraryStep(w, s, s', a) && f in s.db.faces && !Diverts(s, a, f)
    ensures Keeps(s.db, s'.db, f)
  {
    match a {
      case Refresh(_, _, _, _, _) => RefreshKeeps(s, s', a, f);
      case Write(worker, newId) => WriteKeeps(s, s', worker, newId, f);
      case MergeBegin(_, _, _) => MergeKeeps(w, s, s', a, f);
      case MergeCheck(_, _) => MergeKeeps(w, s, s', a, f);
      case MergeMove(_) => MergeKeeps(w, s, s', a, f);
      case MergeDelete(_) => MergeKeeps(w, s, s', a, f);
      case _ =>
    }
  }

  /** Every face of `db'` has its old person, none, or one outside `people`. */
  ghost predicate NoneJoins(db: Tables, db': Tables, people: set<PersonId>) {
    forall f :: f in db'.faces && db'.faces[f].person.Some? ==>
      db'.faces[f].person.value !in people || (f in db.faces && db.faces[f].person == db'.faces[f].person)
  }

  lemma {:induction false} RefreshFillsNobody(s: Library, s': Library, a: Action, people: set<PersonId>)
    requires a.Refresh? && RefreshStep(s, s', a.asset, a.added, a.removed, a.rewritten, a.clash)
    ensures NoneJoins(s.db, s'.db, people)
  {
  }

  lemma {:induction false} WriteFills(s: Library, s': Library, a: Action, people: set<PersonId>)
    requires a.Write? && WriteStep(s, s', a.worker, a.newId) && !Refills(s, a, people)
    ensures NoneJoins(s.db, s'.db, people)
  {
  }

  lemma {:induction false} MoveFills(s: Library, s': Library, a: Action, people: set<PersonId>)
    requires a.MergeMove? && MergeMoveStep(s, s', a.id) && !Refills(s, a, people)
    ensures NoneJoins(s.db, s'.db, people)
  {
  }

  lemma {:induction false} StaysEmpty(w: World, s: Library, s': Library, a: Action, people: set<PersonId>)
    requires LibraryStep(w, s, s', a) && !Refills(s, a, people) && FacesOf(s.db, people) == {}
    ensures FacesOf(s'.db, people) == {}
  {
    match a {
      case Refresh(_, _, _, _, _) => RefreshFillsNobody(s, s', a, people);
      case Write(_, _) => WriteFills(s, s', a, people);
      case MergeMove(_) => MoveFills(s, s', a, people);
      case _ =>
    }
    assert NoneJoins(s.db, s'.db, people);
    forall f | f in s'.db.faces && s'.db.faces[f].person.Some? ensures s'.db.faces[f].person.value !in people {
      assert f !in FacesOf(s.db, people);
    }
  }

  /** Step `i` moves the faces of merge `id`, and up to `j` its sources are not deleted yet. */
  ghost predicate Moved(run: seq<Library>, actions: seq<Action>, i: int, j: int, id: RequestId) {
    && 0 <= i < j < |run| && |run| == |actions| + 1 && actions[i] == MergeMove(id)
    && id in run[i].merges && id in run[i + 1].merges
    && forall k :: i < k < j ==> actions[k] != MergeDelete(id)
  }

  /** No step between the two gives a source a face again. */
  ghost predicate Undisturbed(run: seq<Library>, actions: seq<Action>, i: int, j: int, people: set<PersonId>)
    requires 0 <= i < j < |run| && |run| == |actions| + 1
  {
    forall k :: i < k < j ==> !Refills(run[k], actions[k], people)
  }

  lemma {:induction false} MovedAway(s: Library, s': Library, id: RequestId)
    requires Isolated(s) && MergeMoveStep(s, s', id) && id in s'.merges
    ensures FacesOf(s'.db, s.merges[id].sources) == {} && s'.merges[id] == s.merges[id].(moved := true)
    ensures forall f :: f in FacesOf(s.db, s.merges[id].sources) ==> PersonOf(s'.db, f) == Some(s.merges[id].target)
  {
    assert MergeIsolated(s, s.merges[id]);
  }

  lemma {:induction false} StaysMoved(w: World, run: seq<Library>, actions: seq<Action>, i: nat, n: nat, id: RequestId)
    requires LibraryRun(w, run, actions) && Isolated(run[0]) && Moved(run, actions, i, n, id)
    ensures id in run[n].merges && run[n].merges[id] == run[i].merges[id].(moved := true)
    decreases n
  {
    assert LibraryStep(w, run[n - 1], run[n], actions[n - 1]);
    if n == i + 1 {
      RunIsolates(w, run, actions, i);
      MovedAway(run[i], run[n], id);
    } else {
      StaysMoved(w, run, actions, i, n - 1, id);
      RequestStays(w, run[n - 1], run[n], actions[n - 1], id);
    }
  }

  lemma {:induction false} RequestStays(w: World, s: Library, s': Library, a: Action, id: RequestId)
    requires LibraryStep(w, s, s', a) && id in s.merges && s.merges[id].moved && a != MergeDelete(id)
    ensures id in s'.merges && s'.merges[id] == s.merges[id]
  {
  }

  lemma {:induction false} SourcesStayEmpty(w: World, run: seq<Library>, actions: seq<Action>, i: nat, n: nat, id: RequestId)
    requires LibraryRun(w, run, actions) && Isolated(run[0]) && Moved(run, actions, i, n, id)
    requires Undisturbed(run, actions, i, n, run[i].merges[id].sources)
    ensures FacesOf(run[n].db, run[i].merges[id].sources) == {}
    decreases n
  {
    if n == i + 1 {
      MovedAwayAt(w, run, actions, i, id);
    } else {
      SourcesStayEmpty(w, run, actions, i, n - 1, id);
      StaysEmptyAt(w, run, actions, n - 1, run[i].merges[id].sources);
    }
  }

  lemma {:induction false} MovedAwayAt(w: World, run: seq<Library>, actions: seq<Action>, i: nat, id: RequestId)
    requires LibraryRun(w, run, actions) && Isolated(run[0]) && Moved(run, actions, i, i + 1, id)
    ensures FacesOf(run[i + 1].db, run[i].merges[id].sources) == {}
    ensures forall f :: f in FacesOf(run[i].db, run[i].merges[id].sources) ==>
              f in run[i + 1].db.faces && PersonOf(run[i + 1].db, f) == Some(run[i].merges[id].target)
  {
    RunIsolates(w, run, actions, i);
    assert LibraryStep(w, run[i], run[i + 1], actions[i]);
    MovedAway(run[i], run[i + 1], id);
  }

  lemma {:induction false} StaysEmptyAt(w: World, run: seq<Library>, actions: seq<Action>, k: nat, people: set<PersonId>)
    requires LibraryRun(w, run, actions) && k < |actions|
    requires !Refills(run[k], actions[k], people) && FacesOf(run[k].db, people) == {}
    ensures FacesOf(run[k + 1].db, people) == {}
  {
    StaysEmpty(w, run[k], run[k + 1], actions[k], people);
  }

  ghost predicate Diverted(run: seq<Library>, actions: seq<Action>, i: int, n: int, f: FaceId) {
    exists k :: i < k < n && 0 <= k < |actions| && k < |run| && Diverts(run[k], actions[k], f)
  }

  lemma {:induction false} StaysWithTarget(w: World, run: seq<Library>, actions: seq<Action>, i: nat, n: nat, id: RequestId, f: FaceId)
    requires LibraryRun(w, run, actions) && Isolated(run[0]) && Moved(run, actions, i, n, id)
    requires f in FacesOf(run[i].db, run[i].merges[id].sources)
    ensures Diverted(run, actions, i, n, f) || (f in run[n].db.faces && PersonOf(run[n].db, f) == Some(run[i].merges[id].target))
    decreases n
  {
    if n == i + 1 {
      MovedAwayAt(w, run, actions, i, id);
    } else {
      StaysWithTarget(w, run, actions, i, n - 1, id, f);
      if !Diverted(run, actions, i, n, f) {
        NotDiverted(run, actions, i, n, f);
        KeepsAt(w, run, actions, n - 1, f);
      }
    }
  }

  lemma {:induction false} NotDiverted(run: seq<Library>, actions: seq<Action>, i: nat, n: nat, f: FaceId)
    requires i < n - 1 && n < |run| && |run| == |actions| + 1 && !Diverted(run, actions, i, n, f)
    ensures !Diverted(run, actions, i, n - 1, f) && !Diverts(run[n - 1], actions[n - 1], f)
  {
  }

  lemma {:induction false} KeepsAt(w: World, run: seq<Library>, actions: seq<Action>, k: nat, f: FaceId)
    requires LibraryRun(w, run, actions) && Isolated(run[0]) && k < |actions|
    requires f in run[k].db.faces && !Diverts(run[k], actions[k], f)
    ensures Keeps(run[k].db, run[k + 1].db, f)
  {
    RunIsolates(w, run, actions, k);
    OnlyDivertersChange(w, run[k], run[k + 1], actions[k], f);
  }

  /** A merge among other statements: if between its move and its delete no decision joins a source and no
      other merge moves faces into one, the delete takes no face's person away, and every face the sources
      had at the move is the target's, unless a later step moved or removed that face. */
  lemma {:induction false} MergeLosesNothing(w: World, run: seq<Library>, actions: seq<Action>, i: nat, j: nat, id: RequestId)
    requires LibraryRun(w, run, actions) && Isolated(run[0]) && Moved(run, actions, i, j, id)
    requires j < |actions| && actions[j] == MergeDelete(id) && Undisturbed(run, actions, i, j, run[i].merges[id].sources)
    ensures forall f :: PersonOf(run[j + 1].db, f) == PersonOf(run[j].db, f)
    ensures forall f :: f in FacesOf(run[i].db, run[i].merges[id].sources) ==>
              PersonOf(run[j + 1].db, f) == Some(run[i].merges[id].target) || Diverted(run, actions, i, j, f)
  {
    assert LibraryStep(w, run[j], run[j + 1], actions[j]);
    SourcesStayEmpty(w, run, actions, i, j, id);
    StaysMoved(w, run, actions, i, j, id);
    DeleteLosesExactly(run[j], run[j + 1], id);
    forall f | f in FacesOf(run[i].db, run[i].merges[id].sources)
      ensures PersonOf(run[j + 1].db, f) == Some(run[i].merges[id].target) || Diverted(run, actions, i, j, f)
    {
      StaysWithTarget(w, run, actions, i, j, id, f);
    }
  }

  lemma {:induction false} RunGrows(w: World, run: seq<Library>, actions: seq<Action>, s: Library, a: Action)
    requires LibraryRun(w, run, actions) && LibraryStep(w, run[|actions|], s, a)
    ensures LibraryRun(w, run + [s], actions + [a])
  {
  }

  lemma {:induction false} CrossedTables(db: Tables, p: PersonId, q: PersonId)
    requires p != q
    ensures var moved := MoveFaces(MoveFaces(db, p, {q}), q, {p});
            var db' := FaceService.DeletePersons(FaceService.DeletePersons(moved, {q}), {p});
            && p !in db'.persons && q !in db'.persons
            && forall f :: f in FacesOf(db, {p, q}) ==> f in db'.faces && !Assigned(db', f)
  {
    var once := MoveFaces(db, p, {q});
    var moved := MoveFaces(once, q, {p});
    forall f | f in FacesOf(db, {p, q}) ensures f in moved.faces && moved.faces[f].person == Some(q) {
      assert f in FacesOf(once, {p});
    }
  }

  /** Two merges that cross lose both persons and unassign every face they had. */
  lemma {:induction false} CrossingMergesLoseFaces(w: World, s: Library, e: EventId, p: PersonId, q: PersonId, a: RequestId, b: RequestId)
    returns (run: seq<Library>, actions: seq<Action>)
    requires PersonIn(s.db, e, p) && PersonIn(s.db, e, q) && p != q && a != b && a !in s.merges && b !in s.merges
    ensures LibraryRun(w, run, actions) && run[0] == s
    ensures actions == [MergeBegin(a, e, p), MergeCheck(a, q), MergeBegin(b, e, q), MergeCheck(b, p), MergeMove(a), MergeMove(b),
                        MergeDelete(a), MergeDelete(b)]
    ensures var db := run[8].db;
            && p !in db.persons && q !in db.persons
            && forall f :: f in FacesOf(s.db, {p, q}) ==> f in db.faces && !Assigned(db, f)
  {
    run, actions := BothChecked(w, s, e, p, q, a, b);
    var s4, m, m' := run[4], Merging(e, p, {q}, true), Merging(e, q, {p}, true);
    var s5 := s4.(db := MoveFaces(s.db, p, {q}), merges := s4.merges[a := m]);
    RunGrows(w, run, actions, s5, MergeMove(a));
    var s6 := s5.(db := MoveFaces(s5.db, q, {p}), merges := s5.merges[b := m']);
    RunGrows(w, run + [s5], actions + [MergeMove(a)], s6, MergeMove(b));
    var s7 := s6.(db := FaceService.DeletePersons(s6.db, {q}), merges := s6.merges - {a});
    RunGrows(w, run + [s5] + [s6], actions + [MergeMove(a)] + [MergeMove(b)], s7, MergeDelete(a));
    var s8 := s7.(db := FaceService.DeletePersons(s7.db, {p}), merges := s7.merges - {b});
    RunGrows(w, run + [s5] + [s6] + [s7], actions + [MergeMove(a)] + [MergeMove(b)] + [MergeDelete(a)], s8, MergeDelete(b));
    run, actions := run + [s5] + [s6] + [s7] + [s8], actions + [MergeMove(a)] + [MergeMove(b)] + [MergeDelete(a)] + [MergeDelete(b)];
    CrossedTables(s.db, p, q);
  }

  lemma {:induction false} BothChecked(w: World, s: Library, e: EventId, p: PersonId, q: PersonId, a: RequestId, b: RequestId)
    returns (run: seq<Library>, actions: seq<Action>)
    requires PersonIn(s.db, e, p) && PersonIn(s.db, e, q) && p != q && a != b && a !in s.merges && b !in s.merges
    ensures LibraryRun(w, run, actions) && run[0] == s
    ensures actions == [MergeBegin(a, e, p), MergeCheck(a, q), MergeBegin(b, e, q), MergeCheck(b, p)]
    ensures run[4] == s.(merges := s.merges[a := Merging(e, p, {q}, false)][b := Merging(e, q, {p}, false)])
  {
    var run1, actions1 := CheckedOnce(w, s, e, p, q, a);
    var run2, actions2 := CheckedOnce(w, run1[2], e, q, p, b);
    run, actions := [run1[0], run1[1]] + run2, actions1 + actions2;
    forall i | 0 <= i < 4 ensures LibraryStep(w, run[i], run[i + 1], actions[i]) {
      if i < 2 {
        assert LibraryStep(w, run1[i], run1[i + 1], actions1[i]);
      } else {
        assert LibraryStep(w, run2[i - 2], run2[i - 1], actions2[i - 2]);
      }
    }
  }

  /** A decision to join a source, read before the move and written after it, is lost with the source. */
  lemma {:induction false} LateJoinIsLost(w: World, s: Library, e: EventId, job: Job, p: PersonId, target: PersonId,
                                          id: RequestId, worker: WorkerId, unused: PersonId)
    returns (run: seq<Library>, actions: seq<Action>)
    requires ValidSettings(w) && Found(s.db, job.face) && Decides(w, s.db, job, Join(p))
    requires PersonIn(s.db, e, p) && PersonIn(s.db, e, target) && p != target
    requires id !in s.merges && worker !in s.inFlight && unused !in s.usedPersons
    ensures LibraryRun(w, run, actions) && run[0] == s
    ensures actions == [MergeBegin(id, e, target), MergeCheck(id, p), Decide(worker, job, Join(p)), MergeMove(id),
                        Write(worker, unused), MergeDelete(id)]
    ensures PersonOf(run[5].db, job.face) == Some(p)
    ensures job.face in run[6].db.faces && !Assigned(run[6].db, job.face) && target in run[6].db.persons
  {
    run, actions := MovedBeforeTheWrite(w, s, e, job, p, target, id, worker);
    var s4 := run[4];
    var s5 := s4.(db := AssignFace(s4.db, job.face, p), inFlight := s4.inFlight - {worker});
    RunGrows(w, run, actions, s5, Write(worker, unused));
    var s6 := s5.(db := FaceService.DeletePersons(s5.db, {p}), merges := s5.merges - {id});
    RunGrows(w, run + [s5], actions + [Write(worker, unused)], s6, MergeDelete(id));
    run, actions := run + [s5] + [s6], actions + [Write(worker, unused)] + [MergeDelete(id)];
  }

  lemma {:induction false} MovedBeforeTheWrite(w: World, s: Library, e: EventId, job: Job, p: PersonId, target: PersonId,
                                               id: RequestId, worker: WorkerId)
    returns (run: seq<Library>, actions: seq<Action>)
    requires ValidSettings(w) && Found(s.db, job.face) && Decides(w, s.db, job, Join(p))
    requires PersonIn(s.db, e, p) && PersonIn(s.db, e, target) && p != target && id !in s.merges && worker !in s.inFlight
    ensures LibraryRun(w, run, actions) && run[0] == s
    ensures actions == [MergeBegin(id, e, target), MergeCheck(id, p), Decide(worker, job, Join(p)), MergeMove(id)]
    ensures run[4] == s.(db := MoveFaces(s.db, target, {p}),
                         merges := s.merges[id := Merging(e, target, {p}, true)],
                         inFlight := s.inFlight[worker := InFlight(job.face, EventOf(s.db, job.face), Join(p))])
  {
    run, actions := CheckedOnce(w, s, e, target, p, id);
    var s3 := DecideNow(w, run[2], worker, job, Join(p));
    RunGrows(w, run, actions, s3, Decide(worker, job, Join(p)));
    var s4 := s3.(db := MoveFaces(s.db, target, {p}), merges := s.merges[id := Merging(e, target, {p}, true)]);
    assert MergeMoveStep(s3, s4, id);
    RunGrows(w, run + [s3], actions + [Decide(worker, job, Join(p))], s4, MergeMove(id));
    run, actions := run + [s3] + [s4], actions + [Decide(worker, job, Join(p))] + [MergeMove(id)];
  }

  lemma {:induction false} DecideNow(w: World, s: Library, worker: WorkerId, job: Job, out: Outcome) returns (s': Library)
    requires ValidSettings(w) && Found(s.db, job.face) && Decides(w, s.db, job, out) && worker !in s.inFlight
    ensures LibraryStep(w, s, s', Decide(worker, job, out))
    ensures s' == s.(inFlight := s.inFlight[worker := InFlight(job.face, EventOf(s.db, job.face), out)])
  {
    s' := s.(inFlight := s.inFlight[worker := InFlight(job.face, EventOf(s.db, job.face), out)]);
  }

  lemma {:induction false} CheckedOnce(w: World, s: Library, e: EventId, target: PersonId, p: PersonId, id: RequestId)
    returns (run: seq<Library>, actions: seq<Action>)
    requires PersonIn(s.db, e, p) && PersonIn(s.db, e, target) && p != target && id !in s.merges
    ensures LibraryRun(w, run, actions) && run[0] == s && actions == [MergeBegin(id, e, target), MergeCheck(id, p)]
    ensures run[2] == s.(merges := s.merges[id := Merging(e, target, {p}, false)])
  {
    var s1 := s.(merges := s.merges[id := Merging(e, target, {}, false)]);
    var s2 := s.(merges := s.merges[id := Merging(e, target, {p}, false)]);
    assert {} + {p} == {p};
    assert MergeCheckStep(s1, s2, id, p);
    run, actions := [s, s1, s2], [MergeBegin(id, e, target), MergeCheck(id, p)];
  }
}
