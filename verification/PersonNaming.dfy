/** Naming a person cluster: organisers rename it, guests claim its faces, and naming jobs carry the
    latest claim onto it whenever they happen to run. The last human action wins, not the last job. */
module PersonNaming {

  import opened Common

  type FaceId = nat

  datatype NameSource = Organiser | Participant

  datatype Person = Person(name: string, setAt: Option<int>, source: Option<NameSource>)

  /** A participant match: the guest's name, through which face, and when. */
  datatype Claim = Claim(face: FaceId, name: string, at: int, deleted: bool)

  datatype Rename = Rename(name: string, at: int)

  // --- the latest claim on a cluster ---

  predicate LexLeq(a: string, b: string) {
    a == "" || (b != "" && (a[0] < b[0] || (a[0] == b[0] && LexLeq(a[1..], b[1..]))))
  }

  lemma {:induction false} LexTotal(a: string, b: string)
    ensures LexLeq(a, b) || LexLeq(b, a)
    ensures LexLeq(a, b) && LexLeq(b, a) ==> a == b
  {
    if a != "" && b != "" {
      LexTotal(a[1..], b[1..]);
      assert a == [a[0]] + a[1..] && b == [b[0]] + b[1..];
    }
  }

  lemma {:induction false} LexTransitive(a: string, b: string, c: string)
    requires LexLeq(a, b) && LexLeq(b, c)
    ensures LexLeq(a, c)
  {
    if a != "" && b != "" && c != "" && a[0] == b[0] == c[0] {
      LexTransitive(a[1..], b[1..], c[1..]);
    }
  }

  predicate OnCluster(c: Claim, faces: set<FaceId>) {
    c.face in faces && !c.deleted && c.name != ""
  }

  /** Newest first, then by name: the order of the query. */
  predicate Precedes(c: Claim, d: Claim) {
    c.at > d.at || (c.at == d.at && LexLeq(c.name, d.name))
  }

  lemma {:induction false} PrecedesTransitive(c: Claim, d: Claim, e: Claim)
    requires Precedes(c, d) && Precedes(d, e)
    ensures Precedes(c, e)
  {
    if c.at == d.at == e.at {
      LexTransitive(c.name, d.name, e.name);
    }
  }

  /** `r` is the newest claim that counts, if there is any: through a face of the cluster, by a guest who
      is still there and gave a name. Of several at one time it is the first by name. */
  ghost predicate IsLatest(claims: seq<Claim>, faces: set<FaceId>, r: Option<Claim>) {
    match r
    case None => forall c :: c in claims ==> c.face !in faces || c.deleted || c.name == ""
    case Some(l) =>
      && l in claims && l.face in faces && !l.deleted && l.name != ""
      && forall c :: c in claims && c.face in faces && !c.deleted && c.name != "" ==>
           c.at < l.at || (c.at == l.at && LexLeq(l.name, c.name))
  }

  /** Lexicographic: a prefix, or smaller at the first difference. */
  lemma {:induction false} LexMeans(a: string, b: string)
    ensures LexLeq(a, b) <==> a <= b || exists i :: 0 <= i < |a| && i < |b| && a[..i] == b[..i] && a[i] < b[i]
  {
    if a != "" && b != "" {
      LexMeans(a[1..], b[1..]);
      if a[0] == b[0] {
        LexTail(a, b);
      } else {
        assert a[..0] == b[..0];
      }
    }
  }

  lemma {:induction false} LexTail(a: string, b: string)
    requires a != "" && b != "" && a[0] == b[0]
    ensures a <= b <==> a[1..] <= b[1..]
    ensures (exists i :: 0 <= i < |a| && i < |b| && a[..i] == b[..i] && a[i] < b[i]) <==>
            (exists i :: 0 <= i < |a[1..]| && i < |b[1..]| && a[1..][..i] == b[1..][..i] && a[1..][i] < b[1..][i])
  {
    assert a == [a[0]] + a[1..] && b == [b[0]] + b[1..];
    if i :| 0 <= i < |a| && i < |b| && a[..i] == b[..i] && a[i] < b[i] {
      assert i > 0;
      assert a[1..][..i - 1] == a[..i][1..] && b[1..][..i - 1] == b[..i][1..] && a[1..][i - 1] < b[1..][i - 1];
    }
    if i :| 0 <= i < |a[1..]| && i < |b[1..]| && a[1..][..i] == b[1..][..i] && a[1..][i] < b[1..][i] {
      assert a[..i + 1] == [a[0]] + a[1..][..i] && b[..i + 1] == [b[0]] + b[1..][..i] && a[i + 1] < b[i + 1];
    }
  }

  function Latest(claims: seq<Claim>, faces: set<FaceId>): Option<Claim> {
    if claims == [] then None
    else
      var c := claims[|claims| - 1];
      var before := Latest(claims[..|claims| - 1], faces);
      if !OnCluster(c, faces) || (before.Some? && Precedes(before.value, c)) then before else Some(c)
  }

  lemma {:induction false} LatestIsLatest(claims: seq<Claim>, faces: set<FaceId>)
    ensures IsLatest(claims, faces, Latest(claims, faces))
  {
    if claims != [] {
      var front, c := claims[..|claims| - 1], claims[|claims| - 1];
      LatestIsLatest(front, faces);
      assert claims == front + [c];
      var before := Latest(front, faces);
      LexTotal(c.name, c.name);
      if before.Some? && OnCluster(c, faces) && !Precedes(before.value, c) {
        LexTotal(before.value.name, c.name);
        forall d | d in front && OnCluster(d, faces) ensures Precedes(c, d) {
          PrecedesTransitive(c, before.value, d);
        }
      }
    }
  }

  // --- the two writers ---

  /** `nameFromParticipants`: the latest claim, unless the present name is at least as new. */
  function Named(p: Person, claims: seq<Claim>, faces: set<FaceId>): Person {
    match Latest(claims, faces)
    case None => p
    case Some(c) =>
      if p.setAt.None? || p.setAt.value < c.at then Person(c.name, Some(c.at), Some(Participant)) else p
  }

  class PersonRow {
    var name: string
    var nameSetAt: Option<int>
    var nameSource: Option<NameSource>

    constructor (p: Person)
      ensures Row() == p
    {
      name, nameSetAt, nameSource := p.name, p.setAt, p.source;
    }

    function Row(): Person
      reads this
    {
      Person(name, nameSetAt, nameSource)
    }

    method NameFromParticipants(claims: seq<Claim>, faces: set<FaceId>) returns (named: Option<string>)
      modifies this
      ensures Row() == Named(old(Row()), claims, faces)
      ensures named == if Row() == old(Row()) then None else Some(name)
    {
      var latest: Option<Claim> := None;
      for i := 0 to |claims|
        invariant latest == Latest(claims[..i], faces)
      {
        assert claims[..i + 1][..i] == claims[..i];
        var c := claims[i];
        if OnCluster(c, faces) && !(latest.Some? && Precedes(latest.value, c)) {
          latest := Some(c);
        }
      }
      assert claims[..|claims|] == claims;
      named := None;
      if latest.Some? && (nameSetAt.None? || nameSetAt.value < latest.value.at) {
        name, nameSetAt, nameSource := latest.value.name, Some(latest.value.at), Some(Participant);
        named := Some(name);
      }
    }

    /** `update`: only a change of name is stamped. */
    method Update(newName: Option<string>, now: int)
      modifies this
      ensures Row() == if newName.Some? then Person(newName.value, Some(now), Some(Organiser)) else old(Row())
    {
      if newName.Some? {
        name, nameSetAt, nameSource := newName.value, Some(now), Some(Organiser);
      }
    }

    /** A whole history on the row: renames, claims and faces come in, naming jobs run at any points,
        and one more runs at the end. The row is left with a latest action's name, a rename's if one
        was made at that instant. */
    method Replay(h: History)
      requires Possible(h) && Row() == h.start.person
      modifies this
      ensures Row() == Settled(h).person
      ensures Stamp(Settled(h)) && (forall name, at :: ActedAs(Settled(h), name, at) ==> LatestStands(Settled(h), at))
      ensures Decided(Settled(h)) ==>
                forall h' :: Possible(h') && SameActions(h, h') ==> name == Settled(h').person.name
    {
      var claims, faces := h.start.claims, h.start.faces;
      for i := 0 to |h.ops|
        invariant Row() == After(h.start, h.ops[..i]).person
        invariant claims == After(h.start, h.ops[..i]).claims && faces == After(h.start, h.ops[..i]).faces
      {
        assert h.ops[..i + 1][..i] == h.ops[..i];
        match h.ops[i] {
          case Renames(r) => Update(Some(r.name), r.at);
          case Claims(c) => claims := claims + [c];
          case Joins(joining) => faces := faces + joining;
          case NamingJob => var _ := NameFromParticipants(claims, faces);
          case Edits(at) => Update(None, at);
        }
      }
      assert h.ops[..|h.ops|] == h.ops;
      var _ := NameFromParticipants(claims, faces);
      LastActionWins(h);
      if Decided(Settled(h)) {
        forall h' | Possible(h') && SameActions(h, h') ensures name == Settled(h').person.name {
          DecidedAgrees(h, h');
        }
      }
    }
  }

  // --- histories ---

  /** One cluster and everything humans did to it so far. */
  datatype Cluster = Cluster(person: Person, faces: set<FaceId>, claims: seq<Claim>, renames: seq<Rename>, clock: int)

  /** A guest may claim a face before it belongs to the cluster. */
  datatype Op =
    | Renames(rename: Rename)
    | Claims(claim: Claim)
    | Joins(faces: set<FaceId>)
    | NamingJob
    // the organiser changes something else about the person
    | Edits(at: int)

  function Next(s: Cluster, op: Op): Cluster {
    match op
    case Renames(r) => s.(person := Person(r.name, Some(r.at), Some(Organiser)), renames := s.renames + [r], clock := r.at)
    case Claims(c) => s.(claims := s.claims + [c], clock := c.at)
    case Joins(faces) => s.(faces := s.faces + faces)
    case NamingJob => s.(person := Named(s.person, s.claims, s.faces))
    case Edits(at) => s.(clock := at)
  }

  /** The clock never goes back. */
  predicate Timely(s: Cluster, op: Op) {
    match op
    case Renames(r) => s.clock <= r.at
    case Claims(c) => s.clock <= c.at
    case Edits(at) => s.clock <= at
    case _ => true
  }

  function After(s: Cluster, ops: seq<Op>): Cluster {
    if ops == [] then s else Next(After(s, ops[..|ops| - 1]), ops[|ops| - 1])
  }

  ghost predicate AllTimely(s: Cluster, ops: seq<Op>) {
    ops == [] || (AllTimely(s, ops[..|ops| - 1]) && Timely(After(s, ops[..|ops| - 1]), ops[|ops| - 1]))
  }

  datatype History = History(start: Cluster, ops: seq<Op>)

  /** Nobody had acted at the start; the name, if any, predates the stamps. */
  ghost predicate Possible(h: History) {
    && h.start.person.setAt.None? && h.start.claims == [] && h.start.renames == []
    && AllTimely(h.start, h.ops)
  }

  /** Where a history ends once one more naming job has run. */
  function Settled(h: History): Cluster {
    Next(After(h.start, h.ops), NamingJob)
  }

  // --- human actions on the cluster ---

  ghost predicate RenamedAs(s: Cluster, name: string, at: int) {
    Rename(name, at) in s.renames
  }

  ghost predicate ClaimedAs(s: Cluster, name: string, at: int) {
    exists c :: c in s.claims && OnCluster(c, s.faces) && c.name == name && c.at == at
  }

  ghost predicate ActedAs(s: Cluster, name: string, at: int) {
    RenamedAs(s, name, at) || ClaimedAs(s, name, at)
  }

  /** A name with a stamp is that of an action then, a rename if there was one at that instant, and no
      rename is newer. */
  ghost predicate Stamp(s: Cluster) {
    match s.person.setAt
    case None => s.renames == []
    case Some(at) =>
      && ActedAs(s, s.person.name, at)
      && (forall r :: r in s.renames ==> r.at <= at)
      && (forall name :: RenamedAs(s, name, at) ==> RenamedAs(s, s.person.name, at))
      && s.person.source == Some(if RenamedAs(s, s.person.name, at) then Organiser else Participant)
  }

  ghost predicate Stamped(s: Cluster) {
    && Stamp(s)
    && (s.person.setAt.Some? ==> s.person.setAt.value <= s.clock)
    && (forall c :: c in s.claims ==> c.at <= s.clock)
  }

  /** The stamp never goes back and always is that of a human action on the cluster. */
  lemma {:induction false} StepKeepsStamp(s: Cluster, op: Op)
    requires Stamped(s) && Timely(s, op)
    ensures Stamped(Next(s, op))
    ensures s.person.setAt.Some? ==>
              Next(s, op).person.setAt.Some? && s.person.setAt.value <= Next(s, op).person.setAt.value
  {
    var s' := Next(s, op);
    LatestIsLatest(s.claims, s.faces);
    if s.person.setAt.Some? {
    }
    assert !op.Renames? ==> forall name, at :: RenamedAs(s', name, at) <==> RenamedAs(s, name, at);
    if op.Renames? {
      assert RenamedAs(s', op.rename.name, op.rename.at);
    } else if op.NamingJob? && s'.person != s.person {
      var c := Latest(s.claims, s.faces).value;
      assert ClaimedAs(s', c.name, c.at);
    }
  }

  lemma {:induction false} HistoryKeepsStamp(s: Cluster, ops: seq<Op>)
    requires Stamped(s) && AllTimely(s, ops)
    ensures Stamped(After(s, ops))
  {
    if ops != [] {
      HistoryKeepsStamp(s, ops[..|ops| - 1]);
      StepKeepsStamp(After(s, ops[..|ops| - 1]), ops[|ops| - 1]);
    }
  }

  lemma {:induction false} PrefixPossible(h: History, n: nat)
    requires Possible(h) && n <= |h.ops|
    ensures Possible(h.(ops := h.ops[..n]))
    decreases |h.ops|
  {
    if n < |h.ops| {
      var front := h.ops[..|h.ops| - 1];
      PrefixPossible(h.(ops := front), n);
      assert front[..n] == h.ops[..n];
    } else {
      assert h.ops[..n] == h.ops;
    }
  }

  /** Stamps over a whole history: monotone between any two points. */
  lemma {:induction false} StampNeverGoesBack(h: History, i: nat, j: nat)
    requires Possible(h) && i <= j <= |h.ops|
    ensures var before, after := After(h.start, h.ops[..i]).person.setAt, After(h.start, h.ops[..j]).person.setAt;
            before.Some? ==> after.Some? && before.value <= after.value
    decreases j
  {
    if i < j {
      StampNeverGoesBack(h, i, j - 1);
      PrefixPossible(h, j);
      assert h.ops[..j][..j - 1] == h.ops[..j - 1];
      HistoryKeepsStamp(h.start, h.ops[..j - 1]);
      StepKeepsStamp(After(h.start, h.ops[..j - 1]), h.ops[j - 1]);
    }
  }

  /** Running the naming job twice is the same as running it once. */
  lemma {:induction false} NamingIsIdempotent(p: Person, claims: seq<Claim>, faces: set<FaceId>)
    ensures Named(Named(p, claims, faces), claims, faces) == Named(p, claims, faces)
  {
  }

  /** The stamp is at least as new as an action at `at`. */
  ghost predicate LatestStands(s: Cluster, at: int) {
    s.person.setAt.Some? && at <= s.person.setAt.value
  }

  /** After any history of renames, claims, joins and naming jobs, one more naming job leaves the name
      of a latest human action on the cluster, a rename's if one was made at that instant. */
  lemma {:induction false} LastActionWins(h: History)
    requires Possible(h)
    ensures Stamp(Settled(h))
    ensures forall name, at :: ActedAs(Settled(h), name, at) ==> LatestStands(Settled(h), at)
    ensures (forall name, at :: !ActedAs(Settled(h), name, at)) ==> Settled(h).person.name == h.start.person.name
  {
    var s := After(h.start, h.ops);
    HistoryKeepsStamp(h.start, h.ops);
    StepKeepsStamp(s, NamingJob);
    LatestIsLatest(s.claims, s.faces);
    if forall name, at :: !ActedAs(Settled(h), name, at) {
      UnstampedKeepsName(h.start, h.ops);
      assert forall c :: c in s.claims && OnCluster(c, s.faces) ==> ClaimedAs(Settled(h), c.name, c.at);
    }
  }

  lemma {:induction false} UnstampedKeepsName(s: Cluster, ops: seq<Op>)
    requires s.person.setAt.None?
    ensures After(s, ops).person.setAt.None? ==> After(s, ops).person.name == s.person.name
  {
    if ops != [] {
      UnstampedKeepsName(s, ops[..|ops| - 1]);
    }
  }

  // --- convergence, exactly ---

  ghost predicate LatestInstant(s: Cluster, t: int) {
    (exists name :: ActedAs(s, name, t)) && forall name, at :: ActedAs(s, name, at) ==> at <= t
  }

  /** At the latest instant at most one name was given by rename, and, if none was, at most one by claim. */
  ghost predicate Decided(s: Cluster) {
    forall t :: LatestInstant(s, t) ==>
      && (forall a, b :: RenamedAs(s, a, t) && RenamedAs(s, b, t) ==> a == b)
      && ((forall a :: !RenamedAs(s, a, t)) ==> forall a, b :: ClaimedAs(s, a, t) && ClaimedAs(s, b, t) ==> a == b)
  }

  function OnClusterOnly(claims: seq<Claim>, faces: set<FaceId>): seq<Claim> {
    if claims == [] then []
    else
      var rest, c := OnClusterOnly(claims[..|claims| - 1], faces), claims[|claims| - 1];
      if OnCluster(c, faces) then rest + [c] else rest
  }

  /** The same renames and the same claims on the cluster, each as often, on a cluster with the same
      name at first. Order, joins, naming jobs and claims on other clusters may differ. */
  ghost predicate SameActions(h: History, h': History) {
    var s, s' := Settled(h), Settled(h');
    && h.start.person.name == h'.start.person.name
    && multiset(s.renames) == multiset(s'.renames)
    && multiset(OnClusterOnly(s.claims, s.faces)) == multiset(OnClusterOnly(s'.claims, s'.faces))
  }

  lemma {:induction false} OnClusterOnlyMeans(claims: seq<Claim>, faces: set<FaceId>)
    ensures forall c :: c in OnClusterOnly(claims, faces) <==> c in claims && OnCluster(c, faces)
  {
    if claims != [] {
      OnClusterOnlyMeans(claims[..|claims| - 1], faces);
      assert claims == claims[..|claims| - 1] + [claims[|claims| - 1]];
    }
  }

  ghost predicate SameActed(s: Cluster, s': Cluster) {
    forall name, at :: (RenamedAs(s, name, at) <==> RenamedAs(s', name, at)) && (ClaimedAs(s, name, at) <==> ClaimedAs(s', name, at))
  }

  lemma {:induction false} SameActionsSameActed(h: History, h': History)
    requires SameActions(h, h')
    ensures SameActed(Settled(h), Settled(h'))
  {
    var s, s' := Settled(h), Settled(h');
    OnClusterOnlyMeans(s.claims, s.faces);
    OnClusterOnlyMeans(s'.claims, s'.faces);
    var own, own' := OnClusterOnly(s.claims, s.faces), OnClusterOnly(s'.claims, s'.faces);
    assert forall c :: c in own <==> c in multiset(own);
    assert forall c :: c in own' <==> c in multiset(own');
    assert forall r :: r in s.renames <==> r in multiset(s.renames);
    assert forall r :: r in s'.renames <==> r in multiset(s'.renames);
  }

  /** Convergence: whatever the order of jobs, joins and actions, two histories with the same human
      actions on the cluster end with the same name and stamp if the latest instant is decided. Ties at
      earlier instants, and claims tied with a rename, do not matter. */
  lemma {:induction false} NamingConverges(h: History, h': History)
    requires Possible(h) && Possible(h') && h.start.person.name == h'.start.person.name
    requires SameActed(Settled(h), Settled(h')) && Decided(Settled(h))
    ensures Settled(h).person.name == Settled(h').person.name && Settled(h).person.setAt == Settled(h').person.setAt
  {
    LastActionWins(h);
    LastActionWins(h');
    var s, s' := Settled(h), Settled(h');
    if s.person.setAt.Some? {
      var t := s.person.setAt.value;
      assert ActedAs(s', s.person.name, t);
      assert ActedAs(s, s'.person.name, s'.person.setAt.value);
      assert LatestInstant(s, t);
    } else if s'.person.setAt.Some? {
      assert ActedAs(s, s'.person.name, s'.person.setAt.value);
    }
  }

  lemma {:induction false} DecidedAgrees(h: History, h': History)
    requires Possible(h) && Possible(h') && SameActions(h, h') && Decided(Settled(h))
    ensures Settled(h).person.name == Settled(h').person.name
  {
    SameActionsSameActed(h, h');
    NamingConverges(h, h');
  }

  // --- and only then: the histories that differ ---

  function RenamesIn(ops: seq<Op>): seq<Rename> {
    if ops == [] then []
    else RenamesIn(ops[..|ops| - 1]) + if ops[|ops| - 1].Renames? then [ops[|ops| - 1].rename] else []
  }

  function ClaimsIn(ops: seq<Op>): seq<Claim> {
    if ops == [] then []
    else ClaimsIn(ops[..|ops| - 1]) + if ops[|ops| - 1].Claims? then [ops[|ops| - 1].claim] else []
  }

  predicate Acts(op: Op, faces: set<FaceId>) {
    op.Renames? || (op.Claims? && OnCluster(op.claim, faces))
  }

  function TimeOf(op: Op): int
    requires op.Renames? || op.Claims?
  {
    if op.Renames? then op.rename.at else op.claim.at
  }

  function NameIn(op: Op): string
    requires op.Renames? || op.Claims?
  {
    if op.Renames? then op.rename.name else op.claim.name
  }

  /** The actions on the cluster, in the order they were taken. */
  function ActsOnly(ops: seq<Op>, faces: set<FaceId>): seq<Op> {
    if ops == [] then []
    else ActsOnly(ops[..|ops| - 1], faces) + if Acts(ops[|ops| - 1], faces) then [ops[|ops| - 1]] else []
  }

  ghost predicate AllAct(ops: seq<Op>, faces: set<FaceId>) {
    forall i :: 0 <= i < |ops| ==> Acts(ops[i], faces)
  }

  lemma {:induction false} AfterConcat(s: Cluster, a: seq<Op>, b: seq<Op>)
    ensures After(s, a + b) == After(After(s, a), b)
    ensures AllTimely(s, a + b) <==> AllTimely(s, a) && AllTimely(After(s, a), b)
    ensures RenamesIn(a + b) == RenamesIn(a) + RenamesIn(b) && ClaimsIn(a + b) == ClaimsIn(a) + ClaimsIn(b)
  {
    if b == [] {
      assert a + b == a;
    } else {
      assert (a + b)[..|a + b| - 1] == a + b[..|b| - 1];
      AfterConcat(s, a, b[..|b| - 1]);
    }
  }

  lemma {:induction false} Recorded(s: Cluster, ops: seq<Op>)
    ensures After(s, ops).renames == s.renames + RenamesIn(ops) && After(s, ops).claims == s.claims + ClaimsIn(ops)
  {
    if ops != [] {
      Recorded(s, ops[..|ops| - 1]);
    }
  }

  /** Human actions on a cluster and naming jobs, nothing else. */
  ghost predicate OnlyActs(ops: seq<Op>, faces: set<FaceId>) {
    forall op :: op in ops ==> op == NamingJob || Acts(op, faces)
  }

  lemma {:induction false} FacesStay(s: Cluster, ops: seq<Op>, faces: set<FaceId>)
    requires OnlyActs(ops, faces)
    ensures After(s, ops).faces == s.faces
  {
    if ops != [] {
      FacesStay(s, ops[..|ops| - 1], faces);
      assert ops[|ops| - 1] in ops;
    }
  }

  lemma {:induction false} RecordsMean(ops: seq<Op>)
    ensures forall r :: r in RenamesIn(ops) <==> Renames(r) in ops
    ensures forall c :: c in ClaimsIn(ops) <==> Claims(c) in ops
  {
    if ops != [] {
      RecordsMean(ops[..|ops| - 1]);
      assert ops == ops[..|ops| - 1] + [ops[|ops| - 1]];
    }
  }

  /** Leaving out jobs, joins and claims on other clusters keeps the order and the actions. */
  lemma {:induction false} Distilled(s: Cluster, ops: seq<Op>, s': Cluster, faces: set<FaceId>)
    requires AllTimely(s, ops) && s'.clock <= s.clock
    ensures var acts := ActsOnly(ops, faces);
            && AllTimely(s', acts) && After(s', acts).clock <= After(s, ops).clock && AllAct(acts, faces)
            && RenamesIn(acts) == RenamesIn(ops) && ClaimsIn(acts) == OnClusterOnly(ClaimsIn(ops), faces)
  {
    DistilledTimely(s, ops, s', faces);
    DistilledRecords(ops, faces);
  }

  lemma {:induction false} ActsStep(ops: seq<Op>, faces: set<FaceId>)
    requires ops != []
    ensures var acts, last := ActsOnly(ops[..|ops| - 1], faces), ops[|ops| - 1];
            if Acts(last, faces) then ActsOnly(ops, faces) == acts + [last] && (acts + [last])[..|acts|] == acts
            else ActsOnly(ops, faces) == acts
  {
  }

  lemma {:induction false} DistilledTimely(s: Cluster, ops: seq<Op>, s': Cluster, faces: set<FaceId>)
    requires AllTimely(s, ops) && s'.clock <= s.clock
    ensures var acts := ActsOnly(ops, faces);
            AllTimely(s', acts) && After(s', acts).clock <= After(s, ops).clock && AllAct(acts, faces)
  {
    if ops != [] {
      DistilledTimely(s, ops[..|ops| - 1], s', faces);
      ActsStep(ops, faces);
    }
  }

  lemma {:induction false} DistilledRecords(ops: seq<Op>, faces: set<FaceId>)
    ensures RenamesIn(ActsOnly(ops, faces)) == RenamesIn(ops)
    ensures ClaimsIn(ActsOnly(ops, faces)) == OnClusterOnly(ClaimsIn(ops), faces)
  {
    if ops != [] {
      var front, last := ops[..|ops| - 1], ops[|ops| - 1];
      DistilledRecords(front, faces);
      ActsStep(ops, faces);
      if last.Claims? {
        assert ClaimsIn(ops)[..|ClaimsIn(ops)| - 1] == ClaimsIn(front);
      } else {
        assert ClaimsIn(ops) == ClaimsIn(front);
      }
    }
  }

  lemma {:induction false} ClockCovers(s: Cluster, acts: seq<Op>, faces: set<FaceId>, i: nat)
    requires AllTimely(s, acts) && AllAct(acts, faces) && i < |acts|
    ensures TimeOf(acts[i]) <= After(s, acts).clock
  {
    if i < |acts| - 1 {
      ClockCovers(s, acts[..|acts| - 1], faces, i);
    }
  }

  lemma {:induction false} InOrder(s: Cluster, acts: seq<Op>, faces: set<FaceId>, i: nat, j: nat)
    requires AllTimely(s, acts) && AllAct(acts, faces) && i <= j < |acts|
    ensures TimeOf(acts[i]) <= TimeOf(acts[j])
    decreases |acts|
  {
    var front := acts[..|acts| - 1];
    if j < |front| {
      InOrder(s, front, faces, i, j);
    } else if i < j {
      ClockCovers(s, front, faces, i);
    }
  }

  ghost predicate AtInstant(ops: seq<Op>, faces: set<FaceId>, t: int) {
    forall i :: 0 <= i < |ops| ==> Acts(ops[i], faces) && TimeOf(ops[i]) == t
  }

  lemma {:induction false} InstantTimely(s: Cluster, ops: seq<Op>, faces: set<FaceId>, t: int)
    requires AtInstant(ops, faces, t) && s.clock <= t
    ensures AllTimely(s, ops) && After(s, ops).clock <= t && (ops != [] ==> After(s, ops).clock == t)
    ensures (forall i :: 0 <= i < |ops| ==> ops[i].Claims?) ==> After(s, ops).person == s.person
  {
    if ops != [] {
      InstantTimely(s, ops[..|ops| - 1], faces, t);
    }
  }

  /** A stamp at least as new as every claim stands through a naming job. */
  lemma {:induction false} NameStands(s: Cluster, t: int)
    requires s.person.setAt == Some(t) && forall c :: c in s.claims ==> c.at <= t
    ensures Next(s, NamingJob) == s
  {
    LatestIsLatest(s.claims, s.faces);
  }

  /** The actions of one cluster, cut where the latest instant begins, with one action of that instant. */
  datatype Cut = Cut(start: Cluster, before: seq<Op>, first: seq<Op>, pick: Op, rest: seq<Op>, at: int)

  ghost predicate GoodCut(c: Cut) {
    && c.start.person.setAt.None? && c.start.claims == [] && c.start.renames == []
    && AllTimely(c.start, c.before) && AllAct(c.before, c.start.faces) && After(c.start, c.before).clock <= c.at
    && (forall i :: 0 <= i < |c.before| ==> TimeOf(c.before[i]) < c.at)
    && AtInstant(c.first + [c.pick] + c.rest, c.start.faces, c.at)
  }

  function Original(c: Cut): seq<Op> {
    c.before + (c.first + [c.pick] + c.rest)
  }

  /** Same actions, the picked one last. */
  function PickLast(c: Cut): History {
    History(c.start, c.before + (c.first + c.rest + [c.pick]))
  }

  /** Same actions, the picked one first at its instant, with a naming job right after it. */
  function PickNamed(c: Cut): History {
    History(c.start, c.before + [c.pick] + [NamingJob] + (c.first + c.rest))
  }

  lemma {:induction false} PartsAtInstant(c: Cut)
    requires GoodCut(c)
    ensures AtInstant(c.first + c.rest + [c.pick], c.start.faces, c.at) && AtInstant(c.first + c.rest, c.start.faces, c.at)
    ensures AtInstant([c.pick], c.start.faces, c.at)
  {
    var all := c.first + [c.pick] + c.rest;
    assert forall i :: 0 <= i < |c.first| ==> c.first[i] == all[i];
    assert all[|c.first|] == c.pick;
    assert forall i :: 0 <= i < |c.rest| ==> c.rest[i] == all[|c.first| + 1 + i];
  }

  lemma {:induction false} RenameTakesOver(c: Cut)
    requires GoodCut(c) && c.pick.Renames?
    ensures Possible(PickLast(c)) && Settled(PickLast(c)).person.name == NameIn(c.pick)
  {
    var s, tail := After(c.start, c.before), c.first + c.rest + [c.pick];
    PartsAtInstant(c);
    InstantTimely(s, tail, c.start.faces, c.at);
    AfterConcat(c.start, c.before, tail);
    HistoryKeepsStamp(c.start, c.before + tail);
    assert tail[|tail| - 1] == c.pick;
    NameStands(After(c.start, c.before + tail), c.at);
  }

  lemma {:induction false} BeforeIsOlder(c: Cut)
    requires GoodCut(c)
    ensures forall d :: d in After(c.start, c.before).claims ==> d.at < c.at
    ensures var stamp := After(c.start, c.before).person.setAt; stamp.Some? ==> stamp.value < c.at
  {
    Recorded(c.start, c.before);
    RecordsMean(c.before);
    HistoryKeepsStamp(c.start, c.before);
    forall op | op in c.before ensures Acts(op, c.start.faces) && TimeOf(op) < c.at {
      var i :| 0 <= i < |c.before| && c.before[i] == op;
    }
    forall r | r in RenamesIn(c.before) ensures r.at < c.at {
      assert TimeOf(Renames(r)) < c.at;
    }
    forall d | d in ClaimsIn(c.before) ensures d.at < c.at {
      assert TimeOf(Claims(d)) < c.at;
    }
  }

  /** The first claim of the instant that a naming job sees keeps the name. */
  lemma {:induction false} ClaimTakesHold(c: Cut)
    requires GoodCut(c) && c.pick.Claims?
    ensures var s := After(c.start, c.before + [c.pick] + [NamingJob]);
            && AllTimely(c.start, c.before + [c.pick] + [NamingJob]) && s.clock == c.at
            && s.person == Person(NameIn(c.pick), Some(c.at), Some(Participant))
  {
    var a := After(c.start, c.before);
    var b := Next(a, c.pick);
    PartsAtInstant(c);
    assert [c.pick][0] == c.pick;
    BeforeIsOlder(c);
    FacesStay(c.start, c.before, c.start.faces);
    AfterConcat(c.start, c.before, [c.pick]);
    AfterConcat(c.start, c.before + [c.pick], [NamingJob]);
    LatestIsLatest(b.claims, b.faces);
    assert c.pick.claim in b.claims && OnCluster(c.pick.claim, b.faces);
  }

  lemma {:induction false} FirstNamedStays(c: Cut)
    requires GoodCut(c) && forall op :: op in c.first + [c.pick] + c.rest ==> op.Claims?
    ensures Possible(PickNamed(c)) && Settled(PickNamed(c)).person.name == NameIn(c.pick)
  {
    var head, tail := c.before + [c.pick] + [NamingJob], c.first + c.rest;
    var all := c.first + [c.pick] + c.rest;
    assert c.pick == all[|c.first|];
    ClaimTakesHold(c);
    PartsAtInstant(c);
    forall i | 0 <= i < |tail| ensures tail[i].Claims? {
      assert tail[i] in all;
    }
    InstantTimely(After(c.start, head), tail, c.start.faces, c.at);
    AfterConcat(c.start, head, tail);
    HistoryKeepsStamp(c.start, head + tail);
    NameStands(After(c.start, head + tail), c.at);
  }

  lemma {:induction false} AllOwn(claims: seq<Claim>, faces: set<FaceId>)
    requires forall c :: c in claims ==> OnCluster(c, faces)
    ensures OnClusterOnly(claims, faces) == claims
  {
    if claims != [] {
      AllOwn(claims[..|claims| - 1], faces);
      assert claims == claims[..|claims| - 1] + [claims[|claims| - 1]];
    }
  }

  /** Only joins change the faces, and what a list of actions records is on the cluster. */
  lemma {:induction false} ActsRecorded(start: Cluster, ops: seq<Op>)
    requires start.claims == [] && start.renames == []
    requires OnlyActs(ops, start.faces)
    ensures var s := After(start, ops);
            s.renames == RenamesIn(ops) && OnClusterOnly(s.claims, s.faces) == ClaimsIn(ops)
  {
    RecordedAfresh(start, ops);
    FacesStay(start, ops, start.faces);
    ClaimsOwn(ops, start.faces);
  }

  lemma {:induction false} RecordedAfresh(start: Cluster, ops: seq<Op>)
    requires start.claims == [] && start.renames == []
    ensures After(start, ops).renames == RenamesIn(ops) && After(start, ops).claims == ClaimsIn(ops)
  {
    Recorded(start, ops);
  }

  lemma {:induction false} ClaimsOwn(ops: seq<Op>, faces: set<FaceId>)
    requires OnlyActs(ops, faces)
    ensures OnClusterOnly(ClaimsIn(ops), faces) == ClaimsIn(ops)
  {
    RecordsMean(ops);
    forall c | c in ClaimsIn(ops) ensures OnCluster(c, faces) {
      assert Claims(c) in ops;
    }
    AllOwn(ClaimsIn(ops), faces);
  }

  lemma {:induction false} PiecesRecorded(c: Cut)
    ensures RenamesIn(Original(c)) == RenamesIn(c.before) + (RenamesIn(c.first) + RenamesIn([c.pick]) + RenamesIn(c.rest))
    ensures ClaimsIn(Original(c)) == ClaimsIn(c.before) + (ClaimsIn(c.first) + ClaimsIn([c.pick]) + ClaimsIn(c.rest))
  {
    AfterConcat(c.start, c.before, c.first + [c.pick] + c.rest);
    AfterConcat(c.start, c.first + [c.pick], c.rest);
    AfterConcat(c.start, c.first, [c.pick]);
  }

  lemma {:induction false} PickLastRecorded(c: Cut)
    ensures RenamesIn(PickLast(c).ops) == RenamesIn(c.before) + (RenamesIn(c.first) + RenamesIn(c.rest) + RenamesIn([c.pick]))
    ensures ClaimsIn(PickLast(c).ops) == ClaimsIn(c.before) + (ClaimsIn(c.first) + ClaimsIn(c.rest) + ClaimsIn([c.pick]))
  {
    AfterConcat(c.start, c.before, c.first + c.rest + [c.pick]);
    AfterConcat(c.start, c.first + c.rest, [c.pick]);
    AfterConcat(c.start, c.first, c.rest);
  }

  lemma {:induction false} PickNamedRecorded(c: Cut)
    ensures RenamesIn(PickNamed(c).ops) == RenamesIn(c.before) + RenamesIn([c.pick]) + (RenamesIn(c.first) + RenamesIn(c.rest))
    ensures ClaimsIn(PickNamed(c).ops) == ClaimsIn(c.before) + ClaimsIn([c.pick]) + (ClaimsIn(c.first) + ClaimsIn(c.rest))
  {
    AfterConcat(c.start, c.before + [c.pick] + [NamingJob], c.first + c.rest);
    AfterConcat(c.start, c.before + [c.pick], [NamingJob]);
    AfterConcat(c.start, c.before, [c.pick]);
    AfterConcat(c.start, c.first, c.rest);
    assert RenamesIn([NamingJob]) == [] && ClaimsIn([NamingJob]) == [];
  }

  lemma {:induction false} RearrangedActs(c: Cut, ops: seq<Op>)
    requires GoodCut(c) && (ops == PickLast(c).ops || ops == PickNamed(c).ops)
    ensures OnlyActs(ops, c.start.faces)
  {
    var all := c.first + [c.pick] + c.rest;
    forall op | op in ops && op != NamingJob ensures Acts(op, c.start.faces) {
      assert op in c.before || op in all;
      if op in c.before {
        var i :| 0 <= i < |c.before| && c.before[i] == op;
      } else {
        var i :| 0 <= i < |all| && all[i] == op;
      }
    }
  }

  lemma {:induction false} FirstAt(s: Cluster, acts: seq<Op>, faces: set<FaceId>, t: int, i: nat) returns (p: nat)
    requires AllTimely(s, acts) && AllAct(acts, faces) && i < |acts| && TimeOf(acts[i]) == t
    ensures p <= i && TimeOf(acts[p]) == t && forall q :: 0 <= q < p ==> TimeOf(acts[q]) < t
    decreases i
  {
    if i == 0 || TimeOf(acts[i - 1]) < t {
      p := i;
      forall q | 0 <= q < p ensures TimeOf(acts[q]) < t {
        InOrder(s, acts, faces, q, i - 1);
      }
    } else {
      InOrder(s, acts, faces, i - 1, i);
      p := FirstAt(s, acts, faces, t, i - 1);
    }
  }

  lemma {:induction false} CutActs(start: Cluster, acts: seq<Op>, t: int, i: nat) returns (c: Cut)
    requires start.person.setAt.None? && start.claims == [] && start.renames == []
    requires AllTimely(start, acts) && AllAct(acts, start.faces)
    requires i < |acts| && TimeOf(acts[i]) == t && forall j :: 0 <= j < |acts| ==> TimeOf(acts[j]) <= t
    ensures GoodCut(c) && c.start == start && c.pick == acts[i] && c.at == t && Original(c) == acts
  {
    var p := FirstAt(start, acts, start.faces, t, i);
    c := Cut(start, acts[..p], acts[p..i], acts[i], acts[i + 1..], t);
    assert c.first + [c.pick] + c.rest == acts[p..];
    LatestFrom(start, acts, start.faces, t, p);
    ClockAt(start, acts, start.faces, p);
  }

  lemma {:induction false} LatestFrom(s: Cluster, acts: seq<Op>, faces: set<FaceId>, t: int, p: nat)
    requires AllTimely(s, acts) && AllAct(acts, faces) && p < |acts| && TimeOf(acts[p]) == t
    requires forall j :: 0 <= j < |acts| ==> TimeOf(acts[j]) <= t
    ensures AtInstant(acts[p..], faces, t)
  {
    forall j | p <= j < |acts| ensures TimeOf(acts[j]) == t {
      InOrder(s, acts, faces, p, j);
    }
  }

  lemma {:induction false} ClockAt(s: Cluster, acts: seq<Op>, faces: set<FaceId>, p: nat)
    requires AllTimely(s, acts) && AllAct(acts, faces) && p < |acts|
    ensures AllTimely(s, acts[..p]) && After(s, acts[..p]).clock <= TimeOf(acts[p])
  {
    var front, last := acts[..|acts| - 1], acts[|acts| - 1];
    if p < |front| {
      ClockAt(s, front, faces, p);
      assert front[..p] == acts[..p];
    }
  }

  /** The cut of a history at its latest instant, around any action of that instant. */
  lemma {:induction false} CutAt(h: History, op: Op) returns (c: Cut)
    requires Possible(h) && op in h.ops && Acts(op, Settled(h).faces) && LatestInstant(Settled(h), TimeOf(op))
    ensures GoodCut(c) && c.pick == op && c.at == TimeOf(op)
    ensures c.start.person.name == h.start.person.name
    ensures Original(c) == ActsOnly(h.ops, Settled(h).faces)
  {
    var faces, t := Settled(h).faces, TimeOf(op);
    var start := Cluster(Person(h.start.person.name, None, None), faces, [], [], h.start.clock);
    var acts := ActsOnly(h.ops, faces);
    DistilledTimely(h.start, h.ops, start, faces);
    ActsOnlyMeans(h.ops, faces);
    var i :| 0 <= i < |acts| && acts[i] == op;
    NoneLater(h, t);
    c := CutActs(start, acts, t, i);
  }

  lemma {:induction false} NoneLater(h: History, t: int)
    requires Possible(h) && LatestInstant(Settled(h), t)
    ensures var acts := ActsOnly(h.ops, Settled(h).faces);
            forall j :: 0 <= j < |acts| ==> Acts(acts[j], Settled(h).faces) && TimeOf(acts[j]) <= t
  {
    var acts := ActsOnly(h.ops, Settled(h).faces);
    ActsOnlyMeans(h.ops, Settled(h).faces);
    forall j | 0 <= j < |acts| ensures Acts(acts[j], Settled(h).faces) && TimeOf(acts[j]) <= t {
      assert acts[j] in acts;
      ActIsAction(h, acts[j]);
      assert ActedAs(Settled(h), NameIn(acts[j]), TimeOf(acts[j]));
    }
  }

  lemma {:induction false} ActsOnlyMeans(ops: seq<Op>, faces: set<FaceId>)
    ensures forall op :: op in ActsOnly(ops, faces) <==> op in ops && Acts(op, faces)
  {
    if ops != [] {
      ActsOnlyMeans(ops[..|ops| - 1], faces);
      assert ops == ops[..|ops| - 1] + [ops[|ops| - 1]];
    }
  }

  /** The operations that act on the cluster are the actions on it. */
  lemma {:induction false} ActIsAction(h: History, op: Op)
    requires Possible(h) && op in h.ops && Acts(op, Settled(h).faces)
    ensures if op.Renames? then RenamedAs(Settled(h), NameIn(op), TimeOf(op)) else ClaimedAs(Settled(h), NameIn(op), TimeOf(op))
  {
    Recorded(h.start, h.ops);
    RecordsMean(h.ops);
  }

  lemma {:induction false} CutSameActions(h: History, c: Cut, h': History)
    requires Possible(h) && GoodCut(c) && Original(c) == ActsOnly(h.ops, Settled(h).faces)
    requires c.start.person.name == h.start.person.name && (h' == PickLast(c) || h' == PickNamed(c))
    ensures SameActions(h, h')
  {
    RearrangedActs(c, h'.ops);
    ActsRecorded(c.start, h'.ops);
    RecordedAfresh(h.start, h.ops);
    Distilled(h.start, h.ops, h.start, Settled(h).faces);
    RearrangedCount(c, h'.ops);
  }

  lemma {:induction false} RearrangedCount(c: Cut, ops: seq<Op>)
    requires ops == PickLast(c).ops || ops == PickNamed(c).ops
    ensures multiset(RenamesIn(ops)) == multiset(RenamesIn(Original(c))) && multiset(ClaimsIn(ops)) == multiset(ClaimsIn(Original(c)))
  {
    PiecesRecorded(c);
    if ops == PickLast(c).ops {
      PickLastRecorded(c);
    } else {
      PickNamedRecorded(c);
    }
    Shuffled(RenamesIn(c.before), RenamesIn(c.first), RenamesIn([c.pick]), RenamesIn(c.rest));
    Shuffled(ClaimsIn(c.before), ClaimsIn(c.first), ClaimsIn([c.pick]), ClaimsIn(c.rest));
  }

  lemma {:induction false} Shuffled<T>(a: seq<T>, b: seq<T>, x: seq<T>, c: seq<T>)
    ensures multiset(a + (b + x + c)) == multiset(a + (b + c + x)) == multiset(a + x + (b + c))
  {
  }

  /** If the latest instant carries a rename, any name renamed to then can come out. */
  lemma {:induction false} RenameCanWin(h: History, name: string, t: int) returns (h': History)
    requires Possible(h) && LatestInstant(Settled(h), t) && RenamedAs(Settled(h), name, t)
    ensures Possible(h') && SameActions(h, h') && Settled(h').person.name == name
  {
    Recorded(h.start, h.ops);
    RecordsMean(h.ops);
    var c := CutAt(h, Renames(Rename(name, t)));
    RenameTakesOver(c);
    h' := PickLast(c);
    CutSameActions(h, c, h');
  }

  /** If it carries only claims, any name claimed then can come out. */
  lemma {:induction false} ClaimCanWin(h: History, name: string, t: int) returns (h': History)
    requires Possible(h) && LatestInstant(Settled(h), t) && ClaimedAs(Settled(h), name, t)
    requires forall a :: !RenamedAs(Settled(h), a, t)
    ensures Possible(h') && SameActions(h, h') && Settled(h').person.name == name
  {
    var s := Settled(h);
    Recorded(h.start, h.ops);
    RecordsMean(h.ops);
    var d :| d in s.claims && OnCluster(d, s.faces) && d.name == name && d.at == t;
    var c := CutAt(h, Claims(d));
    ClaimsOnly(h, c);
    FirstNamedStays(c);
    h' := PickNamed(c);
    CutSameActions(h, c, h');
  }

  lemma {:induction false} ClaimsOnly(h: History, c: Cut)
    requires Possible(h) && GoodCut(c) && Original(c) == ActsOnly(h.ops, Settled(h).faces)
    requires forall a :: !RenamedAs(Settled(h), a, c.at)
    ensures forall op :: op in c.first + [c.pick] + c.rest ==> op.Claims?
  {
    var all := c.first + [c.pick] + c.rest;
    ActsOnlyMeans(h.ops, Settled(h).faces);
    forall op | op in all ensures op.Claims? {
      var k :| 0 <= k < |all| && all[k] == op;
      assert Original(c)[|c.before| + k] == op;
      assert op in ActsOnly(h.ops, Settled(h).faces);
      ActIsAction(h, op);
    }
  }

  ghost predicate Converges(h: History) {
    forall h1, h2 :: Possible(h1) && Possible(h2) && SameActions(h, h1) && SameActions(h, h2) ==>
      Settled(h1).person.name == Settled(h2).person.name
  }

  /** Exactly when the order does not matter: all histories with the same actions on the cluster end with
      one name if and only if the latest instant is decided. */
  lemma {:induction false} ConvergesExactly(h: History)
    requires Possible(h)
    ensures Converges(h) <==> Decided(Settled(h))
  {
    var s := Settled(h);
    if Decided(s) {
      forall h1, h2 | Possible(h1) && Possible(h2) && SameActions(h, h1) && SameActions(h, h2)
        ensures Settled(h1).person.name == Settled(h2).person.name
      {
        DecidedAgrees(h, h1);
        DecidedAgrees(h, h2);
      }
    } else {
      var h1, h2 := TiesFlip(h);
    }
  }

  /** In every other case two histories with the same actions end with different names. */
  lemma {:induction false} TiesFlip(h: History) returns (h1: History, h2: History)
    requires Possible(h) && !Decided(Settled(h))
    ensures Possible(h1) && Possible(h2) && SameActions(h, h1) && SameActions(h, h2)
    ensures Settled(h1).person.name != Settled(h2).person.name
  {
    var s := Settled(h);
    var t :| LatestInstant(s, t) && !(
        && (forall a, b :: RenamedAs(s, a, t) && RenamedAs(s, b, t) ==> a == b)
        && ((forall a :: !RenamedAs(s, a, t)) ==> forall a, b :: ClaimedAs(s, a, t) && ClaimedAs(s, b, t) ==> a == b));
    if a, b :| RenamedAs(s, a, t) && RenamedAs(s, b, t) && a != b {
      h1 := RenameCanWin(h, a, t);
      h2 := RenameCanWin(h, b, t);
    } else {
      var a, b :| ClaimedAs(s, a, t) && ClaimedAs(s, b, t) && a != b;
      h1 := ClaimCanWin(h, a, t);
      h2 := ClaimCanWin(h, b, t);
    }
  }

  // --- what a rename is worth ---

  /** An organiser's rename stands: through any number of naming jobs, claims and joins, it is undone
      neither by claims that are not newer nor by anything but another rename. */
  lemma {:induction false} RenameStands(s: Cluster, ops: seq<Op>)
    requires s.person.setAt.Some? && After(s, ops).renames == s.renames
    requires forall c :: c in After(s, ops).claims && OnCluster(c, After(s, ops).faces) ==> c.at <= s.person.setAt.value
    ensures After(s, ops).person == s.person
  {
    if ops != [] {
      var front := ops[..|ops| - 1];
      var before := After(s, front);
      Recorded(s, front);
      Recorded(s, ops);
      assert |RenamesIn(ops)| == 0;
      LatestIsLatest(before.claims, before.faces);
      RenameStands(s, front);
    }
  }
}
