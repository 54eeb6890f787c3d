/** Uploads and imports racing into the same events. Each database or storage call of a request is one
    step; the unique index on live (event, checksum) pairs settles the race. */
module IngestDedupe {

  type EventId = nat
  type AssetId = nat
  type Checksum = nat
  type CallId = nat

  /** A storage key is made from the random asset id, so distinct ids have distinct keys. */
  datatype Key = OriginalKey(event: EventId, asset: AssetId, ext: string)

  datatype Asset = Asset(event: EventId, checksum: Checksum, key: Key)

  datatype Source = Upload | CloudImport

  /** Where a request is: the call it makes next, or how it ended. */
  datatype Pc =
    | FindExisting
    | CheckQuota
    | Put(asset: AssetId)
    | Insert(asset: AssetId)
    | DeleteObject(asset: AssetId)
    | FindWinner
    | Created(asset: AssetId)
    | Resolved(asset: AssetId)
    | Unresolved
    | Rejected

  datatype Call = Call(source: Source, event: EventId, checksum: Checksum, ext: string, pc: Pc)

  datatype Store = Store(
    events: set<EventId>,
    assets: map<AssetId, Asset>,
    objects: set<Key>,
    calls: map<CallId, Call>,
    // random ids are never handed out twice
    usedIds: set<AssetId>)

  predicate Holds(s: Store, e: EventId, c: Checksum, a: AssetId) {
    a in s.assets && s.assets[a].event == e && s.assets[a].checksum == c
  }

  ghost predicate Taken(s: Store, e: EventId, c: Checksum) {
    exists a :: Holds(s, e, c, a)
  }

  function KeyOf(call: Call, a: AssetId): Key {
    OriginalKey(call.event, a, call.ext)
  }

  function Goto(s: Store, id: CallId, pc: Pc): Store
    requires id in s.calls
  {
    s.(calls := s.calls[id := s.calls[id].(pc := pc)])
  }

  /** One call of request `id`. `a` is the asset a lookup returns or the id a new asset gets;
      `withinQuota` is the quota service's answer, asked of uploads only. */
  ghost predicate CallStep(s: Store, s': Store, id: CallId, a: AssetId, withinQuota: bool) {
    && id in s.calls
    && var call := s.calls[id];
       match call.pc
       case FindExisting =>
         if call.source == Upload && call.event !in s.events then s' == Goto(s, id, Rejected)
         else if Taken(s, call.event, call.checksum) then Holds(s, call.event, call.checksum, a) && s' == Goto(s, id, Resolved(a))
         else s' == Goto(s, id, CheckQuota)
       case CheckQuota =>
         if call.source == Upload && !withinQuota then s' == Goto(s, id, Rejected)
         else a !in s.usedIds && s' == Goto(s, id, Put(a)).(usedIds := s.usedIds + {a})
       case Put(asset) => s' == Goto(s, id, Insert(asset)).(objects := s.objects + {KeyOf(call, asset)})
       case Insert(asset) =>
         if Taken(s, call.event, call.checksum) then s' == Goto(s, id, DeleteObject(asset))
         else s' == Goto(s, id, Created(asset)).(assets := s.assets[asset := Asset(call.event, call.checksum, KeyOf(call, asset))])
       case DeleteObject(asset) => s' == Goto(s, id, FindWinner).(objects := s.objects - {KeyOf(call, asset)})
       case FindWinner =>
         if Taken(s, call.event, call.checksum) then Holds(s, call.event, call.checksum, a) && s' == Goto(s, id, Resolved(a))
         else s' == Goto(s, id, Unresolved)
       case _ => false
  }

  /** A new request may arrive at any time. */
  ghost predicate Arrive(s: Store, s': Store, id: CallId, call: Call) {
    id !in s.calls && call.pc == FindExisting && s' == s.(calls := s.calls[id := call])
  }

  ghost predicate Step(s: Store, s': Store) {
    || (exists id, a, withinQuota :: CallStep(s, s', id, a, withinQuota))
    || (exists id, call :: Arrive(s, s', id, call))
  }

  ghost predicate Run(run: seq<Store>) {
    run != [] && forall i :: 0 <= i < |run| - 1 ==> Step(run[i], run[i + 1])
  }

  // --- the invariant ---

  predicate OwnsObject(pc: Pc) {
    pc.Insert? || pc.DeleteObject?
  }

  predicate OwnsId(pc: Pc) {
    pc.Put? || OwnsObject(pc)
  }

  predicate SameSlot(s: Store, a: AssetId, b: AssetId) {
    && a in s.assets && b in s.assets
    && s.assets[a].event == s.assets[b].event && s.assets[a].checksum == s.assets[b].checksum
  }

  /** The checksum index: no two live assets of an event share a checksum. */
  ghost predicate UniqueChecksums(s: Store) {
    forall a, b :: SameSlot(s, a, b) ==> a == b
  }

  predicate OwnId(s: Store, id: CallId, a: AssetId) {
    id in s.calls && OwnsId(s.calls[id].pc) && s.calls[id].pc.asset == a
  }

  ghost predicate IdsRight(s: Store) {
    && (forall a :: a in s.assets ==> a in s.usedIds && s.assets[a].key.asset == a)
    && (forall id, a :: OwnId(s, id, a) ==> a in s.usedIds && a !in s.assets)
    && (forall i, j, a :: OwnId(s, i, a) && OwnId(s, j, a) ==> i == j)
  }

  ghost predicate IsAssetKey(s: Store, k: Key) {
    k.asset in s.assets && s.assets[k.asset].key == k
  }

  ghost predicate InHand(s: Store, k: Key) {
    exists id :: Hand(s, id, k)
  }

  /** Every stored object belongs to an asset row or is in the hands of one request. */
  ghost predicate ObjectsRight(s: Store) {
    forall k :: k in s.objects <==> IsAssetKey(s, k) || InHand(s, k)
  }

  /** A request that ended well names a live asset with its checksum, and a request that lost the race
      will find its winner. */
  ghost predicate CallRight(s: Store, call: Call) {
    match call.pc
    case Created(a) => Holds(s, call.event, call.checksum, a)
    case Resolved(a) => Holds(s, call.event, call.checksum, a)
    case DeleteObject(_) => Taken(s, call.event, call.checksum)
    case FindWinner => Taken(s, call.event, call.checksum)
    case Unresolved => false
    case _ => true
  }

  ghost predicate CallsRight(s: Store) {
    forall id :: id in s.calls ==> CallRight(s, s.calls[id])
  }

  ghost predicate Consistent(s: Store) {
    UniqueChecksums(s) && IdsRight(s) && ObjectsRight(s) && CallsRight(s)
  }

  ghost predicate OnlyMoves(s: Store, s': Store, id: CallId) {
    && id in s.calls && s'.calls.Keys == s.calls.Keys
    && s'.calls[id] == s.calls[id].(pc := s'.calls[id].pc)
    && forall j :: j in s.calls && j != id ==> s'.calls[j] == s.calls[j]
  }

  lemma {:induction false} AssetsGrow(s: Store, s': Store, id: CallId, a: AssetId, withinQuota: bool)
    requires IdsRight(s) && CallStep(s, s', id, a, withinQuota)
    ensures OnlyMoves(s, s', id)
    ensures forall x :: x in s.assets ==> x in s'.assets && s'.assets[x] == s.assets[x]
    ensures forall x :: x in s'.assets && x !in s.assets ==>
              s.calls[id].pc == Insert(x) && s'.calls[id].pc == Created(x) && !Taken(s, s.calls[id].event, s.calls[id].checksum)
              && s'.assets[x] == Asset(s.calls[id].event, s.calls[id].checksum, KeyOf(s.calls[id], x))
  {
    assert s.calls[id].pc.Insert? ==> OwnId(s, id, s.calls[id].pc.asset);
  }

  lemma {:induction false} StepKeepsUnique(s: Store, s': Store, id: CallId, a: AssetId, withinQuota: bool)
    requires Consistent(s) && CallStep(s, s', id, a, withinQuota)
    ensures UniqueChecksums(s')
  {
    AssetsGrow(s, s', id, a, withinQuota);
    forall x: AssetId, y: AssetId | SameSlot(s', x, y) ensures x == y {
      if x in s.assets && y in s.assets {
        assert SameSlot(s, x, y);
      } else if x in s.assets {
        assert Holds(s, s.assets[x].event, s.assets[x].checksum, x);
      } else if y in s.assets {
        assert Holds(s, s.assets[y].event, s.assets[y].checksum, y);
      }
    }
  }

  lemma {:induction false} StepKeepsIds(s: Store, s': Store, id: CallId, a: AssetId, withinQuota: bool)
    requires Consistent(s) && CallStep(s, s', id, a, withinQuota)
    ensures IdsRight(s')
  {
    AssetsGrow(s, s', id, a, withinQuota);
    // only the moving request may come to own an id, and then it is its old one or a new one
    assert forall x :: OwnId(s', id, x) ==> OwnId(s, id, x) || (s.calls[id].pc == CheckQuota && x == a && a !in s.usedIds);
    assert forall j, x :: j != id ==> OwnId(s', j, x) == OwnId(s, j, x);
    assert forall x :: x in s'.assets && x !in s.assets ==> OwnId(s, id, x) && !OwnId(s', id, x);
  }

  lemma {:induction false} StepKeepsCalls(s: Store, s': Store, id: CallId, a: AssetId, withinQuota: bool)
    requires Consistent(s) && CallStep(s, s', id, a, withinQuota)
    ensures CallsRight(s')
  {
    AssetsGrow(s, s', id, a, withinQuota);
    forall e, c, x: AssetId | Holds(s, e, c, x) ensures Holds(s', e, c, x) {
    }
    forall j | j in s'.calls ensures CallRight(s', s'.calls[j]) {
      assert CallRight(s, s.calls[j]);
      if Taken(s, s.calls[j].event, s.calls[j].checksum) {
        var x :| Holds(s, s.calls[j].event, s.calls[j].checksum, x);
        assert Holds(s', s.calls[j].event, s.calls[j].checksum, x);
      }
    }
  }

  predicate Hand(s: Store, id: CallId, k: Key) {
    id in s.calls && OwnsObject(s.calls[id].pc) && KeyOf(s.calls[id], s.calls[id].pc.asset) == k
  }

  ghost predicate OtherHand(s: Store, id: CallId, k: Key) {
    exists j :: j != id && Hand(s, j, k)
  }

  /** Requests that do not move keep what they hold. */
  lemma {:induction false} OtherHands(s: Store, s': Store, id: CallId, k: Key)
    requires OnlyMoves(s, s', id)
    ensures OtherHand(s, id, k) == OtherHand(s', id, k)
    ensures InHand(s, k) == (Hand(s, id, k) || OtherHand(s, id, k))
    ensures InHand(s', k) == (Hand(s', id, k) || OtherHand(s', id, k))
  {
    assert forall j :: j != id ==> Hand(s, j, k) == Hand(s', j, k);
  }

  lemma {:induction false} OneHand(s: Store, id: CallId, k: Key)
    requires IdsRight(s) && OwnId(s, id, k.asset)
    ensures !IsAssetKey(s, k) && !OtherHand(s, id, k)
  {
    forall j: CallId | Hand(s, j, k) ensures j == id {
      assert OwnId(s, j, k.asset);
    }
  }

  lemma {:induction false} StepKeepsObjects(s: Store, s': Store, id: CallId, a: AssetId, withinQuota: bool)
    requires Consistent(s) && CallStep(s, s', id, a, withinQuota)
    ensures ObjectsRight(s')
  {
    AssetsGrow(s, s', id, a, withinQuota);
    var call := s.calls[id];
    forall k: Key ensures k in s'.objects <==> IsAssetKey(s', k) || InHand(s', k) {
      OtherHands(s, s', id, k);
      assert k in s.objects <==> IsAssetKey(s, k) || InHand(s, k);
      if OwnsId(call.pc) && k == KeyOf(call, call.pc.asset) {
        assert OwnId(s, id, k.asset);
        OneHand(s, id, k);
      } else {
        assert !Hand(s, id, k) && !Hand(s', id, k);
        assert IsAssetKey(s', k) == IsAssetKey(s, k);
      }
    }
  }

  lemma {:induction false} ArriveKeepsConsistent(s: Store, s': Store, id: CallId, call: Call)
    requires Consistent(s) && Arrive(s, s', id, call)
    ensures Consistent(s')
  {
    assert forall j, x :: OwnId(s', j, x) == OwnId(s, j, x);
    assert forall j, k :: Hand(s', j, k) == Hand(s, j, k);
    assert forall k :: IsAssetKey(s', k) == IsAssetKey(s, k) && InHand(s', k) == InHand(s, k);
    assert forall e, c :: Taken(s, e, c) ==> Taken(s', e, c) by {
      forall e, c | Taken(s, e, c) ensures Taken(s', e, c) {
        var x :| Holds(s, e, c, x);
        assert Holds(s', e, c, x);
      }
    }
    forall j | j in s'.calls ensures CallRight(s', s'.calls[j]) {
      if j in s.calls {
        assert CallRight(s, s.calls[j]);
      }
    }
    forall x: AssetId, y: AssetId | SameSlot(s', x, y) ensures x == y {
      assert SameSlot(s, x, y);
    }
  }

  lemma {:induction false} StepKeepsConsistent(s: Store, s': Store)
    requires Consistent(s) && Step(s, s')
    ensures Consistent(s')
  {
    if id, call :| Arrive(s, s', id, call) {
      ArriveKeepsConsistent(s, s', id, call);
    } else {
      var id, a, withinQuota :| CallStep(s, s', id, a, withinQuota);
      StepKeepsUnique(s, s', id, a, withinQuota);
      StepKeepsIds(s, s', id, a, withinQuota);
      StepKeepsCalls(s, s', id, a, withinQuota);
      StepKeepsObjects(s, s', id, a, withinQuota);
    }
  }

  predicate Ended(pc: Pc) {
    pc.Created? || pc.Resolved? || pc.Unresolved? || pc.Rejected?
  }

  /** Before any request: stored originals are exactly the keys of the asset rows. */
  ghost predicate AtRest(s: Store) {
    && UniqueChecksums(s) && s.calls == map[]
    && (forall a :: a in s.assets ==> a in s.usedIds && s.assets[a].key.asset == a)
    && (forall k :: k in s.objects <==> IsAssetKey(s, k))
  }

  /** However uploads and imports interleave: no two live assets of an event share a checksum; every
      request that is accepted resolves to a live asset of its event with its checksum, and none is
      left without one; and once all have ended the stored originals are again exactly the keys of the
      asset rows, so losing the race leaves nothing behind. */
  lemma {:induction false} DedupeRace(run: seq<Store>)
    requires Run(run) && AtRest(run[0])
    ensures var s := run[|run| - 1];
            && Consistent(s)
            && UniqueChecksums(s)
            && (forall id :: id in s.calls ==> s.calls[id].pc != Unresolved)
            && (forall id :: id in s.calls && (s.calls[id].pc.Created? || s.calls[id].pc.Resolved?) ==>
                  Holds(s, s.calls[id].event, s.calls[id].checksum, s.calls[id].pc.asset))
            && ((forall id :: id in s.calls ==> Ended(s.calls[id].pc)) ==> forall k :: k in s.objects <==> IsAssetKey(s, k))
  {
    if |run| == 1 {
      assert forall k :: !InHand(run[0], k);
    } else {
      DedupeRace(run[..|run| - 1]);
      assert Step(run[|run| - 2], run[|run| - 1]);
      StepKeepsConsistent(run[|run| - 2], run[|run| - 1]);
    }
    var s := run[|run| - 1];
    forall id | id in s.calls
      ensures s.calls[id].pc != Unresolved
      ensures s.calls[id].pc.Created? || s.calls[id].pc.Resolved? ==>
                Holds(s, s.calls[id].event, s.calls[id].checksum, s.calls[id].pc.asset)
    {
      assert CallRight(s, s.calls[id]);
    }
  }

  // --- how a request ends ---

  /** One labelled step: a request arrives, or makes its next call with these answers. */
  datatype Move = Comes(id: CallId, call: Call) | Goes(id: CallId, a: AssetId, withinQuota: bool)

  ghost predicate Moved(s: Store, s': Store, m: Move) {
    match m
    case Comes(id, call) => Arrive(s, s', id, call)
    case Goes(id, a, withinQuota) => CallStep(s, s', id, a, withinQuota)
  }

  ghost predicate Moves(run: seq<Store>, moves: seq<Move>) {
    |run| == |moves| + 1 && forall k :: 0 <= k < |moves| ==> Moved(run[k], run[k + 1], moves[k])
  }

  predicate At(s: Store, id: CallId, pc: Pc) {
    id in s.calls && s.calls[id].pc == pc
  }

  /** The event of an upload was not there when it was looked up. */
  ghost predicate NoEvent(s: Store, m: Move, id: CallId) {
    m.Goes? && m.id == id && At(s, id, FindExisting) && s.calls[id].event !in s.events
  }

  /** The quota service was asked for this request, and what it said. */
  ghost predicate QuotaSaid(s: Store, m: Move, id: CallId, withinQuota: bool) {
    m.Goes? && m.id == id && At(s, id, CheckQuota) && m.withinQuota == withinQuota
  }

  ghost predicate EverNoEvent(run: seq<Store>, moves: seq<Move>, id: CallId, n: nat) {
    exists k :: 0 <= k < n && k < |moves| && k < |run| && NoEvent(run[k], moves[k], id)
  }

  ghost predicate EverQuota(run: seq<Store>, moves: seq<Move>, id: CallId, n: nat, withinQuota: bool) {
    exists k :: 0 <= k < n && k < |moves| && k < |run| && QuotaSaid(run[k], moves[k], id, withinQuota)
  }

  /** A request past its quota check has been let through if the quota was asked of it at all. */
  ghost predicate Account(call: Call, noEvent: bool, refused: bool) {
    && (call.pc.Rejected? <==> call.source == Upload && (noEvent || refused))
    && (call.source == Upload && (call.pc.FindExisting? || call.pc.CheckQuota?) ==> !noEvent && !refused)
    && (call.pc.FindExisting? || call.pc.CheckQuota? ==> !refused)
  }

  lemma {:induction false} MoveAccounts(s: Store, s': Store, m: Move, id: CallId, noEvent: bool, refused: bool)
    requires Moved(s, s', m) && id in s.calls && Account(s.calls[id], noEvent, refused)
    ensures id in s'.calls && s'.calls[id] == s.calls[id].(pc := s'.calls[id].pc)
    ensures Account(s'.calls[id], noEvent || NoEvent(s, m, id), refused || QuotaSaid(s, m, id, false))
  {
    if m.Goes? && m.id == id {
    }
  }

  lemma {:induction false} NotYetKnown(run: seq<Store>, moves: seq<Move>, id: CallId, n: nat)
    requires Moves(run, moves) && n < |run| && id !in run[n].calls
    ensures !EverNoEvent(run, moves, id, n) && !EverQuota(run, moves, id, n, false)
  {
    if n > 0 {
      assert Moved(run[n - 1], run[n], moves[n - 1]);
      assert id !in run[n - 1].calls;
      NotYetKnown(run, moves, id, n - 1);
    }
  }

  lemma {:induction false} RunAccounts(run: seq<Store>, moves: seq<Move>, id: CallId, n: nat)
    requires Moves(run, moves) && run[0].calls == map[] && n < |run| && id in run[n].calls
    ensures Account(run[n].calls[id], EverNoEvent(run, moves, id, n), EverQuota(run, moves, id, n, false))
  {
    assert Moved(run[n - 1], run[n], moves[n - 1]);
    if id in run[n - 1].calls {
      RunAccounts(run, moves, id, n - 1);
      MoveAccounts(run[n - 1], run[n], moves[n - 1], id, EverNoEvent(run, moves, id, n - 1), EverQuota(run, moves, id, n - 1, false));
    } else {
      NotYetKnown(run, moves, id, n - 1);
    }
  }

  /** Who is turned away: a request that has ended was rejected if and only if it is an upload whose event
      was not there or which the quota service refused; every other one ended with an asset. */
  lemma {:induction false} OnlyTheRefusedAreRejected(run: seq<Store>, moves: seq<Move>, id: CallId)
    requires Moves(run, moves) && AtRest(run[0]) && id in run[|run| - 1].calls && Ended(run[|run| - 1].calls[id].pc)
    ensures var n, call := |moves|, run[|run| - 1].calls[id];
            && (call.pc == Rejected <==> call.source == Upload && (EverNoEvent(run, moves, id, n) || EverQuota(run, moves, id, n, false)))
            && (call.pc != Rejected ==> call.pc.Created? || call.pc.Resolved?)
  {
    DedupeRace(run);
    RunAccounts(run, moves, id, |moves|);
  }

  // --- every request ends ---

  function CallsLeft(pc: Pc): nat {
    match pc
    case FindExisting => 6
    case CheckQuota => 5
    case Put(_) => 4
    case Insert(_) => 3
    case DeleteObject(_) => 2
    case FindWinner => 1
    case _ => 0
  }

  /** A request that has not ended can always make its next call, whatever the quota service says, and is
      nearer its end after it: six calls at most. */
  lemma {:induction false} RequestsEnd(s: Store, id: CallId, withinQuota: bool) returns (s': Store, a: AssetId)
    requires id in s.calls && !Ended(s.calls[id].pc)
    ensures CallStep(s, s', id, a, withinQuota)
    ensures forall t, b, q :: CallStep(s, t, id, b, q) ==> CallsLeft(t.calls[id].pc) < CallsLeft(s.calls[id].pc) <= 6
  {
    var call := s.calls[id];
    a := Unused(s.usedIds);
    if (call.pc == FindExisting || call.pc == FindWinner) && Taken(s, call.event, call.checksum) {
      a :| Holds(s, call.event, call.checksum, a);
    }
    s' := match call.pc
      case FindExisting =>
        if call.source == Upload && call.event !in s.events then Goto(s, id, Rejected)
        else if Taken(s, call.event, call.checksum) then Goto(s, id, Resolved(a))
        else Goto(s, id, CheckQuota)
      case CheckQuota =>
        if call.source == Upload && !withinQuota then Goto(s, id, Rejected)
        else Goto(s, id, Put(a)).(usedIds := s.usedIds + {a})
      case Put(asset) => Goto(s, id, Insert(asset)).(objects := s.objects + {KeyOf(call, asset)})
      case Insert(asset) =>
        if Taken(s, call.event, call.checksum) then Goto(s, id, DeleteObject(asset))
        else Goto(s, id, Created(asset)).(assets := s.assets[asset := Asset(call.event, call.checksum, KeyOf(call, asset))])
      case DeleteObject(asset) => Goto(s, id, FindWinner).(objects := s.objects - {KeyOf(call, asset)})
      case FindWinner => if Taken(s, call.event, call.checksum) then Goto(s, id, Resolved(a)) else Goto(s, id, Unresolved)
      case _ => s;
  }

  lemma {:induction false} Unused(ids: set<AssetId>) returns (a: AssetId)
    ensures a !in ids
  {
    a := 0;
    var rest := ids;
    while rest != {}
      invariant forall x :: x in ids && x !in rest ==> x < a
      decreases rest
    {
      var x :| x in rest;
      rest := rest - {x};
      if x >= a {
        a := x + 1;
      }
    }
  }

  // --- the first request for a checksum stores it, later ones do not ---

  /** No other request for the same content is under way. */
  ghost predicate Alone(s: Store, id: CallId) {
    id in s.calls ==>
      forall j :: j in s.calls && j != id && s.calls[j].event == s.calls[id].event && s.calls[j].checksum == s.calls[id].checksum ==>
        Ended(s.calls[j].pc)
  }

  /** On its way to storing a new asset under an id nobody used before, or there. */
  ghost predicate Storing(s: Store, id: CallId, used: set<AssetId>) {
    && id in s.calls
    && var call := s.calls[id];
       match call.pc
       case FindExisting => !Taken(s, call.event, call.checksum)
       case CheckQuota => !Taken(s, call.event, call.checksum)
       case Put(a) => !Taken(s, call.event, call.checksum) && a !in used
       case Insert(a) => !Taken(s, call.event, call.checksum) && a !in used
       case Created(a) => a !in used
       case Rejected => true
       case _ => false
  }

  lemma {:induction false} MoveStores(s: Store, s': Store, m: Move, id: CallId, used: set<AssetId>)
    requires IdsRight(s) && Moved(s, s', m) && Alone(s, id) && Storing(s, id, used) && used <= s.usedIds
    ensures Storing(s', id, used) && used <= s'.usedIds
  {
    var call := s.calls[id];
    if m.Goes? {
      AssetsGrow(s, s', m.id, m.a, m.withinQuota);
      if a :| Holds(s', call.event, call.checksum, a) && a !in s.assets {
        assert m.id == id;
      }
      forall a | Holds(s', call.event, call.checksum, a) && a in s.assets ensures Holds(s, call.event, call.checksum, a) {
      }
    } else {
      forall a ensures Holds(s', call.event, call.checksum, a) == Holds(s, call.event, call.checksum, a) {
      }
    }
  }

  /** A request whose content nobody holds when it arrives, and nobody else is ingesting meanwhile, ends
      by creating an asset under a new id, unless it is rejected. */
  lemma {:induction false} FirstRequestCreates(run: seq<Store>, moves: seq<Move>, id: CallId, i: nat, n: nat)
    requires Moves(run, moves) && AtRest(run[0]) && i <= n < |run| && At(run[i], id, FindExisting)
    requires !Taken(run[i], run[i].calls[id].event, run[i].calls[id].checksum) && forall k :: i <= k < n ==> Alone(run[k], id)
    ensures Storing(run[n], id, run[i].usedIds) && run[i].usedIds <= run[n].usedIds
    ensures Ended(run[n].calls[id].pc) ==>
              run[n].calls[id].pc == Rejected
              || (run[n].calls[id].pc.Created? && run[n].calls[id].pc.asset !in run[i].usedIds)
    decreases n
  {
    if i < n {
      FirstRequestCreates(run, moves, id, i, n - 1);
      ReachedRight(run, moves, n - 1);
      MoveStores(run[n - 1], run[n], moves[n - 1], id, run[i].usedIds);
    }
  }

  /** A request whose content an asset holds when it arrives costs neither storage nor quota: it is resolved
      at its first call, or turned away because its event is gone. */
  lemma {:induction false} DuplicateIsResolvedAtOnce(run: seq<Store>, moves: seq<Move>, id: CallId, i: nat, n: nat)
    requires Moves(run, moves) && AtRest(run[0]) && i <= n < |run| && At(run[i], id, FindExisting)
    requires Taken(run[i], run[i].calls[id].event, run[i].calls[id].checksum)
    ensures id in run[n].calls && Taken(run[n], run[n].calls[id].event, run[n].calls[id].checksum)
    ensures run[n].calls[id] == run[i].calls[id].(pc := run[n].calls[id].pc)
    ensures var pc := run[n].calls[id].pc; pc == FindExisting || pc.Resolved? || pc == Rejected
    ensures !EverQuotaSince(run, moves, id, i, n)
    decreases n
  {
    if i < n {
      DuplicateIsResolvedAtOnce(run, moves, id, i, n - 1);
      ReachedRight(run, moves, n - 1);
      DuplicateMove(run[n - 1], run[n], moves[n - 1], id);
    }
  }

  lemma {:induction false} DuplicateMove(s: Store, s': Store, m: Move, id: CallId)
    requires IdsRight(s) && Moved(s, s', m) && id in s.calls && Taken(s, s.calls[id].event, s.calls[id].checksum)
    requires s.calls[id].pc == FindExisting || s.calls[id].pc.Resolved? || s.calls[id].pc == Rejected
    ensures id in s'.calls && s'.calls[id] == s.calls[id].(pc := s'.calls[id].pc)
    ensures Taken(s', s.calls[id].event, s.calls[id].checksum)
    ensures s'.calls[id].pc == FindExisting || s'.calls[id].pc.Resolved? || s'.calls[id].pc == Rejected
    ensures forall answer :: !QuotaSaid(s, m, id, answer)
  {
    StaysTaken(s, s', m, s.calls[id].event, s.calls[id].checksum);
  }

  lemma {:induction false} ReachedRight(run: seq<Store>, moves: seq<Move>, n: nat)
    requires Moves(run, moves) && AtRest(run[0]) && n < |run|
    ensures IdsRight(run[n])
  {
    DedupeRace(run[..n + 1]);
    assert run[..n + 1][n] == run[n];
  }

  ghost predicate EverQuotaSince(run: seq<Store>, moves: seq<Move>, id: CallId, i: nat, n: nat) {
    exists k :: i <= k < n && k < |moves| && k < |run| && (QuotaSaid(run[k], moves[k], id, true) || QuotaSaid(run[k], moves[k], id, false))
  }

  lemma {:induction false} StaysTaken(s: Store, s': Store, m: Move, e: EventId, c: Checksum)
    requires IdsRight(s) && Moved(s, s', m) && Taken(s, e, c)
    ensures Taken(s', e, c)
  {
    var a :| Holds(s, e, c, a);
    if m.Goes? {
      AssetsGrow(s, s', m.id, m.a, m.withinQuota);
    }
    assert Holds(s', e, c, a);
  }
}
