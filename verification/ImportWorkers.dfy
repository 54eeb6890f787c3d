/** Cloud import, second half: the `ImportFile` workers of one job, run concurrently. Every database
    statement is one step, so the steps of different workers interleave freely. A worker is named
    after the item it handles. */
module ImportWorkers {

  import opened Common
  import opened ImportListing

  /** What a download came to. */
  datatype Verdict = Stored | Duplicate | Broken

  function StatusOf(v: Verdict): ItemStatus {
    match v
    case Stored => Done
    case Duplicate => SkippedDuplicate
    case Broken => Failed
  }

  /** Where a worker is: the statement it runs next. */
  datatype Pc =
    | ReadItem
    | ReadJob
    | MarkDownloading
    | Fetch
    | MarkPending
    | MarkVerdict(verdict: Verdict)
    | Bump(verdict: Verdict)
    | CountRemaining
    | SawNone
    | SawImporting
    | Finished

  datatype Import = Import(
    status: JobStatus,
    total: nat,
    done: nat,
    skipped: nat,
    failed: nat,
    items: map<RemoteId, ItemStatus>,
    workers: map<RemoteId, Pc>)

  predicate Open(status: ItemStatus) {
    status == Pending || status == Downloading
  }

  predicate NoneOpen(s: Import) {
    forall i :: i in s.items ==> !Open(s.items[i])
  }

  function Mark(s: Import, i: RemoteId, status: ItemStatus, pc: Pc): Import {
    s.(items := s.items[i := status], workers := s.workers[i := pc])
  }

  function Bumped(s: Import, v: Verdict): Import {
    match v
    case Stored => s.(done := s.done + 1)
    case Duplicate => s.(skipped := s.skipped + 1)
    case Broken => s.(failed := s.failed + 1)
  }

  /** One statement of worker `i`. `outcome` is what a download came to; `None` means rate-limited. */
  ghost predicate WorkerStep(s: Import, s': Import, i: RemoteId, outcome: Option<Verdict>) {
    && i in s.workers && i in s.items
    && match s.workers[i]
       case ReadItem => s' == s.(workers := s.workers[i := if s.items[i] == Pending then ReadJob else Finished])
       case ReadJob => s' == s.(workers := s.workers[i := if s.status == Cancelled then Finished else MarkDownloading])
       case MarkDownloading => s' == Mark(s, i, Downloading, Fetch)
       case Fetch => s' == s.(workers := s.workers[i := if outcome.Some? then MarkVerdict(outcome.value) else MarkPending])
       // the rate-limit error returns the queue job to waiting, where it starts over
       case MarkPending => s' == Mark(s, i, Pending, ReadItem)
       case MarkVerdict(v) => s' == Mark(s, i, StatusOf(v), Bump(v))
       case Bump(v) => s' == Bumped(s, v).(workers := s.workers[i := CountRemaining])
       case CountRemaining => s' == s.(workers := s.workers[i := if NoneOpen(s) then SawNone else Finished])
       case SawNone => s' == s.(workers := s.workers[i := if s.status == Importing then SawImporting else Finished])
       case SawImporting => s' == s.(status := JobDone, workers := s.workers[i := Finished])
       case Finished => false
  }

  ghost predicate Step(s: Import, s': Import) {
    exists i, outcome :: WorkerStep(s, s', i, outcome)
  }

  ghost predicate Run(run: seq<Import>) {
    run != [] && forall k :: 0 <= k < |run| - 1 ==> Step(run[k], run[k + 1])
  }

  ghost predicate AllFinished(s: Import) {
    forall i :: i in s.workers ==> s.workers[i] == Finished
  }

  // --- the invariant ---

  predicate Fits(status: ItemStatus, pc: Pc) {
    match pc
    case ReadItem | ReadJob | MarkDownloading => status == Pending
    case Fetch | MarkPending | MarkVerdict(_) => status == Downloading
    case Bump(v) => status == StatusOf(v)
    case _ => !Open(status)
  }

  /** The worker still owes the job a look at how many items remain. */
  predicate OwesClosing(pc: Pc) {
    pc.Bump? || pc == CountRemaining || pc == SawNone || pc == SawImporting
  }

  /** Items of a status whose counter has been bumped. */
  ghost function Counted(s: Import, status: ItemStatus): set<RemoteId> {
    set i | i in s.items && s.items[i] == status && !(i in s.workers && s.workers[i].Bump?)
  }

  ghost predicate CountersRight(s: Import) {
    && s.total == |s.items|
    && s.done == |Counted(s, Done)|
    && s.skipped == |Counted(s, SkippedDuplicate)|
    && s.failed == |Counted(s, Failed)|
  }

  ghost predicate WorkersRight(s: Import) {
    && s.workers.Keys <= s.items.Keys
    && (forall i :: i in s.items && Open(s.items[i]) ==> i in s.workers)
    && (forall i :: i in s.workers ==> Fits(s.items[i], s.workers[i]))
  }

  ghost predicate ClosingRight(s: Import) {
    && (s.status == Importing || s.status == JobDone)
    && (forall i :: i in s.workers && (s.workers[i] == SawNone || s.workers[i] == SawImporting) ==> NoneOpen(s))
    && (s.status == JobDone ==> NoneOpen(s))
    && (s.status == Importing && NoneOpen(s) ==> exists i :: i in s.workers && OwesClosing(s.workers[i]))
  }

  ghost predicate Consistent(s: Import) {
    WorkersRight(s) && ClosingRight(s) && CountersRight(s)
  }

  lemma {:induction false} StepKeepsWorkers(s: Import, s': Import, i: RemoteId, outcome: Option<Verdict>)
    requires Consistent(s) && WorkerStep(s, s', i, outcome)
    ensures WorkersRight(s')
  {
    assert Fits(s.items[i], s.workers[i]);
    forall j | j in s'.workers ensures Fits(s'.items[j], s'.workers[j]) {
      if j != i {
        assert Fits(s.items[j], s.workers[j]);
      }
    }
  }

  /** Once nothing is open, nothing opens again. */
  lemma {:induction false} NoneOpenIsStable(s: Import, s': Import, i: RemoteId, outcome: Option<Verdict>)
    requires WorkersRight(s) && WorkerStep(s, s', i, outcome) && NoneOpen(s)
    ensures NoneOpen(s') && s'.items == s.items
  {
  }

  lemma {:induction false} StepKeepsClosing(s: Import, s': Import, i: RemoteId, outcome: Option<Verdict>)
    requires Consistent(s) && WorkerStep(s, s', i, outcome)
    ensures ClosingRight(s')
  {
    assert Fits(s.items[i], s.workers[i]);
    if NoneOpen(s) {
      NoneOpenIsStable(s, s', i, outcome);
    }
    StepKeepsWorkers(s, s', i, outcome);
    assert Fits(s'.items[i], s'.workers[i]);
    assert s.workers[i] == CountRemaining ==> s'.items == s.items;
    // a worker that stops owing has either seen an open item or closed the job
    assert s'.status == Importing && NoneOpen(s') ==> OwesClosing(s'.workers[i]);
  }

  ghost predicate SameBut(s: Import, s': Import, i: RemoteId) {
    && s'.items.Keys == s.items.Keys && s'.workers.Keys == s.workers.Keys
    && (forall j :: j in s.items && j != i ==> s'.items[j] == s.items[j])
    && (forall j :: j in s.workers && j != i ==> s'.workers[j] == s.workers[j])
  }

  ghost predicate IsCounted(s: Import, status: ItemStatus, i: RemoteId) {
    i in s.items && s.items[i] == status && !(i in s.workers && s.workers[i].Bump?)
  }

  lemma {:induction false} CountedChange(s: Import, s': Import, i: RemoteId, status: ItemStatus, grows: bool)
    requires SameBut(s, s', i)
    requires if grows then IsCounted(s', status, i) && !IsCounted(s, status, i) else IsCounted(s', status, i) == IsCounted(s, status, i)
    ensures |Counted(s', status)| == |Counted(s, status)| + if grows then 1 else 0
  {
    var before, after := Counted(s, status), Counted(s', status);
    assert forall j :: j in before <==> IsCounted(s, status, j);
    assert forall j :: j in after <==> IsCounted(s', status, j);
    assert after == if grows then before + {i} else before;
  }

  lemma {:induction false} CountedStep(s: Import, s': Import, i: RemoteId, outcome: Option<Verdict>, status: ItemStatus)
    requires Consistent(s) && WorkerStep(s, s', i, outcome) && !Open(status)
    ensures |Counted(s', status)| ==
              |Counted(s, status)| + if s.workers[i].Bump? && StatusOf(s.workers[i].verdict) == status then 1 else 0
  {
    assert SameBut(s, s', i);
    assert Fits(s.items[i], s.workers[i]);
    CountedChange(s, s', i, status, s.workers[i].Bump? && StatusOf(s.workers[i].verdict) == status);
  }

  lemma {:induction false} StepKeepsConsistent(s: Import, s': Import)
    requires Consistent(s) && Step(s, s')
    ensures Consistent(s') && s'.total == s.total
  {
    var i, outcome :| WorkerStep(s, s', i, outcome);
    StepKeepsWorkers(s, s', i, outcome);
    StepKeepsClosing(s, s', i, outcome);
    StepKeepsCounters(s, s', i, outcome);
  }

  lemma {:induction false} StepKeepsCounters(s: Import, s': Import, i: RemoteId, outcome: Option<Verdict>)
    requires Consistent(s) && WorkerStep(s, s', i, outcome)
    ensures CountersRight(s') && s'.total == s.total
  {
    CountedStep(s, s', i, outcome, Done);
    CountedStep(s, s', i, outcome, SkippedDuplicate);
    CountedStep(s, s', i, outcome, Failed);
    assert s'.items.Keys == s.items.Keys;
    assert |s'.items| == |s'.items.Keys| && |s.items| == |s.items.Keys|;
  }

  /** What the listing hands over: the job's own items, with a worker for each pending one. */
  ghost function Begin(items: map<RemoteId, Item>, job: JobId, total: nat, skipped: nat): Import {
    var mine := map i | i in ItemsOf(items, job) :: items[i].status;
    var pending := PendingOf(items, job);
    Import(if pending == {} then JobDone else Importing, total, 0, skipped, 0, mine, map i | i in pending :: ReadItem)
  }

  lemma {:induction false} ListingBegins(items: map<RemoteId, Item>, job: JobId, files: seq<RemoteFile>)
    requires DistinctIds(files) && ItemsOf(items, job) <= Ids(files)
    ensures Consistent(Begin(ListAll(items, job, files), job, |files|, CountSkipped(items, files)))
  {
    ListingCounts(items, job, files);
    BeginsConsistent(ListAll(items, job, files), job, |files|, CountSkipped(items, files));
  }

  lemma {:induction false} BeginsConsistent(r: map<RemoteId, Item>, job: JobId, total: nat, skipped: nat)
    requires ItemsOf(r, job) == PendingOf(r, job) + SkippedOf(r, job)
    requires |ItemsOf(r, job)| == total && |SkippedOf(r, job)| == skipped
    ensures Consistent(Begin(r, job, total, skipped))
  {
    var s := Begin(r, job, total, skipped);
    BeginCounters(r, job, total, skipped);
    assert s.items.Keys == ItemsOf(r, job) && s.workers.Keys == PendingOf(r, job);
    if s.status == Importing {
      var i :| i in PendingOf(r, job);
      assert Open(s.items[i]);
    }
  }

  lemma {:induction false} BeginCounters(r: map<RemoteId, Item>, job: JobId, total: nat, skipped: nat)
    requires ItemsOf(r, job) == PendingOf(r, job) + SkippedOf(r, job)
    requires |ItemsOf(r, job)| == total && |SkippedOf(r, job)| == skipped
    ensures CountersRight(Begin(r, job, total, skipped))
  {
    var s := Begin(r, job, total, skipped);
    assert s.items.Keys == ItemsOf(r, job);
    assert |s.items| == |s.items.Keys|;
    assert Counted(s, SkippedDuplicate) == SkippedOf(r, job);
    assert Counted(s, Done) == {} && Counted(s, Failed) == {};
  }

  lemma {:induction false} RunKeepsConsistent(run: seq<Import>, n: nat)
    requires Run(run) && Consistent(run[0]) && n < |run|
    ensures Consistent(run[n]) && run[n].total == run[0].total
  {
    if n > 0 {
      RunKeepsConsistent(run, n - 1);
      assert Step(run[n - 1], run[n]);
      StepKeepsConsistent(run[n - 1], run[n]);
    }
  }

  ghost function With(s: Import, status: ItemStatus): set<RemoteId> {
    set i | i in s.items && s.items[i] == status
  }

  lemma {:induction false} AllCounted(s: Import, status: ItemStatus)
    requires AllFinished(s)
    ensures Counted(s, status) == With(s, status)
  {
  }

  lemma {:induction false} ThreeKinds(s: Import)
    requires NoneOpen(s)
    ensures |With(s, Done)| + |With(s, SkippedDuplicate)| + |With(s, Failed)| == |s.items|
  {
    var done, skipped, failed := With(s, Done), With(s, SkippedDuplicate), With(s, Failed);
    assert s.items.Keys == done + skipped + failed;
    assert |done + skipped| == |done| + |skipped|;
    assert |(done + skipped) + failed| == |done + skipped| + |failed|;
    assert |s.items| == |s.items.Keys|;
  }

  lemma {:induction false} FinishedAddsUp(s: Import)
    requires Consistent(s) && AllFinished(s)
    ensures s.status == JobDone && NoneOpen(s)
    ensures s.done + s.skipped + s.failed == s.total
    ensures s.done == |With(s, Done)| && s.skipped == |With(s, SkippedDuplicate)| && s.failed == |With(s, Failed)|
  {
    forall i | i in s.items ensures !Open(s.items[i]) {
      if i in s.workers {
        assert Fits(s.items[i], s.workers[i]);
      }
    }
    AllCounted(s, Done);
    AllCounted(s, SkippedDuplicate);
    AllCounted(s, Failed);
    ThreeKinds(s);
  }

  /** Under every interleaving of the workers' statements, from the state the listing of a tree with
      distinct remote ids leaves, the job is never `done` while an item is open; and once every worker
      has finished it is `done`, and each counter is the number of items that ended that way. */
  lemma {:induction false} ImportCompletes(items: map<RemoteId, Item>, job: JobId, files: seq<RemoteFile>, run: seq<Import>)
    requires DistinctIds(files) && ItemsOf(items, job) <= Ids(files)
    requires Run(run) && run[0] == Begin(ListAll(items, job, files), job, |files|, CountSkipped(items, files))
    ensures var s := run[|run| - 1];
            && (s.status == JobDone ==> NoneOpen(s))
            && s.total == |files|
            && (AllFinished(s) ==>
                  && s.status == JobDone && NoneOpen(s)
                  && s.done + s.skipped + s.failed == |files|
                  && s.done == |With(s, Done)| && s.skipped == |With(s, SkippedDuplicate)| && s.failed == |With(s, Failed)|)
  {
    ListingBegins(items, job, files);
    RunKeepsConsistent(run, |run| - 1);
    var s := run[|run| - 1];
    if AllFinished(s) {
      FinishedAddsUp(s);
    }
  }

  // --- workers do not get stuck ---

  function StatementsLeft(pc: Pc): nat {
    match pc
    case ReadItem => 9
    case ReadJob => 8
    case MarkDownloading => 7
    case Fetch => 6
    case MarkVerdict(_) => 5
    case MarkPending => 5
    case Bump(_) => 4
    case CountRemaining => 3
    case SawNone => 2
    case SawImporting => 1
    case Finished => 0
  }

  /** A worker that has not finished can always run its next statement, whatever its download comes to, and
      is then nearer its end, unless it was put off by the provider: nine statements at most. */
  lemma {:induction false} WorkersMove(s: Import, i: RemoteId, outcome: Option<Verdict>) returns (s': Import)
    requires i in s.workers && i in s.items && s.workers[i] != Finished
    ensures WorkerStep(s, s', i, outcome)
    ensures forall t, o :: WorkerStep(s, t, i, o) ==>
              i in t.workers && (s.workers[i] != MarkPending ==> StatementsLeft(t.workers[i]) < StatementsLeft(s.workers[i]))
    ensures forall t, o :: WorkerStep(s, t, i, o) && i in t.workers && t.workers[i] == MarkPending ==> s.workers[i] == Fetch && o.None?
  {
    s' := match s.workers[i]
      case ReadItem => s.(workers := s.workers[i := if s.items[i] == Pending then ReadJob else Finished])
      case ReadJob => s.(workers := s.workers[i := if s.status == Cancelled then Finished else MarkDownloading])
      case MarkDownloading => Mark(s, i, Downloading, Fetch)
      case Fetch => s.(workers := s.workers[i := if outcome.Some? then MarkVerdict(outcome.value) else MarkPending])
      case MarkPending => Mark(s, i, Pending, ReadItem)
      case MarkVerdict(v) => Mark(s, i, StatusOf(v), Bump(v))
      case Bump(v) => Bumped(s, v).(workers := s.workers[i := CountRemaining])
      case CountRemaining => s.(workers := s.workers[i := if NoneOpen(s) then SawNone else Finished])
      case SawNone => s.(workers := s.workers[i := if s.status == Importing then SawImporting else Finished])
      case SawImporting => s.(status := JobDone, workers := s.workers[i := Finished])
      case Finished => s;
  }

  // --- every item ends as its last download did ---

  /** A run with its moves: which worker, and what its download came to if it is at one. */
  ghost predicate Moves(run: seq<Import>, moves: seq<(RemoteId, Option<Verdict>)>) {
    |run| == |moves| + 1 && forall k :: 0 <= k < |moves| ==> WorkerStep(run[k], run[k + 1], moves[k].0, moves[k].1)
  }

  /** What the latest download of item `i` before step `n` came to; `None` if none did or it was put off. */
  ghost function LastVerdict(run: seq<Import>, moves: seq<(RemoteId, Option<Verdict>)>, i: RemoteId, n: nat): Option<Verdict>
    requires n <= |moves| < |run|
  {
    if n == 0 then None
    else if moves[n - 1].0 == i && i in run[n - 1].workers && run[n - 1].workers[i] == Fetch then moves[n - 1].1
    else LastVerdict(run, moves, i, n - 1)
  }

  /** A stored file is recorded as done, a duplicate as skipped, a broken one as failed. */
  ghost predicate Records(status: ItemStatus, verdict: Option<Verdict>) {
    && (status == Done ==> verdict == Some(Stored))
    && (status == SkippedDuplicate ==> verdict == Some(Duplicate))
    && (status == Failed ==> verdict == Some(Broken))
  }

  ghost predicate Honours(s: Import, i: RemoteId, verdict: Option<Verdict>) {
    i in s.workers && i in s.items ==>
      Records(s.items[i], verdict) && (s.workers[i].MarkVerdict? ==> verdict == Some(s.workers[i].verdict))
  }

  lemma {:induction false} MoveHonours(s: Import, s': Import, i: RemoteId, outcome: Option<Verdict>, j: RemoteId, verdict: Option<Verdict>)
    requires WorkersRight(s) && WorkerStep(s, s', i, outcome) && Honours(s, j, verdict)
    ensures Honours(s', j, if i == j && s.workers[i] == Fetch then outcome else verdict)
  {
    assert Fits(s.items[i], s.workers[i]);
  }

  lemma {:induction false} MovesAreSteps(run: seq<Import>, moves: seq<(RemoteId, Option<Verdict>)>)
    requires Moves(run, moves)
    ensures Run(run)
  {
    forall k | 0 <= k < |run| - 1 ensures Step(run[k], run[k + 1]) {
      assert WorkerStep(run[k], run[k + 1], moves[k].0, moves[k].1);
    }
  }

  lemma {:induction false} RunHonours(run: seq<Import>, moves: seq<(RemoteId, Option<Verdict>)>, i: RemoteId, n: nat)
    requires Moves(run, moves) && Consistent(run[0]) && n < |run|
    requires forall j :: j in run[0].workers ==> run[0].workers[j] == ReadItem
    ensures Consistent(run[n]) && Honours(run[n], i, LastVerdict(run, moves, i, n))
  {
    if n == 0 {
      assert i in run[0].workers ==> Fits(run[0].items[i], run[0].workers[i]);
    } else {
      RunHonours(run, moves, i, n - 1);
      MovesAreSteps(run, moves);
      RunKeepsConsistent(run, n);
      MoveHonours(run[n - 1], run[n], moves[n - 1].0, moves[n - 1].1, i, LastVerdict(run, moves, i, n - 1));
    }
  }

  /** However the workers interleave, an item that is no longer open has the status its own last download
      earned, whatever happened to other items and however often it was put off before. */
  lemma {:induction false} VerdictsAreRecorded(items: map<RemoteId, Item>, job: JobId, files: seq<RemoteFile>, run: seq<Import>,
                                               moves: seq<(RemoteId, Option<Verdict>)>, i: RemoteId, n: nat)
    requires DistinctIds(files) && ItemsOf(items, job) <= Ids(files)
    requires Moves(run, moves) && run[0] == Begin(ListAll(items, job, files), job, |files|, CountSkipped(items, files))
    requires n < |run| && i in run[n].workers
    ensures i in run[n].items && Records(run[n].items[i], LastVerdict(run, moves, i, n))
  {
    ListingBegins(items, job, files);
    RunHonours(run, moves, i, n);
  }
}
