/** The MIGraphX compile lock of the machine-learning sidecar: double-checked locking around the first
    run of every input signature, by any number of threads. Each helper that takes the registry lock
    is one step; waiting for a model lock is a step that is enabled only when the lock is free. */
module OrtSession {

  import opened Common

  type ThreadId = nat
  type Model = nat
  type Signature = nat
  type LockId = nat

  /** Where a thread is inside `run`. `Compiling` is the session run under the model lock, `Running`
      the one outside it. */
  datatype Pc =
    | FirstCheck
    | GetLock
    | Acquire(lock: LockId)
    | SecondCheck(lock: LockId)
    | Compiling(lock: LockId)
    | MarkCompiled(lock: LockId)
    | ReleaseReturn(lock: LockId)
    | ReleaseRaise(lock: LockId)
    | ReleaseRun(lock: LockId)
    | Running
    | Returned
    | Raised

  datatype Thread = Thread(model: Model, signature: Signature, pc: Pc)

  datatype Sidecar = Sidecar(
    modelLocks: map<Model, LockId>,
    compiled: set<(Model, Signature)>,
    holder: map<LockId, ThreadId>,
    threads: map<ThreadId, Thread>)

  function Key(t: Thread): (Model, Signature) {
    (t.model, t.signature)
  }

  function Goto(s: Sidecar, i: ThreadId, pc: Pc): Sidecar
    requires i in s.threads
  {
    s.(threads := s.threads[i := s.threads[i].(pc := pc)])
  }

  /** What thread `i` does next. `ok` tells whether a session run returns or raises; `newLock` is the
      lock object a first request for a model creates. */
  function Advance(s: Sidecar, i: ThreadId, ok: bool, newLock: LockId): Sidecar
    requires i in s.threads
  {
    var t := s.threads[i];
    match t.pc
    case FirstCheck => Goto(s, i, if Key(t) in s.compiled then Running else GetLock)
    case GetLock =>
      if t.model in s.modelLocks then Goto(s, i, Acquire(s.modelLocks[t.model]))
      else Goto(s, i, Acquire(newLock)).(modelLocks := s.modelLocks[t.model := newLock])
    case Acquire(l) => Goto(s, i, SecondCheck(l)).(holder := s.holder[l := i])
    case SecondCheck(l) => Goto(s, i, if Key(t) in s.compiled then ReleaseRun(l) else Compiling(l))
    case Compiling(l) => Goto(s, i, if ok then MarkCompiled(l) else ReleaseRaise(l))
    case MarkCompiled(l) => Goto(s, i, ReleaseReturn(l)).(compiled := s.compiled + {Key(t)})
    case ReleaseReturn(l) => Goto(s, i, Returned).(holder := s.holder - {l})
    case ReleaseRaise(l) => Goto(s, i, Raised).(holder := s.holder - {l})
    case ReleaseRun(l) => Goto(s, i, Running).(holder := s.holder - {l})
    case Running => Goto(s, i, if ok then Returned else Raised)
    case _ => s
  }

  predicate Over(pc: Pc) {
    pc == Returned || pc == Raised
  }

  /** A lock is acquired only when nobody holds it, and a new lock is a new object. */
  ghost predicate ThreadStep(s: Sidecar, s': Sidecar, i: ThreadId, ok: bool, newLock: LockId) {
    && i in s.threads && !Over(s.threads[i].pc)
    && (s.threads[i].pc.Acquire? ==> s.threads[i].pc.lock !in s.holder)
    && (forall m :: m in s.modelLocks ==> s.modelLocks[m] != newLock)
    && s' == Advance(s, i, ok, newLock)
  }

  /** A thread calls `run`, for any model and any inputs. */
  ghost predicate CallStep(s: Sidecar, s': Sidecar, i: ThreadId, model: Model, signature: Signature) {
    && (i in s.threads ==> Over(s.threads[i].pc))
    && s' == s.(threads := s.threads[i := Thread(model, signature, FirstCheck)])
  }

  ghost predicate Step(s: Sidecar, s': Sidecar) {
    || (exists i, ok, newLock :: ThreadStep(s, s', i, ok, newLock))
    || (exists i, model, signature :: CallStep(s, s', i, model, signature))
  }

  ghost predicate Run(run: seq<Sidecar>) {
    run != [] && forall i :: 0 <= i < |run| - 1 ==> Step(run[i], run[i + 1])
  }

  const INITIAL: Sidecar := Sidecar(map[], {}, map[], map[])

  // --- the invariant ---

  /** The lock a thread has been given, whether or not it holds it. */
  function LockOf(pc: Pc): Option<LockId> {
    match pc
    case Acquire(l) => Some(l)
    case SecondCheck(l) => Some(l)
    case Compiling(l) => Some(l)
    case MarkCompiled(l) => Some(l)
    case ReleaseReturn(l) => Some(l)
    case ReleaseRaise(l) => Some(l)
    case ReleaseRun(l) => Some(l)
    case _ => None
  }

  predicate Inside(pc: Pc) {
    LockOf(pc).Some? && !pc.Acquire?
  }

  ghost predicate ThreadRight(s: Sidecar, i: ThreadId)
    requires i in s.threads
  {
    var t := s.threads[i];
    && (LockOf(t.pc).Some? ==> t.model in s.modelLocks && s.modelLocks[t.model] == LockOf(t.pc).value)
    && (Inside(t.pc) ==> LockOf(t.pc).value in s.holder && s.holder[LockOf(t.pc).value] == i)
    && (t.pc.Running? || t.pc.ReleaseRun? || t.pc.ReleaseReturn? || t.pc.Returned? ==> Key(t) in s.compiled)
    && (t.pc.Compiling? || t.pc.MarkCompiled? ==> Key(t) !in s.compiled)
  }

  ghost predicate OneLockPerModel(s: Sidecar) {
    forall m, n :: m in s.modelLocks && n in s.modelLocks && s.modelLocks[m] == s.modelLocks[n] ==> m == n
  }

  ghost predicate HoldersInside(s: Sidecar) {
    forall l :: l in s.holder ==> s.holder[l] in s.threads && LockOf(s.threads[s.holder[l]].pc) == Some(l) && Inside(s.threads[s.holder[l]].pc)
  }

  ghost predicate Right(s: Sidecar) {
    && (forall i :: i in s.threads ==> ThreadRight(s, i))
    && OneLockPerModel(s) && HoldersInside(s)
  }

  lemma {:induction false} OthersStayRight(s: Sidecar, s': Sidecar, i: ThreadId, ok: bool, newLock: LockId, j: ThreadId)
    requires Right(s) && ThreadStep(s, s', i, ok, newLock) && j in s.threads && j != i
    ensures ThreadRight(s', j)
  {
    assert ThreadRight(s, i) && ThreadRight(s, j);
    assert s'.threads[j] == s.threads[j];
  }

  lemma {:induction false} MoverStaysRight(s: Sidecar, s': Sidecar, i: ThreadId, ok: bool, newLock: LockId)
    requires Right(s) && ThreadStep(s, s', i, ok, newLock)
    ensures ThreadRight(s', i) && OneLockPerModel(s')
  {
  }

  lemma {:induction false} HoldersStayInside(s: Sidecar, s': Sidecar, i: ThreadId, ok: bool, newLock: LockId)
    requires Right(s) && ThreadStep(s, s', i, ok, newLock)
    ensures HoldersInside(s')
  {
    assert ThreadRight(s, i);
    forall l | l in s'.holder
      ensures s'.holder[l] in s'.threads
      ensures LockOf(s'.threads[s'.holder[l]].pc) == Some(l) && Inside(s'.threads[s'.holder[l]].pc)
    {
      assert l in s.holder || s.threads[i].pc == Acquire(l);
    }
  }

  lemma {:induction false} StepKeepsRight(s: Sidecar, s': Sidecar)
    requires Right(s) && Step(s, s')
    ensures Right(s')
  {
    if i, ok, newLock :| ThreadStep(s, s', i, ok, newLock) {
      forall j | j in s'.threads ensures ThreadRight(s', j) {
        if j == i {
          MoverStaysRight(s, s', i, ok, newLock);
        } else {
          OthersStayRight(s, s', i, ok, newLock, j);
        }
      }
      MoverStaysRight(s, s', i, ok, newLock);
      HoldersStayInside(s, s', i, ok, newLock);
    } else {
      var i, model, signature :| CallStep(s, s', i, model, signature);
      forall j | j in s'.threads ensures ThreadRight(s', j) {
        if j != i {
          assert ThreadRight(s, j);
        }
      }
    }
  }

  lemma {:induction false} RunKeepsRight(run: seq<Sidecar>, n: nat)
    requires Run(run) && run[0] == INITIAL && n < |run|
    ensures Right(run[n])
  {
    if n > 0 {
      RunKeepsRight(run, n - 1);
      assert Step(run[n - 1], run[n]);
      StepKeepsRight(run[n - 1], run[n]);
    }
  }

  // --- what it gives ---

  /** The thread is inside a session run of inputs that have not been compiled. */
  predicate RunsUncompiled(s: Sidecar, i: ThreadId) {
    i in s.threads && (s.threads[i].pc.Running? || s.threads[i].pc.Compiling?) && Key(s.threads[i]) !in s.compiled
  }

  /** At every moment of every run: a session run outside the model lock is for a compiled signature;
      two threads are never in a session run of uncompiled inputs of one model at once; and the
      thread in such a run holds the model's lock. A raising compile run changes none of it. */
  lemma {:induction false} CompilesOneAtATime(run: seq<Sidecar>, n: nat)
    requires Run(run) && run[0] == INITIAL && n < |run|
    ensures var s := run[n];
            && (forall i :: i in s.threads && s.threads[i].pc == Running ==> Key(s.threads[i]) in s.compiled)
            && (forall i, j :: RunsUncompiled(s, i) && RunsUncompiled(s, j) && s.threads[i].model == s.threads[j].model ==> i == j)
            && (forall i :: RunsUncompiled(s, i) ==>
                  var m := s.threads[i].model; m in s.modelLocks && s.modelLocks[m] in s.holder && s.holder[s.modelLocks[m]] == i)
  {
    RunKeepsRight(run, n);
    var s := run[n];
    forall i | RunsUncompiled(s, i) ensures ThreadRight(s, i) && s.threads[i].pc.Compiling? {
    }
  }

  /** A model's lock, once made, is its lock forever, and no other model ever gets it. */
  lemma {:induction false} LocksAreForever(run: seq<Sidecar>, n: nat, m: nat, model: Model)
    requires Run(run) && run[0] == INITIAL && n <= m < |run| && model in run[n].modelLocks
    ensures model in run[m].modelLocks && run[m].modelLocks[model] == run[n].modelLocks[model]
    ensures forall other :: other in run[m].modelLocks && run[m].modelLocks[other] == run[n].modelLocks[model] ==> other == model
    decreases m
  {
    RunKeepsRight(run, m);
    if n < m {
      LocksAreForever(run, n, m - 1, model);
      assert Step(run[m - 1], run[m]);
    }
  }

  /** A signature is compiled successfully at most once: the step that marks it finds it unmarked, and
      marks are never taken back. */
  lemma {:induction false} CompiledOnce(run: seq<Sidecar>, n: nat, i: ThreadId)
    requires Run(run) && run[0] == INITIAL && n + 1 < |run|
    ensures run[n].compiled <= run[n + 1].compiled
    ensures i in run[n].threads && run[n].threads[i].pc.MarkCompiled? ==> Key(run[n].threads[i]) !in run[n].compiled
  {
    RunKeepsRight(run, n);
    assert Step(run[n], run[n + 1]);
    if i in run[n].threads {
      assert ThreadRight(run[n], i);
    }
  }

  /** No deadlock: while some thread is inside `run`, some thread can take a step. */
  lemma {:induction false} SomeThreadCanStep(run: seq<Sidecar>, n: nat, i: ThreadId) returns (j: ThreadId, newLock: LockId)
    requires Run(run) && run[0] == INITIAL && n < |run|
    requires i in run[n].threads && !Over(run[n].threads[i].pc)
    ensures j in run[n].threads && ThreadStep(run[n], Advance(run[n], j, true, newLock), j, true, newLock)
  {
    RunKeepsRight(run, n);
    var s := run[n];
    j := i;
    if s.threads[i].pc.Acquire? && s.threads[i].pc.lock in s.holder {
      j := s.holder[s.threads[i].pc.lock];
    }
    newLock := Above(s.modelLocks.Values);
    assert forall m :: m in s.modelLocks ==> s.modelLocks[m] in s.modelLocks.Values;
  }

  lemma {:induction false} Above(ids: set<LockId>) returns (l: LockId)
    ensures forall x :: x in ids ==> x < l
  {
    l := 0;
    var rest := ids;
    while rest != {}
      invariant rest <= ids && forall x :: x in ids ==> x in rest || x < l
      decreases rest
    {
      var x :| x in rest;
      rest := rest - {x};
      if x >= l {
        l := x + 1;
      }
    }
  }

  // --- what a compile run leaves, and what it saves ---

  /** A compile run that returns is marked before its lock goes; one that raises marks nothing, raises in
      its caller and gives the lock back. Marks come from nowhere else. */
  lemma {:induction false} CompileOutcome(s: Sidecar, s': Sidecar, i: ThreadId, ok: bool, newLock: LockId)
    requires ThreadStep(s, s', i, ok, newLock)
    ensures s.threads[i].pc.Compiling? ==> (s'.threads[i].pc.MarkCompiled? <==> ok) && (s'.threads[i].pc.ReleaseRaise? <==> !ok)
    ensures s.threads[i].pc.ReleaseRaise? ==> s'.threads[i].pc == Raised && s.threads[i].pc.lock !in s'.holder
    ensures s.threads[i].pc.Running? ==> s'.threads[i].pc == if ok then Returned else Raised
    ensures s'.threads[i].pc.MarkCompiled? ==> s.threads[i].pc.Compiling? && ok
    ensures s'.compiled == s.compiled + if s.threads[i].pc.MarkCompiled? then {Key(s.threads[i])} else {}
  {
  }

  ghost predicate CallStarts(s: Sidecar, s': Sidecar, i: ThreadId) {
    exists model, signature :: CallStep(s, s', i, model, signature)
  }

  /** Thread `i` does not call `run` in step `k`. */
  ghost predicate NoCallAt(run: seq<Sidecar>, i: ThreadId, k: int) {
    0 <= k < |run| - 1 ==> !CallStarts(run[k], run[k + 1], i)
  }

  /** The inputs are compiled, and the call asks for no lock. */
  predicate OnFastPath(s: Sidecar, i: ThreadId) {
    && i in s.threads && Key(s.threads[i]) in s.compiled
    && (s.threads[i].pc == FirstCheck || s.threads[i].pc == Running || Over(s.threads[i].pc))
  }

  lemma {:induction false} FastStep(s: Sidecar, s': Sidecar, i: ThreadId)
    requires Step(s, s') && !CallStarts(s, s', i) && OnFastPath(s, i)
    ensures OnFastPath(s', i)
  {
    if j, ok, newLock :| ThreadStep(s, s', j, ok, newLock) {
    } else {
      var j, model, signature :| CallStep(s, s', j, model, signature);
      assert j != i;
    }
  }

  lemma {:induction false} FastAt(run: seq<Sidecar>, i: ThreadId, k: nat)
    requires Run(run) && k + 1 < |run| && NoCallAt(run, i, k) && OnFastPath(run[k], i)
    ensures OnFastPath(run[k + 1], i)
  {
    assert Step(run[k], run[k + 1]);
    FastStep(run[k], run[k + 1], i);
  }

  /** The fast path: a call whose inputs are compiled when it starts never asks for a lock. */
  lemma {:induction false} CompiledNeedsNoLock(run: seq<Sidecar>, i: ThreadId, n: nat, m: nat)
    requires Run(run) && n <= m < |run| && i in run[n].threads && forall k :: n <= k < m ==> NoCallAt(run, i, k)
    requires run[n].threads[i].pc == FirstCheck && Key(run[n].threads[i]) in run[n].compiled
    ensures OnFastPath(run[m], i)
    decreases m
  {
    if n < m {
      CompiledNeedsNoLock(run, i, n, m - 1);
      FastAt(run, i, m - 1);
    }
  }

  /** So each signature costs one compile run that returns: once a call has returned, its inputs are
      compiled for good. */
  lemma {:induction false} ReturnedIsCompiled(run: seq<Sidecar>, n: nat, i: ThreadId)
    requires Run(run) && run[0] == INITIAL && n < |run| && i in run[n].threads && run[n].threads[i].pc == Returned
    ensures Key(run[n].threads[i]) in run[n].compiled
  {
    RunKeepsRight(run, n);
    assert ThreadRight(run[n], i);
  }
}
