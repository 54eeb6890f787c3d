/** The GPU box's lifecycle: a sweep that starts and stops it, manual starts, stops and holds, and
    the heartbeat by which the box itself asks whether to stay up.

    Times are milliseconds. Everything outside the service (queue counts, the worker's presence, what
    the provider answers) arrives with each operation. */
module GpuLifecycle {

  import opened Common

  const STUCK_ACTIVE_AFTER_MS: int := 30 * 60000
  const PROVIDER_CHECK_INTERVAL_MS: int := 10 * 60000

  datatype BoxState = Off | Starting | Running | Stopping

  /** The stored lifecycle record, plus the time of the last provider check. */
  datatype Lifecycle = Lifecycle(state: BoxState, since: int, holdUntil: Option<int>, idleSince: Option<int>, lastCheck: int)

  datatype Config = Config(
    enabled: bool,
    providerAnswers: bool,
    pendingThreshold: int,
    maxPendingAgeMinutes: int,
    idleShutdownMinutes: int,
    startTimeoutMinutes: int)

  /** One queue as the job store reports it. */
  datatype Queue = Queue(waiting: nat, active: nat, delayed: nat, oldestWaiting: Option<int>, oldestActive: Option<int>)

  datatype Reason = Idle | StartTimeout | Manual

  datatype Command = NoCommand | StartBox | StopBox(reason: Reason)

  /** What the outside world answers during a sweep. */
  datatype World = World(queues: seq<Queue>, workerOnline: bool, instanceRunning: Option<bool>, startOk: bool, stopOk: bool)

  datatype Op =
    | Sweep(world: World)
    | StartNow(controllable: bool, startOk: bool)
    | StopNow(controllable: bool, stopOk: bool)
    | HoldIdle(minutes: int)
    | ClearHold

  datatype Tick = Tick(now: int, config: Config, op: Op)

  // --- queue summary ---

  function LiveActive(q: Queue, now: int): nat {
    if q.oldestActive.Some? && q.oldestActive.value != 0 && now - q.oldestActive.value > STUCK_ACTIVE_AFTER_MS then 0
    else q.active
  }

  function Pending(queues: seq<Queue>, now: int): nat {
    if queues == [] then 0
    else queues[0].waiting + LiveActive(queues[0], now) + queues[0].delayed + Pending(queues[1..], now)
  }

  function Active(queues: seq<Queue>, now: int): nat {
    if queues == [] then 0 else LiveActive(queues[0], now) + Active(queues[1..], now)
  }

  /** Rounded to the nearest second, halves up. */
  function WaitingAge(q: Queue, now: int): Option<int> {
    if q.oldestWaiting.Some? && q.oldestWaiting.value != 0 then Some((now - q.oldestWaiting.value + 500) / 1000) else None
  }

  function OldestAge(queues: seq<Queue>, now: int): int {
    if queues == [] then 0
    else
      var rest := OldestAge(queues[1..], now);
      match WaitingAge(queues[0], now)
      case Some(age) => if age > rest then age else rest
      case None => rest
  }

  function ShouldStart(c: Config, queues: seq<Queue>, now: int): bool {
    Pending(queues, now) != 0 &&
    (Pending(queues, now) >= c.pendingThreshold || OldestAge(queues, now) >= c.maxPendingAgeMinutes * 60)
  }

  // --- the specification: one operation as a function of the record ---

  function Window(minutes: int): int {
    minutes * 60000
  }

  function Started(l: Lifecycle, c: Config, now: int, manual: bool, ok: bool): (Lifecycle, Command) {
    var hold := Some(now + Window(c.idleShutdownMinutes));
    if l.state == Starting || l.state == Running then
      (if manual then l.(holdUntil := hold) else l, NoCommand)
    else
      (l.(state := if ok then Starting else Off, since := now, idleSince := None, holdUntil := if manual then hold else l.holdUntil),
       StartBox)
  }

  function Stopped(l: Lifecycle, now: int, ok: bool, reason: Reason): (Lifecycle, Command) {
    (l.(state := if ok then Off else Stopping, since := now, holdUntil := None, idleSince := None), StopBox(reason))
  }

  predicate Holding(l: Lifecycle, now: int) {
    l.holdUntil.Some? && l.holdUntil.value > now
  }

  predicate ChecksProvider(l: Lifecycle, c: Config, now: int) {
    l.state == Off && c.providerAnswers && now - l.lastCheck >= PROVIDER_CHECK_INTERVAL_MS
  }

  function RunningSwept(l: Lifecycle, c: Config, now: int, w: World): (Lifecycle, Command) {
    if Pending(w.queues, now) != 0 || Active(w.queues, now) != 0 then (l.(idleSince := None), NoCommand)
    else if l.idleSince.None? then (l.(idleSince := Some(now)), NoCommand)
    else if !Holding(l, now) && now - l.idleSince.value >= Window(c.idleShutdownMinutes) then Stopped(l, now, w.stopOk, Idle)
    else (l, NoCommand)
  }

  function Swept(l0: Lifecycle, c: Config, now: int, w: World): (Lifecycle, Command) {
    if !c.enabled then (l0, NoCommand)
    else
      var l := if ChecksProvider(l0, c, now) then l0.(lastCheck := now) else l0;
      if ChecksProvider(l0, c, now) && w.instanceRunning == Some(true) then
        (l.(state := Starting, since := now, idleSince := None), NoCommand)
      else if l.state == Starting && w.workerOnline then (l.(state := Running, since := now, idleSince := None), NoCommand)
      else if l.state == Starting && now - l.since > Window(c.startTimeoutMinutes) then Stopped(l, now, w.stopOk, StartTimeout)
      else if (l.state == Running || l.state == Stopping) && !w.workerOnline then (l.(state := Off, since := now), NoCommand)
      else if l.state == Off && ShouldStart(c, w.queues, now) then Started(l, c, now, false, w.startOk)
      else if l.state == Running then RunningSwept(l, c, now, w)
      else (l, NoCommand)
  }

  function Next(l: Lifecycle, t: Tick): (Lifecycle, Command) {
    match t.op
    case Sweep(w) => Swept(l, t.config, t.now, w)
    case StartNow(controllable, ok) => if controllable then Started(l, t.config, t.now, true, ok) else (l, NoCommand)
    case StopNow(controllable, ok) => if controllable then Stopped(l, t.now, ok, Manual) else (l, NoCommand)
    case HoldIdle(minutes) => (l.(holdUntil := Some(t.now + Window(minutes))), NoCommand)
    case ClearHold => (l.(holdUntil := None), NoCommand)
  }

  /** `heartbeat`: whether the box is told to stay up. */
  function KeepAlive(l: Lifecycle, c: Config, queues: seq<Queue>, now: int): bool {
    if Active(queues, now) > 0 then true
    else if Holding(l, now) then true
    else if Pending(queues, now) > 0 then true
    else if l.state == Stopping then false
    else now - l.since < Window(c.idleShutdownMinutes)
  }

  // --- the service ---

  class Service {
    var state: BoxState
    var since: int
    var holdUntil: Option<int>
    var idleSince: Option<int>
    var lastProviderCheckAt: int
    // the last command given to the provider by the current operation
    var command: Command

    constructor ()
      ensures Record() == INITIAL && command == NoCommand
    {
      state, since, holdUntil, idleSince, lastProviderCheckAt, command := Off, 0, None, None, 0, NoCommand;
    }

    function Record(): Lifecycle
      reads this
    {
      Lifecycle(state, since, holdUntil, idleSince, lastProviderCheckAt)
    }

    method Start(c: Config, now: int, manual: bool, ok: bool)
      modifies this
      ensures (Record(), command) == Started(old(Record()), c, now, manual, ok)
    {
      command := NoCommand;
      if state == Starting || state == Running {
        if manual {
          holdUntil := Some(now + Window(c.idleShutdownMinutes));
        }
        return;
      }
      state, since, idleSince := Starting, now, None;
      if manual {
        holdUntil := Some(now + Window(c.idleShutdownMinutes));
      }
      command := StartBox;
      if !ok {
        state := Off;
      }
    }

    method Stop(now: int, ok: bool, reason: Reason)
      modifies this
      ensures (Record(), command) == Stopped(old(Record()), now, ok, reason)
    {
      state, since, holdUntil, idleSince := Stopping, now, None, None;
      command := StopBox(reason);
      if ok {
        state := Off;
      }
    }

    method HandleSweep(c: Config, now: int, w: World)
      modifies this
      ensures (Record(), command) == Swept(old(Record()), c, now, w)
    {
      command := NoCommand;
      if !c.enabled {
        return;
      }
      var pending := Pending(w.queues, now);
      var active := Active(w.queues, now);
      if state == Off && c.providerAnswers && now - lastProviderCheckAt >= PROVIDER_CHECK_INTERVAL_MS {
        lastProviderCheckAt := now;
        if w.instanceRunning == Some(true) {
          state, since, idleSince := Starting, now, None;
          return;
        }
      }
      if state == Starting && w.workerOnline {
        state, since, idleSince := Running, now, None;
        return;
      }
      if state == Starting && now - since > Window(c.startTimeoutMinutes) {
        Stop(now, w.stopOk, StartTimeout);
        return;
      }
      if state == Running && !w.workerOnline {
        state, since := Off, now;
        return;
      }
      if state == Stopping && !w.workerOnline {
        state, since := Off, now;
        return;
      }
      if state == Off && ShouldStart(c, w.queues, now) {
        Start(c, now, false, w.startOk);
        return;
      }
      if state == Running {
        var idle := pending == 0 && active == 0;
        if !idle {
          if idleSince.Some? {
            idleSince := None;
          }
          return;
        }
        if idleSince.None? {
          idleSince := Some(now);
          return;
        }
        var holding := holdUntil.Some? && holdUntil.value > now;
        var idleFor := now - idleSince.value;
        if !holding && idleFor >= Window(c.idleShutdownMinutes) {
          Stop(now, w.stopOk, Idle);
        }
      }
    }

    /** One operation of any kind. */
    method Handle(t: Tick)
      modifies this
      ensures (Record(), command) == Next(old(Record()), t)
    {
      match t.op {
        case Sweep(w) =>
          HandleSweep(t.config, t.now, w);
        case StartNow(controllable, ok) =>
          command := NoCommand;
          if controllable {
            Start(t.config, t.now, true, ok);
          }
        case StopNow(controllable, ok) =>
          command := NoCommand;
          if controllable {
            Stop(t.now, ok, Manual);
          }
        case HoldIdle(minutes) =>
          command, holdUntil := NoCommand, Some(t.now + Window(minutes));
        case ClearHold =>
          command, holdUntil := NoCommand, None;
      }
    }

    /** Operations of all kinds in the order they come: no box is stopped for idleness while a batch is
        on, and none is started again before its last run was over. */
    method Run(ticks: seq<Tick>) returns (commands: seq<Command>)
      requires Clocked(ticks) && HonestClock(Record())
      modifies this
      ensures |commands| == |ticks| && Record() == After(old(Record()), ticks, |ticks|)
      ensures forall n :: 0 <= n < |ticks| ==> commands[n] == CommandAt(old(Record()), ticks, n)
      ensures forall n :: 0 <= n < |ticks| && commands[n] == StopBox(Idle) ==> BatchIsOver(old(Record()), ticks, n)
      ensures forall n :: 0 <= n < |ticks| && Looks(ticks[n]) && commands[n] == StartBox ==>
                Demand(ticks[n].config, ticks[n].op.world.queues, ticks[n].now)
      ensures forall i, j :: 0 <= i < j < |ticks| && commands[i] == StartBox && commands[j] == StartBox ==>
                exists k :: i <= k < j && RunEnds(old(Record()), ticks, k)
    {
      commands := [];
      for n := 0 to |ticks|
        invariant |commands| == n && Record() == After(old(Record()), ticks, n)
        invariant forall i :: 0 <= i < n ==> commands[i] == CommandAt(old(Record()), ticks, i)
      {
        Handle(ticks[n]);
        commands := commands + [command];
      }
      ghost var l := old(Record());
      forall n | 0 <= n < |ticks| && commands[n] == StopBox(Idle) ensures BatchIsOver(l, ticks, n) {
        NeverCutsABatchShort(l, ticks, n);
      }
      forall n | 0 <= n < |ticks| && Looks(ticks[n]) && commands[n] == StartBox
        ensures Demand(ticks[n].config, ticks[n].op.world.queues, ticks[n].now)
      {
        StartsOnDemand(l, ticks, n);
      }
      forall i, j | 0 <= i < j < |ticks| && commands[i] == StartBox && commands[j] == StartBox
        ensures exists k :: i <= k < j && RunEnds(l, ticks, k)
      {
        StartsOnce(l, ticks, i, j);
      }
    }
  }

  const INITIAL: Lifecycle := Lifecycle(Off, 0, None, None, 0)

  // --- runs ---

  /** The clock never goes back. */
  ghost predicate Clocked(ticks: seq<Tick>) {
    forall i, j :: 0 <= i <= j < |ticks| ==> ticks[i].now <= ticks[j].now
  }

  ghost function After(l: Lifecycle, ticks: seq<Tick>, n: nat): Lifecycle
    requires n <= |ticks|
  {
    if n == 0 then l else Next(After(l, ticks, n - 1), ticks[n - 1]).0
  }

  ghost function CommandAt(l: Lifecycle, ticks: seq<Tick>, n: nat): Command
    requires n < |ticks|
  {
    Next(After(l, ticks, n), ticks[n]).1
  }

  /** An enabled sweep reads the queues; a disabled one returns before it does. */
  ghost predicate Looks(t: Tick) {
    t.op.Sweep? && t.config.enabled
  }

  /** No waiting, delayed or live-active job in any queue. */
  ghost predicate Quiet(queues: seq<Queue>, now: int) {
    forall i :: 0 <= i < |queues| ==> queues[i].waiting == 0 && queues[i].delayed == 0 && LiveActive(queues[i], now) == 0
  }

  ghost predicate SawQuiet(t: Tick)
    requires t.op.Sweep?
  {
    Quiet(t.op.world.queues, t.now)
  }

  lemma {:induction false} PendingZeroIsQuiet(queues: seq<Queue>, now: int)
    ensures Pending(queues, now) == 0 <==> Quiet(queues, now)
    ensures Pending(queues, now) == 0 ==> Active(queues, now) == 0
  {
    if queues != [] {
      PendingZeroIsQuiet(queues[1..], now);
      if Quiet(queues, now) {
        assert forall i :: 0 <= i < |queues[1..]| ==> queues[1..][i] == queues[i + 1];
      } else if Quiet(queues[1..], now) {
        assert forall i :: 0 < i < |queues| ==> queues[i] == queues[1..][i - 1];
      }
    }
  }

  // --- what a sweep does, by what it sees ---

  function Sum(xs: seq<nat>): nat {
    if xs == [] then 0 else xs[0] + Sum(xs[1..])
  }

  /** Active longer than any real job takes: the worker that had it is gone. */
  predicate Orphaned(q: Queue, now: int) {
    q.oldestActive.Some? && q.oldestActive.value != 0 && now - q.oldestActive.value > 30 * 60 * 1000
  }

  /** All jobs waiting, delayed or really being worked on. */
  function Backlog(queues: seq<Queue>, now: int): nat {
    Sum(seq(|queues|, i requires 0 <= i < |queues| => queues[i].waiting))
    + Sum(seq(|queues|, i requires 0 <= i < |queues| => queues[i].delayed))
    + Sum(seq(|queues|, i requires 0 <= i < |queues| => if Orphaned(queues[i], now) then 0 else queues[i].active))
  }

  /** Some queue's oldest job has waited that many minutes, to the nearest second. */
  ghost predicate WaitedFor(queues: seq<Queue>, minutes: int, now: int) {
    exists i :: 0 <= i < |queues| && queues[i].oldestWaiting.Some? && queues[i].oldestWaiting.value != 0
                && now - queues[i].oldestWaiting.value + 500 >= minutes * 60 * 1000
  }

  /** Worth booting a box for: enough work, or work that has waited long enough. */
  ghost predicate Demand(c: Config, queues: seq<Queue>, now: int) {
    && Backlog(queues, now) > 0
    && (Backlog(queues, now) >= c.pendingThreshold || c.maxPendingAgeMinutes <= 0 || WaitedFor(queues, c.maxPendingAgeMinutes, now))
  }

  lemma {:induction false} PendingIsBacklog(queues: seq<Queue>, now: int)
    ensures Pending(queues, now) == Backlog(queues, now)
  {
    if queues != [] {
      var rest := queues[1..];
      PendingIsBacklog(rest, now);
      var waiting := seq(|queues|, i requires 0 <= i < |queues| => queues[i].waiting);
      var delayed := seq(|queues|, i requires 0 <= i < |queues| => queues[i].delayed);
      var live := seq(|queues|, i requires 0 <= i < |queues| => if Orphaned(queues[i], now) then 0 else queues[i].active);
      assert waiting[1..] == seq(|rest|, i requires 0 <= i < |rest| => rest[i].waiting);
      assert delayed[1..] == seq(|rest|, i requires 0 <= i < |rest| => rest[i].delayed);
      assert live[1..] == seq(|rest|, i requires 0 <= i < |rest| => if Orphaned(rest[i], now) then 0 else rest[i].active);
    }
  }

  lemma {:induction false} OldestMeans(queues: seq<Queue>, minutes: int, now: int)
    ensures OldestAge(queues, now) >= 0
    ensures OldestAge(queues, now) >= minutes * 60 <==> minutes <= 0 || WaitedFor(queues, minutes, now)
  {
    if queues != [] {
      OldestMeans(queues[1..], minutes, now);
      if WaitedFor(queues[1..], minutes, now) {
        var i :| 0 <= i < |queues[1..]| && queues[1..][i].oldestWaiting.Some? && queues[1..][i].oldestWaiting.value != 0
                 && now - queues[1..][i].oldestWaiting.value + 500 >= minutes * 60 * 1000;
        assert queues[i + 1] == queues[1..][i];
      }
      if WaitedFor(queues, minutes, now) {
        var i :| 0 <= i < |queues| && queues[i].oldestWaiting.Some? && queues[i].oldestWaiting.value != 0
                 && now - queues[i].oldestWaiting.value + 500 >= minutes * 60 * 1000;
        assert i > 0 ==> queues[1..][i - 1] == queues[i];
      }
    }
  }

  lemma {:induction false} DemandMeans(c: Config, queues: seq<Queue>, now: int)
    ensures ShouldStart(c, queues, now) <==> Demand(c, queues, now)
  {
    PendingIsBacklog(queues, now);
    OldestMeans(queues, c.maxPendingAgeMinutes, now);
  }

  /** The provider is asked every ten minutes about a box that is off, and says that it runs. */
  predicate FoundRunning(l: Lifecycle, c: Config, now: int, w: World) {
    l.state == Off && c.providerAnswers && now - l.lastCheck >= 10 * 60 * 1000 && w.instanceRunning == Some(true)
  }

  /** Every command a sweep gives, and exactly when. */
  lemma {:induction false} SweepCommands(l: Lifecycle, c: Config, now: int, w: World)
    ensures var command := Swept(l, c, now, w).1;
            && (command == StartBox <==>
                  c.enabled && l.state == Off && !FoundRunning(l, c, now, w) && Demand(c, w.queues, now))
            && (command == StopBox(StartTimeout) <==>
                  c.enabled && l.state == Starting && !w.workerOnline && now - l.since > c.startTimeoutMinutes * 60 * 1000)
            && (command == StopBox(Idle) <==>
                  && c.enabled && l.state == Running && w.workerOnline && Quiet(w.queues, now)
                  && l.idleSince.Some? && now - l.idleSince.value >= c.idleShutdownMinutes * 60 * 1000
                  && !(l.holdUntil.Some? && now < l.holdUntil.value))
            && command != StopBox(Manual)
  {
    DemandMeans(c, w.queues, now);
    PendingZeroIsQuiet(w.queues, now);
  }

  /** And the record it leaves: the state by what was seen and commanded, the time of the last change, the
      idle clock, the hold and the time of the last question to the provider. */
  lemma {:induction false} SweepRecords(l: Lifecycle, c: Config, now: int, w: World)
    requires c.enabled
    ensures var (r, command) := Swept(l, c, now, w);
            && (r.state == Starting <==>
                  || FoundRunning(l, c, now, w) || (command == StartBox && w.startOk)
                  || (l.state == Starting && !w.workerOnline && command == NoCommand))
            && (r.state == Running <==> w.workerOnline && (l.state == Starting || (l.state == Running && command == NoCommand)))
            && (r.state == Stopping <==> (command.StopBox? && !w.stopOk) || (l.state == Stopping && w.workerOnline))
            && r.since == (if r.state != l.state || command != NoCommand then now else l.since)
            && r.holdUntil == (if command.StopBox? then None else l.holdUntil)
            && r.lastCheck == (if l.state == Off && c.providerAnswers && now - l.lastCheck >= 10 * 60 * 1000 then now else l.lastCheck)
  {
  }

  lemma {:induction false} SweepIdles(l: Lifecycle, c: Config, now: int, w: World)
    requires c.enabled && l.state == Running && Swept(l, c, now, w).0.state == Running
    ensures Swept(l, c, now, w).0.idleSince ==
              if !Quiet(w.queues, now) then None else if l.idleSince.None? then Some(now) else l.idleSince
  {
    PendingZeroIsQuiet(w.queues, now);
  }

  /** A sweep of a switched-off autostart does nothing; manual commands go through whatever the state,
      except that a box already starting or up is not started again, only held. */
  lemma {:induction false} ManualMeans(l: Lifecycle, t: Tick)
    ensures t.op.Sweep? && !t.config.enabled ==> Next(l, t) == (l, NoCommand)
    ensures t.op.StartNow? && t.op.controllable ==>
              var (r, command) := Next(l, t);
              && (command == StartBox <==> l.state == Off || l.state == Stopping) && !command.StopBox?
              && r.holdUntil == Some(t.now + t.config.idleShutdownMinutes * 60 * 1000)
              && r.state == (if command == NoCommand then l.state else if t.op.startOk then Starting else Off)
              && r.since == (if command == NoCommand then l.since else t.now)
    ensures t.op.StopNow? && t.op.controllable ==>
              Next(l, t) == (Lifecycle(if t.op.stopOk then Off else Stopping, t.now, None, None, l.lastCheck), StopBox(Manual))
    ensures t.op.HoldIdle? ==> Next(l, t) == (l.(holdUntil := Some(t.now + t.op.minutes * 60 * 1000)), NoCommand)
    ensures t.op.ClearHold? ==> Next(l, t) == (l.(holdUntil := None), NoCommand)
  {
  }

  /** The heartbeat keeps the box up exactly while there is work, a hold, or, unless it is being stopped,
      less than the idle window since its state last changed. */
  lemma {:induction false} HeartbeatMeans(l: Lifecycle, c: Config, queues: seq<Queue>, now: int)
    ensures KeepAlive(l, c, queues, now) <==>
              || !Quiet(queues, now) || (l.holdUntil.Some? && now < l.holdUntil.value)
              || (l.state != Stopping && now - l.since < c.idleShutdownMinutes * 60 * 1000)
  {
    PendingZeroIsQuiet(queues, now);
  }

  /** Sweeps start the box on demand and only then, whatever the history. */
  lemma {:induction false} StartsOnDemand(l: Lifecycle, ticks: seq<Tick>, n: nat)
    requires n < |ticks| && Looks(ticks[n])
    ensures CommandAt(l, ticks, n) == StartBox ==> Demand(ticks[n].config, ticks[n].op.world.queues, ticks[n].now)
    ensures Demand(ticks[n].config, ticks[n].op.world.queues, ticks[n].now) ==>
              CommandAt(l, ticks, n) == StartBox || After(l, ticks, n).state != Off || After(l, ticks, n + 1).state == Starting
  {
    SweepCommands(After(l, ticks, n), ticks[n].config, ticks[n].now, ticks[n].op.world);
    SweepRecords(After(l, ticks, n), ticks[n].config, ticks[n].now, ticks[n].op.world);
  }

  /** Nobody sets or clears a hold, and the box is not stopped for a failed start. */
  ghost predicate HoldStays(l: Lifecycle, ticks: seq<Tick>, i: int)
    requires 0 <= i < |ticks|
  {
    ticks[i].op.Sweep? && CommandAt(l, ticks, i) != StopBox(StartTimeout)
  }

  /** A hold lasts for its minutes: until then no sweep stops the box for idleness and the heartbeat keeps
      it up, and after that the hold is over. */
  lemma {:induction false} HoldLasts(l: Lifecycle, ticks: seq<Tick>, k: nat, n: nat, c: Config, queues: seq<Queue>, now: int)
    requires Clocked(ticks) && k < n <= |ticks| && ticks[k].op.HoldIdle?
    requires forall i :: k < i < n ==> HoldStays(l, ticks, i)
    requires ticks[n - 1].now < ticks[k].now + ticks[k].op.minutes * 60 * 1000 || n == k + 1
    ensures var end := ticks[k].now + ticks[k].op.minutes * 60 * 1000;
            && After(l, ticks, n).holdUntil == Some(end)
            && (now < end ==> KeepAlive(After(l, ticks, n), c, queues, now))
            && (n < |ticks| && ticks[n].now < end ==> CommandAt(l, ticks, n) != StopBox(Idle))
            && (now >= end ==> !Holding(After(l, ticks, n), now))
    decreases n
  {
    if n > k + 1 {
      HoldLasts(l, ticks, k, n - 1, c, queues, now);
      assert HoldStays(l, ticks, n - 1) && ticks[n - 2].now <= ticks[n - 1].now;
    }
  }

  // --- never cuts a batch short ---

  /** The idle clock of a running box was started by sweep `k`, and no sweep since saw work. */
  ghost predicate IdleSinceSweep(l: Lifecycle, ticks: seq<Tick>, n: nat, k: nat)
    requires n <= |ticks|
  {
    && k < n && l.idleSince == Some(ticks[k].now)
    && forall i :: k <= i < n && Looks(ticks[i]) ==> SawQuiet(ticks[i])
  }

  ghost predicate HonestClock(l: Lifecycle) {
    !(l.state == Running && l.idleSince.Some?)
  }

  lemma {:induction false} IdleClockIsHonest(l: Lifecycle, ticks: seq<Tick>, n: nat) returns (k: nat)
    requires n <= |ticks| && HonestClock(l)
    ensures var r := After(l, ticks, n); r.state == Running && r.idleSince.Some? ==> IdleSinceSweep(r, ticks, n, k)
  {
    k := 0;
    if n > 0 {
      k := IdleClockIsHonest(l, ticks, n - 1);
      var before, t := After(l, ticks, n - 1), ticks[n - 1];
      if t.op.Sweep? {
        PendingZeroIsQuiet(t.op.world.queues, t.now);
        if before.state == Running && before.idleSince.None? {
          k := n - 1;
        }
      }
    }
  }

  ghost predicate WithinWindow(t: Tick, stop: Tick) {
    t.now > stop.now - Window(stop.config.idleShutdownMinutes)
  }

  /** A sweep looked at a running box that nothing holds, and within the idle window up to it, itself
      included, no sweep that looked at the queues saw work. */
  ghost predicate BatchIsOver(l: Lifecycle, ticks: seq<Tick>, n: nat)
    requires n < |ticks|
  {
    && After(l, ticks, n).state == Running && !Holding(After(l, ticks, n), ticks[n].now)
    && ticks[n].op.Sweep? && SawQuiet(ticks[n])
    && forall i :: 0 <= i < n && Looks(ticks[i]) && WithinWindow(ticks[i], ticks[n]) ==> SawQuiet(ticks[i])
  }

  /** Whenever a sweep stops a running box for idleness, every sweep that looked at the queues within
      the preceding idle window, this one included, saw them quiet, and no hold was in force. */
  lemma {:induction false} NeverCutsABatchShort(l: Lifecycle, ticks: seq<Tick>, n: nat)
    requires Clocked(ticks) && HonestClock(l) && n < |ticks|
    requires CommandAt(l, ticks, n) == StopBox(Idle)
    ensures BatchIsOver(l, ticks, n)
  {
    var k := IdleClockIsHonest(l, ticks, n);
    PendingZeroIsQuiet(ticks[n].op.world.queues, ticks[n].now);
  }

  // --- never starts twice ---

  /** The start failed, the box was told to stop, or a sweep found a running box gone. */
  ghost predicate RunEnds(l: Lifecycle, ticks: seq<Tick>, k: nat)
    requires k < |ticks|
  {
    || (CommandAt(l, ticks, k) == StartBox && After(l, ticks, k + 1).state == Off)
    || CommandAt(l, ticks, k).StopBox?
    || (Looks(ticks[k]) && !ticks[k].op.world.workerOnline && After(l, ticks, k).state == Running)
  }

  lemma {:induction false} UpUntilOver(l: Lifecycle, ticks: seq<Tick>, i: nat, j: nat)
    requires i < j <= |ticks| && CommandAt(l, ticks, i) == StartBox
    requires forall k :: i <= k < j ==> !RunEnds(l, ticks, k)
    ensures After(l, ticks, j).state == Starting || After(l, ticks, j).state == Running
    decreases j
  {
    assert !RunEnds(l, ticks, j - 1);
    if i < j - 1 {
      UpUntilOver(l, ticks, i, j - 1);
    }
  }

  /** Starting is idempotent over whole runs: between two start commands the earlier run has ended. */
  lemma {:induction false} StartsOnce(l: Lifecycle, ticks: seq<Tick>, i: nat, j: nat)
    requires i < j < |ticks| && CommandAt(l, ticks, i) == StartBox && CommandAt(l, ticks, j) == StartBox
    ensures exists k :: i <= k < j && RunEnds(l, ticks, k)
  {
    if forall k :: i <= k < j ==> !RunEnds(l, ticks, k) {
      UpUntilOver(l, ticks, i, j);
      assert false;
    }
  }

  // --- never idles without bound ---

  ghost predicate SweepIn(ticks: seq<Tick>, i: int, from: int, gap: int) {
    0 <= i < |ticks| && ticks[i].op.Sweep? && from < ticks[i].now <= from + gap
  }

  ghost predicate HasSweep(ticks: seq<Tick>, from: int, gap: int) {
    exists i :: SweepIn(ticks, i, from, gap)
  }

  /** Sweeps at most `gap` apart: every stretch of that length inside the span holds one. */
  ghost predicate SweptEvery(ticks: seq<Tick>, from: int, to: int, gap: int) {
    forall x :: from <= x <= to ==> HasSweep(ticks, x, gap)
  }

  /** Autostart on, the worker reporting, no hold in force when a sweep runs. */
  ghost predicate Unheld(l: Lifecycle, ticks: seq<Tick>, idleMs: int) {
    forall i :: 0 <= i < |ticks| && ticks[i].op.Sweep? ==>
      && ticks[i].config.enabled && ticks[i].op.world.workerOnline
      && Window(ticks[i].config.idleShutdownMinutes) == idleMs
      && !Holding(After(l, ticks, i), ticks[i].now)
  }

  ghost predicate QuietAfter(ticks: seq<Tick>, s: int) {
    forall i :: 0 <= i < |ticks| && ticks[i].op.Sweep? && ticks[i].now > s ==> SawQuiet(ticks[i])
  }

  ghost predicate StopsBy(l: Lifecycle, ticks: seq<Tick>, n: nat) {
    exists i :: 0 <= i < n && i < |ticks| && CommandAt(l, ticks, i).StopBox?
  }

  /** Up to tick `n` the box was either told to stop or kept running; once sweep `a` has seen quiet
      queues its idle clock is running too. */
  lemma {:induction false} RunsUntilStopped(l: Lifecycle, ticks: seq<Tick>, idleMs: int, s: int, a: nat, n: nat)
    requires n <= |ticks| && Clocked(ticks) && Unheld(l, ticks, idleMs) && QuietAfter(ticks, s)
    requires l.state == Running && (l.idleSince.Some? && |ticks| > 0 ==> l.idleSince.value <= ticks[0].now)
    requires a < |ticks| && ticks[a].op.Sweep? && ticks[a].now > s
    ensures var r := After(l, ticks, n);
            StopsBy(l, ticks, n) ||
            (&& r.state == Running
             && (n > 0 && r.idleSince.Some? ==> r.idleSince.value <= ticks[n - 1].now)
             && (n > a ==> r.idleSince.Some? && r.idleSince.value <= ticks[a].now))
  {
    if n > 0 {
      RunsUntilStopped(l, ticks, idleMs, s, a, n - 1);
      var before, t := After(l, ticks, n - 1), ticks[n - 1];
      if StopsBy(l, ticks, n - 1) || CommandAt(l, ticks, n - 1).StopBox? {
      } else {
        RunningStays(before, t);
        assert t.op.Sweep? && n - 1 >= a ==> SawQuiet(t);
      }
    }
  }

  /** One tick of a running box that is not told to stop. */
  lemma {:induction false} RunningStays(l: Lifecycle, t: Tick)
    requires l.state == Running && !Next(l, t).1.StopBox?
    requires t.op.Sweep? ==> t.config.enabled && t.op.world.workerOnline
    ensures var r := Next(l, t).0;
            && r.state == Running
            && (r.idleSince == l.idleSince || r.idleSince == None || r.idleSince == Some(t.now))
            && (t.op.Sweep? && SawQuiet(t) ==> r.idleSince.Some? && (l.idleSince.Some? ==> r.idleSince == l.idleSince))
            && (!t.op.Sweep? ==> r.idleSince == l.idleSince)
  {
    if t.op.Sweep? {
      PendingZeroIsQuiet(t.op.world.queues, t.now);
    }
  }

  /** A running box whose queues stay empty after `s` is told to stop within the idle window plus two
      sweep intervals, whatever else happens meanwhile. */
  lemma {:induction false} StopsWhenIdle(l: Lifecycle, ticks: seq<Tick>, idleMs: int, s: int, gap: int) returns (n: nat)
    requires Clocked(ticks) && Unheld(l, ticks, idleMs) && QuietAfter(ticks, s)
    requires l.state == Running && (l.idleSince.Some? && |ticks| > 0 ==> l.idleSince.value <= ticks[0].now)
    requires gap >= 0 && idleMs >= 0 && SweptEvery(ticks, s, s + gap + idleMs, gap)
    ensures n < |ticks| && CommandAt(l, ticks, n).StopBox? && ticks[n].now <= s + idleMs + 2 * gap
  {
    assert HasSweep(ticks, s, gap) && HasSweep(ticks, s + gap + idleMs, gap);
    var a :| SweepIn(ticks, a, s, gap);
    var b :| SweepIn(ticks, b, s + gap + idleMs, gap);
    assert b > a;
    RunsUntilStopped(l, ticks, idleMs, s, a, b);
    if StopsBy(l, ticks, b) {
      n :| 0 <= n < b && n < |ticks| && CommandAt(l, ticks, n).StopBox?;
    } else {
      PendingZeroIsQuiet(ticks[b].op.world.queues, ticks[b].now);
      n := b;
    }
  }

  /** Nothing but jobs that were already active at `s` and never finish. */
  ghost predicate OnlyOrphans(queues: seq<Queue>, s: int) {
    forall i :: 0 <= i < |queues| ==>
      && queues[i].waiting == 0 && queues[i].delayed == 0
      && (queues[i].active > 0 ==> queues[i].oldestActive.Some? && 0 != queues[i].oldestActive.value <= s)
  }

  /** Orphaned active jobs hold the box up for at most the stuck limit longer. */
  lemma {:induction false} StopsDespiteOrphans(l: Lifecycle, ticks: seq<Tick>, idleMs: int, s: int, gap: int) returns (n: nat)
    requires Clocked(ticks) && Unheld(l, ticks, idleMs)
    requires forall i :: 0 <= i < |ticks| && ticks[i].op.Sweep? ==> OnlyOrphans(ticks[i].op.world.queues, s)
    requires l.state == Running && (l.idleSince.Some? && |ticks| > 0 ==> l.idleSince.value <= ticks[0].now)
    requires gap >= 0 && idleMs >= 0
    requires SweptEvery(ticks, s + STUCK_ACTIVE_AFTER_MS, s + STUCK_ACTIVE_AFTER_MS + gap + idleMs, gap)
    ensures n < |ticks| && CommandAt(l, ticks, n).StopBox?
    ensures ticks[n].now <= s + STUCK_ACTIVE_AFTER_MS + idleMs + 2 * gap
  {
    n := StopsWhenIdle(l, ticks, idleMs, s + STUCK_ACTIVE_AFTER_MS, gap);
  }

  ghost predicate SettlesBy(l: Lifecycle, ticks: seq<Tick>, n: nat) {
    exists i :: 0 <= i < n && i < |ticks| && (CommandAt(l, ticks, i).StopBox? || After(l, ticks, i + 1).state == Running)
  }

  lemma {:induction false} StartsUntilSettled(l: Lifecycle, ticks: seq<Tick>, n: nat)
    requires n <= |ticks| && l.state == Starting
    ensures SettlesBy(l, ticks, n) || (After(l, ticks, n).state == Starting && After(l, ticks, n).since == l.since)
  {
    if n > 0 {
      StartsUntilSettled(l, ticks, n - 1);
      if !SettlesBy(l, ticks, n - 1) {
        if CommandAt(l, ticks, n - 1).StopBox? || After(l, ticks, n).state == Running {
          assert SettlesBy(l, ticks, n);
        }
      }
    }
  }

  /** A starting box is running, or told to stop, by its start time plus the timeout and one interval. */
  lemma {:induction false} StartSettles(l: Lifecycle, ticks: seq<Tick>, timeoutMs: int, gap: int) returns (n: nat)
    requires Clocked(ticks) && l.state == Starting
    requires forall i :: 0 <= i < |ticks| && ticks[i].op.Sweep? ==>
               ticks[i].config.enabled && Window(ticks[i].config.startTimeoutMinutes) == timeoutMs
    requires HasSweep(ticks, l.since + timeoutMs, gap)
    ensures n < |ticks| && (CommandAt(l, ticks, n).StopBox? || After(l, ticks, n + 1).state == Running)
    ensures ticks[n].now <= l.since + timeoutMs + gap
  {
    var b :| SweepIn(ticks, b, l.since + timeoutMs, gap);
    StartsUntilSettled(l, ticks, b);
    if SettlesBy(l, ticks, b) {
      n :| 0 <= n < b && n < |ticks| && (CommandAt(l, ticks, n).StopBox? || After(l, ticks, n + 1).state == Running);
    } else {
      n := b;
    }
  }

  // --- no job is stranded ---

  /** Some queue has a job that has waited since `born` or longer. */
  ghost predicate Waiting(queues: seq<Queue>, born: int) {
    exists i :: 0 <= i < |queues| && queues[i].waiting > 0 && queues[i].oldestWaiting.Some? && 0 != queues[i].oldestWaiting.value <= born
  }

  lemma {:induction false} WaitingIsOld(queues: seq<Queue>, born: int, now: int)
    requires Waiting(queues, born)
    ensures Pending(queues, now) > 0 && OldestAge(queues, now) >= (now - born + 500) / 1000
  {
    var i :| 0 <= i < |queues| && queues[i].waiting > 0 && queues[i].oldestWaiting.Some? && 0 != queues[i].oldestWaiting.value <= born;
    if i > 0 {
      assert queues[1..][i - 1] == queues[i];
      WaitingIsOld(queues[1..], born, now);
    }
  }

  ghost predicate LeavesOffBy(l: Lifecycle, ticks: seq<Tick>, n: nat) {
    exists i :: 0 <= i < n && i < |ticks| && (CommandAt(l, ticks, i) == StartBox || After(l, ticks, i + 1).state != Off)
  }

  lemma {:induction false} OffUntilLeft(l: Lifecycle, ticks: seq<Tick>, n: nat)
    requires n <= |ticks| && l.state == Off
    ensures LeavesOffBy(l, ticks, n) || After(l, ticks, n).state == Off
  {
    if n > 0 {
      OffUntilLeft(l, ticks, n - 1);
      var command := CommandAt(l, ticks, n - 1);
      if !LeavesOffBy(l, ticks, n - 1) && After(l, ticks, n).state != Off {
        assert LeavesOffBy(l, ticks, n);
      }
    }
  }

  /** However far below the threshold, a waiting job has the off box told to start, or found up, by the
      time it has waited the maximum age plus one interval. */
  lemma {:induction false} WorkIsNotStranded(l: Lifecycle, ticks: seq<Tick>, born: int, ageMinutes: int, gap: int) returns (n: nat)
    requires Clocked(ticks) && l.state == Off
    requires forall i :: 0 <= i < |ticks| && ticks[i].op.Sweep? ==>
               && ticks[i].config.enabled && ticks[i].config.maxPendingAgeMinutes == ageMinutes
               && Waiting(ticks[i].op.world.queues, born)
    requires HasSweep(ticks, born + Window(ageMinutes), gap)
    ensures n < |ticks| && (CommandAt(l, ticks, n) == StartBox || After(l, ticks, n + 1).state != Off)
    ensures ticks[n].now <= born + Window(ageMinutes) + gap
  {
    var b :| SweepIn(ticks, b, born + Window(ageMinutes), gap);
    OffUntilLeft(l, ticks, b);
    if LeavesOffBy(l, ticks, b) {
      n :| 0 <= n < b && n < |ticks| && (CommandAt(l, ticks, n) == StartBox || After(l, ticks, n + 1).state != Off);
    } else {
      n := b;
      WaitingIsOld(ticks[b].op.world.queues, born, ticks[b].now);
    }
  }

  // --- a stop that failed ---

  /** Nobody starts or stops the box by hand, and no sweep finds its worker gone. */
  ghost predicate LeftAlone(t: Tick) {
    match t.op
    case Sweep(w) => t.config.enabled ==> w.workerOnline
    case StartNow(controllable, _) => !controllable
    case StopNow(controllable, _) => !controllable
    case _ => true
  }

  /** When a stop command fails, the box is the heartbeat's: until its worker is gone or someone acts, no
      operation gives a command, and the heartbeat keeps the box up exactly while a job is waiting,
      delayed or live, or a hold set since is in force. */
  lemma {:induction false} HeartbeatTakesOver(l: Lifecycle, ticks: seq<Tick>, k: nat, n: nat, c: Config, queues: seq<Queue>, now: int)
    requires k < n <= |ticks| && CommandAt(l, ticks, k).StopBox? && After(l, ticks, k + 1).state != Off
    requires forall i :: k < i < n ==> LeftAlone(ticks[i])
    ensures After(l, ticks, k + 1).holdUntil.None?
    ensures forall i :: k < i < n ==> CommandAt(l, ticks, i) == NoCommand
    ensures After(l, ticks, n).state == Stopping && After(l, ticks, n).since == ticks[k].now
    ensures KeepAlive(After(l, ticks, n), c, queues, now) <==> !Quiet(queues, now) || Holding(After(l, ticks, n), now)
    decreases n
  {
    PendingZeroIsQuiet(queues, now);
    if k < n - 1 {
      HeartbeatTakesOver(l, ticks, k, n - 1, c, queues, now);
      assert LeftAlone(ticks[n - 1]);
    }
  }

  // --- the heartbeat and the sweep ---

  lemma {:induction false} IdleAfterStart(l: Lifecycle, ticks: seq<Tick>, n: nat)
    requires n <= |ticks| && Clocked(ticks) && HonestClock(l)
    requires |ticks| > 0 ==> l.since <= ticks[0].now
    ensures var r := After(l, ticks, n);
            && (n > 0 ==> r.since <= ticks[n - 1].now)
            && (r.state == Running && r.idleSince.Some? ==> r.since <= r.idleSince.value)
  {
    if n > 0 {
      IdleAfterStart(l, ticks, n - 1);
    }
  }

  /** When the sweep stops an idle box, the box's own heartbeat would tell it to go as well. */
  lemma {:induction false} HeartbeatConfirmsStop(l: Lifecycle, ticks: seq<Tick>, n: nat)
    requires Clocked(ticks) && HonestClock(l) && n < |ticks|
    requires |ticks| > 0 ==> l.since <= ticks[0].now
    requires CommandAt(l, ticks, n) == StopBox(Idle)
    ensures !KeepAlive(After(l, ticks, n), ticks[n].config, ticks[n].op.world.queues, ticks[n].now)
  {
    IdleAfterStart(l, ticks, n);
  }

  /** The converse fails exactly when the box has been up for a window but its queues have not been
      seen empty for one: the heartbeat measures from the start of the run, the sweep from the lull. */
  lemma {:induction false} HeartbeatSkipsTheGrace(l: Lifecycle, c: Config, w: World, now: int)
    requires l.state == Running && c.enabled && w.workerOnline
    ensures var (_, command) := Swept(l, c, now, w);
            !KeepAlive(l, c, w.queues, now) && !command.StopBox? <==>
              && Quiet(w.queues, now) && !Holding(l, now)
              && now - l.since >= Window(c.idleShutdownMinutes)
              && (l.idleSince.None? || now - l.idleSince.value < Window(c.idleShutdownMinutes))
  {
    PendingZeroIsQuiet(w.queues, now);
  }

  /** Such a state is reached: busy until ten minutes in, quiet a second later, and a box with a
      five-minute window is told by its heartbeat to shut down at once. */
  lemma {:induction false} HeartbeatCutsAnActiveBoxShort() returns (ticks: seq<Tick>, config: Config)
    ensures Clocked(ticks) && |ticks| == 3 && config.idleShutdownMinutes == 5
    ensures After(INITIAL, ticks, 3).state == Running
    ensures Looks(ticks[2]) && !SawQuiet(ticks[2])
    ensures !KeepAlive(After(INITIAL, ticks, 3), config, [], ticks[2].now + 1000)
  {
    config := Config(true, false, 1, 10, 5, 5);
    var busy := World([Queue(1, 0, 0, None, None)], true, None, true, true);
    ticks := [Tick(1, config, Sweep(busy)), Tick(2, config, Sweep(busy)), Tick(600000, config, Sweep(busy))];
    assert Pending(busy.queues, 1) == 1;
    assert Pending(busy.queues, 600000) == 1;
    assert !Quiet(busy.queues, 600000) by { assert busy.queues[0].waiting == 1; }
    var l1 := Lifecycle(Starting, 1, None, None, 0);
    var l2 := Lifecycle(Running, 2, None, None, 0);
    assert After(INITIAL, ticks, 0) == INITIAL;
    assert After(INITIAL, ticks, 1) == l1;
    assert After(INITIAL, ticks, 2) == l2;
    assert After(INITIAL, ticks, 3) == l2;
  }
}
