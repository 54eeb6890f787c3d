/** Event expiry and the irreversible purge of an event's media: organiser actions, the expiry sweep
    that sends the notice, and the purge sweep, whose candidates may be stale by the time it acts.

    Times are milliseconds. One event is followed; other events do not interfere with its row. */
module EventExpiry {

  import opened Common

  datatype Event = Event(
    expiresAt: Option<int>,
    notifiedAt: Option<int>,
    acknowledgedAt: Option<int>,
    purgeAfter: Option<int>,
    purgedAt: Option<int>,
    deleted: bool)

  // --- utils/event-expiry ---

  predicate IsExpired(e: Event, now: int) {
    e.expiresAt.Some? && now >= e.expiresAt.value
  }

  predicate IsPurged(e: Event) {
    e.purgedAt.Some?
  }

  function PurgeDeadline(expiresAt: int, graceHours: int): int {
    expiresAt + graceHours * 60 * 60 * 1000
  }

  // --- the two queries ---

  predicate NewlyExpired(e: Event, now: int) {
    e.expiresAt.Some? && e.expiresAt.value <= now && e.notifiedAt.None? && !e.deleted
  }

  predicate DueForPurge(e: Event, now: int) {
    && e.purgeAfter.Some? && e.purgeAfter.value <= now && e.purgedAt.None? && !e.deleted
    && (e.expiresAt.None? || e.expiresAt.value <= now)
  }

  // --- the service ---

  datatype Outcome = Updated | AlreadyDone | NotFound | Refused

  /** The expiry notice the owner was sent: for which expiry, with how much grace. */
  datatype Notice = Notice(expiry: int, graceHours: int)

  datatype Purge = Swept(at: int) | ByHand(at: int)

  /** The row as an expiry sweep read it when it began, with the grace configured for that sweep. */
  datatype Reading = Reading(began: int, expiry: int, graceHours: int)

  class Service {
    var event: Event
    // jobs queued so far
    var notices: seq<Notice>
    var purges: seq<Purge>

    constructor (e: Event)
      ensures event == e && notices == [] && purges == []
    {
      event, notices, purges := e, [], [];
    }

    method Extend(expiresAt: Option<int>, now: int) returns (r: Outcome)
      modifies this`event
      ensures (event, r) == Extended(old(event), expiresAt, now)
    {
      if event.deleted {
        return NotFound;
      }
      if IsPurged(event) {
        return Refused;
      }
      if expiresAt.Some? && expiresAt.value <= now {
        return Refused;
      }
      event := event.(expiresAt := expiresAt, notifiedAt := None, acknowledgedAt := None, purgeAfter := None);
      r := Updated;
    }

    method Acknowledge(now: int) returns (r: Outcome)
      modifies this`event
      ensures (event, r) == Acknowledged(old(event), now)
    {
      if event.deleted {
        return NotFound;
      }
      if !IsExpired(event, now) {
        return Refused;
      }
      event := event.(acknowledgedAt := Some(now));
      r := Updated;
    }

    method PurgeNow(now: int) returns (r: Outcome)
      modifies this`event, this`purges
      ensures (event, r) == PurgedByHand(old(event), now)
      ensures purges == if r == Updated then old(purges) + [ByHand(now)] else old(purges)
    {
      if event.deleted {
        return NotFound;
      }
      if !IsExpired(event, now) {
        return Refused;
      }
      if IsPurged(event) {
        return AlreadyDone;
      }
      purges := purges + [ByHand(now)];
      event := event.(purgedAt := Some(now), purgeAfter := None);
      r := Updated;
    }

    /** The expiry sweep's query. */
    method FindNewlyExpired(now: int, graceHours: int) returns (r: Option<Reading>)
      ensures r == if NewlyExpired(event, now) then Some(Reading(now, event.expiresAt.value, graceHours)) else None
    {
      r := None;
      if event.expiresAt.Some? && event.expiresAt.value <= now && event.notifiedAt.None? && !event.deleted {
        r := Some(Reading(now, event.expiresAt.value, graceHours));
      }
    }

    /** The expiry sweep's turn on an event it found: it writes from what it read, without a second look. */
    method Notify(r: Reading)
      modifies this`event, this`notices
      ensures event == Marked(old(event), r) && notices == old(notices) + [Notice(r.expiry, r.graceHours)]
    {
      event := event.(notifiedAt := Some(r.began), purgeAfter := Some(PurgeDeadline(r.expiry, r.graceHours)));
      notices := notices + [Notice(r.expiry, r.graceHours)];
    }

    /** The purge sweep's turn on a candidate: `now` is when the sweep began, the row is re-read. */
    method PurgeCandidate(now: int)
      modifies this`event, this`purges
      ensures event == PurgedBySweep(old(event), now)
      ensures purges == if SweepPurges(old(event), now) then old(purges) + [Swept(now)] else old(purges)
    {
      if event.deleted || IsPurged(event) || !IsExpired(event, now) {
        return;
      }
      purges := purges + [Swept(now)];
      event := event.(purgedAt := Some(now), purgeAfter := None);
    }

    /** Any mix of organiser actions, sweeps and updates, in the order they reach the database. Media is
        destroyed at most once, only of an event whose expiry has passed, and by the sweep only once the
        announced grace is over, as long as no generic update and no late notice was a risk. */
    method Perform(ops: seq<Op>, start: int) returns (ghost run: seq<State>)
      modifies this
      ensures Run(run, ops) && run[0] == State(old(event), old(notices), old(purges), start, {}, multiset{})
      ensures var s := run[|ops|]; event == s.event && notices == s.notices && purges == s.purges
      ensures Fresh(run[0]) ==> |purges| <= 1
      ensures forall i :: Destroys(run, i) ==> IsExpired(run[i].event, run[i].clock)
      ensures Fresh(run[0]) && Guarded(run, ops) ==> forall i :: Sweeps(run, ops, i) ==> PurgeDue(run[i], ops[i].began)
      ensures forall i :: 0 <= i < |ops| ==> Meant(run, ops, i)
    {
      var clock := start;
      var candidates: set<int> := {};
      var toNotify: multiset<Reading> := multiset{};
      run := [State(event, notices, purges, start, {}, multiset{})];
      for i := 0 to |ops|
        invariant Run(run, ops[..i]) && run[0] == State(old(event), old(notices), old(purges), start, {}, multiset{})
        invariant run[i] == State(event, notices, purges, clock, candidates, toNotify)
      {
        match ops[i] {
          case Extend(x) => var _ := Extend(x, clock);
          case Acknowledge => var _ := Acknowledge(clock);
          case PurgeNow => var _ := PurgeNow(clock);
          case ExpiryQuery(began, graceHours) =>
            if began <= clock {
              var found := FindNewlyExpired(began, graceHours);
              if found.Some? {
                toNotify := toNotify + multiset{found.value};
              }
            }
          case ExpiryWrite(r) =>
            if r in toNotify {
              Notify(r);
              toNotify := toNotify - multiset{r};
            }
          case PurgeQuery =>
            if DueForPurge(event, clock) {
              candidates := candidates + {clock};
            }
          case PurgeAct(began) =>
            if began in candidates {
              PurgeCandidate(began);
              candidates := candidates - {began};
            }
          case Delete => event := event.(deleted := true);
          case Wait(now) =>
            if now > clock {
              clock := now;
            }
          case GenericUpdate(x) => event := event.(expiresAt := x);
        }
        run := run + [Next(run[i], ops[i])];
        assert ops[..i + 1] == ops[..i] + [ops[i]];
      }
      assert ops[..|ops|] == ops;
      if Fresh(run[0]) {
        PurgeIsFinal(run, ops, 0, |ops|);
      }
      PurgesAreDue(run, ops);
      forall i | 0 <= i < |ops| ensures Meant(run, ops, i) {
        ActionsMean(run[i], ops[i]);
        SweepsMean(run[i], ops[i]);
      }
    }
  }

  function Extended(e: Event, expiresAt: Option<int>, now: int): (Event, Outcome) {
    if e.deleted then (e, NotFound)
    else if IsPurged(e) || (expiresAt.Some? && expiresAt.value <= now) then (e, Refused)
    else (e.(expiresAt := expiresAt, notifiedAt := None, acknowledgedAt := None, purgeAfter := None), Updated)
  }

  function Acknowledged(e: Event, now: int): (Event, Outcome) {
    if e.deleted then (e, NotFound)
    else if !IsExpired(e, now) then (e, Refused)
    else (e.(acknowledgedAt := Some(now)), Updated)
  }

  function PurgedByHand(e: Event, now: int): (Event, Outcome) {
    if e.deleted then (e, NotFound)
    else if !IsExpired(e, now) then (e, Refused)
    else if IsPurged(e) then (e, AlreadyDone)
    else (e.(purgedAt := Some(now), purgeAfter := None), Updated)
  }

  function Marked(e: Event, r: Reading): Event {
    e.(notifiedAt := Some(r.began), purgeAfter := Some(PurgeDeadline(r.expiry, r.graceHours)))
  }

  /** The re-check of the purge sweep on the row it reads just before acting. */
  predicate SweepPurges(e: Event, now: int) {
    !e.deleted && !IsPurged(e) && IsExpired(e, now)
  }

  function PurgedBySweep(e: Event, now: int): Event {
    if SweepPurges(e, now) then e.(purgedAt := Some(now), purgeAfter := None) else e
  }

  // --- runs ---

  /** The row, the jobs queued so far, the clock, and the sweeps that found the event and have not yet
      got to it: purge sweeps by the time they began, expiry sweeps by what they read. */
  datatype State = State(
    event: Event,
    notices: seq<Notice>,
    purges: seq<Purge>,
    clock: int,
    candidates: set<int>,
    toNotify: multiset<Reading>)

  datatype Op =
    | Extend(expiresAt: Option<int>)
    | Acknowledge
    | PurgeNow
    // the sweep began at `began`, read its configured grace and now queries
    | ExpiryQuery(began: int, graceHours: int)
    | ExpiryWrite(reading: Reading)
    | PurgeQuery
    | PurgeAct(began: int)
    | Delete
    | Wait(now: int)
    // the generic event update, which leaves the expiry marks alone
    | GenericUpdate(expiresAt: Option<int>)

  /** A sweep from the future, a query that finds nothing, a turn for a sweep that does not hold the event
      and a wait into the past change nothing. */
  function Next(s: State, op: Op): State {
    match op
    case Extend(x) => s.(event := Extended(s.event, x, s.clock).0)
    case Acknowledge => s.(event := Acknowledged(s.event, s.clock).0)
    case PurgeNow =>
      var (e, r) := PurgedByHand(s.event, s.clock);
      s.(event := e, purges := if r == Updated then s.purges + [ByHand(s.clock)] else s.purges)
    case ExpiryQuery(began, graceHours) =>
      if began > s.clock || !NewlyExpired(s.event, began) then s
      else s.(toNotify := s.toNotify + multiset{Reading(began, s.event.expiresAt.value, graceHours)})
    case ExpiryWrite(r) =>
      if r !in s.toNotify then s
      else s.(event := Marked(s.event, r),
              notices := s.notices + [Notice(r.expiry, r.graceHours)],
              toNotify := s.toNotify - multiset{r})
    case PurgeQuery => if DueForPurge(s.event, s.clock) then s.(candidates := s.candidates + {s.clock}) else s
    case PurgeAct(began) =>
      if began !in s.candidates then s
      else s.(event := PurgedBySweep(s.event, began),
              purges := if SweepPurges(s.event, began) then s.purges + [Swept(began)] else s.purges,
              candidates := s.candidates - {began})
    case Delete => s.(event := s.event.(deleted := true))
    case Wait(now) => if now > s.clock then s.(clock := now) else s
    case GenericUpdate(x) => s.(event := s.event.(expiresAt := x))
  }

  ghost predicate Run(run: seq<State>, ops: seq<Op>) {
    |run| == |ops| + 1 && forall i :: 0 <= i < |ops| ==> run[i + 1] == Next(run[i], ops[i])
  }

  /** A new event: no marks, nothing queued, whatever expiry it was created with. */
  ghost predicate Fresh(s: State) {
    && s.event.notifiedAt.None? && s.event.purgeAfter.None? && s.event.purgedAt.None?
    && s.notices == [] && s.purges == [] && s.candidates == {} && s.toNotify == multiset{}
  }

  /** Step `i` destroys the media. */
  ghost predicate Destroys(run: seq<State>, i: int) {
    0 <= i < |run| - 1 && run[i + 1].purges != run[i].purges
  }

  ghost predicate Sweeps(run: seq<State>, ops: seq<Op>, i: int) {
    0 <= i < |ops| && ops[i].PurgeAct? && Destroys(run, i)
  }

  // --- the promise ---

  /** A notice was queued for this expiry, and the grace it announced is over by `t`. */
  ghost predicate ElapsedBy(notices: seq<Notice>, expiry: int, t: int) {
    exists n :: n in notices && n.expiry == expiry && n.expiry + n.graceHours * 3600000 <= t
  }

  /** The expiry the event has now was announced and the announced grace is over. */
  ghost predicate PurgeDue(s: State, began: int) {
    s.event.expiresAt.Some? && ElapsedBy(s.notices, s.event.expiresAt.value, began) && began <= s.clock
  }

  /** No generic update and no late notice of the run is a risk. */
  ghost predicate Guarded(run: seq<State>, ops: seq<Op>) {
    forall i :: 0 <= i < |ops| && i < |run| ==> Harmless(run[i], ops[i])
  }

  ghost predicate Harmless(s: State, op: Op) {
    match op
    case GenericUpdate(x) => !Risky(s, x)
    case ExpiryWrite(r) => !RiskyNotice(s, r)
    case _ => true
  }

  function Later(a: int, b: int): int {
    if a >= b then a else b
  }

  predicate Live(e: Event) {
    !e.deleted && e.purgedAt.None?
  }

  /** When a generic update of the expiry to `x` leads to an undue purge: some sweep in flight would find
      the new expiry passed, or the standing deadline lets a sweep pick the event up, before any grace
      announced for the new expiry is over. */
  ghost predicate Risky(s: State, x: Option<int>) {
    && Live(s.event) && x.Some?
    && (|| (exists b :: b in s.candidates && x.value <= b && !ElapsedBy(s.notices, x.value, b))
        || (s.event.purgeAfter.Some? &&
            !ElapsedBy(s.notices, x.value, Later(s.clock, Later(s.event.purgeAfter.value, x.value)))))
  }

  /** When the write of an expiry sweep leads to an undue purge: the event got another expiry since the
      sweep read it, and the deadline computed from the old one comes before any grace announced for the
      new one is over. */
  ghost predicate RiskyNotice(s: State, r: Reading) {
    && r in s.toNotify && Live(s.event) && s.event.expiresAt.Some? && s.event.expiresAt.value != r.expiry
    && !ElapsedBy(s.notices, s.event.expiresAt.value,
                  Later(s.clock, Later(PurgeDeadline(r.expiry, r.graceHours), s.event.expiresAt.value)))
  }

  // --- what each operation does, by what it finds ---

  /** The organiser's purge: on a row that is there and expired, the media goes at once and the mark is set,
      unless it is gone already; on any other row nothing happens. */
  ghost predicate HandPurge(s: State, s': State) {
    var e := s.event;
    if !e.deleted && e.expiresAt.Some? && e.expiresAt.value <= s.clock && e.purgedAt.None? then
      s' == s.(event := e.(purgedAt := Some(s.clock), purgeAfter := None), purges := s.purges + [ByHand(s.clock)])
    else s' == s
  }

  /** An extension goes through exactly on a row that is there and not purged, to no expiry or a later one
      than now; it then revives the event and takes back every mark of the old expiry. */
  ghost predicate Extension(s: State, s': State, x: Option<int>) {
    var e := s.event;
    if !e.deleted && e.purgedAt.None? && (x.Some? ==> s.clock < x.value) then
      s' == s.(event := Event(x, None, None, None, None, false))
    else s' == s
  }

  ghost predicate Acknowledgement(s: State, s': State) {
    var e := s.event;
    if !e.deleted && e.expiresAt.Some? && e.expiresAt.value <= s.clock then s' == s.(event := e.(acknowledgedAt := Some(s.clock)))
    else s' == s
  }

  /** A purge sweep picks up a row whose deadline has passed, and acts on what it reads then. */
  ghost predicate PurgeSweep(s: State, s': State, op: Op) {
    var e := s.event;
    match op
    case PurgeQuery =>
      s' == s.(candidates := s.candidates +
        if !e.deleted && e.purgedAt.None? && e.purgeAfter.Some? && e.purgeAfter.value <= s.clock
           && (e.expiresAt.Some? ==> e.expiresAt.value <= s.clock) then {s.clock} else {})
    case PurgeAct(began) =>
      began in s.candidates ==>
        if !e.deleted && e.purgedAt.None? && e.expiresAt.Some? && e.expiresAt.value <= began then
          s' == s.(event := e.(purgedAt := Some(began), purgeAfter := None), purges := s.purges + [Swept(began)],
                   candidates := s.candidates - {began})
        else s' == s.(candidates := s.candidates - {began})
    case _ => true
  }

  /** An expiry sweep finds a row that expired and was not announced, and announces what it read. */
  ghost predicate NoticeSweep(s: State, s': State, op: Op) {
    var e := s.event;
    match op
    case ExpiryQuery(began, graceHours) =>
      began <= s.clock ==>
        s' == s.(toNotify := s.toNotify +
          if !e.deleted && e.notifiedAt.None? && e.expiresAt.Some? && e.expiresAt.value <= began
          then multiset{Reading(began, e.expiresAt.value, graceHours)} else multiset{})
    case ExpiryWrite(r) =>
      r in s.toNotify ==>
        s' == s.(event := e.(notifiedAt := Some(r.began), purgeAfter := Some(r.expiry + r.graceHours * 3600000)),
                 notices := s.notices + [Notice(r.expiry, r.graceHours)], toNotify := s.toNotify - multiset{r})
    case _ => true
  }

  lemma {:induction false} ActionsMean(s: State, op: Op)
    ensures op.PurgeNow? ==> HandPurge(s, Next(s, op))
    ensures op.Extend? ==> Extension(s, Next(s, op), op.expiresAt) && (Accepted(s, op) <==> Live(s.event) && (op.expiresAt.Some? ==> s.clock < op.expiresAt.value))
    ensures op.Acknowledge? ==> Acknowledgement(s, Next(s, op))
  {
  }

  lemma {:induction false} SweepsMean(s: State, op: Op)
    ensures PurgeSweep(s, Next(s, op), op) && NoticeSweep(s, Next(s, op), op)
  {
    match op {
      case PurgeQuery =>
        assert s.candidates + {} == s.candidates;
      case ExpiryQuery(_, _) =>
        assert s.toNotify + multiset{} == s.toNotify;
      case _ =>
    }
  }

  /** Every step of a run does what its operation is for. */
  ghost predicate Meant(run: seq<State>, ops: seq<Op>, i: int)
    requires 0 <= i < |ops| && |run| == |ops| + 1
  {
    && (ops[i].PurgeNow? ==> HandPurge(run[i], run[i + 1]))
    && (ops[i].Extend? ==> Extension(run[i], run[i + 1], ops[i].expiresAt))
    && (ops[i].Acknowledge? ==> Acknowledgement(run[i], run[i + 1]))
    && PurgeSweep(run[i], run[i + 1], ops[i]) && NoticeSweep(run[i], run[i + 1], ops[i])
  }

  // --- the invariant ---

  /** Whatever a sweep could pick up from `since` on, or holds already, is due. */
  ghost predicate Covered(s: State, since: int) {
    && since <= s.clock
    && (Live(s.event) && s.event.purgeAfter.Some? && s.event.expiresAt.Some? ==>
          ElapsedBy(s.notices, s.event.expiresAt.value, Later(since, Later(s.event.purgeAfter.value, s.event.expiresAt.value))))
    && (forall b :: b in s.candidates ==>
          b <= s.clock && (SweepPurges(s.event, b) ==> ElapsedBy(s.notices, s.event.expiresAt.value, b)))
  }

  ghost predicate Safe(s: State) {
    exists since :: Covered(s, since)
  }

  lemma {:induction false} NoticeCovers(s: State, r: Reading)
    requires Safe(s) && r in s.toNotify && !RiskyNotice(s, r)
    ensures Covered(Next(s, ExpiryWrite(r)), s.clock)
  {
    var s' := Next(s, ExpiryWrite(r));
    assert s'.notices[|s.notices|] == Notice(r.expiry, r.graceHours);
    assert forall n :: n in s.notices ==> n in s'.notices;
  }

  lemma {:induction false} QueryCovers(s: State, since: int)
    requires Covered(s, since) && DueForPurge(s.event, s.clock)
    ensures Covered(Next(s, PurgeQuery), since)
  {
  }

  /** Every step keeps what sweeps may act on covered, generic updates and late notices included unless
      they are a risk. */
  lemma {:induction false} StepKeepsSafe(s: State, op: Op)
    requires Safe(s) && Harmless(s, op)
    ensures Safe(Next(s, op))
  {
    var s' := Next(s, op);
    var since :| Covered(s, since);
    if op.GenericUpdate? {
      assert Covered(s', s.clock);
    } else if op.ExpiryWrite? && s' != s {
      NoticeCovers(s, op.reading);
    } else if op.PurgeQuery? && s' != s {
      QueryCovers(s, since);
    } else {
      assert Covered(s', since);
    }
  }

  lemma {:induction false} RunKeepsSafe(run: seq<State>, ops: seq<Op>, n: nat)
    requires Run(run, ops) && Safe(run[0]) && Guarded(run, ops) && n < |run|
    ensures Safe(run[n])
  {
    if n > 0 {
      RunKeepsSafe(run, ops, n - 1);
      StepKeepsSafe(run[n - 1], ops[n - 1]);
    }
  }

  /** Whenever the purge sweep destroys media, the expiry the event has at that moment passed at least
      the announced grace ago, and the notice announcing it was queued for that same expiry. */
  lemma {:induction false} PurgeIsDue(run: seq<State>, ops: seq<Op>, i: nat)
    requires Run(run, ops) && Safe(run[0]) && Guarded(run, ops) && Sweeps(run, ops, i)
    ensures PurgeDue(run[i], ops[i].began)
  {
    RunKeepsSafe(run, ops, i);
    var since :| Covered(run[i], since);
  }

  lemma {:induction false} FreshIsSafe(s: State)
    requires Fresh(s)
    ensures Safe(s)
  {
    assert Covered(s, s.clock);
  }

  lemma {:induction false} PurgesAreDue(run: seq<State>, ops: seq<Op>)
    requires Run(run, ops)
    ensures forall i :: Destroys(run, i) && run[0].candidates == {} ==> IsExpired(run[i].event, run[i].clock)
    ensures Fresh(run[0]) && Guarded(run, ops) ==> forall i :: Sweeps(run, ops, i) ==> PurgeDue(run[i], ops[i].began)
  {
    forall i | Destroys(run, i) && run[0].candidates == {} ensures IsExpired(run[i].event, run[i].clock) {
      StillHeld(run, ops, i);
    }
    if Fresh(run[0]) && Guarded(run, ops) {
      FreshIsSafe(run[0]);
      forall i | Sweeps(run, ops, i) ensures PurgeDue(run[i], ops[i].began) {
        PurgeIsDue(run, ops, i);
      }
    }
  }

  /** No sweep in flight began later than now, and none found or announced an expiry still to come: so in
      every state any run reaches. */
  ghost predicate SweepsBegun(s: State) {
    && (forall b :: b in s.candidates ==> b <= s.clock)
    && (forall r :: r in s.toNotify ==> r.expiry <= r.began <= s.clock)
    && (forall n :: n in s.notices ==> n.expiry <= s.clock)
  }

  lemma {:induction false} StillHeld(run: seq<State>, ops: seq<Op>, n: nat)
    requires Run(run, ops) && run[0].candidates == {} && n < |run|
    ensures forall b :: b in run[n].candidates ==> b <= run[n].clock
  {
    if n > 0 {
      StillHeld(run, ops, n - 1);
      assert run[n] == Next(run[n - 1], ops[n - 1]);
    }
  }

  lemma {:induction false} StepBegun(s: State, op: Op)
    requires SweepsBegun(s)
    ensures SweepsBegun(Next(s, op))
  {
    if op.ExpiryWrite? && op.reading in s.toNotify {
      assert forall r :: r in Next(s, op).toNotify ==> r in s.toNotify;
    }
  }

  lemma {:induction false} StillBegun(run: seq<State>, ops: seq<Op>, n: nat)
    requires Run(run, ops) && SweepsBegun(run[0]) && n < |run|
    ensures SweepsBegun(run[n])
  {
    if n > 0 {
      StillBegun(run, ops, n - 1);
      StepBegun(run[n - 1], ops[n - 1]);
    }
  }

  /** The media is purged at most once, and a purge is never undone: whatever the run, generic updates
      of any kind included. */
  lemma {:induction false} PurgeIsFinal(run: seq<State>, ops: seq<Op>, i: nat, j: nat)
    requires Run(run, ops) && Fresh(run[0]) && i <= j < |run|
    ensures |run[j].purges| == if IsPurged(run[j].event) then 1 else 0
    ensures IsPurged(run[i].event) ==> run[j].event.purgedAt == run[i].event.purgedAt && run[j].purges == run[i].purges
    decreases j
  {
    if j > 0 {
      PurgeIsFinal(run, ops, if i < j then i else j - 1, j - 1);
      StepPurges(run[j - 1], ops[j - 1]);
    }
  }

  lemma {:induction false} StepPurges(s: State, op: Op)
    requires |s.purges| == if IsPurged(s.event) then 1 else 0
    ensures var s' := Next(s, op);
            && |s'.purges| == (if IsPurged(s'.event) then 1 else 0)
            && (IsPurged(s.event) ==> s'.event.purgedAt == s.event.purgedAt && s'.purges == s.purges)
  {
  }

  // --- what the organiser's actions and the notice are worth ---

  predicate Accepted(s: State, op: Op) {
    op.Extend? && Extended(s.event, op.expiresAt, s.clock).1 == Updated
  }

  /** Step `k` queues a notice for `expiry`. */
  ghost predicate Notifies(run: seq<State>, k: int, expiry: Option<int>) {
    0 <= k < |run| - 1 && |run[k + 1].notices| == |run[k].notices| + 1 && Some(run[k + 1].notices[|run[k].notices|].expiry) == expiry
  }

  /** No purge sweep in flight can act, none will find the event to purge, and nothing is announced. */
  ghost predicate Cancelled(s: State) {
    && (Live(s.event) && s.event.expiresAt.Some? ==> s.event.purgeAfter.None?)
    && (forall b :: b in s.candidates ==> !SweepPurges(s.event, b))
    && (forall n :: n in s.notices ==> s.event.expiresAt != Some(n.expiry))
  }

  ghost predicate NotifiedSince(run: seq<State>, i: nat, j: nat) {
    j < |run| && exists k :: i < k < j && Notifies(run, k, run[j].event.expiresAt)
  }

  lemma {:induction false} CancelledUntilNotified(run: seq<State>, ops: seq<Op>, i: nat, j: nat)
    requires Run(run, ops) && SweepsBegun(run[0]) && i < j < |run| && Accepted(run[i], ops[i])
    requires forall k :: i < k < j ==> !ops[k].GenericUpdate? && Harmless(run[k], ops[k])
    ensures Cancelled(run[j]) || NotifiedSince(run, i, j)
    decreases j
  {
    StillBegun(run, ops, j - 1);
    var s, op := run[j - 1], ops[j - 1];
    if Accepted(s, op) {
    } else {
      CancelledUntilNotified(run, ops, i, j - 1);
      ExpiryStays(s, op);
      if NotifiedSince(run, i, j - 1) {
      } else {
        if !Cancelled(run[j]) {
          NotifiedNow(run, ops, i, j);
        }
      }
    }
  }

  lemma {:induction false} ExpiryStays(s: State, op: Op)
    requires !Accepted(s, op) && !op.GenericUpdate?
    ensures Next(s, op).event.expiresAt == s.event.expiresAt
  {
  }

  lemma {:induction false} NotifiedNow(run: seq<State>, ops: seq<Op>, i: nat, j: nat)
    requires Run(run, ops) && i < j - 1 && j < |run| && ops[j - 1].ExpiryWrite?
    requires ops[j - 1].reading in run[j - 1].toNotify && run[j - 1].event.expiresAt == Some(ops[j - 1].reading.expiry)
    ensures NotifiedSince(run, i, j)
  {
    assert Notifies(run, j - 1, run[j].event.expiresAt);
  }

  /** An accepted extension cancels the purge, purge sweeps already holding the event included: the sweep
      destroys the media only after a new notice, queued after the extension for the expiry then set,
      unless an expiry sweep that read the event before writes a risky notice after. */
  lemma {:induction false} ExtensionNeedsNewNotice(run: seq<State>, ops: seq<Op>, i: nat, j: nat)
    requires Run(run, ops) && SweepsBegun(run[0]) && i < j && Sweeps(run, ops, j) && Accepted(run[i], ops[i])
    requires forall k :: i < k < j ==> !ops[k].GenericUpdate? && Harmless(run[k], ops[k])
    ensures exists k :: i < k < j && Notifies(run, k, run[j].event.expiresAt)
  {
    CancelledUntilNotified(run, ops, i, j);
  }

  /** Once notified, the event stays so and no sweep finds it again, until it is extended. */
  lemma {:induction false} NotifiedStays(run: seq<State>, ops: seq<Op>, i: nat, j: nat, r: Reading)
    requires Run(run, ops) && i < j < |run| && run[i + 1].notices != run[i].notices
    requires forall k :: i < k < j ==> !Accepted(run[k], ops[k])
    ensures run[j].event.notifiedAt.Some? && (r in run[j].toNotify ==> r in run[i + 1].toNotify)
    decreases j
  {
    if i < j - 1 {
      NotifiedStays(run, ops, i, j - 1, r);
    }
  }

  /** The owner is not mailed on every sweep: between two notices there is an accepted extension, unless
      the second sweep had read the event before the first wrote. */
  lemma {:induction false} OneNoticePerExtension(run: seq<State>, ops: seq<Op>, i: nat, j: nat)
    requires Run(run, ops) && i < j < |ops|
    requires run[i + 1].notices != run[i].notices && run[j + 1].notices != run[j].notices
    ensures ops[j].ExpiryWrite?
    ensures ops[j].reading in run[i + 1].toNotify || exists k :: i < k < j && Accepted(run[k], ops[k])
  {
    if forall k :: i < k < j ==> !Accepted(run[k], ops[k]) {
      NotifiedStays(run, ops, i, j, ops[j].reading);
    }
  }

  function Unacknowledged(ops: seq<Op>): seq<Op> {
    if ops == [] then []
    else
      var front, last := ops[..|ops| - 1], ops[|ops| - 1];
      Unacknowledged(front) + if last == Acknowledge then [] else [last]
  }

  ghost predicate SameButAcknowledged(s: State, t: State) {
    t.(event := t.event.(acknowledgedAt := s.event.acknowledgedAt)) == s
  }

  /** Acknowledging records who knew and changes nothing else, ever: leave every acknowledgement out of
      a run and its notices, deadlines and purges are the same. */
  lemma {:induction false} AcknowledgingChangesNothing(run: seq<State>, ops: seq<Op>) returns (run': seq<State>)
    requires Run(run, ops)
    ensures Run(run', Unacknowledged(ops)) && run'[0] == run[0]
    ensures SameButAcknowledged(run[|ops|], run'[|Unacknowledged(ops)|])
  {
    if ops == [] {
      run' := run;
    } else {
      var n := |ops| - 1;
      var last := ops[n];
      run' := AcknowledgingChangesNothing(run[..n + 1], ops[..n]);
      assert run[n + 1] == Next(run[n], last);
      if last != Acknowledge {
        var t := run'[|run'| - 1];
        NextIgnoresAcknowledgement(run[n], t, last);
        run' := run' + [Next(t, last)];
      }
    }
  }

  lemma {:induction false} NextIgnoresAcknowledgement(s: State, t: State, op: Op)
    requires SameButAcknowledged(s, t) && op != Acknowledge
    ensures SameButAcknowledged(Next(s, op), Next(t, op))
  {
    match op {
      case Extend(_) =>
      case PurgeNow =>
      case PurgeAct(_) =>
      case _ =>
    }
  }

  // --- the generic update ---

  /** The generic update is unsafe: run over an event already notified, it moves the expiry but leaves
      the old deadline, and the new expiry is purged at once, unannounced and with no grace. */
  lemma {:induction false} GenericUpdatePurgesUnannounced() returns (run: seq<State>, ops: seq<Op>)
    ensures Run(run, ops) && Fresh(run[0]) && |ops| == 6
    ensures run[0].clock == 100 && run[1].toNotify == multiset{Reading(100, 100, 24)}
    ensures ops[2].GenericUpdate? && Sweeps(run, ops, 5) && !PurgeDue(run[5], ops[5].began)
    ensures run[5].event.expiresAt == Some(ops[5].began) && forall n :: n in run[5].notices ==> n.expiry == 100
  {
    var day := 24 * 60 * 60 * 1000;
    var s0 := State(Event(Some(100), None, None, None, None, false), [], [], 100, {}, multiset{});
    var r := Reading(100, 100, 24);
    ops := [ExpiryQuery(100, 24), ExpiryWrite(r), GenericUpdate(Some(100 + day)), Wait(100 + day), PurgeQuery, PurgeAct(100 + day)];
    var s1 := s0.(toNotify := multiset{r});
    assert s1 == Next(s0, ops[0]);
    var s2 := Next(s1, ops[1]);
    assert s2.notices == [Notice(100, 24)] && s2.event == Marked(s0.event, r) && s2.candidates == {};
    var s3 := Next(s2, ops[2]);
    var s4 := Next(s3, ops[3]);
    var s5 := Next(s4, ops[4]);
    assert s5 == s3.(clock := 100 + day, candidates := {100 + day});
    run := [s0, s1, s2, s3, s4, s5, Next(s5, ops[5])];
  }

  /** A run from `s`, with no further risk, in which a sweep destroys the media before it is due. */
  ghost predicate GoesWrong(s: State, run: seq<State>, ops: seq<Op>) {
    && Run(run, ops) && run[0] == s && Guarded(run, ops)
    && exists i :: Sweeps(run, ops, i) && !PurgeDue(run[i], ops[i].began)
  }

  ghost predicate CanGoWrong(s: State) {
    exists run, ops :: GoesWrong(s, run, ops)
  }

  lemma {:induction false} ActsUnduly(s: State, b: int)
    requires b in s.candidates && SweepPurges(s.event, b) && !ElapsedBy(s.notices, s.event.expiresAt.value, b)
    ensures CanGoWrong(s)
  {
    var run, ops := [s, Next(s, PurgeAct(b))], [PurgeAct(b)];
    assert Sweeps(run, ops, 0);
    assert GoesWrong(s, run, ops);
  }

  /** The standing deadline lets the next sweep pick the event up and destroy it. */
  lemma {:induction false} PickedUpUnduly(s: State)
    requires Live(s.event) && s.event.expiresAt.Some? && s.event.purgeAfter.Some?
    requires !ElapsedBy(s.notices, s.event.expiresAt.value,
                        Later(s.clock, Later(s.event.purgeAfter.value, s.event.expiresAt.value)))
    ensures CanGoWrong(s)
  {
    var t := Later(s.clock, Later(s.event.purgeAfter.value, s.event.expiresAt.value));
    var s1 := Next(s, Wait(t));
    var s2 := Next(s1, PurgeQuery);
    var run, ops := [s, s1, s2, Next(s2, PurgeAct(t))], [Wait(t), PurgeQuery, PurgeAct(t)];
    assert Run(run, ops);
    assert Sweeps(run, ops, 2);
    assert GoesWrong(s, run, ops);
  }

  /** Exactly when a generic update breaks the promise: some run after it, with no further risk taken,
      has the sweep destroy media before it is due if and only if the update is a risk. */
  lemma {:induction false} GenericUpdateSafety(s: State, x: Option<int>)
    requires SweepsBegun(s)
    ensures CanGoWrong(Next(s, GenericUpdate(x))) <==> Risky(s, x)
  {
    var s' := Next(s, GenericUpdate(x));
    if Risky(s, x) {
      if b :| b in s.candidates && x.value <= b && !ElapsedBy(s.notices, x.value, b) {
        ActsUnduly(s', b);
      } else {
        PickedUpUnduly(s');
      }
    } else {
      assert Covered(s', s.clock);
      NeverGoesWrong(s');
    }
  }

  /** What a caller can tell from the row and the clock alone: an update is a risk in some safe state
      with this row exactly when it sets a new expiry on a live event that has a deadline standing, or
      sets one already past, which a sweep in flight may find. */
  lemma {:induction false} RiskFromTheRow(e: Event, clock: int, x: Option<int>)
    ensures (exists s :: Safe(s) && s.event == e && s.clock == clock && Risky(s, x)) <==>
            Live(e) && x.Some? && x != e.expiresAt && (e.purgeAfter.Some? || x.value <= clock)
  {
    forall s | Safe(s) && s.event == e && s.clock == clock && Risky(s, x)
      ensures x != e.expiresAt && (e.purgeAfter.Some? || x.value <= clock)
    {
    }
    if Live(e) && x.Some? && x != e.expiresAt && (e.purgeAfter.Some? || x.value <= clock) {
      var notices := if e.expiresAt.Some? then [Notice(e.expiresAt.value, 0)] else [];
      var s := State(e, notices, [], clock, {clock}, multiset{});
      if e.expiresAt.Some? {
        assert notices[0] in notices && PurgeDeadline(e.expiresAt.value, 0) == e.expiresAt.value;
      }
      assert Covered(s, clock);
      assert Risky(s, x);
    }
  }

  // --- the late notice ---

  /** An expiry sweep that read the event before an extension and writes after it leaves the old deadline
      on the new expiry: no notice is ever sent for that, and it is purged the moment it passes. */
  lemma {:induction false} LateNoticePurgesUnannounced() returns (run: seq<State>, ops: seq<Op>)
    ensures Run(run, ops) && Fresh(run[0]) && |ops| == 6
    ensures Accepted(run[1], ops[1]) && Sweeps(run, ops, 5) && !PurgeDue(run[5], ops[5].began)
    ensures run[5].event.expiresAt == Some(ops[5].began) && run[5].notices == [Notice(100, 24)]
    ensures forall i :: 0 <= i < |ops| ==> !ops[i].GenericUpdate?
  {
    var day := 24 * 60 * 60 * 1000;
    var s0 := State(Event(Some(100), None, None, None, None, false), [], [], 100, {}, multiset{});
    var r := Reading(100, 100, 24);
    ops := [ExpiryQuery(100, 24), Extend(Some(100 + 2 * day)), ExpiryWrite(r), Wait(100 + 2 * day), PurgeQuery, PurgeAct(100 + 2 * day)];
    var s1 := Next(s0, ops[0]);
    assert s1.toNotify == multiset{r};
    var s2 := Next(s1, ops[1]);
    var s3 := Next(s2, ops[2]);
    assert s3.notices == [Notice(100, 24)] && s3.event.purgeAfter == Some(100 + day);
    var s4 := Next(s3, ops[3]);
    var s5 := Next(s4, ops[4]);
    assert s5.candidates == {100 + 2 * day};
    run := [s0, s1, s2, s3, s4, s5, Next(s5, ops[5])];
  }

  /** Exactly when the write of an expiry sweep breaks the promise, from any safe state: some run after it,
      with no further risk taken, has the sweep destroy media before it is due if and only if the event's
      expiry is another one by then and no grace announced for that one is over in time. */
  lemma {:induction false} LateNoticeSafety(s: State, r: Reading)
    requires Safe(s) && r in s.toNotify
    ensures CanGoWrong(Next(s, ExpiryWrite(r))) <==> RiskyNotice(s, r)
  {
    var s' := Next(s, ExpiryWrite(r));
    if RiskyNotice(s, r) {
      PickedUpUnduly(s');
    } else {
      NoticeCovers(s, r);
      NeverGoesWrong(s');
    }
  }

  lemma {:induction false} NeverGoesWrong(s: State)
    requires Safe(s)
    ensures !CanGoWrong(s)
  {
    forall run: seq<State>, ops: seq<Op> | GoesWrong(s, run, ops) ensures false {
      var i :| Sweeps(run, ops, i) && !PurgeDue(run[i], ops[i].began);
      PurgeIsDue(run, ops, i);
    }
  }

  /** Every sweep in flight to notify read the expiry the event still has. */
  ghost predicate InStep(s: State) {
    forall r :: r in s.toNotify ==> s.event.expiresAt == Some(r.expiry)
  }

  lemma {:induction false} StepInStep(s: State, op: Op)
    requires InStep(s) && (Accepted(s, op) || op.GenericUpdate? ==> s.toNotify == multiset{})
    ensures InStep(Next(s, op))
  {
    if !Accepted(s, op) && !op.GenericUpdate? {
      ExpiryStays(s, op);
    }
  }

  lemma {:induction false} StaysInStep(run: seq<State>, ops: seq<Op>, n: nat)
    requires Run(run, ops) && InStep(run[0]) && n < |run|
    requires forall i :: 0 <= i < n && (Accepted(run[i], ops[i]) || ops[i].GenericUpdate?) ==> run[i].toNotify == multiset{}
    ensures InStep(run[n])
  {
    if n > 0 {
      StaysInStep(run, ops, n - 1);
      StepInStep(run[n - 1], ops[n - 1]);
    }
  }

  /** The case to keep to: as long as no expiry is changed between an expiry sweep's query and its write,
      no notice is a risk. */
  lemma {:induction false} PromptNoticesAreSafe(run: seq<State>, ops: seq<Op>, n: nat)
    requires Run(run, ops) && InStep(run[0]) && n < |ops| && ops[n].ExpiryWrite?
    requires forall i :: 0 <= i < n && (Accepted(run[i], ops[i]) || ops[i].GenericUpdate?) ==> run[i].toNotify == multiset{}
    ensures Harmless(run[n], ops[n])
  {
    StaysInStep(run, ops, n);
  }
}
