/** The in-memory sliding-window limiter, against a limiter that forgets nothing. */
module RateLimiter {

  type Key = string

  const MAX_KEYS: nat := 10000

  // --- reference: every accepted call is remembered ---

  datatype Accepted = Accepted(key: Key, at: int)

  /** The accepted calls of `key` after `cutoff`, oldest first. */
  function Recent(log: seq<Accepted>, key: Key, cutoff: int): seq<int> {
    if log == [] then []
    else
      var last := log[|log| - 1];
      Recent(log[..|log| - 1], key, cutoff) + if last.key == key && last.at > cutoff then [last.at] else []
  }

  /** The reference decision. */
  predicate Allows(log: seq<Accepted>, limit: int, windowMs: int, key: Key, now: int) {
    |Recent(log, key, now - windowMs)| < limit
  }

  function Logged(log: seq<Accepted>, limit: int, windowMs: int, key: Key, now: int): seq<Accepted> {
    if Allows(log, limit, windowMs, key, now) then log + [Accepted(key, now)] else log
  }

  function After(ts: seq<int>, cutoff: int): seq<int> {
    if ts == [] then []
    else After(ts[..|ts| - 1], cutoff) + if ts[|ts| - 1] > cutoff then [ts[|ts| - 1]] else []
  }

  lemma {:induction false} RecentNarrows(log: seq<Accepted>, key: Key, c: int, d: int)
    requires c <= d
    ensures After(Recent(log, key, c), d) == Recent(log, key, d)
  {
    if log != [] {
      var front, last := log[..|log| - 1], log[|log| - 1];
      RecentNarrows(front, key, c, d);
      if last.key == key && last.at > c {
        var r := Recent(front, key, c);
        assert (r + [last.at])[..|r|] == r;
      } else {
        assert Recent(log, key, c) == Recent(front, key, c);
        assert Recent(log, key, d) == Recent(front, key, d);
      }
    }
  }

  // --- the map against the log ---

  function Stored(hits: map<Key, seq<int>>, key: Key): seq<int> {
    if key in hits then hits[key] else []
  }

  /** What the map has lost is too old to count: past the cutoff, its timestamps and the log agree. */
  ghost predicate FaithfulOn(hits: map<Key, seq<int>>, log: seq<Accepted>, cutoff: int, key: Key) {
    After(Stored(hits, key), cutoff) == Recent(log, key, cutoff)
  }

  ghost predicate Faithful(hits: map<Key, seq<int>>, log: seq<Accepted>, cutoff: int) {
    forall k :: FaithfulOn(hits, log, cutoff, k)
  }

  lemma {:induction false} FaithfulLater(hits: map<Key, seq<int>>, log: seq<Accepted>, c: int, d: int)
    requires Faithful(hits, log, c) && c <= d
    ensures Faithful(hits, log, d)
  {
    forall k ensures FaithfulOn(hits, log, d, k) {
      assert FaithfulOn(hits, log, c, k);
      AfterNarrows(Stored(hits, k), c, d);
      RecentNarrows(log, k, c, d);
    }
  }

  lemma {:induction false} FaithfulPruned(hits: map<Key, seq<int>>, log: seq<Accepted>, cutoff: int, key: Key)
    requires Faithful(hits, log, cutoff)
    ensures Faithful(hits[key := After(Stored(hits, key), cutoff)], log, cutoff)
  {
    AfterNarrows(Stored(hits, key), cutoff, cutoff);
    var pruned := hits[key := After(Stored(hits, key), cutoff)];
    forall k ensures FaithfulOn(pruned, log, cutoff, k) {
      assert FaithfulOn(hits, log, cutoff, k);
    }
  }

  lemma {:induction false} FaithfulPushed(hits: map<Key, seq<int>>, log: seq<Accepted>, cutoff: int, key: Key, now: int)
    requires Faithful(hits, log, cutoff) && key in hits
    ensures Faithful(hits[key := hits[key] + [now]], log + [Accepted(key, now)], cutoff)
  {
    var hits', log' := hits[key := hits[key] + [now]], log + [Accepted(key, now)];
    assert log'[..|log|] == log && (hits[key] + [now])[..|hits[key]|] == hits[key];
    forall k ensures FaithfulOn(hits', log', cutoff, k) {
      assert FaithfulOn(hits, log, cutoff, k);
    }
  }

  lemma {:induction false} FaithfulEvicted(hits: map<Key, seq<int>>, log: seq<Accepted>, cutoff: int, key: Key)
    requires Faithful(hits, log, cutoff) && key in hits && Stale(hits[key], cutoff)
    ensures Faithful(hits - {key}, log, cutoff)
  {
    StaleIsEmpty(hits[key], cutoff);
    forall k ensures FaithfulOn(hits - {key}, log, cutoff, k) {
      assert FaithfulOn(hits, log, cutoff, k);
    }
  }

  // --- the limiter ---

  class Limiter {
    const limit: int
    const windowMs: int
    var hits: map<Key, seq<int>>
    ghost var log: seq<Accepted>
    ghost var clock: int

    constructor (limit: int, windowMs: int, ghost now: int)
      ensures Valid() && log == [] && clock == now && this.limit == limit && this.windowMs == windowMs
    {
      this.limit, this.windowMs := limit, windowMs;
      hits, log, clock := map[], [], now;
    }

    ghost predicate Valid()
      reads this
    {
      Faithful(hits, log, clock - windowMs)
    }

    /** `consume`: answers every call as the limiter that forgets nothing would. */
    method Consume(key: Key, now: int) returns (allowed: bool)
      requires Valid() && now >= clock
      modifies this
      ensures Valid() && clock == now
      ensures allowed == Allows(old(log), limit, windowMs, key, now)
      ensures log == Logged(old(log), limit, windowMs, key, now)
    {
      var cutoff := now - windowMs;
      FaithfulLater(hits, log, clock - windowMs, cutoff);
      FaithfulPruned(hits, log, cutoff, key);
      clock := now;
      var timestamps := After(Stored(hits, key), cutoff);
      assert FaithfulOn(hits, log, cutoff, key);
      if |timestamps| >= limit {
        hits := hits[key := timestamps];
        return false;
      }
      FaithfulPushed(hits[key := timestamps], log, cutoff, key, now);
      assert hits[key := timestamps][key := timestamps + [now]] == hits[key := timestamps + [now]];
      timestamps := timestamps + [now];
      hits := hits[key := timestamps];
      log := log + [Accepted(key, now)];
      if |hits| > MAX_KEYS {
        EvictStale(cutoff);
      }
      return true;
    }

    /** The lazy clean-up: only keys with nothing after the cutoff go. */
    method EvictStale(cutoff: int)
      requires Valid() && cutoff == clock - windowMs
      modifies this`hits
      ensures Valid()
      ensures forall k :: k in hits <==> k in old(hits) && !Stale(old(hits)[k], cutoff)
      ensures forall k :: k in hits ==> hits[k] == old(hits)[k]
    {
      var keys := hits.Keys;
      while keys != {}
        invariant Valid()
        invariant hits.Keys <= old(hits).Keys
        invariant forall k :: k in hits ==> hits[k] == old(hits)[k] && (k in keys || !Stale(hits[k], cutoff))
        invariant forall k :: k in old(hits) && !Stale(old(hits)[k], cutoff) ==> k in hits
        decreases keys
      {
        var k :| k in keys;
        keys := keys - {k};
        if k in hits && Stale(hits[k], cutoff) {
          FaithfulEvicted(hits, log, cutoff, k);
          hits := hits - {k};
        }
      }
    }
  }

  predicate Stale(ts: seq<int>, cutoff: int) {
    forall i :: 0 <= i < |ts| ==> ts[i] <= cutoff
  }

  lemma {:induction false} StaleIsEmpty(ts: seq<int>, cutoff: int)
    requires Stale(ts, cutoff)
    ensures After(ts, cutoff) == []
  {
    if ts != [] {
      StaleIsEmpty(ts[..|ts| - 1], cutoff);
    }
  }

  lemma {:induction false} AfterNarrows(ts: seq<int>, c: int, d: int)
    requires c <= d
    ensures After(After(ts, c), d) == After(ts, d)
  {
    if ts != [] {
      var front, t := ts[..|ts| - 1], ts[|ts| - 1];
      AfterNarrows(front, c, d);
      if t > c {
        var r := After(front, c);
        assert (r + [t])[..|r|] == r;
      } else {
        assert After(ts, c) == After(front, c);
        assert After(ts, d) == After(front, d);
      }
    }
  }

  // --- what the window guarantees ---

  datatype Call = Call(key: Key, now: int)

  /** The reference log after a sequence of calls. */
  function LogOf(limit: int, windowMs: int, calls: seq<Call>): seq<Accepted> {
    if calls == [] then []
    else
      var last := calls[|calls| - 1];
      Logged(LogOf(limit, windowMs, calls[..|calls| - 1]), limit, windowMs, last.key, last.now)
  }

  ghost predicate Clocked(calls: seq<Call>) {
    forall i, j :: 0 <= i <= j < |calls| ==> calls[i].now <= calls[j].now
  }

  /** Accepted calls of `key` in the half-open window [from, to). */
  function InWindow(log: seq<Accepted>, key: Key, from: int, to: int): nat {
    if log == [] then 0
    else
      var last := log[|log| - 1];
      InWindow(log[..|log| - 1], key, from, to) + if last.key == key && from <= last.at < to then 1 else 0
  }

  lemma {:induction false} WindowIsRecent(log: seq<Accepted>, key: Key, from: int, to: int, cutoff: int)
    requires cutoff < from
    ensures InWindow(log, key, from, to) <= |Recent(log, key, cutoff)|
  {
    if log != [] {
      WindowIsRecent(log[..|log| - 1], key, from, to, cutoff);
    }
  }

  /** However the calls come, no half-open window of `windowMs` ever holds more than `limit` accepted
      calls of one key. */
  lemma {:induction false} WindowBound(limit: int, windowMs: int, calls: seq<Call>, key: Key, from: int)
    requires Clocked(calls)
    ensures InWindow(LogOf(limit, windowMs, calls), key, from, from + windowMs) <= if limit < 0 then 0 else limit
  {
    if calls != [] {
      var front, last := calls[..|calls| - 1], calls[|calls| - 1];
      WindowBound(limit, windowMs, front, key, from);
      var log := LogOf(limit, windowMs, front);
      if Allows(log, limit, windowMs, last.key, last.now) {
        assert (log + [Accepted(last.key, last.now)])[..|log|] == log;
        if last.key == key && from <= last.now < from + windowMs {
          WindowIsRecent(log, key, from, from + windowMs, last.now - windowMs);
        }
      }
    }
  }

  // --- the answers, without any log ---

  /** The earlier accepted calls of the same key that are less than a window old at call `i`. */
  ghost function StillCounting(windowMs: int, calls: seq<Call>, answers: seq<bool>, i: nat, key: Key, now: int): set<int>
    requires i <= |calls| && i <= |answers|
  {
    set j | 0 <= j < i && answers[j] && calls[j].key == key && now - calls[j].now < windowMs
  }

  /** Every call is let through if and only if fewer than `limit` of those count against it. */
  ghost predicate AnswersRight(limit: int, windowMs: int, calls: seq<Call>, answers: seq<bool>, n: nat)
    requires n <= |calls| && n <= |answers|
  {
    forall i :: 0 <= i < n ==>
      (answers[i] <==> |StillCounting(windowMs, calls, answers, i, calls[i].key, calls[i].now)| < limit)
  }

  /** The answer of the reference at call `i`. */
  ghost predicate AnsweredAt(limit: int, windowMs: int, calls: seq<Call>, answers: seq<bool>, i: int)
    requires 0 <= i < |calls| && i < |answers|
  {
    answers[i] == Allows(LogOf(limit, windowMs, calls[..i]), limit, windowMs, calls[i].key, calls[i].now)
  }

  lemma {:induction false} LogStep(limit: int, windowMs: int, calls: seq<Call>, i: nat)
    requires i < |calls|
    ensures LogOf(limit, windowMs, calls[..i + 1]) ==
              Logged(LogOf(limit, windowMs, calls[..i]), limit, windowMs, calls[i].key, calls[i].now)
  {
    assert calls[..i + 1][..i] == calls[..i];
  }

  lemma {:induction false} CountingStep(windowMs: int, calls: seq<Call>, answers: seq<bool>, i: nat, key: Key, now: int)
    requires i < |calls| && i < |answers|
    ensures |StillCounting(windowMs, calls, answers, i + 1, key, now)| ==
              |StillCounting(windowMs, calls, answers, i, key, now)|
              + if answers[i] && calls[i].key == key && now - calls[i].now < windowMs then 1 else 0
  {
    var before := StillCounting(windowMs, calls, answers, i, key, now);
    var counts := answers[i] && calls[i].key == key && now - calls[i].now < windowMs;
    assert StillCounting(windowMs, calls, answers, i + 1, key, now) == if counts then before + {i} else before;
  }

  lemma {:induction false} RecentCounts(limit: int, windowMs: int, calls: seq<Call>, answers: seq<bool>, i: nat, key: Key, now: int)
    requires i <= |calls| == |answers| && forall j :: 0 <= j < i ==> AnsweredAt(limit, windowMs, calls, answers, j)
    ensures |Recent(LogOf(limit, windowMs, calls[..i]), key, now - windowMs)| == |StillCounting(windowMs, calls, answers, i, key, now)|
  {
    if i > 0 {
      RecentCounts(limit, windowMs, calls, answers, i - 1, key, now);
      CountingStep(windowMs, calls, answers, i - 1, key, now);
      RecentAt(limit, windowMs, calls, answers, i - 1, key, now);
    } else {
      assert calls[..0] == [];
    }
  }

  lemma {:induction false} RecentAt(limit: int, windowMs: int, calls: seq<Call>, answers: seq<bool>, i: nat, key: Key, now: int)
    requires i < |calls| == |answers| && AnsweredAt(limit, windowMs, calls, answers, i)
    ensures |Recent(LogOf(limit, windowMs, calls[..i + 1]), key, now - windowMs)| ==
              |Recent(LogOf(limit, windowMs, calls[..i]), key, now - windowMs)|
              + if answers[i] && calls[i].key == key && now - calls[i].now < windowMs then 1 else 0
  {
    LogStep(limit, windowMs, calls, i);
  }

  lemma {:induction false} AnswersAreRight(limit: int, windowMs: int, calls: seq<Call>, answers: seq<bool>)
    requires |calls| == |answers| && forall i :: 0 <= i < |calls| ==> AnsweredAt(limit, windowMs, calls, answers, i)
    ensures AnswersRight(limit, windowMs, calls, answers, |calls|)
  {
    forall i | 0 <= i < |calls|
      ensures answers[i] <==> |StillCounting(windowMs, calls, answers, i, calls[i].key, calls[i].now)| < limit
    {
      RecentCounts(limit, windowMs, calls, answers, i, calls[i].key, calls[i].now);
      assert AnsweredAt(limit, windowMs, calls, answers, i);
    }
  }

  /** The method and the reference agree over whole sequences of calls. */
  method Replay(limit: int, windowMs: int, calls: seq<Call>) returns (answers: seq<bool>)
    requires Clocked(calls)
    ensures |answers| == |calls|
    ensures forall i :: 0 <= i < |calls| ==> AnsweredAt(limit, windowMs, calls, answers, i)
    ensures AnswersRight(limit, windowMs, calls, answers, |calls|)
  {
    var limiter := new Limiter(limit, windowMs, if calls == [] then 0 else calls[0].now);
    answers := [];
    for i := 0 to |calls|
      invariant fresh(limiter) && limiter.Valid() && limiter.limit == limit && limiter.windowMs == windowMs
      invariant limiter.log == LogOf(limit, windowMs, calls[..i]) && |answers| == i
      invariant i < |calls| ==> limiter.clock <= calls[i].now
      invariant forall j :: 0 <= j < i ==> AnsweredAt(limit, windowMs, calls, answers, j)
    {
      assert calls[..i + 1][..i] == calls[..i];
      ghost var before := answers;
      var allowed := limiter.Consume(calls[i].key, calls[i].now);
      answers := answers + [allowed];
      forall j | 0 <= j <= i ensures AnsweredAt(limit, windowMs, calls, answers, j) {
        assert j < i ==> AnsweredAt(limit, windowMs, calls, before, j);
      }
    }
    AnswersAreRight(limit, windowMs, calls, answers);
  }
}
