/** The fixed-window rate limiter (control-plane/server/rate-limit.mjs). */
module RateLimit {
  import opened Common

  /** An open window of one key: requests counted so far, and the last instant it covers. */
  datatype Window = Window(count: nat, resetAt: int)

  type Hits = map<string, Window>

  datatype Limits = Limits(windowMs: nat, max: nat)

  predicate Open(hits: Hits, key: string, now: int) {
    key in hits && now <= hits[key].resetAt
  }

  predicate Admits(l: Limits, hits: Hits, key: string, now: int) {
    !Open(hits, key, now) || hits[key].count < l.max
  }

  function Counted(l: Limits, hits: Hits, key: string, now: int): Hits {
    if !Open(hits, key, now) then hits[key := Window(1, now + l.windowMs)]
    else if hits[key].count >= l.max then hits
    else hits[key := hits[key].(count := hits[key].count + 1)]
  }

  function StaleKeys(hits: Hits, now: int): set<string> {
    set k | k in hits && now > hits[k].resetAt
  }

  class RateLimiter {
    const limits: Limits
    var hits: Hits

    constructor (limits: Limits)
      ensures this.limits == limits && hits == map[]
    {
      this.limits, hits := limits, map[];
    }

    method Allow(key: string, now: int) returns (allowed: bool)
      modifies this
      ensures allowed == Admits(limits, old(hits), key, now)
      ensures hits == Counted(limits, old(hits), key, now)
    {
      if key !in hits || now > hits[key].resetAt {
        hits := hits[key := Window(1, now + limits.windowMs)];
        return true;
      }
      if hits[key].count >= limits.max {
        return false;
      }
      hits := hits[key := hits[key].(count := hits[key].count + 1)];
      return true;
    }

    method Sweep(now: int)
      modifies this
      ensures hits == old(hits) - StaleKeys(old(hits), now)
    {
      var todo := hits.Keys;
      while todo != {}
        invariant todo <= old(hits).Keys && hits == old(hits) - (StaleKeys(old(hits), now) - todo)
        decreases |todo|
      {
        var k :| k in todo;
        if now > hits[k].resetAt {
          hits := hits - {k};
        }
        todo := todo - {k};
      }
      assert StaleKeys(old(hits), now) - todo == StaleKeys(old(hits), now);
    }
  }

  // ---- histories ----

  datatype Event = Request(key: string, now: int) | Sweep(now: int)

  function Step(l: Limits, hits: Hits, e: Event): Hits {
    match e
    case Request(k, now) => Counted(l, hits, k, now)
    case Sweep(now) => hits - StaleKeys(hits, now)
  }

  function After(l: Limits, events: seq<Event>): Hits {
    if events == [] then map[] else Step(l, After(l, events[..|events| - 1]), events[|events| - 1])
  }

  /** The clock never runs backwards. */
  predicate Monotone(events: seq<Event>) {
    forall i, j :: 0 <= i < j < |events| ==> events[i].now <= events[j].now
  }

  /** The answers to the requests, in order. */
  function Answers(l: Limits, events: seq<Event>): seq<bool> {
    if events == [] then []
    else
      var front, last := events[..|events| - 1], events[|events| - 1];
      if last.Sweep? then Answers(l, front) else Answers(l, front) + [Admits(l, After(l, front), last.key, last.now)]
  }

  function WithoutSweeps(events: seq<Event>): seq<Event> {
    if events == [] then []
    else
      var front, last := events[..|events| - 1], events[|events| - 1];
      if last.Sweep? then WithoutSweeps(front) else WithoutSweeps(front) + [last]
  }

  /** A sweep has only taken windows that no later request can fall into. */
  ghost predicate SameButStale(swept: Hits, all: Hits, now: int) {
    && (forall k :: k in swept ==> k in all && all[k] == swept[k])
    && (forall k :: k in all && k !in swept ==> all[k].resetAt < now)
  }

  lemma MonotoneFront(events: seq<Event>)
    requires events != [] && Monotone(events)
    ensures Monotone(events[..|events| - 1])
    ensures |events| > 1 ==> events[|events| - 2].now <= events[|events| - 1].now
  {
  }

  lemma SweepAlike(swept: Hits, all: Hits, before: int, now: int)
    requires SameButStale(swept, all, before) && before <= now
    ensures SameButStale(swept - StaleKeys(swept, now), all, now)
  {
  }

  lemma RequestAlike(l: Limits, swept: Hits, all: Hits, before: int, key: string, now: int)
    requires SameButStale(swept, all, before) && before <= now
    ensures Admits(l, swept, key, now) == Admits(l, all, key, now)
    ensures SameButStale(Counted(l, swept, key, now), Counted(l, all, key, now), now)
  {
  }

  lemma {:induction false} SweptAlike(l: Limits, events: seq<Event>)
    requires Monotone(events)
    ensures Answers(l, events) == Answers(l, WithoutSweeps(events))
    ensures events == [] || SameButStale(After(l, events), After(l, WithoutSweeps(events)), events[|events| - 1].now)
  {
    if events != [] {
      var front, last := events[..|events| - 1], events[|events| - 1];
      MonotoneFront(events);
      SweptAlike(l, front);
      var swept, rest := After(l, front), WithoutSweeps(front);
      var before := if front == [] then last.now else front[|front| - 1].now;
      if last.Sweep? {
        SweepAlike(swept, After(l, rest), before, last.now);
      } else {
        RequestAlike(l, swept, After(l, rest), before, last.key, last.now);
        assert (rest + [last])[..|rest|] == rest;
      }
    }
  }

  /** Sweeps, wherever they happen, change no answer. */
  lemma SweepsChangeNothing(l: Limits, events: seq<Event>)
    requires Monotone(events)
    ensures Answers(l, events) == Answers(l, WithoutSweeps(events))
  {
    SweptAlike(l, events);
  }

  // ---- exactly which requests are allowed ----

  /** When the current window of a key opened, and how many of its requests have come since, the denied ones included:
      read off the times of the requests alone. A request opens a window when it comes after the last one is over. */
  datatype Period = Period(openedAt: int, requests: nat)

  function PeriodOf(l: Limits, events: seq<Event>, key: string): Option<Period> {
    if events == [] then None else NextPeriod(l, PeriodOf(l, events[..|events| - 1], key), events[|events| - 1], key)
  }

  function NextPeriod(l: Limits, before: Option<Period>, e: Event, key: string): Option<Period> {
    if e.Sweep? || e.key != key then before
    else if before.None? || e.now > before.value.openedAt + l.windowMs then Some(Period(e.now, 1))
    else Some(before.value.(requests := before.value.requests + 1))
  }

  /** What the limiter holds of a key fits its period; what it does not hold is over. */
  ghost predicate FitsPeriod(l: Limits, hits: Hits, key: string, period: Option<Period>, now: int) {
    if key in hits then
      && period.Some? && hits[key].resetAt == period.value.openedAt + l.windowMs
      && hits[key].count == Min(period.value.requests, Max(l.max, 1)) && period.value.requests >= 1
    else period.Some? ==> period.value.openedAt + l.windowMs < now
  }

  lemma StepFitsPeriod(l: Limits, hits: Hits, e: Event, key: string, period: Option<Period>, before: int)
    requires FitsPeriod(l, hits, key, period, before) && before <= e.now
    ensures FitsPeriod(l, Step(l, hits, e), key, NextPeriod(l, period, e, key), e.now)
  {
  }

  lemma {:induction false} AlwaysFitsPeriod(l: Limits, events: seq<Event>, key: string)
    requires Monotone(events) && events != []
    ensures FitsPeriod(l, After(l, events), key, PeriodOf(l, events, key), events[|events| - 1].now)
  {
    var front, last := events[..|events| - 1], events[|events| - 1];
    if front == [] {
      assert After(l, front) == map[] && PeriodOf(l, front, key) == None;
      StepFitsPeriod(l, map[], last, key, None, last.now);
    } else {
      MonotoneFront(events);
      AlwaysFitsPeriod(l, front, key);
      StepFitsPeriod(l, After(l, front), last, key, PeriodOf(l, front, key), front[|front| - 1].now);
    }
  }

  /** With a clock that never runs backwards a request is allowed exactly when it opens a window or fewer than max
      requests of its key have come in the current one: denied requests do not prolong a window, sweeps make no
      difference. */
  lemma AllowedIff(l: Limits, events: seq<Event>, key: string, now: int)
    requires Monotone(events) && (events != [] ==> events[|events| - 1].now <= now)
    ensures Admits(l, After(l, events), key, now) <==>
      var period := PeriodOf(l, events, key);
      period.None? || now > period.value.openedAt + l.windowMs || period.value.requests < l.max
  {
    if events != [] {
      AlwaysFitsPeriod(l, events, key);
    }
  }

  // ---- the sliding-window bound ----

  predicate AllowedAt(l: Limits, events: seq<Event>, i: nat, key: string)
    requires i < |events|
  {
    events[i].Request? && events[i].key == key && Admits(l, After(l, events[..i]), key, events[i].now)
  }

  /** How many requests of a key have been allowed at time lo or later. */
  function AllowedSince(l: Limits, events: seq<Event>, key: string, lo: int): nat {
    if events == [] then 0
    else
      var n := |events| - 1;
      AllowedSince(l, events[..n], key, lo) + (if AllowedAt(l, events, n, key) && events[n].now >= lo then 1 else 0)
  }

  /** How many requests of a key have been allowed at time lo or later and hi or earlier. */
  function AllowedWithin(l: Limits, events: seq<Event>, key: string, lo: int, hi: int): nat {
    if events == [] then 0
    else
      var n := |events| - 1;
      AllowedWithin(l, events[..n], key, lo, hi)
      + (if AllowedAt(l, events, n, key) && lo <= events[n].now <= hi then 1 else 0)
  }

  lemma {:induction false} LaterIsFewer(l: Limits, events: seq<Event>, key: string, lo: int, later: int)
    requires lo <= later
    ensures AllowedSince(l, events, key, later) <= AllowedSince(l, events, key, lo)
  {
    if events != [] {
      LaterIsFewer(l, events[..|events| - 1], key, lo, later);
    }
  }

  lemma {:induction false} WithinIsSince(l: Limits, events: seq<Event>, key: string, lo: int, hi: int)
    ensures AllowedWithin(l, events, key, lo, hi) <= AllowedSince(l, events, key, lo)
  {
    if events != [] {
      WithinIsSince(l, events[..|events| - 1], key, lo, hi);
    }
  }

  /** What one window can hold: the first request is allowed whatever the maximum. */
  function Share(l: Limits): nat {
    Max(l.max, 1)
  }

  /** With an open window that began at s: at most count - 1 requests allowed after s, and at most one share less one
      more in the windowMs before s. Without one: at most a share less one in the last windowMs. */
  ghost predicate Bounded(l: Limits, events: seq<Event>, key: string) {
    var hits := After(l, events);
    if key in hits then
      var s := hits[key].resetAt - l.windowMs;
      && 1 <= hits[key].count <= Share(l) && (events != [] ==> s <= events[|events| - 1].now)
      && AllowedSince(l, events, key, s + 1) <= hits[key].count - 1
      && AllowedSince(l, events, key, s - l.windowMs) <= hits[key].count + Share(l) - 1
    else
      events != [] ==> AllowedSince(l, events, key, events[|events| - 1].now - l.windowMs) <= Share(l) - 1
  }

  lemma NoneAfterNow(l: Limits, events: seq<Event>, key: string, lo: int)
    requires events == [] || (Monotone(events) && events[|events| - 1].now < lo)
    ensures AllowedSince(l, events, key, lo) == 0
  {
    if events != [] {
      if |events| > 1 {
        MonotoneFront(events);
      }
      NoneAfterNow(l, events[..|events| - 1], key, lo);
    }
  }

  lemma OpenBounded(l: Limits, events: seq<Event>, key: string)
    requires events != [] && Monotone(events) && events[|events| - 1].Request? && events[|events| - 1].key == key
    requires Open(After(l, events[..|events| - 1]), key, events[|events| - 1].now)
    requires Bounded(l, events[..|events| - 1], key)
    ensures Bounded(l, events, key)
  {
    if |events| > 1 {
      MonotoneFront(events);
    }
  }

  lemma FreshBounded(l: Limits, events: seq<Event>, key: string)
    requires events != [] && Monotone(events) && events[|events| - 1].Request? && events[|events| - 1].key == key
    requires !Open(After(l, events[..|events| - 1]), key, events[|events| - 1].now)
    requires Bounded(l, events[..|events| - 1], key)
    ensures Bounded(l, events, key)
  {
    var front, now := events[..|events| - 1], events[|events| - 1].now;
    var hits := After(l, front);
    if front != [] {
      MonotoneFront(events);
      if key in hits {
        LaterIsFewer(l, front, key, hits[key].resetAt - l.windowMs + 1, now - l.windowMs);
      } else {
        LaterIsFewer(l, front, key, front[|front| - 1].now - l.windowMs, now - l.windowMs);
      }
    }
    NoneAfterNow(l, front, key, now + 1);
  }

  /** A window that stays open, or is swept, with nothing allowed in between. */
  lemma OtherBounded(l: Limits, events: seq<Event>, key: string)
    requires events != [] && Monotone(events) && events[|events| - 1] != Request(key, events[|events| - 1].now)
    requires Bounded(l, events[..|events| - 1], key)
    ensures Bounded(l, events, key)
  {
    var front, now := events[..|events| - 1], events[|events| - 1].now;
    var hits := After(l, front);
    MonotoneFront(events);
    OtherKeeps(l, events, key);
    if key in After(l, events) {
      var s := hits[key].resetAt - l.windowMs;
      NoneMoreAllowed(l, events, key, s + 1);
      NoneMoreAllowed(l, events, key, s - l.windowMs);
    } else {
      NoneMoreAllowed(l, events, key, now - l.windowMs);
      if front != [] {
        LaterIsFewer(l, front, key, if key in hits then hits[key].resetAt - l.windowMs + 1
                                    else front[|front| - 1].now - l.windowMs, now - l.windowMs);
      }
    }
  }

  lemma OtherKeeps(l: Limits, events: seq<Event>, key: string)
    requires events != [] && events[|events| - 1] != Request(key, events[|events| - 1].now)
    ensures var before, after := After(l, events[..|events| - 1]), After(l, events);
      && (key in after ==> key in before && after[key] == before[key])
      && (key in before && key !in after ==> before[key].resetAt < events[|events| - 1].now)
  {
  }

  lemma NoneMoreAllowed(l: Limits, events: seq<Event>, key: string, lo: int)
    requires events != [] && events[|events| - 1] != Request(key, events[|events| - 1].now)
    ensures AllowedSince(l, events, key, lo) == AllowedSince(l, events[..|events| - 1], key, lo)
  {
  }

  lemma {:induction false} AlwaysBounded(l: Limits, events: seq<Event>, key: string)
    requires Monotone(events)
    ensures Bounded(l, events, key)
  {
    if events != [] {
      var front, last := events[..|events| - 1], events[|events| - 1];
      MonotoneFront(events);
      AlwaysBounded(l, front, key);
      if last == Request(key, last.now) {
        if Open(After(l, front), key, last.now) {
          OpenBounded(l, events, key);
        } else {
          FreshBounded(l, events, key);
        }
      } else {
        OtherBounded(l, events, key);
      }
    }
  }

  /** Rate bound: with a clock that never runs backwards, any closed interval of length windowMs holds at most
      2 * max - 1 allowed requests of a key (counting a maximum of 0 as 1), whatever is swept in between. */
  lemma {:induction false} RateBound(l: Limits, events: seq<Event>, key: string, t: int)
    requires Monotone(events)
    ensures AllowedWithin(l, events, key, t, t + l.windowMs) <= 2 * Share(l) - 1
  {
    if events != [] {
      var front, last := events[..|events| - 1], events[|events| - 1];
      MonotoneFront(events);
      RateBound(l, front, key, t);
      if AllowedAt(l, events, |front|, key) && t <= last.now <= t + l.windowMs {
        AlwaysBounded(l, events, key);
        WithinIsSince(l, events, key, t, t + l.windowMs);
        var s := After(l, events)[key].resetAt - l.windowMs;
        if t >= s - l.windowMs {
          LaterIsFewer(l, events, key, s - l.windowMs, t);
        }
      }
    }
  }

  // ---- the bound is attained ----

  lemma AppendRequest(l: Limits, events: seq<Event>, key: string, now: int, t: int)
    requires Monotone(events) && (events == [] || events[|events| - 1].now <= now)
    requires Admits(l, After(l, events), key, now)
    ensures var events' := events + [Request(key, now)];
      && Monotone(events') && After(l, events') == Counted(l, After(l, events), key, now)
      && AllowedWithin(l, events', key, t, t + l.windowMs)
         == AllowedWithin(l, events, key, t, t + l.windowMs) + (if t <= now <= t + l.windowMs then 1 else 0)
  {
    var events' := events + [Request(key, now)];
    assert events'[..|events|] == events;
  }

  /** n more requests at one instant inside an open window with room for them. */
  lemma {:induction false} FillUp(l: Limits, events: seq<Event>, key: string, now: int, t: int, n: nat)
    returns (more: seq<Event>)
    requires events != [] && Monotone(events) && events[|events| - 1].now <= now && t <= now <= t + l.windowMs
    requires Open(After(l, events), key, now) && After(l, events)[key].count + n <= l.max
    ensures more != [] && Monotone(more) && more[|more| - 1].now <= now
    ensures key in After(l, more) && After(l, more)[key].resetAt == After(l, events)[key].resetAt
    ensures After(l, more)[key].count == After(l, events)[key].count + n
    ensures AllowedWithin(l, more, key, t, t + l.windowMs) == AllowedWithin(l, events, key, t, t + l.windowMs) + n
  {
    if n == 0 {
      more := events;
    } else {
      var fewer := FillUp(l, events, key, now, t, n - 1);
      AppendRequest(l, fewer, key, now, t);
      more := fewer + [Request(key, now)];
    }
  }

  /** One request, and max - 1 more at the end of its window. */
  lemma LateWindow(l: Limits, key: string) returns (events: seq<Event>)
    requires l.max >= 1 && l.windowMs >= 1
    ensures events != [] && Monotone(events) && events[|events| - 1].now <= l.windowMs
    ensures !Open(After(l, events), key, l.windowMs + 1)
    ensures AllowedWithin(l, events, key, l.windowMs, l.windowMs + l.windowMs) == l.max - 1
  {
    AppendRequest(l, [], key, 0, l.windowMs);
    events := [] + [Request(key, 0)];
    events := FillUp(l, events, key, l.windowMs, l.windowMs, l.max - 1);
  }

  /** Then max in the next instant: 2 * max - 1 within windowMs. */
  lemma BoundAttained(l: Limits, key: string) returns (events: seq<Event>)
    requires l.max >= 1 && l.windowMs >= 1
    ensures Monotone(events) && AllowedWithin(l, events, key, l.windowMs, l.windowMs + l.windowMs) == 2 * l.max - 1
  {
    var now := l.windowMs + 1;
    events := LateWindow(l, key);
    AppendRequest(l, events, key, now, l.windowMs);
    events := events + [Request(key, now)];
    events := FillUp(l, events, key, now, l.windowMs, l.max - 1);
  }
}
