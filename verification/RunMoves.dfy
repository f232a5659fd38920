/** Every operation of the run orchestrator is a sequence of seven small moves.
    A property that each move keeps therefore holds in every reachable state. */
module RunMoves {
  import opened Classification
  import opened JobIds
  import opened RunState

  datatype Move =
    | OpenRun(runId: string)
    | ReopenRun(runId: string)
    | Insert(runId: string, item: Submission)
    | Settle(runId: string)
    | Put(urlId: string, rec: Rec)
    | Browser(urlId: string)
    | Complete(urlId: string, verdict: Verdict)

  /** What the orchestrator checks at least before it makes a move. */
  predicate Enabled(s: State, m: Move) {
    match m
    case OpenRun(r) => r !in s.runs
    case ReopenRun(r) => r in s.runs
    case Insert(r, item) =>
      && r in s.runs && s.runs[r].status == RunRunning
      && item.url.Some? && item.urlId !in s.urls && ':' !in item.urlId
    case Settle(r) => true
    case Put(u, rec) => u in s.urls && u in s.buckets && rec.urlId == s.urls[u].id && rec.runId == s.urls[u].runId
    case Browser(u) => u in s.urls && s.urls[u].status == InitialTestsRunning
    case Complete(u, _) => u in s.urls && s.urls[u].status != Completed && s.urls[u].status != Failed
  }

  function Apply(s: State, m: Move): State
    requires Enabled(s, m)
  {
    match m
    case OpenRun(r) => AddRun(s, r)
    case ReopenRun(r) => Reopen(s, r)
    case Insert(r, item) => InsertUrl(s, r, item)
    case Settle(r) => MaybeComplete(s, r)
    case Put(u, rec) => PutResult(s, u, rec)
    case Browser(u) => StartBrowser(s, u)
    case Complete(u, v) => CompleteUrl(s, u, v)
  }

  /** The records a run may store: q limits them to those that may arrive in a given state. */
  type Source = (State, Rec) -> bool

  ghost predicate Keeps(p: State -> bool, q: Source) {
    forall s: State, m: Move ::
      p(s) && Enabled(s, m) && (m.Put? ==> q(s, m.rec)) ==> p(Apply(s, m))
  }

  /** Any result at all may arrive. */
  function Anything(): Source {
    (s: State, rec: Rec) => true
  }

  /** The record that a result would store, when it is stored at all, comes from q. */
  ghost predicate Admits(q: Source, s: State, e: Event) {
    e.Result? ==>
      var t := Lookup(s, e.summary.jobId);
      t.Some? && t.value.urlId in s.urls ==> q(s, MakeRec(s.urls[t.value.urlId], t.value, e.summary))
  }

  lemma QueueUrlKeeps(p: State -> bool, q: Source, s: State, runId: string, item: Submission, deferComplete: bool)
    requires Keeps(p, q) && p(s) && item.urlId !in s.urls && ':' !in item.urlId
    ensures p(QueueUrl(s, runId, item, deferComplete).0)
  {
    if runId in s.runs {
      assert p(Apply(s, ReopenRun(runId)));
      var s1 := Reopen(s, runId);
      if item.url.Some? {
        assert p(Apply(s1, Insert(runId, item)));
        var s2 := InsertUrl(s1, runId, item);
        assert p(Apply(s2, Settle(runId)));
      }
    }
  }

  lemma StillFresh(s: State, s1: State, items: seq<Submission>)
    requires items != [] && FreshItems(s, items) && s1.urls.Keys <= s.urls.Keys + {items[0].urlId}
    ensures FreshItems(s1, items[1..])
  {
  }

  lemma {:induction false} QueueAllKeeps(p: State -> bool, q: Source, s: State, runId: string, items: seq<Submission>)
    requires Keeps(p, q) && p(s) && FreshItems(s, items)
    ensures p(QueueAll(s, runId, items).0)
    decreases |items|
  {
    if items != [] {
      var (s1, o) := QueueUrl(s, runId, items[0], true);
      QueueUrlKeeps(p, q, s, runId, items[0], true);
      if o == Queued {
        StillFresh(s, s1, items);
        QueueAllKeeps(p, q, s1, runId, items[1..]);
      }
    }
  }

  /** All initial results of u are in and one of them is `ok === false`. */
  predicate NeedsBrowser(s: State, u: string)
    requires u in s.urls && u in s.buckets
  {
    && s.urls[u].status == InitialTestsRunning
    && StageDone(s.urls[u], s.buckets[u], INITIAL) && AnyNotOk(s.urls[u], s.buckets[u])
  }

  predicate ReadyToComplete(s: State, u: string)
    requires u in s.urls && u in s.buckets
  {
    && s.urls[u].status != Completed && s.urls[u].status != Failed
    && StageDone(s.urls[u], s.buckets[u], INITIAL)
    && (s.urls[u].status == InitialTestsRunning ==> !AnyNotOk(s.urls[u], s.buckets[u]))
    && (s.urls[u].status == BrowserValidationRunning ==> StageDone(s.urls[u], s.buckets[u], BROWSER))
  }

  /** Advancing a URL starts its browser stage, completes it, or waits. */
  lemma AdvanceIsMove(s: State, u: string)
    requires u in s.urls && u in s.buckets
    ensures Advance(s, u) ==
      if NeedsBrowser(s, u) then StartBrowser(s, u)
      else if ReadyToComplete(s, u) then Finalize(s, u)
      else s
  {
  }

  lemma AdvanceKeeps(p: State -> bool, q: Source, s: State, u: string)
    requires u in s.urls && u in s.buckets && Keeps(p, q) && p(s)
    ensures p(Advance(s, u))
  {
    AdvanceIsMove(s, u);
    if NeedsBrowser(s, u) {
      assert p(Apply(s, Browser(u)));
    } else if ReadyToComplete(s, u) {
      var s1 := Apply(s, Complete(u, VerdictOf(s.urls[u], s.buckets[u])));
      assert p(Apply(s1, Settle(s.urls[u].runId)));
    }
  }

  lemma OnResultKeeps(p: State -> bool, q: Source, s: State, summary: Summary)
    requires Keeps(p, q) && p(s) && Admits(q, s, Result(summary))
    ensures p(OnResult(s, summary))
  {
    var t := Lookup(s, summary.jobId);
    if summary.jobId != "" && t.Some? && t.value.urlId in s.urls && t.value.urlId in s.buckets {
      var u := t.value.urlId;
      var rec := MakeRec(s.urls[u], t.value, summary);
      assert p(Apply(s, Put(u, rec)));
      AdvanceKeeps(p, q, PutResult(s, u, rec), u);
    }
  }

  lemma StepKeeps(p: State -> bool, q: Source, s: State, e: Event)
    requires Keeps(p, q) && p(s) && Allowed(s, e) && Admits(q, s, e)
    ensures p(Step(s, e))
  {
    match e
    case Create(runId, items) =>
      assert p(Apply(s, OpenRun(runId)));
      var s1 := AddRun(s, runId);
      QueueAllKeeps(p, q, s1, runId, items);
      assert p(Apply(QueueAll(s1, runId, items).0, Settle(runId)));
    case AddTo(runId, item) =>
      assert [item][0].urlId !in s.urls;
      QueueUrlKeeps(p, q, s, runId, item, false);
    case Result(summary) =>
      OnResultKeeps(p, q, s, summary);
  }

  /** Every result in the run comes from q. */
  ghost predicate AllFrom(q: Source, events: seq<Event>) {
    forall i :: 0 <= i < |events| ==> Admits(q, After(events[..i]), events[i])
  }

  lemma AllFromPrefix(q: Source, events: seq<Event>)
    requires events != [] && AllFrom(q, events)
    ensures AllFrom(q, events[..|events| - 1])
  {
    var front := events[..|events| - 1];
    forall i | 0 <= i < |front| ensures Admits(q, After(front[..i]), front[i]) {
      assert front[..i] == events[..i];
    }
  }

  /** The induction principle. */
  lemma {:induction false} InEveryState(p: State -> bool, q: Source, events: seq<Event>)
    requires Keeps(p, q) && p(EMPTY) && Valid(events) && AllFrom(q, events)
    ensures p(After(events))
  {
    if events != [] {
      var front := events[..|events| - 1];
      AllFromPrefix(q, events);
      InEveryState(p, q, front);
      StepKeeps(p, q, After(front), events[|events| - 1]);
    }
  }

  /** The same from any state on: what has come to hold stays. */
  lemma {:induction false} FromThenOn(p: State -> bool, q: Source, events: seq<Event>, n: nat)
    requires Keeps(p, q) && n <= |events| && p(After(events[..n])) && Valid(events) && AllFrom(q, events)
    ensures p(After(events))
  {
    if n < |events| {
      var front := events[..|events| - 1];
      AllFromPrefix(q, events);
      assert front[..n] == events[..n];
      FromThenOn(p, q, front, n);
      StepKeeps(p, q, After(front), events[|events| - 1]);
    } else {
      assert events[..n] == events;
    }
  }
}
