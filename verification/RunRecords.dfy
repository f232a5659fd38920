/** What the records of a run say of one another and of what was submitted. */
module RunRecords {
  import opened Common
  import opened Classification
  import opened JobIds
  import opened NodeSelection
  import opened RunState
  import opened RunMoves
  import opened RunInvariants
  import RunAnswers

  /** A URL is pending until it is completed, and inconclusive when it could not be dispatched; completed, it has the class
      of its comparison. */
  ghost predicate ClassFits(s: State) {
    forall u :: u in s.urls ==>
      match s.urls[u].status
      case InitialTestsRunning => s.urls[u].class_ == Pending
      case BrowserValidationRunning => s.urls[u].class_ == Pending
      case Blocked => s.urls[u].class_ == Inconclusive
      case Completed => u in s.comparisons && s.urls[u].class_ == s.comparisons[u].verdict.class_
      case Failed => false
  }

  lemma ClassKept(s: State, m: Move)
    requires Enabled(s, m) && ClassFits(s)
    ensures ClassFits(Apply(s, m))
  {
    match m
    case Insert(r, item) => InsertEffect(s, r, item);
    case Browser(u) => assert Apply(s, m).urls == s.urls[u := s.urls[u].(status := BrowserValidationRunning)];
    case Complete(u, v) =>
    case _ => assert Apply(s, m).urls == s.urls && Apply(s, m).comparisons == s.comparisons;
  }

  lemma ClassAlwaysFits(events: seq<Event>)
    requires Valid(events)
    ensures ClassFits(After(events))
  {
    AllFromAnything(events);
    forall s: State, m: Move | ClassFits(s) && Enabled(s, m) ensures ClassFits(Apply(s, m)) { ClassKept(s, m); }
    InEveryState(ClassFits, Anything(), events);
  }

  // ---- jobs and comparisons carry what their URL says ----

  ghost predicate JobCarries(s: State, j: Job) {
    && j.urlId in s.urls && j.runId == s.urls[j.urlId].runId && j.url == s.urls[j.urlId].url
    && exists n :: n in s.urls[j.urlId].selected && n.name == j.nodeName && Some(n.nodeType) == j.nodeType
  }

  ghost predicate ComparisonCarries(s: State, u: string)
    requires u in s.comparisons
  {
    u in s.urls && s.comparisons[u] == Comparison(u, s.urls[u].runId, s.urls[u].url, s.comparisons[u].verdict)
  }

  ghost predicate Carried(s: State) {
    && (forall u :: u in s.urls ==> s.urls[u].id == u)
    && (forall j :: j in s.sent ==> JobCarries(s, j))
    && (forall u :: u in s.comparisons ==> ComparisonCarries(s, u))
  }

  lemma JobStays(s: State, s': State, j: Job)
    requires JobCarries(s, j) && j.urlId in s'.urls && SameUrl(s.urls[j.urlId], s'.urls[j.urlId])
    ensures JobCarries(s', j)
  {
    var n :| n in s.urls[j.urlId].selected && n.name == j.nodeName && Some(n.nodeType) == j.nodeType;
    assert n in s'.urls[j.urlId].selected;
  }

  lemma NewJobsCarry(s: State, u: string, stage: string)
    requires u in s.urls && s.urls[u].id == u
    ensures forall j :: j in StageJobs(s.urls[u], stage) ==> JobCarries(s, j)
  {
    var url := s.urls[u];
    forall j | j in StageJobs(url, stage) ensures JobCarries(s, j) {
      var i :| 0 <= i < |url.selected| && j == MakeJob(url, url.selected[i], stage);
      assert url.selected[i] in url.selected;
    }
  }

  /** The URLs stay as they were, none or one is added, and jobs are added for at most one of them. */
  lemma CarriedFrame(s: State, s': State, stage: string, u: string)
    requires Carried(s) && (forall v :: v in s'.urls ==> s'.urls[v].id == v)
    requires forall v :: v in s.urls ==> v in s'.urls && SameUrl(s.urls[v], s'.urls[v])
    requires s'.sent == s.sent || (u in s'.urls && s'.sent == s.sent + StageJobs(s'.urls[u], stage))
    requires forall v :: v in s'.comparisons ==> ComparisonCarries(s', v)
    ensures Carried(s')
  {
    forall j | j in s'.sent ensures JobCarries(s', j) {
      if j in s.sent {
        JobStays(s, s', j);
      } else {
        NewJobsCarry(s', u, stage);
      }
    }
  }

  lemma InsertCarries(s: State, r: string, item: Submission)
    requires Enabled(s, Insert(r, item)) && Carried(s)
    ensures Carried(InsertUrl(s, r, item))
  {
    InsertEffect(s, r, item);
    CarriedFrame(s, InsertUrl(s, r, item), INITIAL, item.urlId);
  }

  lemma BrowserCarries(s: State, u: string)
    requires Enabled(s, Browser(u)) && Carried(s)
    ensures Carried(StartBrowser(s, u))
  {
    var s' := StartBrowser(s, u);
    assert s'.urls == s.urls[u := s.urls[u].(status := BrowserValidationRunning)];
    CarriedFrame(s, s', BROWSER, u);
  }

  lemma CompleteCarries(s: State, u: string, v: Verdict)
    requires Enabled(s, Complete(u, v)) && Carried(s)
    ensures Carried(CompleteUrl(s, u, v))
  {
    CarriedFrame(s, CompleteUrl(s, u, v), INITIAL, u);
  }

  lemma CarriedKept(s: State, m: Move)
    requires Enabled(s, m) && Carried(s)
    ensures Carried(Apply(s, m))
  {
    match m
    case Insert(r, item) => InsertCarries(s, r, item);
    case Browser(u) => BrowserCarries(s, u);
    case Complete(u, v) => CompleteCarries(s, u, v);
    case _ =>
      assert Apply(s, m).urls == s.urls && Apply(s, m).comparisons == s.comparisons && Apply(s, m).sent == s.sent;
      CarriedFrame(s, Apply(s, m), INITIAL, "");
  }

  /** In every reachable state each job names the run and the text of its URL and the type of its node, and each
      comparison the run and the text of its URL. */
  lemma AlwaysCarried(events: seq<Event>)
    requires Valid(events)
    ensures Carried(After(events))
  {
    AllFromAnything(events);
    forall s: State, m: Move | Carried(s) && Enabled(s, m) ensures Carried(Apply(s, m)) { CarriedKept(s, m); }
    InEveryState(Carried, Anything(), events);
  }

  lemma StoresRow(s: State, summary: Summary, t: Target)
    requires Linked(s) && summary.jobId != "" && Lookup(s, summary.jobId) == Some(t) && t.urlId in s.urls
    ensures var rows := OnResult(s, summary).rows;
      summary.jobId in rows && rows[summary.jobId] == MakeRec(s.urls[t.urlId], t, summary)
  {
    RunAnswers.AdvanceKeepsRows(PutResult(s, t.urlId, MakeRec(s.urls[t.urlId], t, summary)), t.urlId);
  }

  /** The row that a result for a known job stores says what the job says, with the answer and the reasons of the result. */
  lemma RowOfJob(s: State, summary: Summary)
    requires Linked(s) && Carried(s) && JobsLogged(s) && summary.jobId != "" && summary.jobId in s.jobs
    ensures var j, rows := s.jobs[summary.jobId], OnResult(s, summary).rows;
      && summary.jobId in rows
      && rows[summary.jobId]
         == Rec(summary.jobId, j.runId, j.urlId, j.nodeName, j.nodeType, j.stage, summary.ok, summary.reasons)
  {
    var j := s.jobs[summary.jobId];
    assert JobCarries(s, j);
    StoresRow(s, summary, Target(j.urlId, j.nodeName, j.nodeType, j.stage));
  }

  /** For any other it says what the job id says, with the type of the first selected node of that name. */
  lemma RowOfStranger(s: State, summary: Summary, ref: JobRef)
    requires Linked(s) && summary.jobId != "" && summary.jobId !in s.jobs
    requires ParseJobId(summary.jobId) == Some(ref) && ref.urlId in s.urls
    ensures var url, rows := s.urls[ref.urlId], OnResult(s, summary).rows;
      && summary.jobId in rows
      && rows[summary.jobId]
         == Rec(summary.jobId, url.runId, url.id, ref.nodeName, TypeOfNode(url.selected, ref.nodeName), ref.stage,
                summary.ok, summary.reasons)
  {
    StoresRow(s, summary, Target(ref.urlId, ref.nodeName, None, ref.stage));
  }

  // ---- URLs are what was submitted ----

  predicate IsFrom(url: Url, runId: string, item: Submission) {
    && url.id == item.urlId && url.runId == runId && Some(url.url) == item.url
    && url.selected == item.selection.selected && url.unmet == item.selection.unmet
  }

  predicate BroughtBy(e: Event, url: Url) {
    match e
    case Create(r, items) => exists item :: item in items && IsFrom(url, r, item)
    case AddTo(r, item) => IsFrom(url, r, item)
    case Result(_) => false
  }

  lemma {:induction false} QueueAllBrings(s: State, r: string, items: seq<Submission>, u: string)
    requires u in QueueAll(s, r, items).0.urls
    ensures var s' := QueueAll(s, r, items).0;
      || (u in s.urls && s'.urls[u] == s.urls[u])
      || exists item :: item in items && IsFrom(s'.urls[u], r, item)
    decreases |items|
  {
    if items != [] {
      var (s1, o) := QueueUrl(s, r, items[0], true);
      QueueUrlUrls(s, r, items[0], true);
      if o == Queued {
        QueueAllBrings(s1, r, items[1..], u);
        var s' := QueueAll(s1, r, items[1..]).0;
        if item :| item in items[1..] && IsFrom(s'.urls[u], r, item) {
          assert item in items;
        } else if u == items[0].urlId {
          assert IsFrom(s'.urls[u], r, items[0]);
        }
      }
    }
  }

  predicate SameUrls(s: State, s': State) {
    s'.urls.Keys == s.urls.Keys && forall u :: u in s.urls ==> SameUrl(s.urls[u], s'.urls[u])
  }

  lemma AdvanceKeepsUrls(s: State, u: string)
    requires u in s.urls && u in s.buckets
    ensures SameUrls(s, Advance(s, u))
  {
    AdvanceIsMove(s, u);
    if NeedsBrowser(s, u) {
      assert StartBrowser(s, u).urls == s.urls[u := s.urls[u].(status := BrowserValidationRunning)];
    } else if ReadyToComplete(s, u) {
      MarksRunsOnly(CompleteUrl(s, u, VerdictOf(s.urls[u], s.buckets[u])), s.urls[u].runId);
    }
  }

  lemma ResultKeepsUrls(s: State, summary: Summary)
    ensures SameUrls(s, OnResult(s, summary))
  {
    var t := Lookup(s, summary.jobId);
    if summary.jobId != "" && t.Some? && t.value.urlId in s.urls && t.value.urlId in s.buckets {
      var u := t.value.urlId;
      AdvanceKeepsUrls(PutResult(s, u, MakeRec(s.urls[u], t.value, summary)), u);
    }
  }

  lemma StepBrings(s: State, e: Event, u: string)
    requires u in Step(s, e).urls
    ensures var url := Step(s, e).urls[u]; (u in s.urls && SameUrl(s.urls[u], url)) || BroughtBy(e, url)
  {
    match e
    case Create(r, items) =>
      QueueAllBrings(AddRun(s, r), r, items, u);
      MarksRunsOnly(QueueAll(AddRun(s, r), r, items).0, r);
    case AddTo(r, item) => QueueUrlUrls(s, r, item, false);
    case Result(summary) => ResultKeepsUrls(s, summary);
  }

  /** Every URL of every reachable state is one that was submitted: to that run, with that text, nodes and unmet quorums. */
  lemma {:induction false} EveryUrlSubmitted(events: seq<Event>, u: string) returns (i: nat)
    requires Valid(events) && u in After(events).urls
    ensures i < |events| && BroughtBy(events[i], After(events).urls[u])
  {
    var front, last := events[..|events| - 1], events[|events| - 1];
    StepBrings(After(front), last, u);
    if BroughtBy(last, After(events).urls[u]) {
      i := |front|;
    } else {
      i := EveryUrlSubmitted(front, u);
      SameBringer(events[i], After(front).urls[u], After(events).urls[u]);
    }
  }

  lemma SameBringer(e: Event, url: Url, url': Url)
    requires BroughtBy(e, url) && SameUrl(url, url')
    ensures BroughtBy(e, url')
  {
    if e.Create? {
      var item :| item in e.items && IsFrom(url, e.runId, item);
      assert IsFrom(url', e.runId, item);
    }
  }

  // ---- and what is submitted becomes a URL ----

  /** The ids of the submissions before the first malformed one. */
  function AcceptedIds(items: seq<Submission>): seq<string> {
    if items == [] || items[0].url.None? then [] else [items[0].urlId] + AcceptedIds(items[1..])
  }

  predicate AllWellFormed(items: seq<Submission>) {
    forall item :: item in items ==> item.url.Some?
  }

  lemma ReopenKeepsList(s: State, r: string)
    requires r in s.runs
    ensures r in Reopen(s, r).runs && Reopen(s, r).runs[r].urlIds == s.runs[r].urlIds
  {
  }

  lemma SettleKeepsList(s: State, r: string)
    requires r in s.runs
    ensures r in MaybeComplete(s, r).runs && MaybeComplete(s, r).runs[r].urlIds == s.runs[r].urlIds
  {
  }

  lemma InsertLists(s: State, r: string, item: Submission)
    requires r in s.runs && item.url.Some?
    ensures r in InsertUrl(s, r, item).runs && InsertUrl(s, r, item).runs[r].urlIds == s.runs[r].urlIds + [item.urlId]
  {
  }

  lemma QueueUrlLists(s: State, r: string, item: Submission, deferComplete: bool)
    requires r in s.runs
    ensures var (s', o) := QueueUrl(s, r, item, deferComplete);
      && r in s'.runs && (o == Queued <==> item.url.Some?)
      && s'.runs[r].urlIds == s.runs[r].urlIds + (if item.url.Some? then [item.urlId] else [])
  {
    ReopenKeepsList(s, r);
    if item.url.Some? {
      InsertLists(Reopen(s, r), r, item);
      SettleKeepsList(InsertUrl(Reopen(s, r), r, item), r);
    } else {
      assert s.runs[r].urlIds + [] == s.runs[r].urlIds;
    }
  }

  lemma {:induction false} QueueAllLists(s: State, r: string, items: seq<Submission>)
    requires r in s.runs
    ensures var (s', o) := QueueAll(s, r, items);
      && r in s'.runs && s'.runs[r].urlIds == s.runs[r].urlIds + AcceptedIds(items) && (o == Queued <==> AllWellFormed(items))
    decreases |items|
  {
    if items == [] {
      assert s.runs[r].urlIds + [] == s.runs[r].urlIds;
    } else {
      var (s1, o) := QueueUrl(s, r, items[0], true);
      QueueUrlLists(s, r, items[0], true);
      if o == Queued {
        QueueAllLists(s1, r, items[1..]);
        assert items == [items[0]] + items[1..];
      } else {
        assert items[0] in items;
      }
    }
  }

  /** A created run lists its URLs in the order submitted, up to the first malformed one; the call succeeds iff there is
      none. A URL added to a run goes to the end of its list; the call succeeds iff the run is known and the URL well
      formed. */
  lemma RunsListSubmissions(s: State, r: string, items: seq<Submission>, item: Submission)
    ensures var (s', o) := CreateRun(s, r, items);
      r in s'.runs && s'.runs[r].urlIds == AcceptedIds(items) && (o == Queued <==> AllWellFormed(items))
    ensures var (s', o) := QueueUrl(s, r, item, false);
      && (o == Queued <==> r in s.runs && item.url.Some?)
      && (o == Queued ==> r in s'.runs && s'.runs[r].urlIds == s.runs[r].urlIds + [item.urlId])
  {
    QueueAllLists(AddRun(s, r), r, items);
    assert [] + AcceptedIds(items) == AcceptedIds(items);
    if r in s.runs {
      QueueUrlLists(s, r, item, false);
    }
  }
}
