/** What holds in every reachable state of the run orchestrator, whatever results arrive. */
module RunInvariants {
  import opened Common
  import opened Classification
  import opened JobIds
  import opened RunState
  import opened RunMoves

  // ---- runs and URLs point at each other ----

  ghost predicate LinkedMaps(runs: map<string, Run>, urls: map<string, Url>) {
    && (forall u :: u in urls ==>
          urls[u].id == u && ':' !in u && urls[u].runId in runs && u in runs[urls[u].runId].urlIds)
    && (forall r, u :: r in runs && u in runs[r].urlIds ==> u in urls && urls[u].runId == r)
  }

  ghost predicate Linked(s: State) {
    s.urls.Keys == s.buckets.Keys && LinkedMaps(s.runs, s.urls)
  }

  /** What inserting a URL does to each of the maps. */
  lemma InsertEffect(s: State, runId: string, item: Submission)
    requires Enabled(s, Insert(runId, item))
    ensures var s', url := InsertUrl(s, runId, item), NewUrl(runId, item);
      && s'.runs == Enlist(s.runs, runId, url.id) && s'.urls == s.urls[url.id := url]
      && s'.buckets == s.buckets[url.id := map[]] && s'.comparisons == s.comparisons && s'.rows == s.rows
      && s'.sent == s.sent + (if url.unmet == [] then StageJobs(url, INITIAL) else [])
      && s'.jobs == (if url.unmet == [] then AddJobs(s.jobs, StageJobs(url, INITIAL)) else s.jobs)
  {
    assert s.sent + [] == s.sent;
  }

  /** Marking a run completed or running again touches the table of runs only. */
  lemma MarksRunsOnly(s: State, runId: string)
    ensures MaybeComplete(s, runId) == s.(runs := MaybeComplete(s, runId).runs)
    ensures runId in s.runs ==> Reopen(s, runId) == s.(runs := Reopen(s, runId).runs)
  {
  }

  /** The URLs after queueing one. */
  lemma QueueUrlUrls(s: State, runId: string, item: Submission, deferComplete: bool)
    ensures QueueUrl(s, runId, item, deferComplete).0.urls
         == if runId in s.runs && item.url.Some? then s.urls[item.urlId := NewUrl(runId, item)] else s.urls
  {
    if runId in s.runs {
      MarksRunsOnly(s, runId);
      if item.url.Some? {
        MarksRunsOnly(InsertUrl(Reopen(s, runId), runId, item), runId);
      }
    }
  }

  /** All moves but Insert and OpenRun leave the set of runs and URLs, and the fixed part of each, alone. */
  ghost predicate SameShape(s: State, s': State) {
    && s'.urls.Keys == s.urls.Keys && s'.buckets.Keys == s.buckets.Keys && s'.runs.Keys == s.runs.Keys
    && (forall u :: u in s.urls ==> SameUrl(s.urls[u], s'.urls[u]))
    && (forall r :: r in s.runs ==> s'.runs[r].urlIds == s.runs[r].urlIds)
  }

  predicate SameUrl(url: Url, url': Url) {
    && url'.id == url.id && url'.runId == url.runId && url'.url == url.url
    && url'.selected == url.selected && url'.unmet == url.unmet
  }

  lemma ShapeKept(s: State, m: Move)
    requires Enabled(s, m) && !m.Insert? && !m.OpenRun?
    ensures SameShape(s, Apply(s, m))
  {
  }

  lemma LinkedKept(s: State, m: Move)
    requires Linked(s) && Enabled(s, m)
    ensures Linked(Apply(s, m))
  {
    match m
    case OpenRun(_) =>
    case Insert(runId, item) => LinkedInsert(s, runId, item);
    case _ => ShapeKept(s, m); LinkedByShape(s, Apply(s, m));
  }

  lemma LinkedByShape(s: State, s': State)
    requires Linked(s) && SameShape(s, s')
    ensures Linked(s')
  {
    forall u | u in s'.urls
      ensures s'.urls[u].id == u && ':' !in u && s'.urls[u].runId in s'.runs && u in s'.runs[s'.urls[u].runId].urlIds
    {
      assert SameUrl(s.urls[u], s'.urls[u]);
    }
  }

  lemma LinkedInsert(s: State, runId: string, item: Submission)
    requires Enabled(s, Insert(runId, item)) && Linked(s)
    ensures Linked(InsertUrl(s, runId, item))
  {
    InsertEffect(s, runId, item);
    LinkedEnlist(s.runs, s.urls, runId, NewUrl(runId, item));
  }

  lemma LinkedEnlist(runs: map<string, Run>, urls: map<string, Url>, runId: string, url: Url)
    requires LinkedMaps(runs, urls) && runId in runs && url.runId == runId && url.id !in urls && ':' !in url.id
    ensures LinkedMaps(Enlist(runs, runId, url.id), urls[url.id := url])
  {
    var runs', urls' := Enlist(runs, runId, url.id), urls[url.id := url];
    forall r, u | r in runs' && u in runs'[r].urlIds
      ensures u in urls' && urls'[u].runId == r
    {
      if u in runs[r].urlIds {
        assert u != url.id;
      }
    }
  }

  // ---- completed and compared are the same thing ----

  ghost predicate Compared(s: State) {
    && (forall u :: u in s.comparisons <==> u in s.urls && s.urls[u].status == Completed)
    && (forall u :: u in s.comparisons ==>
          s.comparisons[u].urlId == u && s.comparisons[u].verdict.class_ == s.urls[u].class_)
  }

  lemma ComparedKept(s: State, m: Move)
    requires Compared(s) && Enabled(s, m)
    ensures Compared(Apply(s, m))
  {
    match m
    case Insert(runId, item) => InsertEffect(s, runId, item);
    case Complete(u, v) => ComparedComplete(s, u, v);
    case _ => ComparedElse(s, m);
  }

  lemma ComparedComplete(s: State, u: string, v: Verdict)
    requires u in s.urls && s.urls[u].status != Completed && Compared(s)
    ensures Compared(CompleteUrl(s, u, v))
  {
  }

  lemma ComparedElse(s: State, m: Move)
    requires Enabled(s, m) && !m.Insert? && !m.Complete? && Compared(s)
    ensures Compared(Apply(s, m))
  {
    assert Apply(s, m).comparisons == s.comparisons;
  }

  // ---- a completed run has URLs, all of them terminal ----

  ghost predicate RunsSettled(s: State) {
    && (forall r, u :: r in s.runs && u in s.runs[r].urlIds ==> u in s.urls)
    && (forall r :: r in s.runs && s.runs[r].status == RunCompleted ==> AllDone(s, s.runs[r].urlIds))
  }

  /** Terminal URLs stay terminal. */
  lemma TerminalKept(s: State, m: Move)
    requires Enabled(s, m)
    ensures forall u :: UrlTerminal(s, u) ==> UrlTerminal(Apply(s, m), u)
  {
    match m
    case Insert(runId, item) => InsertEffect(s, runId, item);
    case Browser(u) => assert Apply(s, m).urls == s.urls[u := s.urls[u].(status := BrowserValidationRunning)];
    case Complete(u, _) => assert Apply(s, m).urls.Keys == s.urls.Keys;
    case _ => assert Apply(s, m).urls == s.urls;
  }

  lemma DoneKept(s: State, s': State, ids: seq<string>)
    requires AllDone(s, ids) && forall u :: UrlTerminal(s, u) ==> UrlTerminal(s', u)
    ensures AllDone(s', ids)
  {
  }

  lemma SettledGrows(s: State, s': State)
    requires s.urls.Keys <= s'.urls.Keys && forall u :: UrlTerminal(s, u) ==> UrlTerminal(s', u)
    requires forall r, u :: r in s'.runs && u in s'.runs[r].urlIds && u !in s'.urls ==> r in s.runs && u in s.runs[r].urlIds
    requires forall r :: r in s'.runs && s'.runs[r].status == RunCompleted ==>
      (r in s.runs && s.runs[r] == s'.runs[r]) || AllDone(s', s'.runs[r].urlIds)
    requires RunsSettled(s)
    ensures RunsSettled(s')
  {
    forall r | r in s'.runs && s'.runs[r].status == RunCompleted ensures AllDone(s', s'.runs[r].urlIds) {
      if r in s.runs && s.runs[r] == s'.runs[r] {
        DoneKept(s, s', s.runs[r].urlIds);
      }
    }
  }

  lemma RunsSettledKept(s: State, m: Move)
    requires Enabled(s, m) && RunsSettled(s)
    ensures RunsSettled(Apply(s, m))
  {
    TerminalKept(s, m);
    match m
    case Insert(runId, item) =>
      InsertEffect(s, runId, item);
      SettledGrows(s, Apply(s, m));
    case OpenRun(_) =>
      SettledGrows(s, Apply(s, m));
    case _ =>
      ShapeKept(s, m);
      SettleEffect(s, m);
      SettledGrows(s, Apply(s, m));
  }

  lemma SettleEffect(s: State, m: Move)
    requires Enabled(s, m) && !m.Insert? && !m.OpenRun?
    ensures forall r :: r in Apply(s, m).runs && Apply(s, m).runs[r].status == RunCompleted ==>
      (r in s.runs && s.runs[r] == Apply(s, m).runs[r]) || AllDone(Apply(s, m), Apply(s, m).runs[r].urlIds)
  {
    if m.Settle? {
      if Apply(s, m) != s {
        DoneKept(s, Apply(s, m), s.runs[m.runId].urlIds);
      }
    }
  }

  // ---- each stage of a URL is sent once ----

  function ForStage(u: string, stage: string): Job -> bool {
    (j: Job) => j.urlId == u && j.stage == stage
  }

  /** The jobs sent for one stage of one URL, in order. */
  function SentFor(sent: seq<Job>, u: string, stage: string): seq<Job> {
    Filter(sent, ForStage(u, stage))
  }

  ghost predicate StatusFits(url: Url) {
    && url.status != Failed
    && (url.status == Blocked ==> url.unmet != [])
    && (url.status == InitialTestsRunning || url.status == BrowserValidationRunning ==> url.unmet == [])
  }

  /** The log holds the whole initial batch of a dispatchable URL once, and its browser batch at most once. */
  ghost predicate SentOnce(url: Url, sent: seq<Job>) {
    var browser := SentFor(sent, url.id, BROWSER);
    && StatusFits(url)
    && SentFor(sent, url.id, INITIAL) == (if url.unmet == [] then StageJobs(url, INITIAL) else [])
    && (url.status == InitialTestsRunning || url.unmet != [] ==> browser == [])
    && (url.status == BrowserValidationRunning ==> browser == StageJobs(url, BROWSER))
    && (browser == [] || browser == StageJobs(url, BROWSER))
  }

  ghost predicate Batches(s: State) {
    && (forall u :: u in s.urls ==> s.urls[u].id == u && SentOnce(s.urls[u], s.sent))
    && (forall j :: j in s.sent ==> j.urlId in s.urls)
  }

  /** Sending a stage of one URL adds that batch to its log and leaves every other log alone. */
  lemma SentForExtend(sent: seq<Job>, url: Url, stage: string, u: string, stage': string)
    ensures SentFor(sent + StageJobs(url, stage), u, stage')
         == SentFor(sent, u, stage') + (if u == url.id && stage' == stage then StageJobs(url, stage) else [])
  {
    var p := ForStage(u, stage');
    FilterConcat(sent, StageJobs(url, stage), p);
    if u == url.id && stage' == stage {
      FilterAll(StageJobs(url, stage), p);
    } else {
      FilterNone(StageJobs(url, stage), p);
    }
  }

  lemma BatchesKept(s: State, m: Move)
    requires Enabled(s, m) && Batches(s)
    ensures Batches(Apply(s, m))
  {
    match m
    case Insert(runId, item) =>
      InsertEffect(s, runId, item);
      BatchesInsert(s, Apply(s, m), NewUrl(runId, item));
    case Browser(v) =>
      BatchesBrowser(s, Apply(s, m), v, s.urls[v].(status := BrowserValidationRunning));
    case Complete(v, _) =>
      BatchesComplete(s, Apply(s, m), v, Apply(s, m).urls[v]);
    case _ => BatchesSame(s, m);
  }

  lemma BatchesSame(s: State, m: Move)
    requires Enabled(s, m) && !m.Insert? && !m.Browser? && !m.Complete? && Batches(s)
    ensures Batches(Apply(s, m))
  {
    assert Apply(s, m).urls == s.urls && Apply(s, m).sent == s.sent;
  }

  lemma BatchesInsert(s: State, s': State, url: Url)
    requires Batches(s) && url.id !in s.urls
    requires url.status == (if url.unmet == [] then InitialTestsRunning else Blocked)
    requires s'.urls == s.urls[url.id := url]
    requires s'.sent == s.sent + (if url.unmet == [] then StageJobs(url, INITIAL) else [])
    ensures Batches(s')
  {
    assert s.sent + [] == s.sent;
    forall u | u in s.urls ensures SentOnce(s.urls[u], s'.sent) {
      SentOthers(s.urls[u], s.sent, url, INITIAL);
    }
    SentFirst(s.sent, url);
  }

  lemma BatchesBrowser(s: State, s': State, v: string, url: Url)
    requires Batches(s) && v in s.urls && s.urls[v].status == InitialTestsRunning
    requires url == s.urls[v].(status := BrowserValidationRunning)
    requires s'.urls == s.urls[v := url] && s'.sent == s.sent + StageJobs(url, BROWSER)
    ensures Batches(s')
  {
    forall u | u in s.urls && u != v ensures SentOnce(s.urls[u], s'.sent) {
      SentOthers(s.urls[u], s.sent, url, BROWSER);
    }
    SentBrowser(s.urls[v], s.sent, url);
  }

  lemma BatchesComplete(s: State, s': State, v: string, url: Url)
    requires Batches(s) && v in s.urls && SameUrl(s.urls[v], url) && url.status == Completed
    requires s'.urls == s.urls[v := url] && s'.sent == s.sent
    ensures Batches(s')
  {
    SameBatches(s.urls[v], url);
  }

  lemma SentOthers(other: Url, sent: seq<Job>, url: Url, stage: string)
    requires SentOnce(other, sent) && other.id != url.id
    ensures SentOnce(other, sent + StageJobs(url, stage))
  {
    SentForExtend(sent, url, stage, other.id, INITIAL);
    SentForExtend(sent, url, stage, other.id, BROWSER);
  }

  lemma SentFirst(sent: seq<Job>, url: Url)
    requires forall j :: j in sent ==> j.urlId != url.id
    requires url.status == (if url.unmet == [] then InitialTestsRunning else Blocked)
    ensures SentOnce(url, sent + (if url.unmet == [] then StageJobs(url, INITIAL) else []))
  {
    assert sent + [] == sent;
    FilterNone(sent, ForStage(url.id, INITIAL));
    FilterNone(sent, ForStage(url.id, BROWSER));
    SentForExtend(sent, url, INITIAL, url.id, INITIAL);
    SentForExtend(sent, url, INITIAL, url.id, BROWSER);
  }

  lemma SentBrowser(old_: Url, sent: seq<Job>, url: Url)
    requires SentOnce(old_, sent) && old_.status == InitialTestsRunning
    requires url == old_.(status := BrowserValidationRunning)
    ensures SentOnce(url, sent + StageJobs(url, BROWSER))
  {
    SameBatches(old_, url);
    SentForExtend(sent, url, BROWSER, url.id, INITIAL);
    SentForExtend(sent, url, BROWSER, url.id, BROWSER);
  }

  lemma SameBatches(url: Url, url': Url)
    requires url.id == url'.id && url.runId == url'.runId && url.url == url'.url && url.selected == url'.selected
    ensures StageJobs(url, INITIAL) == StageJobs(url', INITIAL) && StageJobs(url, BROWSER) == StageJobs(url', BROWSER)
  {
  }

  // ---- the jobs table and the dispatch log agree ----

  ghost predicate JobOfUrl(s: State, j: Job) {
    && j.urlId in s.urls && IsStage(j.stage) && j.id == JobId(j.urlId, j.nodeName, j.stage)
    && exists n :: n in s.urls[j.urlId].selected && n.name == j.nodeName
  }

  ghost predicate JobsLogged(s: State) {
    && (forall u :: u in s.urls ==> s.urls[u].id == u)
    && (forall j :: j in s.sent ==> JobOfUrl(s, j) && j.id in s.jobs)
    && (forall id :: id in s.jobs ==> s.jobs[id] in s.sent && s.jobs[id].id == id)
  }

  lemma {:induction false} AddJobsLookup(jobs: map<string, Job>, js: seq<Job>, id: string)
    ensures id in AddJobs(jobs, js) <==> id in jobs || exists j :: j in js && j.id == id
    ensures id in AddJobs(jobs, js) ==>
      (AddJobs(jobs, js)[id] in js && AddJobs(jobs, js)[id].id == id) || (id in jobs && AddJobs(jobs, js)[id] == jobs[id])
  {
    if js != [] {
      var front, last := js[..|js| - 1], js[|js| - 1];
      AddJobsLookup(jobs, front, id);
      assert js == front + [last];
    }
  }

  lemma DispatchLogged(s: State, url: Url, stage: string)
    requires IsStage(stage) && url.id in s.urls && s.urls[url.id].selected == url.selected
    requires JobsLogged(s)
    ensures JobsLogged(DispatchStage(s, url, stage))
  {
    var js, s' := StageJobs(url, stage), DispatchStage(s, url, stage);
    forall j | j in s'.sent ensures JobOfUrl(s', j) && j.id in s'.jobs {
      AddJobsLookup(s.jobs, js, j.id);
      if j in js {
        var i :| 0 <= i < |js| && js[i] == j;
        assert url.selected[i] in url.selected;
      } else {
        assert JobOfUrl(s, j);
      }
    }
    forall id | id in s'.jobs ensures s'.jobs[id] in s'.sent && s'.jobs[id].id == id {
      AddJobsLookup(s.jobs, js, id);
    }
  }

  /** Jobs stay attached to their URLs while the URLs keep their nodes. */
  lemma JobsFrame(s: State, s': State)
    requires s'.jobs == s.jobs && s'.sent == s.sent
    requires forall u :: u in s.urls ==> u in s'.urls && s'.urls[u].selected == s.urls[u].selected
    requires forall u :: u in s'.urls ==> s'.urls[u].id == u
    requires JobsLogged(s)
    ensures JobsLogged(s')
  {
    forall j | j in s'.sent ensures JobOfUrl(s', j) && j.id in s'.jobs {
      assert JobOfUrl(s, j);
    }
  }

  lemma JobsLoggedKept(s: State, m: Move)
    requires Enabled(s, m) && JobsLogged(s)
    ensures JobsLogged(Apply(s, m))
  {
    match m
    case Insert(runId, item) => JobsInsert(s, runId, item);
    case Browser(u) => JobsBrowser(s, u);
    case _ =>
      QuietMove(s, m);
      JobsFrame(s, Apply(s, m));
  }

  lemma JobsInsert(s: State, runId: string, item: Submission)
    requires Enabled(s, Insert(runId, item)) && JobsLogged(s)
    ensures JobsLogged(InsertUrl(s, runId, item))
  {
    var s1 := WithUrl(s, runId, NewUrl(runId, item));
    JobsFrame(s, s1);
    JobsDispatched(s1, InsertUrl(s, runId, item), NewUrl(runId, item), INITIAL);
  }

  lemma JobsBrowser(s: State, u: string)
    requires Enabled(s, Browser(u)) && JobsLogged(s)
    ensures JobsLogged(StartBrowser(s, u))
  {
    var url := s.urls[u].(status := BrowserValidationRunning);
    var s1 := s.(urls := s.urls[u := url]);
    JobsFrame(s, s1);
    JobsDispatched(s1, StartBrowser(s, u), url, BROWSER);
  }

  /** The moves that send nothing. */
  lemma QuietMove(s: State, m: Move)
    requires Enabled(s, m) && !m.Insert? && !m.Browser?
    ensures var s' := Apply(s, m);
      && s'.jobs == s.jobs && s'.sent == s.sent && s'.urls.Keys == s.urls.Keys
      && forall u :: u in s.urls ==> SameUrl(s.urls[u], s'.urls[u])
  {
    if !m.OpenRun? {
      ShapeKept(s, m);
    }
  }

  lemma JobsDispatched(s: State, s': State, url: Url, stage: string)
    requires IsStage(stage) && url.id in s.urls && s.urls[url.id].selected == url.selected
    requires s' == s || s' == DispatchStage(s, url, stage)
    requires JobsLogged(s)
    ensures JobsLogged(s')
  {
    if s' != s {
      DispatchLogged(s, url, stage);
    }
  }

  // ---- history: what a URL has become is not taken back ----

  ghost predicate Later(s: State, s': State) {
    && (forall u :: u in s.comparisons ==> u in s'.comparisons && s'.comparisons[u] == s.comparisons[u])
    && (forall u :: u in s.urls ==>
          && u in s'.urls && s'.urls[u].selected == s.urls[u].selected && s'.urls[u].unmet == s.urls[u].unmet
          && (Terminal(s.urls[u].status) ==> Terminal(s'.urls[u].status))
          && (s.urls[u].status == Completed ==> s'.urls[u] == s.urls[u]))
    && (forall id :: id in s.jobs ==> id in s'.jobs)
  }

  lemma LaterKept(s0: State, s: State, m: Move)
    requires Later(s0, s) && Compared(s) && Enabled(s, m)
    ensures Later(s0, Apply(s, m))
  {
    NextIsLater(s, m);
    LaterTransitive(s0, s, Apply(s, m));
  }

  lemma LaterTransitive(s0: State, s1: State, s2: State)
    requires Later(s0, s1) && Later(s1, s2)
    ensures Later(s0, s2)
  {
  }

  lemma NextIsLater(s: State, m: Move)
    requires Compared(s) && Enabled(s, m)
    ensures Later(s, Apply(s, m))
  {
    match m
    case Insert(runId, item) => InsertIsLater(s, runId, item);
    case Browser(u) => BrowserIsLater(s, u);
    case Complete(u, v) => CompleteIsLater(s, u, v);
    case _ => ElseIsLater(s, m);
  }

  lemma InsertIsLater(s: State, runId: string, item: Submission)
    requires Enabled(s, Insert(runId, item))
    ensures Later(s, InsertUrl(s, runId, item))
  {
    InsertEffect(s, runId, item);
    AddedJobsStay(s.jobs, StageJobs(NewUrl(runId, item), INITIAL));
  }

  lemma BrowserIsLater(s: State, u: string)
    requires Enabled(s, Browser(u))
    ensures Later(s, StartBrowser(s, u))
  {
    AddedJobsStay(s.jobs, StageJobs(s.urls[u].(status := BrowserValidationRunning), BROWSER));
  }

  lemma CompleteIsLater(s: State, u: string, v: Verdict)
    requires Enabled(s, Complete(u, v)) && Compared(s)
    ensures Later(s, CompleteUrl(s, u, v))
  {
  }

  lemma ElseIsLater(s: State, m: Move)
    requires Enabled(s, m) && !m.Insert? && !m.Browser? && !m.Complete?
    ensures Later(s, Apply(s, m))
  {
    assert Apply(s, m).urls == s.urls && Apply(s, m).jobs == s.jobs && Apply(s, m).comparisons == s.comparisons;
  }

  lemma AddedJobsStay(jobs: map<string, Job>, js: seq<Job>)
    ensures forall id :: id in jobs ==> id in AddJobs(jobs, js)
  {
    forall id | id in jobs ensures id in AddJobs(jobs, js) {
      AddJobsLookup(jobs, js, id);
    }
  }

  // ---- in every reachable state ----

  ghost predicate Inv(s: State) {
    Linked(s) && Compared(s) && RunsSettled(s) && Batches(s) && JobsLogged(s)
  }

  lemma AllFromAnything(events: seq<Event>)
    ensures AllFrom(Anything(), events)
  {
  }

  lemma Reachable(events: seq<Event>)
    requires Valid(events)
    ensures Inv(After(events))
  {
    AllFromAnything(events);
    var q := Anything();
    forall s: State, m: Move | Linked(s) && Enabled(s, m) ensures Linked(Apply(s, m)) { LinkedKept(s, m); }
    InEveryState(Linked, q, events);
    forall s: State, m: Move | Compared(s) && Enabled(s, m) ensures Compared(Apply(s, m)) { ComparedKept(s, m); }
    InEveryState(Compared, q, events);
    forall s: State, m: Move | RunsSettled(s) && Enabled(s, m) ensures RunsSettled(Apply(s, m)) { RunsSettledKept(s, m); }
    InEveryState(RunsSettled, q, events);
    forall s: State, m: Move | Batches(s) && Enabled(s, m) ensures Batches(Apply(s, m)) { BatchesKept(s, m); }
    InEveryState(Batches, q, events);
    forall s: State, m: Move | JobsLogged(s) && Enabled(s, m) ensures JobsLogged(Apply(s, m)) { JobsLoggedKept(s, m); }
    InEveryState(JobsLogged, q, events);
  }
}
