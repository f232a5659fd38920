/** Progress: answers run out. A run of n selected nodes is completed by at most 2n first answers. */
module RunProgress {
  import opened Common
  import opened Classification
  import opened JobIds
  import opened NodeSelection
  import opened RunState
  import opened RunMoves
  import opened RunInvariants
  import opened RunSettlement
  import opened RunAnswers
  import opened RunOutcome

  // ---- the measure ----

  function Names(selected: seq<Node>): set<string> {
    set n | n in selected :: n.name
  }

  /** Nodes of a URL that have not answered a stage. */
  function Missing(url: Url, b: Bucket, stage: string): set<string> {
    set name | name in Names(url.selected) && Key(name, stage) !in b
  }

  /** Answers a URL can still need: those outstanding plus those of a stage not yet sent. */
  function Left(url: Url, b: Bucket): nat {
    match url.status
    case InitialTestsRunning => |Missing(url, b, INITIAL)| + |Names(url.selected)|
    case BrowserValidationRunning => |Missing(url, b, BROWSER)|
    case _ => 0
  }

  function LeftOf(s: State, u: string): nat {
    if u in s.urls && u in s.buckets then Left(s.urls[u], s.buckets[u]) else 0
  }

  function SumLeft(s: State, ids: seq<string>): nat {
    if ids == [] then 0 else SumLeft(s, ids[..|ids| - 1]) + LeftOf(s, ids[|ids| - 1])
  }

  function RunLeft(s: State, r: string): nat {
    if r in s.runs then SumLeft(s, s.runs[r].urlIds) else 0
  }

  function SelectedTotal(s: State, ids: seq<string>): nat {
    if ids == [] then 0
    else SelectedTotal(s, ids[..|ids| - 1]) + (if ids[|ids| - 1] in s.urls then |s.urls[ids[|ids| - 1]].selected| else 0)
  }

  lemma {:induction false} NamesSize(selected: seq<Node>)
    ensures |Names(selected)| <= |selected|
  {
    if selected != [] {
      var front, last := selected[..|selected| - 1], selected[|selected| - 1];
      NamesSize(front);
      assert selected == front + [last];
      assert Names(selected) == Names(front) + {last.name};
    }
  }

  lemma LeftBound(url: Url, b: Bucket)
    ensures Left(url, b) <= 2 * |url.selected|
  {
    NamesSize(url.selected);
    SubsetSize(Missing(url, b, INITIAL), Names(url.selected));
    SubsetSize(Missing(url, b, BROWSER), Names(url.selected));
  }

  lemma {:induction false} SumBound(s: State, ids: seq<string>)
    ensures SumLeft(s, ids) <= 2 * SelectedTotal(s, ids)
  {
    if ids != [] {
      SumBound(s, ids[..|ids| - 1]);
      var u := ids[|ids| - 1];
      if u in s.urls && u in s.buckets {
        LeftBound(s.urls[u], s.buckets[u]);
      }
    }
  }

  lemma {:induction false} SumLower(s: State, s': State, ids: seq<string>, u: string)
    requires forall v :: v in ids ==> LeftOf(s', v) <= LeftOf(s, v)
    ensures SumLeft(s', ids) <= SumLeft(s, ids)
    ensures u in ids && LeftOf(s', u) < LeftOf(s, u) ==> SumLeft(s', ids) < SumLeft(s, ids)
  {
    if ids != [] {
      var front, last := ids[..|ids| - 1], ids[|ids| - 1];
      assert ids == front + [last];
      SumLower(s, s', front, u);
    }
  }

  lemma {:induction false} SumZero(s: State, ids: seq<string>)
    ensures SumLeft(s, ids) == 0 <==> forall u :: u in ids ==> LeftOf(s, u) == 0
  {
    if ids != [] {
      var front, last := ids[..|ids| - 1], ids[|ids| - 1];
      assert ids == front + [last];
      SumZero(s, front);
    }
  }

  // ---- a first answer lowers it ----

  /** A job that was dispatched and has no answer yet. */
  ghost predicate Outstanding(s: State, jobId: string) {
    jobId in s.jobs && jobId !in s.rows
  }

  /** The URL of an outstanding job is still running, and waits for exactly this stage of this node. */
  lemma OutstandingStage(s: State, jobId: string)
    requires Outstanding(s, jobId) && Steady(s, None)
    ensures var j := s.jobs[jobId]; var u := j.urlId;
      && u in s.urls && u in s.buckets
      && j.nodeName in Missing(s.urls[u], s.buckets[u], j.stage)
      && ((s.urls[u].status == InitialTestsRunning && j.stage == INITIAL)
          || (s.urls[u].status == BrowserValidationRunning && j.stage == BROWSER))
  {
    OutstandingKey(s, jobId);
    JobUrlNotBlocked(s, s.jobs[jobId]);
    JobInBatch(s, s.jobs[jobId]);
    SteadyUrl(s, s.jobs[jobId].urlId);
    StageOfStatus(s, s.jobs[jobId].urlId, s.jobs[jobId]);
  }

  lemma SteadyUrl(s: State, u: string)
    requires u in s.urls && Steady(s, None)
    ensures u in s.buckets && s.urls[u].id == u && SentOnce(s.urls[u], s.sent) && OnCourse(s, u, None)
  {
  }

  lemma JobInBatch(s: State, j: Job)
    requires j in s.sent && JobsLogged(s)
    ensures JobOfUrl(s, j) && j in SentFor(s.sent, j.urlId, j.stage)
  {
    FilterMembers(s.sent, ForStage(j.urlId, j.stage));
  }

  lemma StageOfStatus(s: State, u: string, j: Job)
    requires u in s.urls && u in s.buckets && s.urls[u].id == u && IsStage(j.stage) && j in SentFor(s.sent, u, j.stage)
    requires SentOnce(s.urls[u], s.sent) && OnCourse(s, u, None) && s.urls[u].unmet == []
    requires exists n :: n in s.urls[u].selected && n.name == j.nodeName
    requires Key(j.nodeName, j.stage) !in s.buckets[u]
    ensures s.urls[u].status == if j.stage == INITIAL then InitialTestsRunning else BrowserValidationRunning
    ensures j.nodeName in Missing(s.urls[u], s.buckets[u], j.stage)
  {
  }

  lemma OutstandingKey(s: State, jobId: string)
    requires Outstanding(s, jobId) && Rows(s)
    ensures var j := s.jobs[jobId]; j.urlId in s.buckets && Key(j.nodeName, j.stage) !in s.buckets[j.urlId]
  {
    var j := s.jobs[jobId];
    assert JobOfUrl(s, j);
    if Key(j.nodeName, j.stage) in s.buckets[j.urlId] {
      BucketAnswer(s, j.urlId, j.nodeName, j.stage, None);
    }
  }

  lemma PutLowers(url: Url, b: Bucket, name: string, stage: string, rec: Rec)
    requires IsStage(stage) && name in Missing(url, b, stage)
    ensures |Missing(url, b[Key(name, stage) := rec], stage)| < |Missing(url, b, stage)|
  {
    var before, after := Missing(url, b, stage), Missing(url, b[Key(name, stage) := rec], stage);
    assert after <= before && name !in after;
    SubsetSize(after, before);
  }

  /** The runs keep their URLs, and the URLs other than u need what they needed before. */
  ghost predicate OthersSame(s: State, s': State, u: string) {
    && s'.runs.Keys == s.runs.Keys && (forall r :: r in s.runs ==> s'.runs[r].urlIds == s.runs[r].urlIds)
    && (forall v :: v != u ==> LeftOf(s', v) == LeftOf(s, v))
  }

  /** Storing the answer and advancing lowers what the URL still needs, and touches no other URL. */
  lemma FirstAnswerLowers(s: State, summary: Summary)
    requires Outstanding(s, summary.jobId) && Steady(s, None)
    ensures var s', u := OnResult(s, summary), s.jobs[summary.jobId].urlId;
      u in s.urls && u in s.buckets && LeftOf(s', u) < LeftOf(s, u) && OthersSame(s, s', u)
  {
    AnswerStores(s, summary);
    OutstandingStage(s, summary.jobId);
    var j := s.jobs[summary.jobId];
    StoreAndAdvance(s, j.urlId, j, AnswerRec(s, summary));
  }

  lemma StoreAndAdvance(s: State, u: string, j: Job, rec: Rec)
    requires u in s.urls && u in s.buckets && rec.nodeName == j.nodeName && rec.stage == j.stage && IsStage(j.stage)
    requires j.nodeName in Missing(s.urls[u], s.buckets[u], j.stage)
    requires (s.urls[u].status == InitialTestsRunning && j.stage == INITIAL)
          || (s.urls[u].status == BrowserValidationRunning && j.stage == BROWSER)
    ensures var s' := Advance(PutResult(s, u, rec), u); LeftOf(s', u) < LeftOf(s, u) && OthersSame(s, s', u)
  {
    var s1 := PutResult(s, u, rec);
    PutLowers(s.urls[u], s.buckets[u], j.nodeName, j.stage, rec);
    assert s1.buckets == s.buckets[u := s.buckets[u][Key(j.nodeName, j.stage) := rec]];
    assert OthersSame(s, s1, u);
    AdvanceLowers(s1, u);
  }

  lemma AdvanceLowers(s: State, u: string)
    requires u in s.urls && u in s.buckets
    ensures LeftOf(Advance(s, u), u) <= LeftOf(s, u) && OthersSame(s, Advance(s, u), u)
  {
    AdvanceIsMove(s, u);
    if NeedsBrowser(s, u) {
      BrowserLowers(s, u);
    } else if ReadyToComplete(s, u) {
      CompleteLowers(s, u, VerdictOf(s.urls[u], s.buckets[u]));
    }
  }

  lemma CompleteLowers(s: State, u: string, v: Verdict)
    requires u in s.urls && u in s.buckets
    ensures var s' := MaybeComplete(CompleteUrl(s, u, v), s.urls[u].runId); LeftOf(s', u) == 0 && OthersSame(s, s', u)
  {
  }

  lemma BrowserLowers(s: State, u: string)
    requires u in s.urls && u in s.buckets && NeedsBrowser(s, u)
    ensures LeftOf(StartBrowser(s, u), u) <= LeftOf(s, u) && OthersSame(s, StartBrowser(s, u), u)
  {
    var url, b := s.urls[u], s.buckets[u];
    SubsetSize(Missing(url.(status := BrowserValidationRunning), b, BROWSER), Names(url.selected));
  }

  /** Each first answer to an outstanding job strictly lowers what its run still needs. */
  lemma FirstAnswerLowersRun(s: State, summary: Summary)
    requires Outstanding(s, summary.jobId) && Steady(s, None)
    ensures var u := s.jobs[summary.jobId].urlId; u in s.urls && s.urls[u].runId in s.runs
    ensures RunLeft(OnResult(s, summary), s.urls[s.jobs[summary.jobId].urlId].runId)
          < RunLeft(s, s.urls[s.jobs[summary.jobId].urlId].runId)
  {
    FirstAnswerLowers(s, summary);
    var u := s.jobs[summary.jobId].urlId;
    RunLowers(s, OnResult(s, summary), u, s.urls[u].runId);
  }

  lemma RunLowers(s: State, s': State, u: string, r: string)
    requires r in s.runs && u in s.runs[r].urlIds && LeftOf(s', u) < LeftOf(s, u) && OthersSame(s, s', u)
    ensures RunLeft(s', r) < RunLeft(s, r)
  {
    SumLower(s, s', s.runs[r].urlIds, u);
  }

  // ---- and nothing ever raises it ----

  /** The URLs of s0 are still there and need no more than they did. */
  ghost predicate NoMoreThan(s0: State, s: State) {
    s.urls.Keys == s.buckets.Keys && forall v :: v in s0.urls ==> v in s.urls && LeftOf(s, v) <= LeftOf(s0, v)
  }

  lemma PutNoMore(url: Url, b: Bucket, key: string, rec: Rec)
    ensures Left(url, b[key := rec]) <= Left(url, b)
  {
    SubsetSize(Missing(url, b[key := rec], INITIAL), Missing(url, b, INITIAL));
    SubsetSize(Missing(url, b[key := rec], BROWSER), Missing(url, b, BROWSER));
  }

  lemma BrowserNoMore(url: Url, b: Bucket)
    requires url.status == InitialTestsRunning
    ensures Left(url.(status := BrowserValidationRunning), b) <= Left(url, b)
  {
    SubsetSize(Missing(url.(status := BrowserValidationRunning), b, BROWSER), Names(url.selected));
  }

  /** One URL changes, to something that needs no more. */
  lemma OneNoMore(s0: State, s: State, s': State, u: string)
    requires u in s.urls && s'.urls.Keys == s.urls.Keys && s'.buckets.Keys == s.buckets.Keys && NoMoreThan(s0, s)
    requires forall v :: v in s.urls && v != u ==> s'.urls[v] == s.urls[v]
    requires forall v :: v in s.buckets && v != u ==> s'.buckets[v] == s.buckets[v]
    requires LeftOf(s', u) <= LeftOf(s, u)
    ensures NoMoreThan(s0, s')
  {
  }

  lemma SameNoMore(s0: State, s: State, s': State)
    requires s'.urls == s.urls && s'.buckets == s.buckets && NoMoreThan(s0, s)
    ensures NoMoreThan(s0, s')
  {
    forall v | v in s0.urls ensures LeftOf(s', v) == LeftOf(s, v) {
    }
  }

  lemma MoveNoMore(s0: State, s: State, m: Move)
    requires Enabled(s, m) && NoMoreThan(s0, s)
    ensures NoMoreThan(s0, Apply(s, m))
  {
    match m
    case Insert(r, item) => InsertNoMore(s0, s, r, item);
    case Put(u, rec) => StoredNoMore(s0, s, u, rec);
    case Browser(u) => StartedNoMore(s0, s, u);
    case Complete(u, v) => OneNoMore(s0, s, CompleteUrl(s, u, v), u);
    case Settle(r) => MarksRunsOnly(s, r); SameNoMore(s0, s, MaybeComplete(s, r));
    case ReopenRun(r) => MarksRunsOnly(s, r); SameNoMore(s0, s, Reopen(s, r));
    case OpenRun(r) => SameNoMore(s0, s, AddRun(s, r));
  }

  lemma StoredNoMore(s0: State, s: State, u: string, rec: Rec)
    requires u in s.urls && u in s.buckets && NoMoreThan(s0, s)
    ensures NoMoreThan(s0, PutResult(s, u, rec))
  {
    PutNoMore(s.urls[u], s.buckets[u], Key(rec.nodeName, rec.stage), rec);
    OneNoMore(s0, s, PutResult(s, u, rec), u);
  }

  lemma StartedNoMore(s0: State, s: State, u: string)
    requires u in s.urls && s.urls[u].status == InitialTestsRunning && NoMoreThan(s0, s)
    ensures NoMoreThan(s0, StartBrowser(s, u))
  {
    BrowserNoMore(s.urls[u], s.buckets[u]);
    OneNoMore(s0, s, StartBrowser(s, u), u);
  }

  lemma InsertNoMore(s0: State, s: State, r: string, item: Submission)
    requires Enabled(s, Insert(r, item)) && NoMoreThan(s0, s)
    ensures NoMoreThan(s0, InsertUrl(s, r, item))
  {
    InsertEffect(s, r, item);
    forall v | v in s0.urls ensures LeftOf(InsertUrl(s, r, item), v) == LeftOf(s, v) {
      assert v != item.urlId;
    }
  }

  /** No event raises what a URL needs. */
  lemma StepNoMore(s: State, e: Event)
    requires s.urls.Keys == s.buckets.Keys && Allowed(s, e)
    ensures NoMoreThan(s, Step(s, e))
  {
    var p := (t: State) => NoMoreThan(s, t);
    forall t: State, m: Move | p(t) && Enabled(t, m) ensures p(Apply(t, m)) {
      MoveNoMore(s, t, m);
    }
    StepKeeps(p, Anything(), s, e);
  }

  // ---- first answers over whole histories ----

  /** The event is the first answer to an outstanding job of one of the URLs. */
  ghost predicate FirstAnswer(s: State, e: Event, ids: seq<string>) {
    e.Result? && Outstanding(s, e.summary.jobId) && s.jobs[e.summary.jobId].urlId in ids
  }

  /** How many of the events from n on are. */
  ghost function Firsts(events: seq<Event>, n: nat, ids: seq<string>): nat {
    if |events| <= n then 0
    else
      var front := events[..|events| - 1];
      Firsts(front, n, ids) + (if FirstAnswer(After(front), events[|events| - 1], ids) then 1 else 0)
  }

  lemma StepUsesUp(s: State, e: Event, ids: seq<string>)
    requires Allowed(s, e) && (forall u :: u in ids ==> u in s.urls) && Steady(s, None)
    ensures SumLeft(Step(s, e), ids) + (if FirstAnswer(s, e, ids) then 1 else 0) <= SumLeft(s, ids)
  {
    StepNoMore(s, e);
    if FirstAnswer(s, e, ids) {
      FirstAnswerLowers(s, e.summary);
      AnswerStores(s, e.summary);
      SumLower(s, Step(s, e), ids, s.jobs[e.summary.jobId].urlId);
    } else {
      SumLower(s, Step(s, e), ids, "");
    }
  }

  lemma UrlsStay(events: seq<Event>, n: nat, u: string)
    requires Valid(events) && n <= |events| && u in After(events[..n]).urls
    ensures u in After(events).urls && SameNodes(After(events[..n]).urls[u], After(events).urls[u])
  {
    ValidPrefix(events, n);
    Reachable(events[..n]);
    HistoryKept(After(events[..n]), events, n);
  }

  predicate SameNodes(url: Url, url': Url) {
    url'.selected == url.selected && url'.unmet == url.unmet
  }

  /** First answers use up what the URLs need, whatever else happens between them: other answers, repeated and late
      ones, new runs, new URLs. */
  lemma {:induction false} AnswersRunOut(events: seq<Event>, n: nat, ids: seq<string>)
    requires Valid(events) && OnlyAnswers(events) && n <= |events|
    requires forall u :: u in ids ==> u in After(events[..n]).urls
    ensures SumLeft(After(events), ids) + Firsts(events, n, ids) <= SumLeft(After(events[..n]), ids)
  {
    if n == |events| {
      assert events[..n] == events;
    } else {
      var front := events[..|events| - 1];
      assert front[..n] == events[..n];
      OnlyAnswersPrefix(events);
      AnswersRunOut(front, n, ids);
      SteadyReachable(front, None);
      forall u | u in ids ensures u in After(front).urls {
        UrlsStay(front, n, u);
      }
      StepUsesUp(After(front), events[|events| - 1], ids);
    }
  }

  // ---- what the measure says about a run ----

  /** Those of the URLs that are dispatchable were given nodes. */
  ghost predicate Staffed(s: State, ids: seq<string>) {
    forall u :: u in ids && u in s.urls && s.urls[u].unmet == [] ==> s.urls[u].selected != []
  }

  /** A URL with nodes needs nothing more exactly when it is terminal. */
  lemma LeftZero(s: State, u: string)
    requires u in s.urls && (s.urls[u].unmet == [] ==> s.urls[u].selected != []) && Steady(s, None)
    ensures LeftOf(s, u) == 0 <==> UrlTerminal(s, u)
  {
    SteadyUrl(s, u);
    ZeroByStatus(s, u);
  }

  lemma ZeroByStatus(s: State, u: string)
    requires u in s.urls && u in s.buckets && StatusFits(s.urls[u]) && OnCourse(s, u, None)
    requires s.urls[u].unmet == [] ==> s.urls[u].selected != []
    ensures LeftOf(s, u) == 0 <==> UrlTerminal(s, u)
  {
    var url, b := s.urls[u], s.buckets[u];
    if url.status == InitialTestsRunning {
      assert url.selected[0] in url.selected && url.selected[0].name in Names(url.selected);
    } else if url.status == BrowserValidationRunning {
      var n :| n in url.selected && Key(n.name, BROWSER) !in b;
      assert n.name in Missing(url, b, BROWSER);
    }
  }

  /** While a URL is not terminal one of its jobs is outstanding: nothing waits for an answer nobody owes. */
  lemma RunningOwes(s: State, u: string) returns (jobId: string)
    requires u in s.urls && !UrlTerminal(s, u) && (s.urls[u].unmet == [] ==> s.urls[u].selected != []) && Steady(s, None)
    ensures Outstanding(s, jobId) && s.jobs[jobId].urlId == u
  {
    SteadyUrl(s, u);
    var stage, n := MissingNode(s, u);
    var j := BatchJob(s, u, stage, n);
    OwesJob(s, j);
    jobId := j.id;
  }

  lemma MissingNode(s: State, u: string) returns (stage: string, n: Node)
    requires u in s.urls && u in s.buckets && !Terminal(s.urls[u].status) && s.urls[u].id == u
    requires SentOnce(s.urls[u], s.sent) && OnCourse(s, u, None) && (s.urls[u].unmet == [] ==> s.urls[u].selected != [])
    ensures n in s.urls[u].selected && Key(n.name, stage) !in s.buckets[u]
    ensures SentFor(s.sent, u, stage) == StageJobs(s.urls[u], stage)
  {
    var url, b := s.urls[u], s.buckets[u];
    stage := if url.status == InitialTestsRunning then INITIAL else BROWSER;
    assert !StageDone(url, b, stage);
    n :| n in url.selected && Key(n.name, stage) !in b;
  }

  lemma OwesJob(s: State, j: Job)
    requires j in s.sent && j.urlId in s.buckets && Key(j.nodeName, j.stage) !in s.buckets[j.urlId] && Rows(s)
    ensures Outstanding(s, j.id) && s.jobs[j.id].urlId == j.urlId
  {
    assert JobOfUrl(s, j) && JobOfUrl(s, s.jobs[j.id]);
    SameJob(s, j, s.jobs[j.id]);
    if j.id in s.rows {
      JobAnswered(s, j);
    }
  }

  /** Some job of one of the URLs has been dispatched and not answered. */
  ghost predicate Owed(s: State, ids: seq<string>) {
    exists id :: Outstanding(s, id) && s.jobs[id].urlId in ids
  }

  lemma AllDoneOrOwed(s: State, ids: seq<string>)
    requires (forall u :: u in ids ==> u in s.urls) && Staffed(s, ids) && Steady(s, None)
    ensures SumLeft(s, ids) == 0 <==> forall u :: u in ids ==> UrlTerminal(s, u)
    ensures SumLeft(s, ids) > 0 ==> Owed(s, ids)
  {
    forall u | u in ids ensures LeftOf(s, u) == 0 <==> UrlTerminal(s, u) {
      LeftZero(s, u);
    }
    SumZero(s, ids);
    if SumLeft(s, ids) > 0 {
      var u :| u in ids && LeftOf(s, u) != 0;
      var id := RunningOwes(s, u);
    }
  }

  /** Progress: at every point of a run that no call has stranded and whose URLs were given nodes, what is left is at most
      twice the number of selected nodes; nothing is left exactly when the run is completed; and while something is left,
      some dispatched job of the run is still to be answered. */
  lemma Progress(events: seq<Event>, r: string)
    requires Valid(events) && OnlyAnswers(events) && NeverStranded(events, r)
    requires r in After(events).runs && After(events).runs[r].urlIds != []
    requires Staffed(After(events), After(events).runs[r].urlIds)
    ensures var s := After(events); var ids := s.runs[r].urlIds;
      && Steady(s, None)
      && RunLeft(s, r) <= 2 * SelectedTotal(s, ids)
      && (RunLeft(s, r) == 0 <==> s.runs[r].status == RunCompleted)
      && (RunLeft(s, r) > 0 ==> Owed(s, ids))
  {
    var s := After(events);
    SteadyReachable(events, None);
    RunCompletedIffDone(events, r);
    SumBound(s, s.runs[r].urlIds);
    RunUrlsKnown(s, r);
    AllDoneOrOwed(s, s.runs[r].urlIds);
  }

  lemma RunUrlsKnown(s: State, r: string)
    requires r in s.runs && Rows(s)
    ensures forall u :: u in s.runs[r].urlIds ==> u in s.urls
  {
  }

  /** In time: from any point n of any history of answers to dispatched jobs, the URLs a run has then take at most twice
      as many first answers as they have selected nodes, whatever else happens in between. If they were given nodes, then
      at every later point they are all terminal or one of their jobs is still to be answered; and if the run has been
      given no further URL and no call has stranded it, it is then completed. */
  lemma CompletesInTime(events: seq<Event>, n: nat, r: string)
    requires Valid(events) && OnlyAnswers(events) && n <= |events| && r in After(events[..n]).runs
    ensures var s, s' := After(events[..n]), After(events); var ids := s.runs[r].urlIds;
      && Firsts(events, n, ids) <= 2 * SelectedTotal(s, ids)
      && (Staffed(s, ids) ==> (forall u :: u in ids ==> UrlTerminal(s', u)) || Owed(s', ids))
      && (Staffed(s, ids) && ids != [] && r in s'.runs && s'.runs[r].urlIds == ids && NeverStranded(events, r) ==>
            s'.runs[r].status == RunCompleted || Owed(s', ids))
  {
    var s, s' := After(events[..n]), After(events);
    var ids := s.runs[r].urlIds;
    ValidPrefix(events, n);
    Reachable(events[..n]);
    AnswersRunOut(events, n, ids);
    SumBound(s, ids);
    SteadyReachable(events, None);
    forall u | u in ids ensures u in s'.urls && SameNodes(s.urls[u], s'.urls[u]) {
      UrlsStay(events, n, u);
    }
    if Staffed(s, ids) {
      AllDoneOrOwed(s', ids);
      if r in s'.runs && NeverStranded(events, r) {
        RunCompletedIffDone(events, r);
      }
    }
  }

  // ---- a dispatchable URL without nodes ----

  /** It runs, and there is no job to be answered. */
  lemma NodelessUrlWaits(u: string, url: string)
    requires ':' !in u
    ensures var events := [Create("run-1", [Submission(u, Some(url), Selection([], []))])]; var s := After(events);
      && Valid(events) && u in s.urls && s.urls[u].unmet == [] && s.urls[u].status == InitialTestsRunning
      && s.jobs == map[]
  {
    var item := Submission(u, Some(url), Selection([], []));
    var e := Create("run-1", [item]);
    assert [] + [e] == [e] && Allowed(EMPTY, e);
    Follow([], e);
    NodelessCreation(u, url);
  }

  lemma NodelessCreation(u: string, url: string)
    requires ':' !in u
    ensures var s := CreateRun(EMPTY, "run-1", [Submission(u, Some(url), Selection([], []))]).0;
      u in s.urls && s.urls[u].unmet == [] && s.urls[u].status == InitialTestsRunning && s.jobs == map[]
  {
    var item := Submission(u, Some(url), Selection([], []));
    var s0 := AddRun(EMPTY, "run-1");
    var s1 := InsertUrl(s0, "run-1", item);
    InsertEffect(s0, "run-1", item);
    assert StageJobs(NewUrl("run-1", item), INITIAL) == [];
    QueueAllStep(s0, "run-1", [item]);
    assert [item][1..] == [] && QueueAll(s0, "run-1", [item]) == (s1, Queued);
    MarksRunsOnly(s1, "run-1");
  }
}
