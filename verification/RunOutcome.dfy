/** Order independence: what a run decides depends on the answers alone, not on when they arrive. */
module RunOutcome {
  import opened Common
  import opened Classification
  import opened JobIds
  import opened NodeSelection
  import opened RunState
  import opened RunMoves
  import opened RunInvariants
  import opened RunAnswers

  // ---- queueing leaves every URL on course ----

  /** A URL whose record, bucket, comparison and browser log are unchanged stays on course. */
  lemma OnCourseFrame(s: State, s': State, u: string, ans: Oracle)
    requires u in s.urls && u in s.buckets && u in s'.urls && u in s'.buckets
    requires s'.urls[u] == s.urls[u] && s'.buckets[u] == s.buckets[u]
    requires u in s.comparisons ==> u in s'.comparisons && s'.comparisons[u] == s.comparisons[u]
    requires SentFor(s'.sent, u, BROWSER) == SentFor(s.sent, u, BROWSER)
    requires OnCourse(s, u, ans)
    ensures OnCourse(s', u, ans)
  {
  }

  lemma InsertOnCourse(s: State, r: string, item: Submission, ans: Oracle)
    requires Enabled(s, Insert(r, item)) && AllOnCourse(s, ans)
    ensures AllOnCourse(InsertUrl(s, r, item), ans)
  {
    var s', url := InsertUrl(s, r, item), NewUrl(r, item);
    InsertEffect(s, r, item);
    assert s.sent + [] == s.sent;
    forall u | u in s'.urls ensures OnCourse(s', u, ans) {
      if u == url.id {
        assert s'.buckets[u] == map[];
        if url.selected != [] {
          assert url.selected[0] in url.selected;
        }
      } else {
        SentForExtend(s.sent, url, INITIAL, u, BROWSER);
        OnCourseFrame(s, s', u, ans);
      }
    }
  }

  lemma SameOnCourse(s: State, s': State, ans: Oracle)
    requires s'.urls == s.urls && s'.buckets == s.buckets && s'.comparisons == s.comparisons && s'.sent == s.sent
    requires AllOnCourse(s, ans)
    ensures AllOnCourse(s', ans)
  {
    forall u | u in s'.urls ensures OnCourse(s', u, ans) {
      OnCourseFrame(s, s', u, ans);
    }
  }

  lemma QueueUrlOnCourse(s: State, r: string, item: Submission, deferComplete: bool, ans: Oracle)
    requires item.urlId !in s.urls && ':' !in item.urlId && AllOnCourse(s, ans)
    ensures AllOnCourse(QueueUrl(s, r, item, deferComplete).0, ans)
  {
    if r in s.runs {
      var s1 := Reopen(s, r);
      MarksRunsOnly(s, r);
      SameOnCourse(s, s1, ans);
      if item.url.Some? {
        InsertOnCourse(s1, r, item, ans);
        SettleOnCourse(InsertUrl(s1, r, item), r, ans);
      }
    }
  }

  lemma {:induction false} QueueAllOnCourse(s: State, r: string, items: seq<Submission>, ans: Oracle)
    requires FreshItems(s, items) && AllOnCourse(s, ans)
    ensures AllOnCourse(QueueAll(s, r, items).0, ans)
    decreases |items|
  {
    if items != [] {
      var (s1, o) := QueueUrl(s, r, items[0], true);
      QueueUrlOnCourse(s, r, items[0], true, ans);
      if o == Queued {
        StillFresh(s, s1, items);
        QueueAllOnCourse(s1, r, items[1..], ans);
      }
    }
  }

  // ---- an answer moves its URL along ----

  /** Everything known between two events of a run whose answers agree with ans. */
  ghost predicate Steady(s: State, ans: Oracle) {
    Rows(s) && Answered(s, ans) && Batches(s) && AllOnCourse(s, ans)
  }

  /** Just after an answer for u is stored, the other URLs are on course and u is ready to advance. */
  ghost predicate Stored(s: State, u: string, ans: Oracle) {
    && Rows(s) && Answered(s, ans) && Batches(s) && u in s.urls && u in s.buckets
    && (forall v :: v in s.urls && v != u ==> v in s.buckets && OnCourse(s, v, ans))
    && s.urls[u].status != Blocked && s.urls[u].selected != []
    && (s.urls[u].status == BrowserValidationRunning ==>
          StageDone(s.urls[u], s.buckets[u], INITIAL) && (ans.Some? ==> AnyNotOk(s.urls[u], s.buckets[u])))
    && (s.urls[u].status == Completed ==> OnCourse(s, u, ans))
  }

  lemma JobUrlNotBlocked(s: State, j: Job)
    requires j in s.sent && Batches(s) && JobsLogged(s)
    ensures j.urlId in s.urls && s.urls[j.urlId].unmet == [] && s.urls[j.urlId].status != Blocked
  {
    var u := j.urlId;
    assert JobOfUrl(s, j);
    assert SentOnce(s.urls[u], s.sent);
    FilterMembers(s.sent, ForStage(u, j.stage));
    assert j in SentFor(s.sent, u, j.stage);
  }

  /** An answer for u leaves every other URL as it was, and a completed u stays on course. */
  lemma PutFrame(s: State, u: string, rec: Rec, ans: Oracle)
    requires Enabled(s, Put(u, rec)) && AllOnCourse(s, ans)
    ensures var s' := PutResult(s, u, rec);
      && (forall v :: v in s'.urls && v != u ==> v in s'.buckets && OnCourse(s', v, ans))
      && (s.urls[u].status == Completed ==> OnCourse(s', u, ans))
  {
    var s' := PutResult(s, u, rec);
    assert s.buckets[u].Keys <= s'.buckets[u].Keys;
    forall v | v in s'.urls && v != u ensures OnCourse(s', v, ans) {
      OnCourseFrame(s, s', v, ans);
    }
    assert OnCourse(s, u, ans);
  }

  /** A failed initial answer stays failed when a job answers the same again. */
  lemma FailureStays(s: State, s': State, u: string, ans: Oracle)
    requires u in s.urls && u in s.buckets && u in s'.buckets && s.buckets[u].Keys <= s'.buckets[u].Keys
    requires AnyNotOk(s.urls[u], s.buckets[u]) && ans.Some?
    requires Rows(s) && Answered(s, ans) && Rows(s') && Answered(s', ans)
    ensures AnyNotOk(s.urls[u], s'.buckets[u])
  {
    var n :| n in s.urls[u].selected && Key(n.name, INITIAL) in s.buckets[u]
          && s.buckets[u][Key(n.name, INITIAL)].ok == False;
    BucketAnswer(s, u, n.name, INITIAL, ans);
    BucketAnswer(s', u, n.name, INITIAL, ans);
  }

  lemma StoreTables(s: State, u: string, rec: Rec, ans: Oracle)
    requires u in s.urls && u in s.buckets && Enabled(s, Put(u, rec)) && Solicited()(s, rec) && Says(ans, rec.jobId, rec.ok)
    requires Rows(s) && Answered(s, ans)
    ensures var s' := PutResult(s, u, rec); Rows(s') && Answered(s', ans)
  {
    RowsKept(s, Put(u, rec));
    StillAnswered(s, u, rec, ans);
  }

  lemma StillAnswered(s: State, u: string, rec: Rec, ans: Oracle)
    requires u in s.buckets && Says(ans, rec.jobId, rec.ok) && Answered(s, ans)
    ensures Answered(PutResult(s, u, rec), ans)
  {
    assert PutResult(s, u, rec).rows == s.rows[rec.jobId := rec];
  }

  lemma StoreFailure(s: State, u: string, rec: Rec, ans: Oracle)
    requires Enabled(s, Put(u, rec)) && s.urls[u].status == BrowserValidationRunning && OnCourse(s, u, ans)
    requires Rows(s) && Answered(s, ans) && Rows(PutResult(s, u, rec)) && Answered(PutResult(s, u, rec), ans)
    ensures var b := PutResult(s, u, rec).buckets[u];
      StageDone(s.urls[u], b, INITIAL) && (ans.Some? ==> AnyNotOk(s.urls[u], b))
  {
    assert s.buckets[u].Keys <= PutResult(s, u, rec).buckets[u].Keys;
    if ans.Some? {
      FailureStays(s, PutResult(s, u, rec), u, ans);
    }
  }

  lemma StoreAnswer(s: State, u: string, rec: Rec, ans: Oracle)
    requires u in s.urls && u in s.buckets && Enabled(s, Put(u, rec)) && Solicited()(s, rec) && Says(ans, rec.jobId, rec.ok)
    requires Rows(s) && Answered(s, ans) && Batches(s) && AllOnCourse(s, ans)
    ensures Stored(PutResult(s, u, rec), u, ans)
  {
    StoreTables(s, u, rec, ans);
    BatchesKept(s, Put(u, rec));
    JobUrlNotBlocked(s, s.jobs[rec.jobId]);
    PutFrame(s, u, rec, ans);
    assert OnCourse(s, u, ans);
    if s.urls[u].status == BrowserValidationRunning {
      StoreFailure(s, u, rec, ans);
    }
  }

  lemma OthersOnCourse(s: State, s': State, u: string, url: Url, ans: Oracle)
    requires u in s.urls && s'.urls == s.urls[u := url] && s'.buckets == s.buckets
    requires forall v :: v in s.comparisons && v != u ==> v in s'.comparisons && s'.comparisons[v] == s.comparisons[v]
    requires forall v :: v != u ==> SentFor(s'.sent, v, BROWSER) == SentFor(s.sent, v, BROWSER)
    requires forall v :: v in s.urls && v != u ==> v in s.buckets && OnCourse(s, v, ans)
    requires u in s.buckets && s.urls.Keys == s.buckets.Keys && OnCourse(s', u, ans)
    ensures AllOnCourse(s', ans)
  {
    forall v | v in s'.urls && v != u ensures OnCourse(s', v, ans) {
      OnCourseFrame(s, s', v, ans);
    }
  }

  lemma BrowserOnCourse(s: State, u: string, ans: Oracle)
    requires u in s.urls && u in s.buckets && NeedsBrowser(s, u) && Stored(s, u, ans)
    ensures AllOnCourse(StartBrowser(s, u), ans)
  {
    var s', url := StartBrowser(s, u), s.urls[u].(status := BrowserValidationRunning);
    assert SentFor(s.sent, u, BROWSER) == [] && url.id == u by { assert SentOnce(s.urls[u], s.sent); }
    var n :| n in url.selected && Key(n.name, INITIAL) in s.buckets[u] && s.buckets[u][Key(n.name, INITIAL)].ok == False;
    NoBrowserResult(s, u, n.name);
    BrowserStarts(s, u, n);
    forall v | v != u ensures SentFor(s'.sent, v, BROWSER) == SentFor(s.sent, v, BROWSER) {
      SentForExtend(s.sent, url, BROWSER, v, BROWSER);
    }
    OthersOnCourse(s, s', u, url, ans);
  }

  lemma BrowserStarts(s: State, u: string, n: Node)
    requires u in s.urls && u in s.buckets && NeedsBrowser(s, u)
    requires n in s.urls[u].selected && Key(n.name, BROWSER) !in s.buckets[u]
    ensures var s' := StartBrowser(s, u); var url, b := s'.urls[u], s'.buckets[u];
      && url == s.urls[u].(status := BrowserValidationRunning)
      && StageDone(url, b, INITIAL) && AnyNotOk(url, b) && !StageDone(url, b, BROWSER)
  {
  }

  lemma StoredVerdict(s: State, u: string, ans: Oracle)
    requires u in s.urls && u in s.buckets && ReadyToComplete(s, u) && Stored(s, u, ans) && ans.Some?
    ensures VerdictOf(s.urls[u], s.buckets[u]) == OutcomeOf(u, s.urls[u].selected, ans.value)
    ensures s.urls[u].status == InitialTestsRunning <==> !SomeFails(u, s.urls[u].selected, ans.value)
  {
    assert SentOnce(s.urls[u], s.sent) && s.urls[u].id == u;
    CompletionOutcome(s, u, ans.value);
    InitialAnswers(s, u, ans.value);
  }

  lemma StoredUrl(s: State, u: string, ans: Oracle)
    requires u in s.urls && Stored(s, u, ans)
    ensures s.urls.Keys == s.buckets.Keys && SentOnce(s.urls[u], s.sent) && s.urls[u].id == u
    ensures s.urls[u].status != Blocked && s.urls[u].status != Failed && s.urls[u].selected != []
  {
    assert SentOnce(s.urls[u], s.sent);
  }

  lemma CompleteOnCourse(s: State, u: string, ans: Oracle)
    requires u in s.urls && u in s.buckets && ReadyToComplete(s, u) && Stored(s, u, ans)
    ensures AllOnCourse(CompleteUrl(s, u, VerdictOf(s.urls[u], s.buckets[u])), ans)
  {
    if ans.Some? {
      StoredVerdict(s, u, ans);
    }
    CompleteAs(s, u, VerdictOf(s.urls[u], s.buckets[u]), ans);
  }

  lemma CompleteAs(s: State, u: string, v: Verdict, ans: Oracle)
    requires u in s.urls && u in s.buckets && ReadyToComplete(s, u)
    requires ans.Some? ==> v == OutcomeOf(u, s.urls[u].selected, ans.value)
    requires ans.Some? ==> (s.urls[u].status == InitialTestsRunning <==> !SomeFails(u, s.urls[u].selected, ans.value))
    requires Stored(s, u, ans)
    ensures AllOnCourse(CompleteUrl(s, u, v), ans)
  {
    var s' := CompleteUrl(s, u, v);
    StoredUrl(s, u, ans);
    CompletesOnCourse(s, u, v, ans);
    OthersOnCourse(s, s', u, s'.urls[u], ans);
  }

  lemma CompletesOnCourse(s: State, u: string, v: Verdict, ans: Oracle)
    requires u in s.urls && u in s.buckets && ReadyToComplete(s, u) && s.urls[u].selected != []
    requires SentOnce(s.urls[u], s.sent) && s.urls[u].id == u && s.urls[u].status != Blocked
    requires ans.Some? ==> v == OutcomeOf(u, s.urls[u].selected, ans.value)
    requires ans.Some? ==> (s.urls[u].status == InitialTestsRunning <==> !SomeFails(u, s.urls[u].selected, ans.value))
    ensures OnCourse(CompleteUrl(s, u, v), u, ans)
  {
  }

  lemma FinalizeOnCourse(s: State, u: string, ans: Oracle)
    requires u in s.urls && u in s.buckets && ReadyToComplete(s, u) && Stored(s, u, ans)
    ensures AllOnCourse(Finalize(s, u), ans)
  {
    var s1 := CompleteUrl(s, u, VerdictOf(s.urls[u], s.buckets[u]));
    CompleteOnCourse(s, u, ans);
    SettleOnCourse(s1, s.urls[u].runId, ans);
  }

  lemma SettleOnCourse(s: State, r: string, ans: Oracle)
    requires AllOnCourse(s, ans)
    ensures AllOnCourse(MaybeComplete(s, r), ans)
  {
    MarksRunsOnly(s, r);
    SameOnCourse(s, MaybeComplete(s, r), ans);
  }

  lemma AdvanceOnCourse(s: State, u: string, ans: Oracle)
    requires u in s.urls && u in s.buckets && Stored(s, u, ans)
    ensures AllOnCourse(Advance(s, u), ans)
  {
    AdvanceIsMove(s, u);
    if NeedsBrowser(s, u) {
      BrowserOnCourse(s, u, ans);
    } else if ReadyToComplete(s, u) {
      FinalizeOnCourse(s, u, ans);
    } else {
      WaitOnCourse(s, u, ans);
    }
  }

  lemma WaitOnCourse(s: State, u: string, ans: Oracle)
    requires u in s.urls && u in s.buckets && !NeedsBrowser(s, u) && !ReadyToComplete(s, u) && Stored(s, u, ans)
    ensures AllOnCourse(s, ans)
  {
    StoredUrl(s, u, ans);
    WaitingStatus(s, u, ans);
  }

  lemma WaitingStatus(s: State, u: string, ans: Oracle)
    requires u in s.urls && u in s.buckets && !NeedsBrowser(s, u) && !ReadyToComplete(s, u)
    requires s.urls[u].status != Failed && s.urls[u].status != Blocked
    requires s.urls[u].status == BrowserValidationRunning ==>
      StageDone(s.urls[u], s.buckets[u], INITIAL) && (ans.Some? ==> AnyNotOk(s.urls[u], s.buckets[u]))
    requires s.urls[u].status == Completed ==> OnCourse(s, u, ans)
    ensures OnCourse(s, u, ans)
  {
  }

  lemma AnswerOnCourse(s: State, summary: Summary, ans: Oracle)
    requires summary.jobId in s.jobs && Says(ans, summary.jobId, summary.ok) && Steady(s, ans)
    ensures AllOnCourse(OnResult(s, summary), ans)
  {
    AnswerStores(s, summary);
    var u, rec := s.jobs[summary.jobId].urlId, AnswerRec(s, summary);
    StoreAnswer(s, u, rec, ans);
    AdvanceOnCourse(PutResult(s, u, rec), u, ans);
  }

  lemma CreateOnCourse(s: State, r: string, items: seq<Submission>, ans: Oracle)
    requires r !in s.runs && FreshItems(s, items) && AllOnCourse(s, ans)
    ensures AllOnCourse(CreateRun(s, r, items).0, ans)
  {
    var s0 := AddRun(s, r);
    SameOnCourse(s, s0, ans);
    QueueAllOnCourse(s0, r, items, ans);
    SettleOnCourse(QueueAll(s0, r, items).0, r, ans);
  }

  lemma StepOnCourse(s: State, e: Event, ans: Oracle)
    requires e.Result? ==> e.summary.jobId in s.jobs && Says(ans, e.summary.jobId, e.summary.ok)
    requires Allowed(s, e) && Steady(s, ans)
    ensures AllOnCourse(Step(s, e), ans)
  {
    match e
    case Create(r, items) =>
      CreateOnCourse(s, r, items, ans);
    case AddTo(r, item) =>
      assert [item][0].urlId !in s.urls;
      QueueUrlOnCourse(s, r, item, false, ans);
    case Result(summary) =>
      AnswerOnCourse(s, summary, ans);
  }

  // ---- whole runs ----

  /** Every result answers a dispatched job, and answers it as the oracle says: late and repeated deliveries carry
      the same answer. */
  ghost predicate AgreesWith(events: seq<Event>, oracle: Oracle) {
    OnlyAnswers(events) && forall e :: e in events && e.Result? ==> Says(oracle, e.summary.jobId, e.summary.ok)
  }

  ghost predicate AnswersBy(events: seq<Event>, ans: string -> Ok) {
    AgreesWith(events, Some(ans))
  }

  function By(oracle: Oracle): Source {
    if oracle.None? then Anything() else (s: State, rec: Rec) => rec.ok == oracle.value(rec.jobId)
  }

  lemma RowsAnswered(events: seq<Event>, oracle: Oracle)
    requires Valid(events) && AgreesWith(events, oracle)
    ensures Answered(After(events), oracle)
  {
    AnswersAreSolicited(events);
    forall i | 0 <= i < |events| ensures Admits(By(oracle), After(events[..i]), events[i]) {
      assert Admits(Solicited(), After(events[..i]), events[i]);
      assert events[i] in events;
    }
    var p := (s: State) => Answered(s, oracle);
    forall s: State, m: Move | p(s) && Enabled(s, m) && (m.Put? ==> By(oracle)(s, m.rec)) ensures p(Apply(s, m)) {
      if !m.Put? {
        GrowthEffect(s, m);
      }
    }
    InEveryState(p, By(oracle), events);
  }

  lemma {:induction false} SteadyReachable(events: seq<Event>, oracle: Oracle)
    requires Valid(events) && AgreesWith(events, oracle)
    ensures Steady(After(events), oracle)
  {
    RowsReachable(events);
    RowsAnswered(events, oracle);
    Reachable(events);
    if events != [] {
      var front, last := events[..|events| - 1], events[|events| - 1];
      OnlyAnswersPrefix(events);
      SteadyReachable(front, oracle);
      assert last in events;
      StepOnCourse(After(front), last, oracle);
    }
  }

  /** Every job of the URL that was dispatched has been answered at least once. */
  ghost predicate AllAnswered(events: seq<Event>, u: string) {
    var s := After(events);
    forall id :: id in s.jobs && s.jobs[id].urlId == u ==> id in ResultIds(events)
  }

  lemma SentIsKnown(s: State, j: Job)
    requires j in s.sent && Linked(s) && JobsLogged(s)
    ensures j.id in s.jobs && s.jobs[j.id].urlId == j.urlId
  {
    assert JobOfUrl(s, j) && JobOfUrl(s, s.jobs[j.id]);
    SameJob(s, j, s.jobs[j.id]);
  }

  lemma JobAnswered(s: State, j: Job)
    requires j in s.sent && j.id in s.rows && Rows(s)
    ensures j.urlId in s.buckets && Key(j.nodeName, j.stage) in s.buckets[j.urlId]
  {
    assert RowInBucket(s, j.id) && JobOfUrl(s, s.jobs[j.id]) && JobOfUrl(s, j);
    SameJob(s, j, s.jobs[j.id]);
  }

  lemma BatchAnswered(s: State, u: string, stage: string)
    requires u in s.urls && u in s.buckets && s.urls[u].id == u && SentFor(s.sent, u, stage) == StageJobs(s.urls[u], stage)
    requires forall j :: j in s.sent && j.urlId == u ==> j.id in s.rows
    requires Rows(s)
    ensures StageDone(s.urls[u], s.buckets[u], stage)
  {
    forall n | n in s.urls[u].selected ensures Key(n.name, stage) in s.buckets[u] {
      var j := BatchJob(s, u, stage, n);
      JobAnswered(s, j);
    }
  }

  lemma BatchJob(s: State, u: string, stage: string, n: Node) returns (j: Job)
    requires u in s.urls && s.urls[u].id == u && SentFor(s.sent, u, stage) == StageJobs(s.urls[u], stage)
    requires n in s.urls[u].selected
    ensures j in s.sent && j.urlId == u && j.nodeName == n.name && j.stage == stage
  {
    var url := s.urls[u];
    var i :| 0 <= i < |url.selected| && url.selected[i] == n;
    j := StageJobs(url, stage)[i];
    FilterMembers(s.sent, ForStage(u, stage));
    assert j in SentFor(s.sent, u, stage);
  }

  lemma AnsweredUrlOutcome(events: seq<Event>, ans: string -> Ok, u: string)
    requires Valid(events) && AnswersBy(events, ans) && AllAnswered(events, u)
    requires u in After(events).urls && After(events).urls[u].unmet == []
    ensures var s := After(events);
      && (s.urls[u].status == Completed <==> s.urls[u].selected != [])
      && (s.urls[u].selected != [] ==>
            && u in s.comparisons && s.comparisons[u].verdict == OutcomeOf(u, s.urls[u].selected, ans)
            && s.urls[u].class_ == OutcomeOf(u, s.urls[u].selected, ans).class_)
  {
    var s := After(events);
    SteadyReachable(events, Some(ans));
    RowsAreAnswered(events);
    Reachable(events);
    assert SentOnce(s.urls[u], s.sent) && OnCourse(s, u, Some(ans));
    forall j | j in s.sent && j.urlId == u ensures j.id in s.rows {
      SentIsKnown(s, j);
    }
    if s.urls[u].selected != [] {
      AnsweredUrlCompletes(s, u, Some(ans));
    }
  }

  lemma AnsweredUrlCompletes(s: State, u: string, ans: Oracle)
    requires u in s.urls && u in s.buckets && s.urls[u].unmet == [] && s.urls[u].selected != []
    requires s.urls[u].id == u && SentOnce(s.urls[u], s.sent) && OnCourse(s, u, ans)
    requires forall j :: j in s.sent && j.urlId == u ==> j.id in s.rows
    requires Rows(s)
    ensures s.urls[u].status == Completed
  {
    match s.urls[u].status
    case InitialTestsRunning => BatchAnswered(s, u, INITIAL);
    case BrowserValidationRunning => BatchAnswered(s, u, BROWSER);
    case _ =>
  }

  /** In every interleaving in which each job dispatched for it is answered, a dispatchable URL ends completed exactly
      when it was given a node, and then with the outcome of the answers: the initial answers if none is `ok === false`,
      otherwise the browser answers. The class, its confidence and the kept statuses are read off those answers. */
  lemma EveryUrlDecided(events: seq<Event>, ans: string -> Ok, u: string)
    requires Valid(events) && AnswersBy(events, ans) && AllAnswered(events, u)
    requires u in After(events).urls && After(events).urls[u].unmet == []
    ensures var s := After(events);
      && (s.urls[u].status == Completed <==> s.urls[u].selected != [])
      && (s.urls[u].selected != [] ==>
            && u in s.comparisons && s.comparisons[u].verdict == OutcomeOf(u, s.urls[u].selected, ans)
            && s.urls[u].class_ == OutcomeOf(u, s.urls[u].selected, ans).class_
            && Tells(s.comparisons[u].verdict, DecidingEvidence(u, s.urls[u].selected, ans))
            && CalledFor(s.urls[u].class_, DecidingEvidence(u, s.urls[u].selected, ans)))
  {
    AnsweredUrlOutcome(events, ans, u);
    OutcomeTells(u, After(events).urls[u].selected, ans);
  }

  /** Order independence: two runs in which the jobs get the same answers, in whatever order, with whatever other
      URLs around, decide a URL with the same nodes in the same way. */
  lemma OrderIndependence(a: seq<Event>, b: seq<Event>, ans: string -> Ok, u: string)
    requires Valid(a) && AnswersBy(a, ans) && AllAnswered(a, u)
    requires Valid(b) && AnswersBy(b, ans) && AllAnswered(b, u)
    requires u in After(a).urls && u in After(b).urls
    requires After(a).urls[u].unmet == [] == After(b).urls[u].unmet
    requires After(a).urls[u].selected == After(b).urls[u].selected != []
    ensures u in After(a).comparisons && u in After(b).comparisons
    ensures After(a).comparisons[u].verdict == After(b).comparisons[u].verdict
    ensures After(a).urls[u].class_ == After(b).urls[u].class_
  {
    EveryUrlDecided(a, ans, u);
    EveryUrlDecided(b, ans, u);
  }
}
