/** What a run computes from the answers to its jobs: stored rows, outcomes, independence of arrival order. */
module RunAnswers {
  import opened Common
  import opened Classification
  import opened JobIds
  import opened NodeSelection
  import opened RunState
  import opened RunMoves
  import opened RunInvariants
  import opened RunSettlement

  // ---- stored rows and buckets hold the same records ----

  predicate RowOf(r: Rec, j: Job) {
    r.jobId == j.id && r.urlId == j.urlId && r.nodeName == j.nodeName && r.stage == j.stage
  }

  /** Records that answer a job that has been dispatched. */
  function Solicited(): Source {
    (s: State, r: Rec) => r.jobId in s.jobs && RowOf(r, s.jobs[r.jobId])
  }

  ghost predicate RowInBucket(s: State, id: string)
    requires id in s.rows
  {
    var r := s.rows[id];
    && id in s.jobs && RowOf(r, s.jobs[id])
    && r.urlId in s.buckets && Key(r.nodeName, r.stage) in s.buckets[r.urlId]
    && s.buckets[r.urlId][Key(r.nodeName, r.stage)] == r
  }

  ghost predicate BucketInRows(s: State, u: string, k: string)
    requires u in s.buckets && k in s.buckets[u]
  {
    var r := s.buckets[u][k];
    r.jobId in s.rows && s.rows[r.jobId] == r && r.urlId == u && Key(r.nodeName, r.stage) == k
  }

  ghost predicate RowsMatch(s: State) {
    && (forall id :: id in s.rows ==> RowInBucket(s, id))
    && (forall u, k :: u in s.buckets && k in s.buckets[u] ==> BucketInRows(s, u, k))
  }

  /** URL ids without colons make job ids unambiguous. */
  lemma SameJob(s: State, j: Job, j': Job)
    requires JobOfUrl(s, j) && JobOfUrl(s, j') && Linked(s) && j.id == j'.id
    ensures j.urlId == j'.urlId && j.nodeName == j'.nodeName && j.stage == j'.stage
  {
    JobIdInjective(j.urlId, j.nodeName, j.stage, j'.urlId, j'.nodeName, j'.stage);
  }

  lemma RowsPut(s: State, u: string, rec: Rec)
    requires Enabled(s, Put(u, rec)) && Solicited()(s, rec)
    requires Linked(s) && JobsLogged(s) && RowsMatch(s)
    ensures RowsMatch(PutResult(s, u, rec))
  {
    RowsStillInBuckets(s, u, rec);
    BucketsStillInRows(s, u, rec);
  }

  lemma RowsStillInBuckets(s: State, u: string, rec: Rec)
    requires Enabled(s, Put(u, rec)) && Solicited()(s, rec)
    requires Linked(s) && JobsLogged(s) && RowsMatch(s)
    ensures var s' := PutResult(s, u, rec); forall id :: id in s'.rows ==> RowInBucket(s', id)
  {
    forall id | id in PutResult(s, u, rec).rows ensures RowInBucket(PutResult(s, u, rec), id) {
      if id != rec.jobId {
        RowStillInBucket(s, u, rec, id);
      }
    }
  }

  /** The new record takes the place of no other row's record. */
  lemma RowStillInBucket(s: State, u: string, rec: Rec, id: string)
    requires Enabled(s, Put(u, rec)) && Solicited()(s, rec) && id in s.rows && id != rec.jobId
    requires RowInBucket(s, id) && Linked(s) && JobsLogged(s)
    ensures RowInBucket(PutResult(s, u, rec), id)
  {
    var r := s.rows[id];
    assert JobOfUrl(s, s.jobs[id]) && JobOfUrl(s, s.jobs[rec.jobId]);
    if r.urlId == u && Key(r.nodeName, r.stage) == Key(rec.nodeName, rec.stage) {
      KeyInjective(r.nodeName, r.stage, rec.nodeName, rec.stage);
    }
  }

  lemma BucketsStillInRows(s: State, u: string, rec: Rec)
    requires Enabled(s, Put(u, rec)) && Solicited()(s, rec)
    requires Linked(s) && RowsMatch(s)
    ensures var s' := PutResult(s, u, rec);
      forall v, k :: v in s'.buckets && k in s'.buckets[v] ==> BucketInRows(s', v, k)
  {
    var s', key := PutResult(s, u, rec), Key(rec.nodeName, rec.stage);
    forall v, k | v in s'.buckets && k in s'.buckets[v] ensures BucketInRows(s', v, k) {
      if v != u || k != key {
        assert BucketInRows(s, v, k);
        assert RowInBucket(s, s.buckets[v][k].jobId);
      }
    }
  }

  /** Dispatching more jobs leaves stored rows attached to their jobs. */
  lemma RowsGrow(s: State, s': State)
    requires RowsMatch(s) && JobsLogged(s) && JobsLogged(s') && Linked(s')
    requires s'.rows == s.rows && (forall id :: id in s.jobs ==> id in s'.jobs)
    requires forall u :: u in s.urls ==> u in s'.urls && s'.urls[u].selected == s.urls[u].selected
    requires forall u :: u in s.buckets ==> u in s'.buckets && s'.buckets[u] == s.buckets[u]
    requires forall u :: u in s'.buckets && u !in s.buckets ==> s'.buckets[u] == map[]
    ensures RowsMatch(s')
  {
    forall id | id in s'.rows ensures RowInBucket(s', id) {
      assert RowInBucket(s, id) && JobOfUrl(s, s.jobs[id]) && JobOfUrl(s', s'.jobs[id]);
      assert JobOfUrl(s', s.jobs[id]);
      SameJob(s', s.jobs[id], s'.jobs[id]);
    }
    forall u, k | u in s'.buckets && k in s'.buckets[u] ensures BucketInRows(s', u, k) {
      assert BucketInRows(s, u, k);
    }
  }

  ghost predicate Rows(s: State) {
    Linked(s) && JobsLogged(s) && RowsMatch(s)
  }

  lemma GrowthEffect(s: State, m: Move)
    requires Enabled(s, m) && !m.Put?
    ensures var s' := Apply(s, m);
      && s'.rows == s.rows && (forall id :: id in s.jobs ==> id in s'.jobs)
      && (forall u :: u in s.urls ==> u in s'.urls && s'.urls[u].selected == s.urls[u].selected)
      && (forall u :: u in s'.buckets ==>
            s'.buckets[u] == if u in s.buckets && !(m.Insert? && u == m.item.urlId) then s.buckets[u] else map[])
      && s.buckets.Keys <= s'.buckets.Keys
  {
    match m
    case Insert(runId, item) =>
      InsertEffect(s, runId, item);
      AddedJobsStay(s.jobs, StageJobs(NewUrl(runId, item), INITIAL));
    case Browser(u) =>
      AddedJobsStay(s.jobs, StageJobs(s.urls[u].(status := BrowserValidationRunning), BROWSER));
    case _ =>
  }

  lemma RowsKept(s: State, m: Move)
    requires Enabled(s, m) && (m.Put? ==> Solicited()(s, m.rec)) && Rows(s)
    ensures Rows(Apply(s, m))
  {
    LinkedKept(s, m);
    JobsLoggedKept(s, m);
    if m.Put? {
      RowsPut(s, m.urlId, m.rec);
    } else {
      GrowthEffect(s, m);
      RowsGrow(s, Apply(s, m));
    }
  }

  /** Every result in the run answers a job that was dispatched before it; contents and repetition are free. */
  ghost predicate OnlyAnswers(events: seq<Event>) {
    forall i :: 0 <= i < |events| && events[i].Result? ==> events[i].summary.jobId in After(events[..i]).jobs
  }

  lemma AnswersAreSolicited(events: seq<Event>)
    requires Valid(events) && OnlyAnswers(events)
    ensures AllFrom(Solicited(), events)
  {
    forall i | 0 <= i < |events| ensures Admits(Solicited(), After(events[..i]), events[i]) {
      ValidPrefix(events, i);
      Reachable(events[..i]);
    }
  }

  lemma RowsReachable(events: seq<Event>)
    requires Valid(events) && OnlyAnswers(events)
    ensures Rows(After(events))
  {
    AnswersAreSolicited(events);
    forall s: State, m: Move | Rows(s) && Enabled(s, m) && (m.Put? ==> Solicited()(s, m.rec)) ensures Rows(Apply(s, m)) {
      RowsKept(s, m);
    }
    InEveryState(Rows, Solicited(), events);
  }

  // ---- which rows there are ----

  function ResultIds(events: seq<Event>): set<string> {
    set e | e in events && e.Result? :: e.summary.jobId
  }

  lemma AdvanceKeepsRows(s: State, u: string)
    requires u in s.urls && u in s.buckets
    ensures Advance(s, u).rows == s.rows && Advance(s, u).buckets == s.buckets
  {
    AdvanceIsMove(s, u);
  }

  lemma SettleKeepsRows(s: State, r: string)
    ensures MaybeComplete(s, r).rows == s.rows
  {
  }

  lemma QueueUrlKeepsRows(s: State, r: string, item: Submission, deferComplete: bool)
    ensures QueueUrl(s, r, item, deferComplete).0.rows == s.rows
  {
    if r in s.runs {
      var s1 := Reopen(s, r);
      assert s1.rows == s.rows;
      if item.url.Some? {
        InsertKeepsRows(s1, r, item);
        SettleKeepsRows(InsertUrl(s1, r, item), r);
      }
    }
  }

  lemma InsertKeepsRows(s: State, r: string, item: Submission)
    requires r in s.runs && item.url.Some?
    ensures InsertUrl(s, r, item).rows == s.rows
  {
  }

  lemma {:induction false} QueueAllKeepsRows(s: State, r: string, items: seq<Submission>)
    ensures QueueAll(s, r, items).0.rows == s.rows
    decreases |items|
  {
    if items != [] {
      var (s1, o) := QueueUrl(s, r, items[0], true);
      QueueUrlKeepsRows(s, r, items[0], true);
      if o == Queued {
        QueueAllKeepsRows(s1, r, items[1..]);
      }
    }
  }

  /** The record that an answer to a dispatched job stores. */
  function AnswerRec(s: State, summary: Summary): Rec
    requires summary.jobId in s.jobs && s.jobs[summary.jobId].urlId in s.urls
  {
    var j := s.jobs[summary.jobId];
    MakeRec(s.urls[j.urlId], Target(j.urlId, j.nodeName, j.nodeType, j.stage), summary)
  }

  lemma AnswerStores(s: State, summary: Summary)
    requires summary.jobId in s.jobs
    requires Linked(s) && JobsLogged(s)
    ensures var u := s.jobs[summary.jobId].urlId;
      && u in s.urls && u in s.buckets && s.urls[u].id == u
      && var rec := AnswerRec(s, summary);
      && Enabled(s, Put(u, rec)) && Solicited()(s, rec) && rec.ok == summary.ok && rec.jobId == summary.jobId
      && rec.urlId == u && rec.nodeName == s.jobs[summary.jobId].nodeName && rec.stage == s.jobs[summary.jobId].stage
      && OnResult(s, summary) == Advance(PutResult(s, u, rec), u)
  {
    assert JobOfUrl(s, s.jobs[summary.jobId]);
  }

  lemma ResultRows(s: State, summary: Summary)
    requires summary.jobId in s.jobs && Linked(s) && JobsLogged(s)
    ensures OnResult(s, summary).rows.Keys == s.rows.Keys + {summary.jobId}
  {
    AnswerStores(s, summary);
    var u := s.jobs[summary.jobId].urlId;
    AdvanceKeepsRows(PutResult(s, u, AnswerRec(s, summary)), u);
  }

  lemma StepRows(s: State, e: Event)
    requires e.Result? ==> e.summary.jobId in s.jobs
    requires Linked(s) && JobsLogged(s)
    ensures Step(s, e).rows.Keys == s.rows.Keys + (if e.Result? then {e.summary.jobId} else {})
  {
    match e
    case Create(r, items) =>
      QueueAllKeepsRows(AddRun(s, r), r, items);
      SettleKeepsRows(QueueAll(AddRun(s, r), r, items).0, r);
    case AddTo(r, item) => QueueUrlKeepsRows(s, r, item, false);
    case Result(summary) => ResultRows(s, summary);
  }

  lemma ResultIdsExtend(events: seq<Event>, e: Event)
    ensures ResultIds(events + [e]) == ResultIds(events) + (if e.Result? then {e.summary.jobId} else {})
  {
    assert forall x :: x in events + [e] <==> x in events || x == e;
    forall id | id in ResultIds(events) ensures id in ResultIds(events + [e]) {
      var x :| x in events && x.Result? && x.summary.jobId == id;
      assert x in events + [e];
    }
    if e.Result? {
      assert e in events + [e];
    }
  }

  lemma OnlyAnswersPrefix(events: seq<Event>)
    requires events != [] && OnlyAnswers(events)
    ensures OnlyAnswers(events[..|events| - 1])
  {
    var front := events[..|events| - 1];
    forall i | 0 <= i < |front| && front[i].Result? ensures front[i].summary.jobId in After(front[..i]).jobs {
      assert front[..i] == events[..i];
    }
  }

  /** The result rows are exactly the answered jobs. */
  lemma {:induction false} RowsAreAnswered(events: seq<Event>)
    requires Valid(events) && OnlyAnswers(events)
    ensures After(events).rows.Keys == ResultIds(events)
  {
    if events != [] {
      var front, last := events[..|events| - 1], events[|events| - 1];
      OnlyAnswersPrefix(events);
      RowsAreAnswered(front);
      Reachable(front);
      StepRows(After(front), last);
      assert events == front + [last];
      ResultIdsExtend(front, last);
    }
  }

  // ---- the outcome of a URL as a function of the answers alone ----

  /** Some initial answer is `ok === false`. */
  ghost predicate SomeFails(u: string, selected: seq<Node>, ans: string -> Ok) {
    exists n :: n in selected && ans(JobId(u, n.name, INITIAL)) == False
  }

  /** The verdict on a URL, given what each of its jobs answers. */
  ghost function OutcomeOf(u: string, selected: seq<Node>, ans: string -> Ok): Verdict {
    if SomeFails(u, selected, ans)
    then Classify(ArmsBy(selected, (n: Node) => ans(JobId(u, n.name, BROWSER))))
    else Classify(ArmsBy(selected, (n: Node) => ans(JobId(u, n.name, INITIAL))))
  }

  /** What the selected nodes of the given types answer. */
  function AnswersOf(selected: seq<Node>, types: set<NodeType>, answer: Node -> Ok): set<Ok> {
    set n | n in selected && n.nodeType in types :: answer(n)
  }

  function EvidenceBy(selected: seq<Node>, answer: Node -> Ok): Evidence {
    Evidence(AnswersOf(selected, {AzureDirect}, answer), AnswersOf(selected, {GsaRemotenet, GsaClient}, answer),
             AnswersOf(selected, {CloudflareClient}, answer), AnswersOf(selected, {ExternalDirect}, answer))
  }

  lemma {:induction false} OksMembers(selected: seq<Node>, t: NodeType, answer: Node -> Ok)
    ensures Seen(OksOfType(selected, t, answer)) == AnswersOf(selected, {t}, answer)
  {
    if selected != [] {
      var front, last := selected[..|selected| - 1], selected[|selected| - 1];
      OksMembers(front, t, answer);
      assert selected == front + [last];
      assert Seen(OksOfType(selected, t, answer))
          == Seen(OksOfType(front, t, answer)) + (if last.nodeType == t then {answer(last)} else {});
    }
  }

  lemma GsaMembers(selected: seq<Node>, answer: Node -> Ok)
    ensures Seen(OksOfType(selected, GsaRemotenet, answer) + OksOfType(selected, GsaClient, answer))
         == AnswersOf(selected, {GsaRemotenet, GsaClient}, answer)
  {
    OksMembers(selected, GsaRemotenet, answer);
    OksMembers(selected, GsaClient, answer);
    var a, b := OksOfType(selected, GsaRemotenet, answer), OksOfType(selected, GsaClient, answer);
    assert Seen(a + b) == Seen(a) + Seen(b);
    assert AnswersOf(selected, {GsaRemotenet, GsaClient}, answer)
        == AnswersOf(selected, {GsaRemotenet}, answer) + AnswersOf(selected, {GsaClient}, answer);
  }

  /** Sorting answers into arms and classifying the arms tells what the answers of each side were. */
  lemma ArmsTell(selected: seq<Node>, answer: Node -> Ok)
    ensures Tells(Classify(ArmsBy(selected, answer)), EvidenceBy(selected, answer))
  {
    OksMembers(selected, AzureDirect, answer);
    GsaMembers(selected, answer);
    OksMembers(selected, CloudflareClient, answer);
    OksMembers(selected, ExternalDirect, answer);
    ClassifyMeans(OksOfType(selected, AzureDirect, answer), OksOfType(selected, GsaRemotenet, answer),
                  OksOfType(selected, GsaClient, answer), OksOfType(selected, CloudflareClient, answer),
                  OksOfType(selected, ExternalDirect, answer));
  }

  /** The answers that decide a URL: the browser answers if some initial one is `ok === false`, else the initial ones. */
  ghost function DecidingEvidence(u: string, selected: seq<Node>, ans: string -> Ok): Evidence {
    if SomeFails(u, selected, ans) then EvidenceBy(selected, (n: Node) => ans(JobId(u, n.name, BROWSER)))
    else EvidenceBy(selected, (n: Node) => ans(JobId(u, n.name, INITIAL)))
  }

  lemma OutcomeTells(u: string, selected: seq<Node>, ans: string -> Ok)
    ensures Tells(OutcomeOf(u, selected, ans), DecidingEvidence(u, selected, ans))
  {
    if SomeFails(u, selected, ans) {
      ArmsTell(selected, (n: Node) => ans(JobId(u, n.name, BROWSER)));
    } else {
      ArmsTell(selected, (n: Node) => ans(JobId(u, n.name, INITIAL)));
    }
  }

  /** What is known of the answers: the answer to every job, or nothing at all. */
  type Oracle = Option<string -> Ok>

  ghost predicate Says(oracle: Oracle, jobId: string, ok: Ok) {
    oracle.Some? ==> ok == oracle.value(jobId)
  }

  ghost predicate Answered(s: State, ans: Oracle) {
    forall id :: id in s.rows ==> Says(ans, id, s.rows[id].ok)
  }

  /** Where a URL stands between two events, when only answers that agree with ans have arrived. */
  ghost predicate OnCourse(s: State, u: string, ans: Oracle)
    requires u in s.urls && u in s.buckets
  {
    var url, b := s.urls[u], s.buckets[u];
    match url.status
    case InitialTestsRunning => url.selected != [] ==> !StageDone(url, b, INITIAL)
    case BrowserValidationRunning =>
      StageDone(url, b, INITIAL) && !StageDone(url, b, BROWSER) && (ans.Some? ==> AnyNotOk(url, b))
    case Completed =>
      && url.selected != [] && StageDone(url, b, INITIAL) && (SentFor(s.sent, u, BROWSER) == [] || StageDone(url, b, BROWSER))
      && (ans.Some? ==>
            && u in s.comparisons && s.comparisons[u].verdict == OutcomeOf(u, url.selected, ans.value)
            && (SentFor(s.sent, u, BROWSER) == [] <==> !SomeFails(u, url.selected, ans.value)))
    case _ => true
  }

  ghost predicate AllOnCourse(s: State, ans: Oracle) {
    s.urls.Keys == s.buckets.Keys && forall u :: u in s.urls ==> OnCourse(s, u, ans)
  }

  lemma {:induction false} SameOks(selected: seq<Node>, t: NodeType, f: Node -> Ok, g: Node -> Ok)
    requires forall n :: n in selected ==> f(n) == g(n)
    ensures OksOfType(selected, t, f) == OksOfType(selected, t, g)
  {
    if selected != [] {
      SameOks(selected[..|selected| - 1], t, f, g);
    }
  }

  lemma SameArms(selected: seq<Node>, f: Node -> Ok, g: Node -> Ok)
    requires forall n :: n in selected ==> f(n) == g(n)
    ensures ArmsBy(selected, f) == ArmsBy(selected, g)
  {
    SameOks(selected, AzureDirect, f, g);
    SameOks(selected, GsaRemotenet, f, g);
    SameOks(selected, GsaClient, f, g);
    SameOks(selected, CloudflareClient, f, g);
    SameOks(selected, ExternalDirect, f, g);
  }

  /** A record found under a bucket key answers exactly that job. */
  lemma BucketAnswer(s: State, u: string, name: string, stage: string, ans: Oracle)
    requires Rows(s) && Answered(s, ans) && u in s.buckets && IsStage(stage) && Key(name, stage) in s.buckets[u]
    ensures var r := s.buckets[u][Key(name, stage)];
      r.jobId == JobId(u, name, stage) && r.jobId in s.jobs && r.jobId in s.rows && Says(ans, r.jobId, r.ok)
  {
    var r := s.buckets[u][Key(name, stage)];
    assert BucketInRows(s, u, Key(name, stage));
    assert RowInBucket(s, r.jobId);
    assert JobOfUrl(s, s.jobs[r.jobId]);
    KeyInjective(r.nodeName, r.stage, name, stage);
  }

  /** A URL with no browser batch in the log has no browser result. */
  lemma NoBrowserResult(s: State, u: string, name: string)
    requires Rows(s) && u in s.buckets && SentFor(s.sent, u, BROWSER) == []
    ensures Key(name, BROWSER) !in s.buckets[u]
  {
    if Key(name, BROWSER) in s.buckets[u] {
      var r := s.buckets[u][Key(name, BROWSER)];
      assert BucketInRows(s, u, Key(name, BROWSER));
      assert RowInBucket(s, r.jobId);
      var j := s.jobs[r.jobId];
      assert JobOfUrl(s, j);
      KeyInjective(r.nodeName, r.stage, name, BROWSER);
      FilterMembers(s.sent, ForStage(u, BROWSER));
    }
  }

  /** The verdict reached when a URL completes is the outcome of its answers. */
  lemma CompletionOutcome(s: State, u: string, ans: string -> Ok)
    requires u in s.urls && u in s.buckets && ReadyToComplete(s, u) && s.urls[u].status != Blocked
    requires Rows(s) && Answered(s, Some(ans))
    requires s.urls[u].status == InitialTestsRunning ==> SentFor(s.sent, u, BROWSER) == []
    requires s.urls[u].status == BrowserValidationRunning ==> AnyNotOk(s.urls[u], s.buckets[u])
    ensures VerdictOf(s.urls[u], s.buckets[u]) == OutcomeOf(u, s.urls[u].selected, ans)
  {
    var stage := if s.urls[u].status == InitialTestsRunning then INITIAL else BROWSER;
    InitialAnswers(s, u, ans);
    EffectiveAnswers(s, u, stage, ans);
    VerdictByAnswers(s.urls[u], s.buckets[u], u, stage, ans);
  }

  lemma VerdictByAnswers(url: Url, b: Bucket, u: string, stage: string, ans: string -> Ok)
    requires IsStage(stage)
    requires forall n :: n in url.selected ==> EffectiveOk(b, n.name) == ans(JobId(u, n.name, stage))
    requires stage == BROWSER <==> SomeFails(u, url.selected, ans)
    ensures VerdictOf(url, b) == OutcomeOf(u, url.selected, ans)
  {
    SameArms(url.selected, (n: Node) => EffectiveOk(b, n.name), (n: Node) => ans(JobId(u, n.name, stage)));
  }

  lemma EffectiveAnswers(s: State, u: string, stage: string, ans: string -> Ok)
    requires u in s.urls && u in s.buckets && IsStage(stage) && StageDone(s.urls[u], s.buckets[u], stage)
    requires stage == INITIAL ==> SentFor(s.sent, u, BROWSER) == []
    requires Rows(s) && Answered(s, Some(ans))
    ensures forall n :: n in s.urls[u].selected ==>
      EffectiveOk(s.buckets[u], n.name) == ans(JobId(u, n.name, stage))
  {
    forall n | n in s.urls[u].selected ensures EffectiveOk(s.buckets[u], n.name) == ans(JobId(u, n.name, stage)) {
      EffectiveAnswer(s, u, n.name, stage, ans);
    }
  }

  lemma InitialAnswers(s: State, u: string, ans: string -> Ok)
    requires u in s.urls && u in s.buckets && StageDone(s.urls[u], s.buckets[u], INITIAL)
    requires Rows(s) && Answered(s, Some(ans))
    ensures AnyNotOk(s.urls[u], s.buckets[u]) <==>
      SomeFails(u, s.urls[u].selected, ans)
  {
    forall n | n in s.urls[u].selected
      ensures s.buckets[u][Key(n.name, INITIAL)].ok == ans(JobId(u, n.name, INITIAL))
    {
      BucketAnswer(s, u, n.name, INITIAL, Some(ans));
    }
  }

  lemma EffectiveAnswer(s: State, u: string, name: string, stage: string, ans: string -> Ok)
    requires u in s.buckets && IsStage(stage) && Key(name, stage) in s.buckets[u]
    requires stage == INITIAL ==> SentFor(s.sent, u, BROWSER) == []
    requires Rows(s) && Answered(s, Some(ans))
    ensures EffectiveOk(s.buckets[u], name) == ans(JobId(u, name, stage))
  {
    BucketAnswer(s, u, name, stage, Some(ans));
    if stage == INITIAL {
      NoBrowserResult(s, u, name);
    }
  }

  // ---- a result that names no known job ----

  /** The node type of such a result is that of the first selected node with the name, if there is one. */
  lemma {:induction false} TypeOfFirst(selected: seq<Node>, name: string, i: nat)
    requires i < |selected| && selected[i].name == name && forall k :: 0 <= k < i ==> selected[k].name != name
    ensures TypeOfNode(selected, name) == Some(selected[i].nodeType)
  {
    if i > 0 {
      TypeOfFirst(selected[1..], name, i - 1);
    }
  }

  lemma {:induction false} TypeOfNobody(selected: seq<Node>, name: string)
    requires forall n :: n in selected ==> n.name != name
    ensures TypeOfNode(selected, name) == None
  {
    if selected != [] {
      TypeOfNobody(selected[1..], name);
    }
  }
}
