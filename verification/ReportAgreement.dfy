/** The report rebuilds from the stored rows exactly the arm statuses a URL was classified by. */
module ReportAgreement {
  import opened Common
  import opened Classification
  import opened JobIds
  import opened NodeSelection
  import opened Report
  import opened RunState
  import opened RunMoves
  import opened RunInvariants
  import opened RunAnswers
  import opened RunOutcome

  /** A stored record as the report reads it back; the store adds the id it was put under. */
  function AsRow(r: Rec): Row {
    Row(r.jobId, r.jobId, r.urlId, r.nodeName, r.stage, r.ok, r.reasons)
  }

  function AsRows(recs: seq<Rec>): seq<Row> {
    seq(|recs|, i requires 0 <= i < |recs| => AsRow(recs[i]))
  }

  /** recs lists, in any order and perhaps more than once, stored rows among which are all rows of URL u. */
  ghost predicate ListsRowsOf(recs: seq<Rec>, s: State, u: string) {
    && (forall r :: r in recs ==> r.jobId in s.rows && s.rows[r.jobId] == r)
    && (forall id :: id in s.rows && s.rows[id].urlId == u ==> s.rows[id] in recs)
  }

  /** Searching from the end finds a matching row if there is one, and only matching rows. */
  lemma {:induction false} LastRowFinds(rows: seq<Row>, ref: JobRef)
    ensures LastRow(rows, ref).Some? ==> LastRow(rows, ref).value in rows && Resolve(LastRow(rows, ref).value) == Some(ref)
    ensures LastRow(rows, ref).None? ==> forall r :: r in rows ==> Resolve(r) != Some(ref)
  {
    if rows != [] {
      var front, last := rows[..|rows| - 1], rows[|rows| - 1];
      assert rows == front + [last];
      LastRowFinds(front, ref);
    }
  }

  /** A stored row resolves to its own URL, node and stage. */
  lemma StoredResolves(r: Rec)
    requires r.urlId != "" && r.nodeName != "" && r.stage != ""
    ensures Resolve(AsRow(r)) == Some(JobRef(r.urlId, r.nodeName, r.stage))
  {
  }

  /** A stored row is the bucket entry of its URL under its own key. */
  lemma RowIsBucketEntry(s: State, r: Rec)
    requires r.jobId in s.rows && s.rows[r.jobId] == r && Rows(s)
    ensures r.urlId in s.buckets && Key(r.nodeName, r.stage) in s.buckets[r.urlId]
    ensures s.buckets[r.urlId][Key(r.nodeName, r.stage)] == r
    ensures IsStage(r.stage) && r.jobId == JobId(r.urlId, r.nodeName, r.stage)
    ensures exists n :: r.urlId in s.urls && n in s.urls[r.urlId].selected && n.name == r.nodeName
  {
    assert RowInBucket(s, r.jobId) && JobOfUrl(s, s.jobs[r.jobId]);
  }

  ghost predicate Named(s: State) {
    forall u, n :: u in s.urls && n in s.urls[u].selected ==> n.name != ""
  }

  /** A record with an empty URL id has a job id starting with "::", which parses to nothing. */
  lemma NamelessUrl(r: Rec)
    requires r.urlId == "" && r.jobId == JobId("", r.nodeName, r.stage)
    ensures Resolve(AsRow(r)).None?
  {
    JobIdParts("", r.nodeName, r.stage);
    assert Split(r.jobId)[0] == "";
  }

  lemma Listed(recs: seq<Rec>, row: Row)
    ensures row in AsRows(recs) <==> exists r :: r in recs && AsRow(r) == row
  {
    forall i | 0 <= i < |recs| ensures AsRow(recs[i]) in AsRows(recs) {
      assert AsRows(recs)[i] == AsRow(recs[i]);
    }
  }

  /** A row found for a job of URL u is the bucket entry under that key. */
  lemma FoundIsEntry(s: State, recs: seq<Rec>, row: Row, ref: JobRef)
    requires ref.urlId in s.buckets && row in AsRows(recs) && Resolve(row) == Some(ref)
    requires ListsRowsOf(recs, s, ref.urlId) && Named(s) && Rows(s)
    ensures Key(ref.nodeName, ref.stage) in s.buckets[ref.urlId]
    ensures row == AsRow(s.buckets[ref.urlId][Key(ref.nodeName, ref.stage)])
  {
    Listed(recs, row);
    var r :| r in recs && AsRow(r) == row;
    RowIsBucketEntry(s, r);
    if r.urlId == "" {
      NamelessUrl(r);
    } else {
      StoredResolves(r);
    }
  }

  /** Every bucket entry of URL u is listed and resolves to its own job. */
  lemma EntryIsFound(s: State, recs: seq<Rec>, ref: JobRef)
    requires ref.urlId in s.buckets && IsStage(ref.stage) && ref.nodeName != "" && ref.urlId != ""
    requires Key(ref.nodeName, ref.stage) in s.buckets[ref.urlId]
    requires ListsRowsOf(recs, s, ref.urlId) && Rows(s)
    ensures exists row :: row in AsRows(recs) && Resolve(row) == Some(ref)
  {
    var k := Key(ref.nodeName, ref.stage);
    var r := s.buckets[ref.urlId][k];
    assert BucketInRows(s, ref.urlId, k);
    RowIsBucketEntry(s, r);
    KeyInjective(r.nodeName, r.stage, ref.nodeName, ref.stage);
    StoredResolves(r);
    Listed(recs, AsRow(r));
  }

  /** What the report finds for a node and stage is what the bucket of the URL holds, in whatever order the rows come. */
  lemma FindsBucketEntry(s: State, recs: seq<Rec>, u: string, name: string, stage: string)
    requires u in s.buckets && u != "" && IsStage(stage) && name != ""
    requires ListsRowsOf(recs, s, u) && Named(s) && Rows(s)
    ensures LastRow(AsRows(recs), JobRef(u, name, stage))
         == if Key(name, stage) in s.buckets[u] then Some(AsRow(s.buckets[u][Key(name, stage)])) else None
  {
    var ref := JobRef(u, name, stage);
    var found := LastRow(AsRows(recs), ref);
    LastRowFinds(AsRows(recs), ref);
    if found.Some? {
      FoundIsEntry(s, recs, found.value, ref);
    } else if Key(name, stage) in s.buckets[u] {
      EntryIsFound(s, recs, ref);
    }
  }

  lemma ViewMatches(s: State, recs: seq<Rec>, comparisons: seq<Comparison>, u: string)
    requires u in s.urls && u in s.buckets && u != "" && s.urls[u].id == u
    requires ListsRowsOf(recs, s, u) && Named(s) && Rows(s)
    ensures ArmsShown(ViewOf(s.urls[u], AsRows(recs), comparisons)) == ArmsOf(s.urls[u], s.buckets[u])
  {
    var url, rows, b := s.urls[u], AsRows(recs), s.buckets[u];
    forall n | n in url.selected ensures OkOf(EffectiveRow(rows, u, n.name)) == EffectiveOk(b, n.name) {
      FindsBucketEntry(s, recs, u, n.name, BROWSER);
      FindsBucketEntry(s, recs, u, n.name, INITIAL);
    }
    SameArms(url.selected, (n: Node) => OkOf(EffectiveRow(rows, u, n.name)), (n: Node) => EffectiveOk(b, n.name));
    ShownBy(url, rows, comparisons);
  }

  lemma ShownBy(url: Url, rows: seq<Row>, comparisons: seq<Comparison>)
    ensures ArmsShown(ViewOf(url, rows, comparisons))
         == ArmsBy(url.selected, (n: Node) => OkOf(EffectiveRow(rows, url.id, n.name)))
  {
  }

  // ---- the moment of completion ----

  /** Queueing completes no URL. */
  lemma QueueUrlCompletesNone(s: State, r: string, item: Submission, deferComplete: bool, u: string)
    requires u in QueueUrl(s, r, item, deferComplete).0.urls
    requires QueueUrl(s, r, item, deferComplete).0.urls[u].status == Completed
    ensures u in s.urls && s.urls[u].status == Completed
  {
    QueueUrlUrls(s, r, item, deferComplete);
  }

  lemma {:induction false} QueueAllCompletesNone(s: State, r: string, items: seq<Submission>, u: string)
    requires FreshItems(s, items) && u in QueueAll(s, r, items).0.urls
    requires QueueAll(s, r, items).0.urls[u].status == Completed
    ensures u in s.urls && s.urls[u].status == Completed
    decreases |items|
  {
    if items != [] {
      var (s1, o) := QueueUrl(s, r, items[0], true);
      if o == Queued {
        StillFresh(s, s1, items);
        QueueAllCompletesNone(s1, r, items[1..], u);
      }
      QueueUrlCompletesNone(s, r, items[0], true, u);
    }
  }

  /** A URL that an event completes was judged on the results it holds after the event. */
  lemma CompletedOnItsBucket(s: State, e: Event, u: string)
    requires Allowed(s, e) && Linked(s)
    requires u in Step(s, e).urls && Step(s, e).urls[u].status == Completed
    requires u in s.urls ==> s.urls[u].status != Completed
    ensures var s' := Step(s, e);
      u in s'.buckets && u in s'.comparisons && s'.comparisons[u].verdict == Classify(ArmsOf(s'.urls[u], s'.buckets[u]))
  {
    match e
    case Create(r, items) => QueueAllCompletesNone(AddRun(s, r), r, items, u);
    case AddTo(r, item) =>
      assert [item][0].urlId !in s.urls;
      QueueUrlCompletesNone(s, r, item, false, u);
    case Result(summary) =>
      var t := Lookup(s, summary.jobId);
      if summary.jobId != "" && t.Some? && t.value.urlId in s.urls {
        var v := t.value.urlId;
        AdvanceCompletes(PutResult(s, v, MakeRec(s.urls[v], t.value, summary)), v, u);
      }
  }

  lemma AdvanceCompletes(s: State, v: string, u: string)
    requires v in s.urls && v in s.buckets && u in Advance(s, v).urls && Advance(s, v).urls[u].status == Completed
    requires u in s.urls ==> s.urls[u].status != Completed
    ensures var s' := Advance(s, v);
      u in s'.buckets && u in s'.comparisons && s'.comparisons[u].verdict == Classify(ArmsOf(s'.urls[u], s'.buckets[u]))
  {
    AdvanceIsMove(s, v);
    if NeedsBrowser(s, v) {
      BrowserCompletesNone(s, v, u);
    } else if ReadyToComplete(s, v) {
      var verdict := VerdictOf(s.urls[v], s.buckets[v]);
      CompletesOnly(s, v, verdict);
      assert u == v;
    }
  }

  lemma BrowserCompletesNone(s: State, v: string, u: string)
    requires v in s.urls && u in StartBrowser(s, v).urls && StartBrowser(s, v).urls[u].status == Completed
    ensures u in s.urls && s.urls[u].status == Completed
  {
    assert StartBrowser(s, v).urls == s.urls[v := s.urls[v].(status := BrowserValidationRunning)];
  }

  lemma CompletesOnly(s: State, v: string, verdict: Verdict)
    requires v in s.urls
    ensures var s' := MaybeComplete(CompleteUrl(s, v, verdict), s.urls[v].runId);
      && s'.urls.Keys == s.urls.Keys && (forall u :: u in s.urls && u != v ==> s'.urls[u] == s.urls[u])
      && s'.buckets == s.buckets && v in s'.comparisons && s'.comparisons[v].verdict == verdict
      && s'.urls[v].selected == s.urls[v].selected
  {
  }

  /** Report agreement: when an event completes a URL and every result so far answers a dispatched job, the five arm
      statuses the report rebuilds from the stored rows, in any row order, are those the URL was classified by, and
      classifying what the report shows gives the stored comparison. */
  lemma ReportAgrees(events: seq<Event>, u: string, recs: seq<Rec>, comparisons: seq<Comparison>)
    requires events != [] && Valid(events) && OnlyAnswers(events)
    requires u != "" && Named(After(events)) && ListsRowsOf(recs, After(events), u)
    requires u in After(events).urls && After(events).urls[u].status == Completed
    requires var s := After(events[..|events| - 1]); u in s.urls ==> s.urls[u].status != Completed
    ensures var s := After(events); var shown := ArmsShown(ViewOf(s.urls[u], AsRows(recs), comparisons));
      && u in s.buckets && shown == ArmsOf(s.urls[u], s.buckets[u])
      && u in s.comparisons && s.comparisons[u].verdict == Classify(shown)
  {
    var front, last := events[..|events| - 1], events[|events| - 1];
    RowsReachable(events);
    Reachable(front);
    CompletedOnItsBucket(After(front), last, u);
    ViewMatches(After(events), recs, comparisons, u);
  }

  // ---- after completion ----

  /** The effective answers of a completed URL still give the verdict it was given. */
  lemma CompletedVerdict(s: State, u: string, ans: string -> Ok)
    requires u in s.urls && u in s.buckets && s.urls[u].status == Completed
    requires OnCourse(s, u, Some(ans)) && Rows(s) && Answered(s, Some(ans))
    ensures u in s.comparisons && s.comparisons[u].verdict == VerdictOf(s.urls[u], s.buckets[u])
  {
    var stage := if SomeFails(u, s.urls[u].selected, ans) then BROWSER else INITIAL;
    EffectiveAnswers(s, u, stage, ans);
    VerdictByAnswers(s.urls[u], s.buckets[u], u, stage, ans);
  }

  lemma SteadyFacts(s: State, u: string, ans: string -> Ok)
    requires u in s.urls && Steady(s, Some(ans))
    ensures u in s.buckets && s.urls[u].id == u && OnCourse(s, u, Some(ans)) && Rows(s) && Answered(s, Some(ans))
  {
  }

  /** And it goes on: as long as jobs answer the same when they answer again, the arm statuses rebuilt from the stored
      rows classify to the stored comparison at every later point. */
  lemma ReportAgreesFromThenOn(events: seq<Event>, ans: string -> Ok, u: string, recs: seq<Rec>,
                               comparisons: seq<Comparison>)
    requires Valid(events) && AnswersBy(events, ans)
    requires u != "" && Named(After(events)) && ListsRowsOf(recs, After(events), u)
    requires u in After(events).urls && After(events).urls[u].status == Completed
    ensures var s := After(events);
      u in s.comparisons
      && s.comparisons[u].verdict == Classify(ArmsShown(ViewOf(s.urls[u], AsRows(recs), comparisons)))
  {
    SteadyReachable(events, Some(ans));
    SteadyFacts(After(events), u, ans);
    CompletedVerdict(After(events), u, ans);
    ViewMatches(After(events), recs, comparisons, u);
  }
}
