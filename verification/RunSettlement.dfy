/** When a run is marked completed, and what is final about a URL. */
module RunSettlement {
  import opened JobIds
  import opened RunState
  import opened RunMoves
  import opened RunInvariants

  // ---- what is final ----

  /** The states that may come after s0. */
  ghost function Onwards(s0: State): State -> bool {
    (s: State) => Compared(s) && Later(s0, s)
  }

  lemma OnwardsKept(s0: State)
    ensures Keeps(Onwards(s0), Anything())
  {
    forall s: State, m: Move | Onwards(s0)(s) && Enabled(s, m) ensures Onwards(s0)(Apply(s, m)) {
      ComparedKept(s, m);
      LaterKept(s0, s, m);
    }
  }

  lemma HistoryKept(s0: State, events: seq<Event>, n: nat)
    requires Valid(events) && n <= |events| && s0 == After(events[..n]) && Compared(s0)
    ensures Later(s0, After(events))
  {
    AllFromAnything(events);
    OnwardsKept(s0);
    FromThenOn(Onwards(s0), Anything(), events, n);
  }

  lemma {:induction false} ValidPrefix(events: seq<Event>, n: nat)
    requires Valid(events) && n <= |events|
    ensures Valid(events[..n])
  {
    if n < |events| {
      var front := events[..|events| - 1];
      assert front[..n] == events[..n];
      ValidPrefix(front, n);
    } else {
      assert events[..n] == events;
    }
  }

  predicate AtMostOnce(sent: seq<Job>, batch: seq<Job>) {
    sent == [] || sent == batch
  }

  lemma BrowserSentOnce(s: State, u: string)
    requires u in s.urls && Batches(s)
    ensures AtMostOnce(SentFor(s.sent, u, BROWSER), StageJobs(s.urls[u], BROWSER))
  {
    assert SentOnce(s.urls[u], s.sent);
  }

  /** Finalised once: at every point of every run, whatever results arrive later, a URL has a comparison exactly
      when it is completed, that comparison and the whole URL record never change again, terminal URLs stay
      terminal, and the browser stage is sent to the selected nodes as a whole at most once. */
  lemma FinalizedOnce(events: seq<Event>, n: nat, u: string)
    requires Valid(events) && n <= |events|
    ensures var s, s' := After(events[..n]), After(events);
      && (u in s.comparisons <==> u in s.urls && s.urls[u].status == Completed)
      && (u in s.comparisons ==>
            && u in s.urls && u in s'.urls && u in s'.comparisons
            && s'.comparisons[u] == s.comparisons[u] && s'.urls[u] == s.urls[u])
      && (UrlTerminal(s, u) ==> UrlTerminal(s', u))
      && (u in s'.urls ==> AtMostOnce(SentFor(s'.sent, u, BROWSER), StageJobs(s'.urls[u], BROWSER)))
      && (u in s'.comparisons ==> u in s'.urls && s'.urls[u].class_ == s'.comparisons[u].verdict.class_)
  {
    ValidPrefix(events, n);
    Reachable(events[..n]);
    Reachable(events);
    HistoryKept(After(events[..n]), events, n);
    if u in After(events).urls {
      BrowserSentOnce(After(events), u);
    }
  }

  // ---- settlement ----

  /** The run is not left running once it has URLs and all of them are terminal. */
  ghost predicate RunSettled(s: State, r: string) {
    r in s.runs && AllDone(s, s.runs[r].urlIds) ==> s.runs[r].status == RunCompleted
  }

  ghost predicate Settled(s: State) {
    forall r :: RunSettled(s, r)
  }

  /** Index of the first submission whose URL does not normalise, or |items|. */
  function FirstBad(items: seq<Submission>): (k: nat)
    ensures k <= |items|
  {
    if items == [] || items[0].url.None? then 0 else 1 + FirstBad(items[1..])
  }

  /** The calls that leave a run r of terminal URLs in "running": adding a malformed URL to it when it is completed, and
      creating it with a malformed URL after nothing but blocked ones. */
  predicate StrandsRun(s: State, e: Event, r: string) {
    match e
    case Create(q, items) =>
      var k := FirstBad(items);
      q == r && 0 < k < |items| && NoneDispatchable(items[..k])
    case AddTo(q, item) => q == r && r in s.runs && s.runs[r].status == RunCompleted && item.url.None?
    case Result(_) => false
  }

  /** The call strands the run it names. */
  predicate Strands(s: State, e: Event) {
    match e
    case Create(q, _) => StrandsRun(s, e, q)
    case AddTo(q, _) => StrandsRun(s, e, q)
    case Result(_) => false
  }

  /** A change that stays within one run leaves every other run as settled as it was. */
  ghost predicate OnlyRun(s: State, s': State, r: string) {
    && (forall r' :: r' in s'.runs && r' != r ==> r' in s.runs && s'.runs[r'] == s.runs[r'])
    && (forall u :: u in s'.urls && s'.urls[u].runId != r ==> u in s.urls && s'.urls[u] == s.urls[u])
    && (forall u :: u in s.urls && s.urls[u].runId != r ==> u in s'.urls && s'.urls[u] == s.urls[u])
  }

  lemma OtherRunSettled(s: State, s': State, q: string, r: string)
    requires q != r && RunSettled(s, r) && OnlyRun(s, s', q)
    requires Linked(s) && Linked(s')
    ensures RunSettled(s', r)
  {
    if r in s'.runs && AllDone(s', s'.runs[r].urlIds) {
      forall u | u in s.runs[r].urlIds ensures UrlTerminal(s, u) {
        assert UrlTerminal(s', u) && s'.urls[u].runId == r;
      }
    }
  }

  lemma StepLinked(s: State, e: Event)
    requires Linked(s) && Allowed(s, e)
    ensures Linked(Step(s, e))
  {
    forall s: State, m: Move | Linked(s) && Enabled(s, m) ensures Linked(Apply(s, m)) { LinkedKept(s, m); }
    StepKeeps(Linked, Anything(), s, e);
  }

  lemma SettleSettles(s: State, r: string)
    ensures RunSettled(MaybeComplete(s, r), r)
  {
    var s' := MaybeComplete(s, r);
    if r in s'.runs && AllDone(s', s'.runs[r].urlIds) {
      SameTerminal(s, s', s'.runs[r].urlIds);
    }
  }

  lemma SameTerminal(s: State, s': State, ids: seq<string>)
    requires s'.urls == s.urls
    ensures AllDone(s', ids) <==> AllDone(s, ids)
  {
    assert forall u :: UrlTerminal(s', u) <==> UrlTerminal(s, u);
  }

  lemma SettleOnlyRun(s: State, r: string)
    ensures OnlyRun(s, MaybeComplete(s, r), r) && MaybeComplete(s, r).urls == s.urls
  {
  }

  lemma ResultSettles(s: State, summary: Summary, r: string)
    requires RunSettled(s, r) && Linked(s)
    ensures RunSettled(OnResult(s, summary), r)
  {
    var t := Lookup(s, summary.jobId);
    if summary.jobId != "" && t.Some? && t.value.urlId in s.urls {
      var u := t.value.urlId;
      var s1 := PutResult(s, u, MakeRec(s.urls[u], t.value, summary));
      StepLinked(s, Result(summary));
      AdvanceSettles(s, s1, u, r);
    }
  }

  lemma AdvanceSettles(s: State, s1: State, u: string, r: string)
    requires u in s.urls && s1.urls == s.urls && s1.runs == s.runs && u in s1.buckets && RunSettled(s, r)
    requires Linked(s) && Linked(Advance(s1, u))
    ensures RunSettled(Advance(s1, u), r)
  {
    AdvanceIsMove(s1, u);
    if NeedsBrowser(s1, u) {
      BrowserSettles(s, s1, u, r);
    } else if ReadyToComplete(s1, u) {
      CompleteSettles(s, s1, u, r);
    } else if r in s.runs {
      SameTerminal(s, s1, s.runs[r].urlIds);
    }
  }

  lemma CompleteSettles(s: State, s1: State, u: string, r: string)
    requires u in s.urls && s1.urls == s.urls && s1.runs == s.runs && u in s1.buckets && RunSettled(s, r)
    requires Linked(s) && Linked(Finalize(s1, u))
    ensures RunSettled(Finalize(s1, u), r)
  {
    var s2, q := CompleteUrl(s1, u, VerdictOf(s1.urls[u], s1.buckets[u])), s.urls[u].runId;
    if r == q {
      SettleSettles(s2, q);
    } else {
      assert s2.runs == s.runs && s2.urls == s.urls[u := s2.urls[u]];
      SettleOnlyRun(s2, q);
      OtherRunSettled(s, MaybeComplete(s2, q), q, r);
    }
  }

  lemma BrowserSettles(s: State, s1: State, u: string, r: string)
    requires u in s.urls && s1.urls == s.urls && s1.runs == s.runs && RunSettled(s, r)
    requires Linked(s) && Linked(StartBrowser(s1, u))
    ensures RunSettled(StartBrowser(s1, u), r)
  {
    var s', q := StartBrowser(s1, u), s.urls[u].runId;
    assert s'.runs == s.runs && s'.urls == s.urls[u := s.urls[u].(status := BrowserValidationRunning)];
    if r == q {
      assert u in s'.runs[r].urlIds && !UrlTerminal(s', u);
    } else {
      OtherRunSettled(s, s', q, r);
    }
  }

  lemma AddSettles(s: State, q: string, item: Submission, r: string)
    requires Allowed(s, AddTo(q, item)) && RunSettled(s, r) && Linked(s) && RunsSettled(s)
    ensures RunSettled(QueueUrl(s, q, item, false).0, r) <==> !StrandsRun(s, AddTo(q, item), r)
  {
    if q in s.runs {
      assert [item][0].urlId !in s.urls;
      StepLinked(s, AddTo(q, item));
      if item.url.Some? {
        AddGoodUrl(s, q, item, r);
      } else if s.runs[q].status == RunCompleted {
        AddBadUrl(s, q, r);
      }
    }
  }

  lemma AddGoodUrl(s: State, q: string, item: Submission, r: string)
    requires q in s.runs && item.url.Some? && item.urlId !in s.urls && ':' !in item.urlId && RunSettled(s, r)
    requires Linked(s) && Linked(QueueUrl(s, q, item, false).0)
    ensures RunSettled(QueueUrl(s, q, item, false).0, r)
  {
    if r == q {
      SettleSettles(InsertUrl(Reopen(s, q), q, item), q);
    } else {
      AddOnlyRun(s, q, item);
      OtherRunSettled(s, QueueUrl(s, q, item, false).0, q, r);
    }
  }

  lemma AddOnlyRun(s: State, r: string, item: Submission)
    requires r in s.runs && item.url.Some? && item.urlId !in s.urls && ':' !in item.urlId
    ensures OnlyRun(s, QueueUrl(s, r, item, false).0, r)
  {
    var s2 := InsertUrl(Reopen(s, r), r, item);
    ReopenInsertOnlyRun(s, r, item);
    SettleOnlyRun(s2, r);
    OnlyRunTransitive(s, s2, MaybeComplete(s2, r), r);
  }

  lemma ReopenInsertOnlyRun(s: State, r: string, item: Submission)
    requires r in s.runs && item.url.Some? && item.urlId !in s.urls && ':' !in item.urlId
    ensures OnlyRun(s, InsertUrl(Reopen(s, r), r, item), r)
  {
    var s1 := Reopen(s, r);
    InsertEffect(s1, r, item);
    assert OnlyRun(s, s1, r);
    OnlyRunTransitive(s, s1, InsertUrl(s1, r, item), r);
  }

  lemma AddBadUrl(s: State, q: string, r: string)
    requires q in s.runs && s.runs[q].status == RunCompleted && AllDone(s, s.runs[q].urlIds) && RunSettled(s, r)
    ensures RunSettled(Reopen(s, q), r) <==> r != q
  {
    var s1 := Reopen(s, q);
    if r in s.runs {
      SameTerminal(s, s1, s.runs[r].urlIds);
    }
  }

  /** Every URL of a run is terminal, if it has any. */
  ghost predicate AllTerminal(s: State, r: string)
    requires r in s.runs
  {
    forall u :: u in s.runs[r].urlIds ==> UrlTerminal(s, u)
  }

  predicate NoneDispatchable(items: seq<Submission>) {
    forall x :: x in items ==> !x.selection.CanDispatch()
  }

  lemma InsertFills(s: State, r: string, item: Submission)
    requires Enabled(s, Insert(r, item)) && Linked(s)
    ensures var s' := InsertUrl(s, r, item);
      && r in s'.runs && s'.runs[r].status == RunRunning && s'.runs[r].urlIds != [] && OnlyRun(s, s', r)
      && (AllTerminal(s', r) <==> AllTerminal(s, r) && !item.selection.CanDispatch())
      && s'.urls.Keys == s.urls.Keys + {item.urlId}
  {
    var s' := InsertUrl(s, r, item);
    InsertEffect(s, r, item);
    EnlistTerminal(s, s', r, item.urlId);
    assert UrlTerminal(s', item.urlId) <==> !item.selection.CanDispatch();
  }

  lemma EnlistTerminal(s: State, s': State, r: string, id: string)
    requires r in s.runs && r in s'.runs && s'.runs[r].urlIds == s.runs[r].urlIds + [id]
    requires forall u :: u in s.runs[r].urlIds ==> u in s.urls && u in s'.urls && s'.urls[u] == s.urls[u]
    ensures AllTerminal(s', r) <==> AllTerminal(s, r) && UrlTerminal(s', id)
  {
    assert id in s'.runs[r].urlIds;
    assert forall u :: u in s.runs[r].urlIds ==> u in s'.runs[r].urlIds && (UrlTerminal(s', u) <==> UrlTerminal(s, u));
  }

  lemma OnlyRunTransitive(s: State, s1: State, s2: State, r: string)
    requires OnlyRun(s, s1, r) && OnlyRun(s1, s2, r)
    ensures OnlyRun(s, s2, r)
  {
  }

  /** What queueing a list with k well-formed URLs at its start makes of the run. */
  ghost predicate Fills(s: State, s': State, r: string, items: seq<Submission>, k: nat)
    requires k <= |items| && r in s.runs
  {
    && OnlyRun(s, s', r) && r in s'.runs && s'.runs[r].status == RunRunning
    && (s'.runs[r].urlIds == [] <==> s.runs[r].urlIds == [] && k == 0)
    && (AllTerminal(s', r) <==> AllTerminal(s, r) && NoneDispatchable(items[..k]))
  }

  lemma FillsStep(s: State, s1: State, s2: State, r: string, items: seq<Submission>, k: nat)
    requires items != [] && k < |items| && r in s.runs && r in s1.runs
    requires OnlyRun(s, s1, r) && s1.runs[r].urlIds != [] && Fills(s1, s2, r, items[1..], k)
    requires AllTerminal(s1, r) <==> AllTerminal(s, r) && !items[0].selection.CanDispatch()
    ensures Fills(s, s2, r, items, k + 1)
  {
    OnlyRunTransitive(s, s1, s2, r);
    assert items[..k + 1] == [items[0]] + items[1..][..k];
    NoneOfCons(items[0], items[1..][..k]);
  }

  lemma NoneOfCons(first: Submission, rest: seq<Submission>)
    ensures NoneDispatchable([first] + rest) <==> !first.selection.CanDispatch() && NoneDispatchable(rest)
  {
    assert first in [first] + rest;
    assert forall x :: x in rest ==> x in [first] + rest;
  }

  lemma QueueAllStep(s: State, r: string, items: seq<Submission>)
    requires items != [] && items[0].url.Some? && r in s.runs && s.runs[r].status == RunRunning
    ensures QueueAll(s, r, items) == QueueAll(InsertUrl(s, r, items[0]), r, items[1..])
  {
  }

  /** Queueing a list fills the run up to the first malformed URL. */
  lemma {:induction false} QueueAllFills(s: State, r: string, items: seq<Submission>)
    requires r in s.runs && s.runs[r].status == RunRunning && FreshItems(s, items)
    requires Linked(s)
    ensures var (s', o) := QueueAll(s, r, items);
      (o == Queued <==> FirstBad(items) == |items|) && Fills(s, s', r, items, FirstBad(items))
    decreases |items|
  {
    if items != [] && items[0].url.Some? {
      var s1, rest := InsertUrl(s, r, items[0]), items[1..];
      InsertFills(s, r, items[0]);
      LinkedInsert(s, r, items[0]);
      StillFresh(s, s1, items);
      QueueAllFills(s1, r, rest);
      QueueAllStep(s, r, items);
      FillsStep(s, s1, QueueAll(s1, r, rest).0, r, items, FirstBad(rest));
    }
  }

  lemma CreateOnlyRun(s: State, q: string, items: seq<Submission>)
    requires Allowed(s, Create(q, items)) && Linked(s)
    ensures OnlyRun(s, CreateRun(s, q, items).0, q)
  {
    var s0 := AddRun(s, q);
    LinkedKept(s, OpenRun(q));
    QueueAllFills(s0, q, items);
    var s1 := QueueAll(s0, q, items).0;
    OnlyRunTransitive(s, s0, s1, q);
    SettleOnlyRun(s1, q);
    OnlyRunTransitive(s, s1, MaybeComplete(s1, q), q);
  }

  lemma CreateSettles(s: State, q: string, items: seq<Submission>)
    requires Allowed(s, Create(q, items)) && Linked(s)
    ensures RunSettled(CreateRun(s, q, items).0, q) <==> !StrandsRun(s, Create(q, items), q)
  {
    var s0 := AddRun(s, q);
    LinkedKept(s, OpenRun(q));
    QueueAllFills(s0, q, items);
    var (s1, o) := QueueAll(s0, q, items);
    if o == Queued {
      SettleSettles(s1, q);
    } else {
      AbortedSettles(s1, q);
    }
  }

  /** A creation that aborts strands the new run exactly when the URLs before the malformed one are all terminal. */
  lemma AbortedSettles(s: State, r: string)
    requires r in s.runs && s.runs[r].status == RunRunning
    ensures RunSettled(s, r) <==> s.runs[r].urlIds == [] || !AllTerminal(s, r)
  {
  }

  /** After any public call a run is settled exactly when the call was not one of those that strand it. */
  lemma RunSettledIff(s: State, e: Event, r: string)
    requires Inv(s) && RunSettled(s, r) && Allowed(s, e)
    ensures RunSettled(Step(s, e), r) <==> !StrandsRun(s, e, r)
  {
    match e
    case Create(q, items) =>
      if r == q {
        CreateSettles(s, q, items);
      } else {
        StepLinked(s, e);
        CreateOnlyRun(s, q, items);
        OtherRunSettled(s, Step(s, e), q, r);
      }
    case AddTo(q, item) => AddSettles(s, q, item, r);
    case Result(summary) => ResultSettles(s, summary, r);
  }

  /** And all of them are, exactly when the call strands none. */
  lemma SettledIff(s: State, e: Event)
    requires Inv(s) && Settled(s) && Allowed(s, e)
    ensures Settled(Step(s, e)) <==> !Strands(s, e)
  {
    forall r ensures RunSettled(Step(s, e), r) <==> !StrandsRun(s, e, r) {
      RunSettledIff(s, e, r);
    }
    if Strands(s, e) {
      var r := if e.Create? then e.runId else e.toRun;
      assert StrandsRun(s, e, r) && !RunSettled(Step(s, e), r);
    }
  }

  /** No call of the history strands a run. */
  predicate NeverStrands(events: seq<Event>) {
    events == [] ||
    (NeverStrands(events[..|events| - 1]) && !Strands(After(events[..|events| - 1]), events[|events| - 1]))
  }

  /** No call of the history strands the run r. */
  predicate NeverStranded(events: seq<Event>, r: string) {
    events == [] ||
    (NeverStranded(events[..|events| - 1], r) && !StrandsRun(After(events[..|events| - 1]), events[|events| - 1], r))
  }

  /** At every point of the history the run is settled. */
  ghost predicate RunSettledThroughout(events: seq<Event>, r: string) {
    RunSettled(After(events), r) && (events == [] || RunSettledThroughout(events[..|events| - 1], r))
  }

  /** Over whole histories: a run stays settled throughout exactly when no call strands it, whatever becomes of others. */
  lemma {:induction false} RunSettledThroughoutIff(events: seq<Event>, r: string)
    requires Valid(events)
    ensures RunSettledThroughout(events, r) <==> NeverStranded(events, r)
  {
    if events != [] {
      var front := events[..|events| - 1];
      RunSettledThroughoutIff(front, r);
      if RunSettledThroughout(front, r) {
        Reachable(front);
        RunSettledIff(After(front), events[|events| - 1], r);
      }
    }
  }

  /** Run settlement: while no call strands it, a run is completed after every public call exactly when it has URLs and
      all of them are terminal. */
  lemma RunCompletedIffDone(events: seq<Event>, r: string)
    requires Valid(events) && NeverStranded(events, r) && r in After(events).runs
    ensures var s := After(events); s.runs[r].status == RunCompleted <==> AllDone(s, s.runs[r].urlIds)
  {
    Reachable(events);
    RunSettledThroughoutIff(events, r);
  }

  /** At every point of the history no run of terminal URLs is left running. */
  ghost predicate SettledThroughout(events: seq<Event>) {
    Settled(After(events)) && (events == [] || SettledThroughout(events[..|events| - 1]))
  }

  /** Over whole histories: runs stay settled throughout exactly when no call strands one. */
  lemma {:induction false} SettledThroughoutIff(events: seq<Event>)
    requires Valid(events)
    ensures SettledThroughout(events) <==> NeverStrands(events)
  {
    if events != [] {
      var front := events[..|events| - 1];
      SettledThroughoutIff(front);
      if SettledThroughout(front) {
        Reachable(front);
        SettledIff(After(front), events[|events| - 1]);
      }
    }
  }

  /** The converse of settlement fails without that condition: a run of one blocked URL completes, a malformed
      URL is then added to it, and the run stays "running" although nothing in it is left to do. */
  lemma MalformedUrlStrandsRun(blocked: Submission, malformed: Submission)
    requires blocked.url.Some? && !blocked.selection.CanDispatch() && ':' !in blocked.urlId
    requires malformed.url.None?
    ensures var s := CreateRun(EMPTY, "run-1", [blocked]).0;
      "run-1" in s.runs && s.runs["run-1"].status == RunCompleted
      && !RunSettled(QueueUrl(s, "run-1", malformed, false).0, "run-1")
  {
    BlockedRunCompletes("run-1", blocked);
    AddBadUrl(CreateRun(EMPTY, "run-1", [blocked]).0, "run-1", "run-1");
  }

  /** So does a run created with a blocked URL and a malformed one after it. */
  lemma MalformedCreationStrandsRun(blocked: Submission, malformed: Submission)
    requires blocked.url.Some? && !blocked.selection.CanDispatch() && ':' !in blocked.urlId
    requires malformed.url.None? && ':' !in malformed.urlId && malformed.urlId != blocked.urlId
    ensures var s := CreateRun(EMPTY, "run-1", [blocked, malformed]).0;
      && "run-1" in s.runs && s.runs["run-1"].status == RunRunning && AllDone(s, s.runs["run-1"].urlIds)
  {
    var items := [blocked, malformed];
    assert items[1..] == [malformed] && FirstBad(items[1..]) == 0 && items[..1] == [blocked];
    assert FirstBad(items) == 1 && NoneDispatchable(items[..1]);
    CreateSettles(EMPTY, "run-1", items);
  }

  lemma BlockedRunCompletes(r: string, blocked: Submission)
    requires blocked.url.Some? && !blocked.selection.CanDispatch() && ':' !in blocked.urlId
    ensures var s := CreateRun(EMPTY, r, [blocked]).0;
      r in s.runs && s.runs[r].status == RunCompleted && AllDone(s, s.runs[r].urlIds)
  {
    var s0 := AddRun(EMPTY, r);
    var s1 := InsertUrl(s0, r, blocked);
    InsertEffect(s0, r, blocked);
    assert [blocked][1..] == [];
    assert QueueAll(s0, r, [blocked]) == QueueAll(s1, r, []);
    assert s1.runs[r].urlIds == [blocked.urlId];
    assert UrlTerminal(s1, blocked.urlId);
    assert AllDone(s1, s1.runs[r].urlIds);
    DoneKept(s1, MaybeComplete(s1, r), s1.runs[r].urlIds);
  }

  lemma Follow(events: seq<Event>, e: Event)
    requires Valid(events) && Allowed(After(events), e)
    ensures Valid(events + [e]) && After(events + [e]) == Step(After(events), e)
  {
    assert (events + [e])[..|events|] == events;
  }
}
