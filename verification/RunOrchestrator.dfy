/** The run orchestrator as it is run: five Maps updated in place, each method tied to its function on states
    (control-plane/scheduler/run-orchestrator.mjs). */
module RunOrchestrator {
  import opened Common
  import opened Classification
  import opened JobIds
  import opened NodeSelection
  import opened RunState

  /** Answers collected per node type, as finalize groups them. */
  function Group(byType: map<NodeType, seq<Ok>>, t: NodeType): seq<Ok> {
    if t in byType then byType[t] else []
  }

  class Orchestrator {
    var runs: map<string, Run>
    var urls: map<string, Url>
    var jobs: map<string, Job>
    var resultsByUrl: map<string, Bucket>
    var comparisons: map<string, Comparison>

    /** The result rows of the store, and the jobs handed to the dispatcher. */
    var rows: map<string, Rec>
    var sent: seq<Job>

    ghost function Abstract(): State
      reads this
    {
      State(runs, urls, jobs, resultsByUrl, comparisons, rows, sent)
    }

    /** Every URL has its bucket of results. */
    ghost predicate Valid()
      reads this
    {
      urls.Keys == resultsByUrl.Keys
    }

    constructor ()
      ensures Valid() && Abstract() == EMPTY
    {
      runs, urls, jobs, resultsByUrl, comparisons, rows, sent := map[], map[], map[], map[], map[], map[], [];
    }

    method CreateRun(runId: string, items: seq<Submission>) returns (outcome: Outcome)
      requires Valid()
      modifies this
      ensures Valid()
      ensures (Abstract(), outcome) == RunState.CreateRun(old(Abstract()), runId, items)
    {
      runs := runs[runId := Run(runId, RunRunning, [])];
      ghost var s := Abstract();
      for i := 0 to |items|
        invariant Valid()
        invariant QueueAll(Abstract(), runId, items[i..]) == QueueAll(s, runId, items)
      {
        outcome := QueueUrl(runId, items[i], true);
        assert items[i..][1..] == items[i + 1..];
        if outcome != Queued {
          return;
        }
      }
      outcome := Queued;
      MaybeCompleteRun(runId);
    }

    method QueueUrl(runId: string, item: Submission, deferComplete: bool) returns (outcome: Outcome)
      requires Valid()
      modifies this
      ensures Valid()
      ensures (Abstract(), outcome) == RunState.QueueUrl(old(Abstract()), runId, item, deferComplete)
    {
      if runId !in runs {
        return UnknownRun;
      }
      if runs[runId].status == RunCompleted {
        runs := runs[runId := runs[runId].(status := RunRunning)];
      }
      if item.url.None? {
        return BadUrl;
      }
      var sel := item.selection;
      var record := Url(item.urlId, runId, item.url.value, if sel.CanDispatch() then InitialTestsRunning else Blocked,
                        sel.selected, sel.unmet, if sel.CanDispatch() then Pending else Inconclusive);
      urls := urls[item.urlId := record];
      runs := runs[runId := runs[runId].(urlIds := runs[runId].urlIds + [item.urlId])];
      resultsByUrl := resultsByUrl[item.urlId := map[]];
      if sel.CanDispatch() {
        DispatchStage(record, INITIAL);
      }
      if !deferComplete {
        MaybeCompleteRun(runId);
      }
      outcome := Queued;
    }

    method MaybeCompleteRun(runId: string)
      modifies this`runs
      ensures Abstract() == MaybeComplete(old(Abstract()), runId)
    {
      if runId !in runs || runs[runId].status == RunCompleted {
        return;
      }
      var run := runs[runId];
      for i := 0 to |run.urlIds|
        invariant forall k :: 0 <= k < i ==> UrlTerminal(Abstract(), run.urlIds[k])
      {
        if !(run.urlIds[i] in urls && Terminal(urls[run.urlIds[i]].status)) {
          assert run.urlIds[i] in run.urlIds && !UrlTerminal(Abstract(), run.urlIds[i]);
          return;
        }
      }
      if |run.urlIds| > 0 {
        runs := runs[runId := run.(status := RunCompleted)];
      }
    }

    method DispatchStage(url: Url, stage: string)
      modifies this`jobs, this`sent
      ensures Abstract() == RunState.DispatchStage(old(Abstract()), url, stage)
    {
      ghost var all := StageJobs(url, stage);
      for i := 0 to |url.selected|
        invariant jobs == AddJobs(old(jobs), all[..i]) && sent == old(sent) + all[..i]
      {
        var n := url.selected[i];
        var job := Job(JobId(url.id, n.name, stage), url.runId, url.id, url.url, n.name, Some(n.nodeType), stage);
        assert all[..i + 1] == all[..i] + [job];
        jobs := jobs[job.id := job];
        sent := sent + [job];
      }
      assert all[..|url.selected|] == all;
    }

    method OnResult(summary: Summary)
      requires Valid()
      modifies this
      ensures Valid() && Abstract() == RunState.OnResult(old(Abstract()), summary)
    {
      if summary.jobId != "" {
        RecordResult(summary);
      }
    }

    method RecordResult(summary: Summary)
      requires Valid()
      modifies this
      ensures Valid() && Abstract() == RunState.RecordResult(old(Abstract()), summary)
    {
      var target: Target;
      if summary.jobId in jobs {
        var j := jobs[summary.jobId];
        target := Target(j.urlId, j.nodeName, j.nodeType, j.stage);
      } else {
        var parsed := ParseJobId(summary.jobId);
        if parsed.None? {
          return;
        }
        target := Target(parsed.value.urlId, parsed.value.nodeName, None, parsed.value.stage);
      }
      if target.urlId !in urls {
        return;
      }
      var url, bucket := urls[target.urlId], resultsByUrl[target.urlId];
      var nodeType := if target.nodeType.Some? then target.nodeType else TypeOfNode(url.selected, target.nodeName);
      var rec := Rec(summary.jobId, url.runId, url.id, target.nodeName, nodeType, target.stage, summary.ok,
                     summary.reasons);
      resultsByUrl := resultsByUrl[target.urlId := bucket[Key(target.nodeName, target.stage) := rec]];
      rows := rows[summary.jobId := rec];
      Advance(target.urlId);
    }

    method Advance(u: string)
      requires Valid() && u in urls
      modifies this
      ensures Valid() && Abstract() == RunState.Advance(old(Abstract()), u)
    {
      var url, bucket := urls[u], resultsByUrl[u];
      if url.status == Completed || url.status == Failed {
        return;
      }
      if !StageDone(url, bucket, INITIAL) {
        return;
      }
      if AnyNotOk(url, bucket) && url.status == InitialTestsRunning {
        urls := urls[u := url.(status := BrowserValidationRunning)];
        DispatchStage(urls[u], BROWSER);
        return;
      }
      if url.status == BrowserValidationRunning && !StageDone(url, bucket, BROWSER) {
        return;
      }
      Finalize(u);
    }

    method Finalize(u: string)
      requires Valid() && u in urls
      modifies this`comparisons, this`urls, this`runs
      ensures Valid() && Abstract() == RunState.Finalize(old(Abstract()), u)
    {
      var url, bucket := urls[u], resultsByUrl[u];
      var byType := GroupAnswers(url.selected, bucket);
      var arms := Arms(Some(ArmStatusOf(Group(byType, AzureDirect))), Some(ArmStatusOf(Group(byType, GsaRemotenet))),
                       Some(ArmStatusOf(Group(byType, GsaClient))), Some(ArmStatusOf(Group(byType, CloudflareClient))),
                       Some(ArmStatusOf(Group(byType, ExternalDirect))));
      assert arms == ArmsOf(url, bucket);
      var c := Classify(arms);
      comparisons := comparisons[u := Comparison(u, url.runId, url.url, c)];
      urls := urls[u := url.(status := Completed, class_ := c.class_)];
      MaybeCompleteRun(url.runId);
    }
  }

  /** One pass over the selected nodes that files each answer under the type of its node. */
  method GroupAnswers(selected: seq<Node>, bucket: Bucket) returns (byType: map<NodeType, seq<Ok>>)
    ensures forall t :: Group(byType, t) == OksOfType(selected, t, (n: Node) => EffectiveOk(bucket, n.name))
  {
    ghost var answer := (n: Node) => EffectiveOk(bucket, n.name);
    byType := map[];
    for i := 0 to |selected|
      invariant forall t :: Group(byType, t) == OksOfType(selected[..i], t, answer)
    {
      var n := selected[i];
      assert selected[..i + 1][..i] == selected[..i];
      byType := byType[n.nodeType := Group(byType, n.nodeType) + [EffectiveOk(bucket, n.name)]];
    }
    assert selected[..|selected|] == selected;
  }
}
