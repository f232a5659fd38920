/** The state of the run orchestrator and what each of its operations does to it
    (control-plane/scheduler/run-orchestrator.mjs). */
module RunState {
  import opened Common
  import opened Classification
  import opened JobIds
  import opened NodeSelection

  datatype UrlStatus = InitialTestsRunning | BrowserValidationRunning | Completed | Failed | Blocked

  datatype RunStatus = RunRunning | RunCompleted

  datatype Run = Run(id: string, status: RunStatus, urlIds: seq<string>)

  datatype Url = Url(
    id: string, runId: string, url: string, status: UrlStatus,
    selected: seq<Node>, unmet: seq<Unmet>, class_: Class)

  datatype Job = Job(
    id: string, runId: string, urlId: string, url: string,
    nodeName: string, nodeType: Option<NodeType>, stage: string)

  /** Where a result may say why: in a specific reason, a plain one, or its evidence. */
  datatype Reasons = Reasons(specific: string, plain: string, evidence: string)

  /** What an agent reports for a job; stage and node name come from the job itself. */
  datatype Summary = Summary(jobId: string, ok: Ok, reasons: Reasons)

  datatype Rec = Rec(
    jobId: string, runId: string, urlId: string, nodeName: string,
    nodeType: Option<NodeType>, stage: string, ok: Ok, reasons: Reasons)

  datatype Comparison = Comparison(urlId: string, runId: string, url: string, verdict: Verdict)

  type Bucket = map<string, Rec>

  /** The five Maps, the persisted result rows and the log of jobs handed to the dispatcher. */
  datatype State = State(
    runs: map<string, Run>,
    urls: map<string, Url>,
    jobs: map<string, Job>,
    buckets: map<string, Bucket>,
    comparisons: map<string, Comparison>,
    rows: map<string, Rec>,
    sent: seq<Job>)

  const EMPTY := State(map[], map[], map[], map[], map[], map[], [])

  /** A URL handed to a run: its fresh id, the outcome of URL normalisation, the outcome of node selection. */
  datatype Submission = Submission(urlId: string, url: Option<string>, selection: Selection)

  datatype Outcome = Queued | UnknownRun | BadUrl

  predicate Terminal(status: UrlStatus) {
    status == Completed || status == Failed || status == Blocked
  }

  predicate UrlTerminal(s: State, urlId: string) {
    urlId in s.urls && Terminal(s.urls[urlId].status)
  }

  predicate AllDone(s: State, urlIds: seq<string>) {
    urlIds != [] && forall id :: id in urlIds ==> UrlTerminal(s, id)
  }

  // ---- dispatching a stage ----

  function MakeJob(url: Url, n: Node, stage: string): Job {
    Job(JobId(url.id, n.name, stage), url.runId, url.id, url.url, n.name, Some(n.nodeType), stage)
  }

  function StageJobs(url: Url, stage: string): seq<Job> {
    seq(|url.selected|, i requires 0 <= i < |url.selected| => MakeJob(url, url.selected[i], stage))
  }

  function AddJobs(jobs: map<string, Job>, js: seq<Job>): map<string, Job> {
    if js == [] then jobs
    else AddJobs(jobs, js[..|js| - 1])[js[|js| - 1].id := js[|js| - 1]]
  }

  function DispatchStage(s: State, url: Url, stage: string): State {
    s.(jobs := AddJobs(s.jobs, StageJobs(url, stage)), sent := s.sent + StageJobs(url, stage))
  }

  // ---- queueing ----

  function NewUrl(runId: string, item: Submission): Url
    requires item.url.Some?
  {
    var go := item.selection.CanDispatch();
    Url(item.urlId, runId, item.url.value, if go then InitialTestsRunning else Blocked,
        item.selection.selected, item.selection.unmet, if go then Pending else Inconclusive)
  }

  function Reopen(s: State, runId: string): State
    requires runId in s.runs
  {
    if s.runs[runId].status == RunCompleted
    then s.(runs := s.runs[runId := s.runs[runId].(status := RunRunning)])
    else s
  }

  function Enlist(runs: map<string, Run>, runId: string, u: string): map<string, Run>
    requires runId in runs
  {
    runs[runId := runs[runId].(urlIds := runs[runId].urlIds + [u])]
  }

  /** The URL, its run and its bucket, before anything is dispatched. */
  function WithUrl(s: State, runId: string, url: Url): State
    requires runId in s.runs
  {
    State(Enlist(s.runs, runId, url.id), s.urls[url.id := url], s.jobs, s.buckets[url.id := map[]],
          s.comparisons, s.rows, s.sent)
  }

  function InsertUrl(s: State, runId: string, item: Submission): State
    requires runId in s.runs && item.url.Some?
  {
    var url := NewUrl(runId, item);
    var s1 := WithUrl(s, runId, url);
    if url.status == InitialTestsRunning then DispatchStage(s1, url, INITIAL) else s1
  }

  function MaybeComplete(s: State, runId: string): State {
    if runId in s.runs && s.runs[runId].status != RunCompleted && AllDone(s, s.runs[runId].urlIds)
    then s.(runs := s.runs[runId := s.runs[runId].(status := RunCompleted)])
    else s
  }

  function QueueUrl(s: State, runId: string, item: Submission, deferComplete: bool): (State, Outcome) {
    if runId !in s.runs then (s, UnknownRun)
    else
      var s1 := Reopen(s, runId);
      if item.url.None? then (s1, BadUrl)
      else
        var s2 := InsertUrl(s1, runId, item);
        (if deferComplete then s2 else MaybeComplete(s2, runId), Queued)
  }

  function QueueAll(s: State, runId: string, items: seq<Submission>): (State, Outcome)
    decreases |items|
  {
    if items == [] then (s, Queued)
    else
      var (s1, o) := QueueUrl(s, runId, items[0], true);
      if o != Queued then (s1, o) else QueueAll(s1, runId, items[1..])
  }

  function AddRun(s: State, runId: string): State {
    s.(runs := s.runs[runId := Run(runId, RunRunning, [])])
  }

  /** A URL that fails to normalise aborts the call and leaves what was queued before it. */
  function CreateRun(s: State, runId: string, items: seq<Submission>): (State, Outcome) {
    var (s1, o) := QueueAll(AddRun(s, runId), runId, items);
    (if o == Queued then MaybeComplete(s1, runId) else s1, o)
  }

  // ---- results ----

  /** The job a result speaks for: a known job, or whatever its id can be parsed into. */
  datatype Target = Target(urlId: string, nodeName: string, nodeType: Option<NodeType>, stage: string)

  function Lookup(s: State, jobId: string): Option<Target> {
    if jobId in s.jobs then
      var j := s.jobs[jobId];
      Some(Target(j.urlId, j.nodeName, j.nodeType, j.stage))
    else
      match ParseJobId(jobId)
      case Some(r) => Some(Target(r.urlId, r.nodeName, None, r.stage))
      case None => None
  }

  function TypeOfNode(selected: seq<Node>, name: string): Option<NodeType> {
    if selected == [] then None
    else if selected[0].name == name then Some(selected[0].nodeType)
    else TypeOfNode(selected[1..], name)
  }

  function StageDone(url: Url, b: Bucket, stage: string): bool {
    forall n :: n in url.selected ==> Key(n.name, stage) in b
  }

  function AnyNotOk(url: Url, b: Bucket): bool {
    exists n :: n in url.selected && Key(n.name, INITIAL) in b && b[Key(n.name, INITIAL)].ok == False
  }

  function MakeRec(url: Url, t: Target, summary: Summary): Rec {
    var nodeType := if t.nodeType.Some? then t.nodeType else TypeOfNode(url.selected, t.nodeName);
    Rec(summary.jobId, url.runId, url.id, t.nodeName, nodeType, t.stage, summary.ok, summary.reasons)
  }

  function PutResult(s: State, urlId: string, rec: Rec): State
    requires urlId in s.buckets
  {
    s.(buckets := s.buckets[urlId := s.buckets[urlId][Key(rec.nodeName, rec.stage) := rec]],
       rows := s.rows[rec.jobId := rec])
  }

  function StartBrowser(s: State, urlId: string): State
    requires urlId in s.urls
  {
    var url := s.urls[urlId].(status := BrowserValidationRunning);
    DispatchStage(s.(urls := s.urls[urlId := url]), url, BROWSER)
  }

  /** The result that counts for a node: its browser result if there is one, else its initial result. */
  function EffectiveOk(b: Bucket, name: string): Ok {
    if Key(name, BROWSER) in b then b[Key(name, BROWSER)].ok
    else if Key(name, INITIAL) in b then b[Key(name, INITIAL)].ok
    else Undefined
  }

  /** The answers of the selected nodes of one type, in selection order. */
  function OksOfType(selected: seq<Node>, t: NodeType, answer: Node -> Ok): seq<Ok> {
    if selected == [] then []
    else
      var front, last := selected[..|selected| - 1], selected[|selected| - 1];
      OksOfType(front, t, answer) + (if last.nodeType == t then [answer(last)] else [])
  }

  function ArmsBy(selected: seq<Node>, answer: Node -> Ok): Arms {
    Arms(Some(ArmStatusOf(OksOfType(selected, AzureDirect, answer))),
         Some(ArmStatusOf(OksOfType(selected, GsaRemotenet, answer))),
         Some(ArmStatusOf(OksOfType(selected, GsaClient, answer))),
         Some(ArmStatusOf(OksOfType(selected, CloudflareClient, answer))),
         Some(ArmStatusOf(OksOfType(selected, ExternalDirect, answer))))
  }

  function ArmsOf(url: Url, b: Bucket): Arms {
    ArmsBy(url.selected, (n: Node) => EffectiveOk(b, n.name))
  }

  function VerdictOf(url: Url, b: Bucket): Verdict {
    Classify(ArmsOf(url, b))
  }

  function CompleteUrl(s: State, urlId: string, v: Verdict): State
    requires urlId in s.urls
  {
    var url := s.urls[urlId];
    s.(comparisons := s.comparisons[urlId := Comparison(urlId, url.runId, url.url, v)],
       urls := s.urls[urlId := url.(status := Completed, class_ := v.class_)])
  }

  function Finalize(s: State, urlId: string): State
    requires urlId in s.urls && urlId in s.buckets
  {
    MaybeComplete(CompleteUrl(s, urlId, VerdictOf(s.urls[urlId], s.buckets[urlId])), s.urls[urlId].runId)
  }

  function Advance(s: State, urlId: string): State
    requires urlId in s.urls && urlId in s.buckets
  {
    var url, b := s.urls[urlId], s.buckets[urlId];
    if url.status == Completed || url.status == Failed then s
    else if !StageDone(url, b, INITIAL) then s
    else if AnyNotOk(url, b) && url.status == InitialTestsRunning then StartBrowser(s, urlId)
    else if url.status == BrowserValidationRunning && !StageDone(url, b, BROWSER) then s
    else Finalize(s, urlId)
  }

  function RecordResult(s: State, summary: Summary): State {
    var t := Lookup(s, summary.jobId);
    if t.None? || t.value.urlId !in s.urls || t.value.urlId !in s.buckets then s
    else
      var urlId := t.value.urlId;
      Advance(PutResult(s, urlId, MakeRec(s.urls[urlId], t.value, summary)), urlId)
  }

  /** A summary without a job id is ignored. */
  function OnResult(s: State, summary: Summary): State {
    if summary.jobId == "" then s else RecordResult(s, summary)
  }

  // ---- runs of the machine ----

  /** A failed dispatch is a Result with ok False and reason DISPATCH_FAILED. */
  datatype Event =
    | Create(runId: string, items: seq<Submission>)
    | AddTo(toRun: string, item: Submission)
    | Result(summary: Summary)

  function Step(s: State, e: Event): State {
    match e
    case Create(runId, items) => CreateRun(s, runId, items).0
    case AddTo(runId, item) => QueueUrl(s, runId, item, false).0
    case Result(summary) => OnResult(s, summary)
  }

  /** Generated ids are new, and URL ids hold no colon. */
  predicate FreshItems(s: State, items: seq<Submission>) {
    && (forall i :: 0 <= i < |items| ==> items[i].urlId !in s.urls && ':' !in items[i].urlId)
    && (forall i, j :: 0 <= i < j < |items| ==> items[i].urlId != items[j].urlId)
  }

  predicate Allowed(s: State, e: Event) {
    match e
    case Create(runId, items) => runId !in s.runs && FreshItems(s, items)
    case AddTo(_, item) => FreshItems(s, [item])
    case Result(_) => true
  }

  function After(events: seq<Event>): State {
    if events == [] then EMPTY
    else Step(After(events[..|events| - 1]), events[|events| - 1])
  }

  /** A possible run of the orchestrator: every event is allowed where it happens. */
  predicate Valid(events: seq<Event>) {
    events == [] ||
    (Valid(events[..|events| - 1]) && Allowed(After(events[..|events| - 1]), events[|events| - 1]))
  }
}
