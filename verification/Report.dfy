/** The per-URL views and the CSV of the final report (control-plane/reporting/final-report.mjs). */
module Report {
  import opened Common
  import opened Classification
  import opened Csv
  import opened JobIds
  import opened NodeSelection
  import opened RunState

  /** A persisted result row; a missing text field reads as "". */
  datatype Row = Row(
    id: string, jobId: string, urlId: string, nodeName: string, stage: string, ok: Ok, reasons: Reasons)

  function OrElse(s: string, fallback: string): string {
    if s != "" then s else fallback
  }

  /** The URL, node and stage a row speaks for: its own fields first, then the parts of its job id. */
  function Resolve(r: Row): Option<JobRef> {
    var job := ParseJobId(OrElse(r.jobId, r.id));
    var parsed := if job.Some? then job.value else JobRef("", "", "");
    var ref := JobRef(OrElse(r.urlId, parsed.urlId), OrElse(r.nodeName, parsed.nodeName), OrElse(r.stage, parsed.stage));
    if ref.urlId == "" || ref.nodeName == "" || ref.stage == "" then None else Some(ref)
  }

  /** The last row for a URL, node and stage: later rows replace earlier ones. */
  function LastRow(rows: seq<Row>, ref: JobRef): Option<Row> {
    if rows == [] then None
    else if Resolve(rows[|rows| - 1]) == Some(ref) then Some(rows[|rows| - 1])
    else LastRow(rows[..|rows| - 1], ref)
  }

  /** The row that counts for a node of a URL: browser validation before initial test. */
  function EffectiveRow(rows: seq<Row>, u: string, name: string): Option<Row> {
    var browser := LastRow(rows, JobRef(u, name, BROWSER));
    if browser.Some? then browser else LastRow(rows, JobRef(u, name, INITIAL))
  }

  function OkOf(r: Option<Row>): Ok {
    if r.Some? then r.value.ok else Undefined
  }

  const ARM_COLUMNS: seq<NodeType> := [AzureDirect, GsaRemotenet, GsaClient, CloudflareClient, ExternalDirect]

  datatype NodeResult = NodeResult(node: string, result: Option<Row>)

  datatype Cell = Cell(nodeResults: seq<NodeResult>, status: ArmStatus)

  datatype View = View(url: Url, comparison: Option<Comparison>, cells: seq<Cell>)

  function NodeResultsOf(selected: seq<Node>, t: NodeType, rows: seq<Row>, u: string): seq<NodeResult> {
    if selected == [] then []
    else
      var front, last := selected[..|selected| - 1], selected[|selected| - 1];
      NodeResultsOf(front, t, rows, u)
      + (if last.nodeType == t then [NodeResult(last.name, EffectiveRow(rows, u, last.name))] else [])
  }

  function CellOf(url: Url, t: NodeType, rows: seq<Row>): Cell {
    Cell(NodeResultsOf(url.selected, t, rows, url.id),
         ArmStatusOf(OksOfType(url.selected, t, (n: Node) => OkOf(EffectiveRow(rows, url.id, n.name)))))
  }

  function LastComparison(comparisons: seq<Comparison>, u: string): Option<Comparison> {
    if comparisons == [] then None
    else if comparisons[|comparisons| - 1].urlId == u then Some(comparisons[|comparisons| - 1])
    else LastComparison(comparisons[..|comparisons| - 1], u)
  }

  function ViewOf(url: Url, rows: seq<Row>, comparisons: seq<Comparison>): View {
    View(url, LastComparison(comparisons, url.id),
         seq(|ARM_COLUMNS|, i requires 0 <= i < |ARM_COLUMNS| => CellOf(url, ARM_COLUMNS[i], rows)))
  }

  /** Whatever its own fields leave out, a row speaks for what its job id says, its id standing in for a missing one. */
  lemma JobIdSpeaks(r: Row, u: string, name: string, stage: string)
    requires u != "" && name != "" && stage != "" && ':' !in u && ':' !in name && ':' !in stage
    requires (if r.jobId != "" then r.jobId else r.id) == JobId(u, name, stage)
    ensures Resolve(r) == Some(JobRef(if r.urlId != "" then r.urlId else u, if r.nodeName != "" then r.nodeName else name,
                                      if r.stage != "" then r.stage else stage))
  {
    ParseRoundTrip(u, name, stage);
  }

  /** A row whose job id names no job, and that leaves something out itself, speaks for nothing. */
  lemma SpeaksForNothing(r: Row)
    requires ParseJobId(if r.jobId != "" then r.jobId else r.id).None?
    requires r.urlId == "" || r.nodeName == "" || r.stage == ""
    ensures Resolve(r) == None
  {
  }

  /** The comparison shown for a URL is the last one about it. */
  lemma {:induction false} LastComparisonIs(comparisons: seq<Comparison>, u: string, i: nat)
    requires i < |comparisons| && comparisons[i].urlId == u
    requires forall k :: i < k < |comparisons| ==> comparisons[k].urlId != u
    ensures LastComparison(comparisons, u) == Some(comparisons[i])
  {
    if i < |comparisons| - 1 {
      LastComparisonIs(comparisons[..|comparisons| - 1], u, i);
    }
  }

  lemma {:induction false} NoComparison(comparisons: seq<Comparison>, u: string)
    requires forall c :: c in comparisons ==> c.urlId != u
    ensures LastComparison(comparisons, u) == None
  {
    if comparisons != [] {
      NoComparison(comparisons[..|comparisons| - 1], u);
    }
  }

  // ---- the index built by the renderer ----

  type StageIndex = map<string, Row>
  type NodeIndex = map<string, StageIndex>
  type UrlIndex = map<string, NodeIndex>

  function Find(index: UrlIndex, ref: JobRef): Option<Row> {
    if ref.urlId in index && ref.nodeName in index[ref.urlId] && ref.stage in index[ref.urlId][ref.nodeName]
    then Some(index[ref.urlId][ref.nodeName][ref.stage])
    else None
  }

  function Enter(index: UrlIndex, ref: JobRef, row: Row): UrlIndex {
    var nodes := if ref.urlId in index then index[ref.urlId] else map[];
    var stages := if ref.nodeName in nodes then nodes[ref.nodeName] else map[];
    index[ref.urlId := nodes[ref.nodeName := stages[ref.stage := row]]]
  }

  lemma EnterFinds(index: UrlIndex, ref: JobRef, row: Row, at: JobRef)
    ensures Find(Enter(index, ref, row), at) == if at == ref then Some(row) else Find(index, at)
  {
  }

  method IndexRows(rows: seq<Row>) returns (index: UrlIndex)
    ensures forall ref :: Find(index, ref) == LastRow(rows, ref)
  {
    index := map[];
    for i := 0 to |rows|
      invariant forall ref :: Find(index, ref) == LastRow(rows[..i], ref)
    {
      assert rows[..i + 1][..i] == rows[..i];
      var ref := Resolve(rows[i]);
      if ref.Some? {
        ghost var before := index;
        index := Enter(index, ref.value, rows[i]);
        forall at ensures Find(index, at) == LastRow(rows[..i + 1], at) {
          EnterFinds(before, ref.value, rows[i], at);
        }
      }
    }
    assert rows[..|rows|] == rows;
  }

  function EffectiveAt(index: UrlIndex, u: string, name: string): Option<Row> {
    var browser := Find(index, JobRef(u, name, BROWSER));
    if browser.Some? then browser else Find(index, JobRef(u, name, INITIAL))
  }

  lemma EffectiveAgrees(index: UrlIndex, rows: seq<Row>, u: string, name: string)
    requires forall ref :: Find(index, ref) == LastRow(rows, ref)
    ensures EffectiveAt(index, u, name) == EffectiveRow(rows, u, name)
  {
  }

  method NodeResults(url: Url, t: NodeType, index: UrlIndex, ghost rows: seq<Row>) returns (results: seq<NodeResult>)
    requires forall ref :: Find(index, ref) == LastRow(rows, ref)
    ensures results == NodeResultsOf(url.selected, t, rows, url.id)
  {
    results := [];
    for i := 0 to |url.selected|
      invariant results == NodeResultsOf(url.selected[..i], t, rows, url.id)
    {
      var n := url.selected[i];
      assert url.selected[..i + 1][..i] == url.selected[..i];
      if n.nodeType == t {
        EffectiveAgrees(index, rows, url.id, n.name);
        results := results + [NodeResult(n.name, EffectiveAt(index, url.id, n.name))];
      }
    }
    assert url.selected[..|url.selected|] == url.selected;
  }

  function OksIn(results: seq<NodeResult>): seq<Ok> {
    if results == [] then [] else OksIn(results[..|results| - 1]) + [OkOf(results[|results| - 1].result)]
  }

  lemma {:induction false} OksOfResults(selected: seq<Node>, t: NodeType, rows: seq<Row>, u: string)
    ensures OksIn(NodeResultsOf(selected, t, rows, u))
         == OksOfType(selected, t, (n: Node) => OkOf(EffectiveRow(rows, u, n.name)))
  {
    if selected != [] {
      var front, last := selected[..|selected| - 1], selected[|selected| - 1];
      OksOfResults(front, t, rows, u);
      if last.nodeType == t {
        var before, result := NodeResultsOf(front, t, rows, u), NodeResult(last.name, EffectiveRow(rows, u, last.name));
        assert (before + [result])[..|before|] == before;
      } else {
        assert NodeResultsOf(selected, t, rows, u) == NodeResultsOf(front, t, rows, u);
      }
    }
  }

  method BuildCell(url: Url, t: NodeType, index: UrlIndex, ghost rows: seq<Row>) returns (cell: Cell)
    requires forall ref :: Find(index, ref) == LastRow(rows, ref)
    ensures cell == CellOf(url, t, rows)
  {
    var results := NodeResults(url, t, index, rows);
    OksOfResults(url.selected, t, rows, url.id);
    return Cell(results, ArmStatusOf(OksIn(results)));
  }

  method BuildUrlViews(urls: seq<Url>, rows: seq<Row>, comparisons: seq<Comparison>) returns (views: seq<View>)
    ensures |views| == |urls|
    ensures forall i :: 0 <= i < |urls| ==> views[i] == ViewOf(urls[i], rows, comparisons)
  {
    var index := IndexRows(rows);
    views := [];
    for k := 0 to |urls|
      invariant |views| == k
      invariant forall i :: 0 <= i < k ==> views[i] == ViewOf(urls[i], rows, comparisons)
    {
      var cells: seq<Cell> := [];
      for c := 0 to |ARM_COLUMNS|
        invariant |cells| == c
        invariant forall i :: 0 <= i < c ==> cells[i] == CellOf(urls[k], ARM_COLUMNS[i], rows)
      {
        var cell := BuildCell(urls[k], ARM_COLUMNS[c], index, rows);
        cells := cells + [cell];
      }
      var view := View(urls[k], LastComparison(comparisons, urls[k].id), cells);
      assert view.cells == ViewOf(urls[k], rows, comparisons).cells;
      views := views + [view];
    }
  }

  /** The arm statuses a view shows, in the shape the classifier takes. */
  function ArmsShown(v: View): Arms
    requires |v.cells| == |ARM_COLUMNS|
  {
    Arms(Some(v.cells[0].status), Some(v.cells[1].status), Some(v.cells[2].status),
         Some(v.cells[3].status), Some(v.cells[4].status))
  }

  // ---- CSV ----

  function TypeText(t: NodeType): string {
    match t
    case AzureDirect => "azure_direct"
    case GsaRemotenet => "gsa_remotenet"
    case GsaClient => "gsa_client"
    case CloudflareClient => "cloudflare_client"
    case ExternalDirect => "external_direct"
  }

  function StatusText(a: ArmStatus): string {
    match a
    case ArmOk => "ok"
    case ArmFail => "fail"
    case ArmMixed => "mixed"
    case ArmUnavailable => "unavailable"
  }

  function ClassText(c: Class): string {
    match c
    case Healthy => "healthy"
    case LikelyGsaImpacting => "likely_gsa_impacting"
    case LikelyCloudflareImpacting => "likely_cloudflare_impacting"
    case AzureDirectEnvironmentIssue => "azure_direct_environment_issue"
    case AzureEgressOrRegionIssue => "azure_egress_or_region_issue"
    case CommonDestinationOrSiteIssue => "common_destination_or_site_issue"
    case NodeGroupDisagreement => "node_group_disagreement"
    case Inconclusive => "inconclusive"
    case Pending => "pending"
  }

  /** Confidences are 0.3 to 0.9. */
  function ConfidenceText(tenths: nat): string {
    if tenths <= 9 then "0." + [('0' as int + tenths) as char] else "1"
  }

  function ClassOf(v: View): Class {
    if v.comparison.Some? then v.comparison.value.verdict.class_ else v.url.class_
  }

  /** The reason shown for a result: the first that is given, in this order. */
  function ReasonOf(r: Row): string {
    OrElse(r.reasons.specific, OrElse(r.reasons.plain, r.reasons.evidence))
  }

  function FailingIn(results: seq<NodeResult>): Option<Row> {
    if results == [] then None
    else if results[0].result.Some? && results[0].result.value.ok == False then results[0].result
    else FailingIn(results[1..])
  }

  function PrimaryReason(cells: seq<Cell>): string {
    if cells == [] then ""
    else
      var f := FailingIn(cells[0].nodeResults);
      if f.Some? then ReasonOf(f.value) else PrimaryReason(cells[1..])
  }

  /** The result counts as a failure: it is there, and its `ok` is false. */
  predicate IsFalse(n: NodeResult) {
    n.result.Some? && n.result.value.ok == False
  }

  /** The node result at (c, n) fails and nothing before it does, column by column. */
  ghost predicate FirstFailure(cells: seq<Cell>, c: nat, n: nat) {
    && c < |cells| && n < |cells[c].nodeResults| && IsFalse(cells[c].nodeResults[n])
    && (forall k :: 0 <= k < n ==> !IsFalse(cells[c].nodeResults[k]))
    && (forall i, k :: 0 <= i < c && 0 <= k < |cells[i].nodeResults| ==> !IsFalse(cells[i].nodeResults[k]))
  }

  lemma {:induction false} FailingIsFirst(results: seq<NodeResult>, n: nat)
    requires n < |results| && IsFalse(results[n]) && forall k :: 0 <= k < n ==> !IsFalse(results[k])
    ensures FailingIn(results) == results[n].result
  {
    if n > 0 {
      FailingIsFirst(results[1..], n - 1);
    }
  }

  lemma {:induction false} NoneFailing(results: seq<NodeResult>)
    requires forall k :: 0 <= k < |results| ==> !IsFalse(results[k])
    ensures FailingIn(results).None?
  {
    if results != [] {
      NoneFailing(results[1..]);
    }
  }

  /** The primary reason is that of the first failing node, column by column: its specific reason, else its plain one,
      else that of its evidence. */
  lemma {:induction false} PrimaryReasonIsFirst(cells: seq<Cell>, c: nat, n: nat)
    requires FirstFailure(cells, c, n)
    ensures var why := cells[c].nodeResults[n].result.value.reasons;
      PrimaryReason(cells) == if why.specific != "" then why.specific else if why.plain != "" then why.plain else why.evidence
  {
    if c == 0 {
      FailingIsFirst(cells[0].nodeResults, n);
    } else {
      NoneFailing(cells[0].nodeResults);
      assert FirstFailure(cells[1..], c - 1, n);
      PrimaryReasonIsFirst(cells[1..], c - 1, n);
    }
  }

  /** Without a failing node there is no primary reason. */
  lemma {:induction false} NoFailureNoReason(cells: seq<Cell>)
    requires forall i, k :: 0 <= i < |cells| && 0 <= k < |cells[i].nodeResults| ==> !IsFalse(cells[i].nodeResults[k])
    ensures PrimaryReason(cells) == ""
  {
    if cells != [] {
      NoneFailing(cells[0].nodeResults);
      NoFailureNoReason(cells[1..]);
    }
  }

  function Header(): seq<string> {
    ["url", "classification", "confidence"]
    + seq(|ARM_COLUMNS|, i requires 0 <= i < |ARM_COLUMNS| => TypeText(ARM_COLUMNS[i]))
    + ["primary_reason"]
  }

  function CsvRow(v: View): seq<string> {
    [v.url.url, ClassText(ClassOf(v)),
     if v.comparison.Some? then ConfidenceText(v.comparison.value.verdict.confidence) else ""]
    + seq(|v.cells|, i requires 0 <= i < |v.cells| => StatusText(v.cells[i].status))
    + [PrimaryReason(v.cells)]
  }

  lemma HeaderReads()
    ensures Header() == ["url", "classification", "confidence", "azure_direct", "gsa_remotenet", "gsa_client",
                         "cloudflare_client", "external_direct", "primary_reason"]
  {
  }

  /** What the column of an arm prints, by the results of the nodes in it. */
  lemma ArmPrints(url: Url, t: NodeType, rows: seq<Row>)
    ensures var cell := CellOf(url, t, rows); var oks, text := OksIn(cell.nodeResults), StatusText(cell.status);
      && (text == "ok" <==> True in oks && False !in oks && Null !in oks)
      && (text == "fail" <==> True !in oks && (False in oks || Null in oks))
      && (text == "mixed" <==> True in oks && (False in oks || Null in oks))
      && (text == "unavailable" <==> forall r :: r in oks ==> r == Undefined)
  {
    OksOfResults(url.selected, t, rows, url.id);
    ArmStatusMeaning(OksIn(CellOf(url, t, rows).nodeResults));
  }

  lemma RowParts(v: View, i: nat)
    requires i < |v.cells|
    ensures var row := CsvRow(v);
      && |row| == |v.cells| + 4 && row[0] == v.url.url && row[1] == ClassText(ClassOf(v))
      && row[2] == (if v.comparison.Some? then ConfidenceText(v.comparison.value.verdict.confidence) else "")
      && row[3 + i] == StatusText(v.cells[i].status) && row[|v.cells| + 3] == PrimaryReason(v.cells)
  {
  }

  /** The row of a URL with a comparison prints the class and the confidence its answers call for. */
  lemma ClassPrints(v: View, e: Evidence)
    requires v.cells != [] && v.comparison.Some? && Tells(v.comparison.value.verdict, e)
    ensures var row := CsvRow(v);
      && (CalledFor(Healthy, e) ==> row[1] == "healthy" && row[2] == "0.9")
      && (CalledFor(LikelyGsaImpacting, e) ==> row[1] == "likely_gsa_impacting" && row[2] == "0.8")
      && (CalledFor(LikelyCloudflareImpacting, e) ==> row[1] == "likely_cloudflare_impacting" && row[2] == "0.7")
      && (CalledFor(AzureDirectEnvironmentIssue, e) ==> row[1] == "azure_direct_environment_issue" && row[2] == "0.7")
      && (CalledFor(AzureEgressOrRegionIssue, e) ==> row[1] == "azure_egress_or_region_issue" && row[2] == "0.7")
      && (CalledFor(CommonDestinationOrSiteIssue, e) ==> row[1] == "common_destination_or_site_issue" && row[2] == "0.6")
      && (CalledFor(NodeGroupDisagreement, e) ==> row[1] == "node_group_disagreement" && row[2] == "0.5")
      && (CalledFor(Inconclusive, e) ==> row[1] == "inconclusive" && row[2] == "0.3")
  {
    RowParts(v, 0);
    assert forall c :: v.comparison.value.verdict.class_ == c <==> CalledFor(c, e);
  }

  /** The row of a URL without a comparison prints the class of the URL and no confidence. */
  lemma UndecidedPrints(v: View)
    requires v.cells != [] && v.comparison.None?
    ensures var row := CsvRow(v);
      && row[2] == "" && (v.url.class_ == Pending ==> row[1] == "pending")
      && (v.url.class_ == Inconclusive ==> row[1] == "inconclusive")
  {
    RowParts(v, 0);
  }

  function CsvRows(urls: seq<Url>, rows: seq<Row>, comparisons: seq<Comparison>): seq<seq<string>> {
    if urls == [] then [Header()]
    else
      CsvRows(urls[..|urls| - 1], rows, comparisons) + [CsvRow(ViewOf(urls[|urls| - 1], rows, comparisons))]
  }

  lemma {:induction false} CsvRowsNonEmpty(urls: seq<Url>, rows: seq<Row>, comparisons: seq<Comparison>)
    ensures |CsvRows(urls, rows, comparisons)| == 1 + |urls|
    ensures forall r :: r in CsvRows(urls, rows, comparisons) ==> r != []
  {
    if urls != [] {
      CsvRowsNonEmpty(urls[..|urls| - 1], rows, comparisons);
    }
  }

  lemma {:induction false} HeaderFirst(urls: seq<Url>, rows: seq<Row>, comparisons: seq<Comparison>)
    ensures CsvRows(urls, rows, comparisons) != [] && CsvRows(urls, rows, comparisons)[0] == Header()
  {
    if urls != [] {
      HeaderFirst(urls[..|urls| - 1], rows, comparisons);
    }
  }

  lemma {:induction false} UrlRowsInOrder(urls: seq<Url>, rows: seq<Row>, comparisons: seq<Comparison>, i: nat)
    requires i < |urls|
    ensures var all := CsvRows(urls, rows, comparisons);
      |all| == 1 + |urls| && all[1 + i] == CsvRow(ViewOf(urls[i], rows, comparisons))
  {
    var front := urls[..|urls| - 1];
    CsvRowsNonEmpty(urls, rows, comparisons);
    CsvRowsNonEmpty(front, rows, comparisons);
    if i < |front| {
      UrlRowsInOrder(front, rows, comparisons, i);
    }
  }

  /** The header comes first, then one row for each URL, in their order. */
  lemma RowsInOrder(urls: seq<Url>, rows: seq<Row>, comparisons: seq<Comparison>)
    ensures var all := CsvRows(urls, rows, comparisons);
      && |all| == 1 + |urls| && all[0] == Header()
      && forall i :: 0 <= i < |urls| ==> all[1 + i] == CsvRow(ViewOf(urls[i], rows, comparisons))
  {
    HeaderFirst(urls, rows, comparisons);
    CsvRowsNonEmpty(urls, rows, comparisons);
    forall i | 0 <= i < |urls|
      ensures CsvRows(urls, rows, comparisons)[1 + i] == CsvRow(ViewOf(urls[i], rows, comparisons))
    {
      UrlRowsInOrder(urls, rows, comparisons, i);
    }
  }

  method RenderCsvFromModel(urls: seq<Url>, rows: seq<Row>, comparisons: seq<Comparison>) returns (text: string)
    ensures ReadRecords(text) == Some(CsvRows(urls, rows, comparisons))
  {
    var views := BuildUrlViews(urls, rows, comparisons);
    var out := [Header()];
    for k := 0 to |views|
      invariant out == CsvRows(urls[..k], rows, comparisons)
    {
      assert urls[..k + 1][..k] == urls[..k];
      out := out + [CsvRow(views[k])];
    }
    assert urls[..|urls|] == urls;
    text := RenderRows(out);
    CsvRowsNonEmpty(urls, rows, comparisons);
    CsvRoundTrip(out);
  }
}
