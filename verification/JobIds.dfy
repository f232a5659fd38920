/** Job ids and result-bucket keys: strings built and taken apart by the orchestrator and the report. */
module JobIds {
  import opened Common

  const INITIAL := "initial_test"
  const BROWSER := "browser_validation"

  predicate IsStage(stage: string) {
    stage == INITIAL || stage == BROWSER
  }

  function JobId(urlId: string, nodeName: string, stage: string): string {
    urlId + "::" + nodeName + "::" + stage
  }

  /** Key of a result inside the bucket of its URL. */
  function Key(nodeName: string, stage: string): string {
    nodeName + ":" + stage
  }

  datatype JobRef = JobRef(urlId: string, nodeName: string, stage: string)

  /** Index of the first "::" in s, or |s| when there is none. */
  function FindBreak(s: string): (i: nat)
    ensures i <= |s|
    ensures i < |s| ==> i + 2 <= |s| && s[i] == ':' && s[i + 1] == ':'
  {
    if |s| < 2 then |s|
    else if s[0] == ':' && s[1] == ':' then 0
    else 1 + FindBreak(s[1..])
  }

  /** s.split("::") */
  function Split(s: string): (parts: seq<string>)
    ensures |parts| > 0
    decreases |s|
  {
    var i := FindBreak(s);
    if i == |s| then [s] else [s[..i]] + Split(s[i + 2..])
  }

  /** Read back the first three parts of a job id; all three must be non-empty. */
  function ParseJobId(jobId: string): Option<JobRef> {
    var p := Split(jobId);
    if |p| >= 3 && p[0] != "" && p[1] != "" && p[2] != "" then Some(JobRef(p[0], p[1], p[2])) else None
  }

  lemma {:induction false} FindBreakAfter(a: string, b: string)
    requires ':' !in a
    ensures FindBreak(a + "::" + b) == |a|
  {
    var s := a + "::" + b;
    if a == "" {
      assert s[0] == ':' && s[1] == ':';
    } else {
      assert s[1..] == a[1..] + "::" + b;
      assert s[0] == a[0];
      FindBreakAfter(a[1..], b);
    }
  }

  lemma {:induction false} FindBreakNone(a: string)
    requires ':' !in a
    ensures FindBreak(a) == |a|
  {
    if |a| >= 2 {
      FindBreakNone(a[1..]);
    }
  }

  lemma SplitAfter(a: string, b: string)
    requires ':' !in a
    ensures Split(a + "::" + b) == [a] + Split(b)
  {
    FindBreakAfter(a, b);
    var s := a + "::" + b;
    assert s[..|a|] == a && s[|a| + 2..] == b;
  }

  /** A job id gives back the parts it was built from when none of them holds a colon, and nothing when one is empty. */
  lemma ParseRoundTrip(urlId: string, nodeName: string, stage: string)
    requires ':' !in urlId && ':' !in nodeName && ':' !in stage
    ensures ParseJobId(JobId(urlId, nodeName, stage))
         == if urlId != "" && nodeName != "" && stage != "" then Some(JobRef(urlId, nodeName, stage)) else None
  {
    var rest := nodeName + "::" + stage;
    assert JobId(urlId, nodeName, stage) == urlId + "::" + rest;
    SplitAfter(urlId, rest);
    SplitAfter(nodeName, stage);
    FindBreakNone(stage);
  }

  lemma LastChar(prefix: string, stage: string)
    requires IsStage(stage)
    ensures (prefix + stage)[|prefix + stage| - 1] == (if stage == INITIAL then 't' else 'n')
  {
  }

  lemma StageSuffix(p: string, s: string, p': string, s': string)
    requires IsStage(s) && IsStage(s') && p + s == p' + s'
    ensures p == p' && s == s'
  {
    LastChar(p, s);
    LastChar(p', s');
    assert (p + s)[..|p|] == p && (p' + s')[..|p'|] == p';
  }

  /** Two node names never share a bucket key, whatever characters they hold. */
  lemma KeyInjective(n: string, s: string, n': string, s': string)
    requires IsStage(s) && IsStage(s') && Key(n, s) == Key(n', s')
    ensures n == n' && s == s'
  {
    assert Key(n, s) == (n + ":") + s && Key(n', s') == (n' + ":") + s';
    StageSuffix(n + ":", s, n' + ":", s');
    assert (n + ":")[..|n|] == n && (n' + ":")[..|n'|] == n';
  }

  lemma JobIdParts(u: string, n: string, s: string)
    requires ':' !in u
    ensures var id := JobId(u, n, s); var i := FindBreak(id);
            |u| + 2 <= |id| && i == |u| && id[..i] == u && id[i + 2..] == (n + "::") + s
  {
    var id := JobId(u, n, s);
    assert id == u + "::" + ((n + "::") + s);
    FindBreakAfter(u, (n + "::") + s);
  }

  /** Two jobs never share an id as long as URL ids hold no colon. */
  lemma JobIdInjective(u: string, n: string, s: string, u': string, n': string, s': string)
    requires IsStage(s) && IsStage(s') && ':' !in u && ':' !in u'
    requires JobId(u, n, s) == JobId(u', n', s')
    ensures u == u' && n == n' && s == s'
  {
    JobIdParts(u, n, s);
    JobIdParts(u', n', s');
    StageSuffix(n + "::", s, n' + "::", s');
    assert n == (n + "::")[..|n|] && n' == (n' + "::")[..|n'|];
  }
}
