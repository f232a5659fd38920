/** The update manager as it is run, and what its rollouts never do. */
module Rollout {
  import opened Common
  import opened RolloutState

  class UpdateManager {
    const policy: Policy
    var rolloutState: Rollouts

    constructor (policy: Policy)
      ensures this.policy == policy && rolloutState == map[]
    {
      this.policy, rolloutState := policy, map[];
    }

    method StateFor(key: string) returns (st: RolloutState.Rollout)
      modifies this`rolloutState
      ensures st == StateOf(old(rolloutState), key) && rolloutState == old(rolloutState)[key := st]
    {
      if key !in rolloutState {
        rolloutState := rolloutState[key := FRESH_ROLLOUT];
      }
      st := rolloutState[key];
      assert rolloutState == rolloutState[key := st];
    }

    method PickRolloutBatch(component: string, version: string, needing: seq<string>) returns (batch: seq<string>)
      modifies this`rolloutState
      ensures var key := RolloutKey(component, version);
        && batch == Batch(policy, StateOf(old(rolloutState), key), needing)
        && rolloutState == Pick(old(rolloutState), policy, key, needing)
    {
      var key := RolloutKey(component, version);
      var st := StateFor(key);
      var capacity := Max(0, policy.maxInFlight - |st.inFlight|);
      if st.failed || capacity == 0 {
        assert st.inFlight == st.inFlight + set n | n in Batch(policy, st, needing);
        return [];
      }
      var eligible := EligibleNodes(needing, st.inFlight);
      var limit := if st.phase == Canary then Min(policy.canary, capacity) else Min(policy.batchSize, capacity);
      batch := Take(eligible, limit);
      var inFlight := AddAll(st.inFlight, batch);
      rolloutState := rolloutState[key := st.(inFlight := inFlight)];
    }

    method RecordOutcome(component: string, version: string, node: string, outcome: Outcome)
      returns (halted: bool)
      modifies this`rolloutState
      ensures rolloutState == Record(old(rolloutState), RolloutKey(component, version), node, outcome)
      ensures halted <==> outcome == Failed
    {
      var key := RolloutKey(component, version);
      var st := StateFor(key);
      st := st.(inFlight := st.inFlight - {node});
      if outcome == Failed {
        st := st.(failed := true);
      } else if outcome == Succeeded && st.phase == Canary {
        st := st.(canaryOk := true, phase := Rolling);
      }
      rolloutState := rolloutState[key := st];
      return outcome == Failed;
    }

    method ClearHalt(component: string, version: string)
      modifies this`rolloutState
      ensures rolloutState == Clear(old(rolloutState), RolloutKey(component, version))
    {
      var key := RolloutKey(component, version);
      var st := StateFor(key);
      rolloutState := rolloutState[key := st.(failed := false)];
    }
  }

  method EligibleNodes(needing: seq<string>, inFlight: set<string>) returns (eligible: seq<string>)
    ensures eligible == Eligible(needing, inFlight)
  {
    eligible := [];
    for i := 0 to |needing|
      invariant eligible == Eligible(needing[..i], inFlight)
    {
      assert needing[..i + 1][..i] == needing[..i];
      if needing[i] !in inFlight {
        eligible := eligible + [needing[i]];
      }
    }
    assert needing[..|needing|] == needing;
  }

  method AddAll(inFlight: set<string>, batch: seq<string>) returns (r: set<string>)
    ensures r == inFlight + set n | n in batch
  {
    r := inFlight;
    for i := 0 to |batch|
      invariant r == inFlight + set n | n in batch[..i]
    {
      assert batch[..i + 1] == batch[..i] + [batch[i]];
      r := r + {batch[i]};
    }
    assert batch[..|batch|] == batch;
  }

  // ---- histories ----

  /** What an observer sees: batches handed out, outcomes recorded, halts cleared. */
  datatype Event =
    | Picked(key: string, needing: seq<string>, batch: seq<string>)
    | Recorded(key: string, node: string, outcome: Outcome)
    | Cleared(key: string)

  function Step(m: Rollouts, p: Policy, e: Event): Rollouts {
    match e
    case Picked(k, needing, _) => Pick(m, p, k, needing)
    case Recorded(k, n, o) => Record(m, k, n, o)
    case Cleared(k) => Clear(m, k)
  }

  function After(p: Policy, h: seq<Event>): Rollouts {
    if h == [] then map[] else Step(After(p, h[..|h| - 1]), p, h[|h| - 1])
  }

  /** The batches seen are those the manager handed out. */
  predicate Valid(p: Policy, h: seq<Event>) {
    h == [] ||
    (var front, last := h[..|h| - 1], h[|h| - 1];
     Valid(p, front) && (last.Picked? ==> last.batch == Batch(p, StateOf(After(p, front), last.key), last.needing)))
  }

  /** Nodes picked whose outcome has not been recorded since: read off the history alone. */
  function Outstanding(h: seq<Event>, key: string): set<string> {
    if h == [] then {}
    else
      var before, last := Outstanding(h[..|h| - 1], key), h[|h| - 1];
      if last.key != key then before
      else
        match last
        case Picked(_, _, batch) => before + set n | n in batch
        case Recorded(_, n, _) => before - {n}
        case Cleared(_) => before
  }

  ghost predicate SucceededOnce(h: seq<Event>, key: string) {
    exists e :: e in h && e.Recorded? && e.key == key && e.outcome == Succeeded
  }

  /** A failure has been recorded and no halt cleared after it. */
  predicate Halted(h: seq<Event>, key: string) {
    h != [] &&
    (var last := h[|h| - 1];
     if last.key == key && last.Recorded? && last.outcome == Failed then true
     else if last.key == key && last.Cleared? then false
     else Halted(h[..|h| - 1], key))
  }

  /** The state of a rollout is what its history says. */
  ghost predicate Mirrors(st: RolloutState.Rollout, h: seq<Event>, key: string) {
    && st.inFlight == Outstanding(h, key) && st.failed == Halted(h, key)
    && (st.phase == Rolling <==> SucceededOnce(h, key)) && (st.canaryOk <==> st.phase == Rolling)
  }

  lemma SucceededGrows(h: seq<Event>, key: string)
    requires h != []
    ensures SucceededOnce(h, key) <==>
      SucceededOnce(h[..|h| - 1], key)
      || (h[|h| - 1].Recorded? && h[|h| - 1].key == key && h[|h| - 1].outcome == Succeeded)
  {
    var front, last := h[..|h| - 1], h[|h| - 1];
    assert h == front + [last];
  }

  lemma {:induction false} StateMirrorsHistory(p: Policy, h: seq<Event>, key: string)
    requires Valid(p, h)
    ensures Mirrors(StateOf(After(p, h), key), h, key)
  {
    if h != [] {
      StateMirrorsHistory(p, h[..|h| - 1], key);
      SucceededGrows(h, key);
    }
  }

  /** What one batch respects, given the history before it. */
  ghost predicate SafeBatch(p: Policy, h: seq<Event>, key: string, needing: seq<string>, batch: seq<string>) {
    && (forall n :: n in batch ==> n in needing && n !in Outstanding(h, key))
    && |Outstanding(h, key) + set n | n in batch| <= p.maxInFlight
    && |batch| <= (if SucceededOnce(h, key) then p.batchSize else p.canary)
    && (Halted(h, key) ==> batch == [])
  }

  /** A batch is also no smaller than it has to be: it stops only at a bound or when nobody is left. */
  ghost predicate FullBatch(p: Policy, h: seq<Event>, key: string, needing: seq<string>, batch: seq<string>) {
    || Halted(h, key)
    || |Outstanding(h, key)| + |batch| >= p.maxInFlight
    || |batch| == (if SucceededOnce(h, key) then p.batchSize else p.canary)
    || forall n :: n in needing && n !in Outstanding(h, key) ==> n in batch
  }

  lemma BatchMembers(p: Policy, st: RolloutState.Rollout, needing: seq<string>)
    ensures forall n :: n in Batch(p, st, needing) ==> n in needing && n !in st.inFlight
    ensures |Batch(p, st, needing)| <= Limit(p, st)
    ensures !st.failed && |Batch(p, st, needing)| < Limit(p, st) ==>
      forall n :: n in needing && n !in st.inFlight ==> n in Batch(p, st, needing)
  {
    var eligible, batch := Eligible(needing, st.inFlight), Batch(p, st, needing);
    FilterMembers(needing, (n: string) => n !in st.inFlight);
    if !st.failed && Capacity(p, st) > 0 {
      TakeMembers(eligible, Limit(p, st));
      assert batch == Take(eligible, Limit(p, st));
    }
  }

  lemma TakeMembers(s: seq<string>, n: nat)
    ensures |Take(s, n)| <= n && (forall x :: x in Take(s, n) ==> x in s) && (|Take(s, n)| < n ==> Take(s, n) == s)
  {
  }

  lemma InFlightBound(p: Policy, st: RolloutState.Rollout, needing: seq<string>)
    requires |st.inFlight| <= p.maxInFlight
    ensures |st.inFlight + set n | n in Batch(p, st, needing)| <= p.maxInFlight
  {
    var batch := Batch(p, st, needing);
    var names := set n | n in batch;
    BatchMembers(p, st, needing);
    DistinctSetSize(batch);
    assert |st.inFlight + names| <= |st.inFlight| + |names|;
  }

  /** In every history, the number of nodes in flight is within bounds. */
  lemma {:induction false} NeverTooManyInFlight(p: Policy, h: seq<Event>, key: string)
    requires Valid(p, h)
    ensures |Outstanding(h, key)| <= p.maxInFlight
  {
    if h != [] {
      var front, last := h[..|h| - 1], h[|h| - 1];
      NeverTooManyInFlight(p, front, key);
      StateMirrorsHistory(p, front, key);
      if last.key == key {
        match last
        case Picked(_, needing, _) => InFlightBound(p, StateOf(After(p, front), key), needing);
        case Recorded(_, n, _) => SubsetSize(Outstanding(h, key), Outstanding(front, key));
        case Cleared(_) =>
      }
    }
  }

  /** The names first in line, in the order handed in. */
  ghost predicate InLine(h: seq<Event>, key: string, needing: seq<string>, batch: seq<string>) {
    batch <= Filter(needing, (n: string) => n !in Outstanding(h, key))
  }

  lemma NextBatch(p: Policy, h: seq<Event>, key: string, needing: seq<string>)
    requires Valid(p, h)
    ensures var batch := Batch(p, StateOf(After(p, h), key), needing);
      SafeBatch(p, h, key, needing, batch) && FullBatch(p, h, key, needing, batch) && InLine(h, key, needing, batch)
  {
    StateMirrorsHistory(p, h, key);
    NeverTooManyInFlight(p, h, key);
    var st := StateOf(After(p, h), key);
    BatchMembers(p, st, needing);
    InFlightBound(p, st, needing);
    BatchInLine(p, st, needing);
    assert Filter(needing, (n: string) => n !in Outstanding(h, key)) == Eligible(needing, st.inFlight) by {
      FilterSame(needing, (n: string) => n !in Outstanding(h, key), (n: string) => n !in st.inFlight);
    }
  }

  lemma BatchInLine(p: Policy, st: RolloutState.Rollout, needing: seq<string>)
    ensures Batch(p, st, needing) <= Eligible(needing, st.inFlight)
  {
  }

  lemma {:induction false} FilterSame(s: seq<string>, q: string -> bool, q': string -> bool)
    requires forall x :: x in s ==> q(x) == q'(x)
    ensures Filter(s, q) == Filter(s, q')
  {
    if s != [] {
      FilterSame(s[..|s| - 1], q, q');
    }
  }

  /** Rollout safety: every batch in every history is drawn from the nodes that need the version and are not in flight,
      keeps the total within maxInFlight, is at most a canary until a success has been recorded and a wave after, is
      empty from a failure until the halt is cleared, and otherwise as large as these bounds allow; who is taken first
      goes by the order handed in. */
  lemma {:induction false} RolloutSafety(p: Policy, h: seq<Event>, i: nat)
    requires Valid(p, h) && i < |h| && h[i].Picked?
    ensures SafeBatch(p, h[..i], h[i].key, h[i].needing, h[i].batch)
    ensures FullBatch(p, h[..i], h[i].key, h[i].needing, h[i].batch)
    ensures InLine(h[..i], h[i].key, h[i].needing, h[i].batch)
  {
    var front := h[..|h| - 1];
    if i < |h| - 1 {
      assert front[..i] == h[..i];
      RolloutSafety(p, front, i);
    } else {
      NextBatch(p, front, h[i].key, h[i].needing);
    }
  }

  // ---- two limits of these guarantees ----

  /** A node is picked at most once per batch, whatever the state and the policy, exactly when the names handed in are
      distinct. */
  lemma OncePerBatchIff(needing: seq<string>)
    ensures (forall p, st :: Distinct(Batch(p, st, needing))) <==> Distinct(needing)
  {
    if Distinct(needing) {
      forall p, st ensures Distinct(Batch(p, st, needing)) {
        FilterDistinct(needing, (n: string) => n !in st.inFlight);
      }
    } else {
      var p := Policy(|needing|, 0, |needing|);
      FilterAll(needing, (n: string) => n !in FRESH_ROLLOUT.inFlight);
      assert Batch(p, FRESH_ROLLOUT, needing) == needing;
    }
  }

  lemma {:induction false} FilterDistinct(s: seq<string>, q: string -> bool)
    requires Distinct(s)
    ensures Distinct(Filter(s, q))
  {
    if s != [] {
      FilterDistinct(s[..|s| - 1], q);
      FilterMembers(s[..|s| - 1], q);
    }
  }

  lemma BatchOfAll(p: Policy, st: RolloutState.Rollout, needing: seq<string>)
    requires !st.failed && |needing| <= Limit(p, st) && 0 < Capacity(p, st)
    requires forall n :: n in needing ==> n !in st.inFlight
    ensures Batch(p, st, needing) == needing
  {
    FilterAll(needing, (x: string) => x !in st.inFlight);
  }

  /** One more batch of nodes that are not yet in flight, within the limit, is picked whole. */
  lemma OneMore(p: Policy, h: seq<Event>, key: string, needing: seq<string>)
    requires Valid(p, h) && !Halted(h, key) && !SucceededOnce(h, key)
    requires |needing| <= p.canary && 0 < p.canary && 0 < p.maxInFlight - |Outstanding(h, key)|
    requires |needing| <= p.maxInFlight - |Outstanding(h, key)|
    requires forall n :: n in needing ==> n !in Outstanding(h, key)
    ensures var h' := h + [Picked(key, needing, needing)];
      && Valid(p, h') && !Halted(h', key) && !SucceededOnce(h', key)
      && Outstanding(h', key) == Outstanding(h, key) + set n | n in needing
  {
    var h' := h + [Picked(key, needing, needing)];
    assert h'[..|h'| - 1] == h;
    StateMirrorsHistory(p, h, key);
    BatchOfAll(p, StateOf(After(p, h), key), needing);
    SucceededGrows(h', key);
  }

  /** k names, told apart by their lengths. */
  function Names(k: nat): (s: seq<string>)
    ensures |s| == k && forall i :: 0 <= i < k ==> |s[i]| == i
  {
    if k == 0 then [] else Names(k - 1) + [seq(k - 1, _ => 'n')]
  }

  lemma {:induction false} NoCanaryNoPick(p: Policy, h: seq<Event>, key: string)
    requires Valid(p, h) && p.canary == 0 && !SucceededOnce(h, key)
    ensures Outstanding(h, key) == {}
  {
    if h != [] {
      var front, last := h[..|h| - 1], h[|h| - 1];
      SucceededGrows(h, key);
      NoCanaryNoPick(p, front, key);
      StateMirrorsHistory(p, front, key);
      if last.Picked? {
        BatchMembers(p, StateOf(After(p, front), last.key), last.needing);
      }
    }
  }

  lemma FirstWave(p: Policy, key: string, names: seq<string>) returns (h: seq<Event>)
    requires |names| <= p.canary && 0 < p.canary && |names| <= p.maxInFlight && 0 < p.maxInFlight
    ensures Valid(p, h) && !Halted(h, key) && !SucceededOnce(h, key) && Outstanding(h, key) == set n | n in names
  {
    OneMore(p, [], key, names);
    h := [] + [Picked(key, names, names)];
  }

  lemma ExceedCanary(p: Policy, key: string) returns (h: seq<Event>)
    requires 0 < p.canary < p.maxInFlight
    ensures Valid(p, h) && !SucceededOnce(h, key) && |Outstanding(h, key)| > p.canary
  {
    var names, extra := Names(p.canary), seq(p.canary, _ => 'n');
    DistinctSetSize(names);
    h := FirstWave(p, key, names);
    var before := Outstanding(h, key);
    assert extra !in before;
    OneMore(p, h, key, [extra]);
    h := h + [Picked(key, [extra], [extra])];
    assert Outstanding(h, key) == before + {extra};
  }

  lemma StayWithinCanary(p: Policy, h: seq<Event>, key: string)
    requires Valid(p, h) && !SucceededOnce(h, key) && |Outstanding(h, key)| > p.canary
    ensures 0 < p.canary < p.maxInFlight
  {
    NeverTooManyInFlight(p, h, key);
    if p.canary == 0 {
      NoCanaryNoPick(p, h, key);
    }
  }

  /** The canary size bounds a batch, not the nodes in flight: before any success, more than canary nodes can be in
      flight exactly when maxInFlight allows more. */
  lemma CanaryExceededIff(p: Policy, key: string)
    ensures (exists h :: Valid(p, h) && !SucceededOnce(h, key) && |Outstanding(h, key)| > p.canary)
      <==> 0 < p.canary < p.maxInFlight
  {
    if 0 < p.canary < p.maxInFlight {
      var _ := ExceedCanary(p, key);
    }
    forall h | Valid(p, h) && !SucceededOnce(h, key) && |Outstanding(h, key)| > p.canary
      ensures 0 < p.canary < p.maxInFlight
    {
      StayWithinCanary(p, h, key);
    }
  }
}
