/** Completeness of the desired-state loop: who is handed to a rollout, and that a pass that gets through passes nobody
    over without a reason. */
module ReconcilerProgress {
  import opened Versions
  import opened CommandState
  import opened RolloutState
  import Rollout
  import opened Reconciler
  import opened ReconcilerSafety

  /** The node is behind its desired version on the component. */
  function IsBehind(component: string, d: Desired): NodeRec -> bool {
    (n: NodeRec) => Behind(n.versions, d.versions)(FieldOf(component))
  }

  lemma NeedsIff(n: NodeRec, component: string, d: Desired)
    ensures Needs(n, component, d.versions) <==> IsBehind(component, d)(n)
  {
    assert IsBehind(component, d)(n) == Behind(n.versions, d.versions)(FieldOf(component));
    PlanQuietWhenCurrent(n.versions, d.versions);
  }

  ghost predicate NoneMissed(at: seq<nat>, nodes: seq<NodeRec>, q: NodeRec -> bool) {
    forall i: nat :: i < |nodes| && q(nodes[i]) ==> i in at
  }

  ghost predicate Named(names: seq<string>, at: seq<nat>, nodes: seq<NodeRec>, q: NodeRec -> bool) {
    |names| == |at| && forall k :: 0 <= k < |at| ==> at[k] < |nodes| && q(nodes[at[k]]) && names[k] == nodes[at[k]].name
  }

  /** at holds, in order, the places of all nodes that satisfy q, and names their names. */
  ghost predicate Lists(names: seq<string>, at: seq<nat>, nodes: seq<NodeRec>, q: NodeRec -> bool) {
    (forall i, j :: 0 <= i < j < |at| ==> at[i] < at[j]) && NoneMissed(at, nodes, q) && Named(names, at, nodes, q)
  }

  lemma NoneMissedNext(at: seq<nat>, nodes: seq<NodeRec>, n: nat, q: NodeRec -> bool)
    requires n < |nodes| && NoneMissed(at, nodes[..n], q)
    ensures NoneMissed(if q(nodes[n]) then at + [n] else at, nodes[..n + 1], q)
  {
    var at' := if q(nodes[n]) then at + [n] else at;
    forall i: nat | i < |nodes[..n + 1]| && q(nodes[..n + 1][i]) ensures i in at' {
      if i < n {
        assert nodes[..n][i] == nodes[i] && i in at;
      } else {
        assert at'[|at|] == i;
      }
    }
  }

  lemma NamedNext(names: seq<string>, at: seq<nat>, nodes: seq<NodeRec>, n: nat, q: NodeRec -> bool)
    requires n < |nodes| && Named(names, at, nodes[..n], q)
    ensures Named(names, at, nodes[..n + 1], q)
    ensures q(nodes[n]) ==> Named(names + [nodes[n].name], at + [n], nodes[..n + 1], q)
  {
  }

  lemma OneMoreNode(names: seq<string>, at: seq<nat>, nodes: seq<NodeRec>, n: nat, q: NodeRec -> bool)
    requires n < |nodes| && Lists(names, at, nodes[..n], q)
    ensures if q(nodes[n]) then Lists(names + [nodes[n].name], at + [n], nodes[..n + 1], q)
            else Lists(names, at, nodes[..n + 1], q)
  {
    NoneMissedNext(at, nodes, n, q);
    NamedNext(names, at, nodes, n, q);
  }

  lemma NeedingGrows(nodes: seq<NodeRec>, component: string, d: Desired)
    requires nodes != []
    ensures var front, last := nodes[..|nodes| - 1], nodes[|nodes| - 1];
      Needing(nodes, component, d.versions)
      == Needing(front, component, d.versions) + (if IsBehind(component, d)(last) then [last.name] else [])
  {
    NeedsIff(nodes[|nodes| - 1], component, d);
  }

  /** Handed to a rollout are the names of exactly the nodes that are behind on the component, each as often as it is
      registered, in registry order. */
  lemma {:induction false} NeedingLists(nodes: seq<NodeRec>, component: string, d: Desired) returns (at: seq<nat>)
    ensures Lists(Needing(nodes, component, d.versions), at, nodes, IsBehind(component, d))
  {
    if nodes == [] {
      at := [];
    } else {
      var n := |nodes| - 1;
      at := NeedingLists(nodes[..n], component, d);
      NeedingGrows(nodes, component, d);
      OneMoreNode(Needing(nodes[..n], component, d.versions), at, nodes, n, IsBehind(component, d));
      assert nodes[..|nodes|] == nodes;
      at := if IsBehind(component, d)(nodes[n]) then at + [n] else at;
    }
  }

  // ---- who is attended to ----

  /** The rollout is halted, or has as many nodes in flight as it may, or this batch is as large as it may be. */
  ghost predicate AtABound(p: Policy, h: seq<Rollout.Event>, key: string, batch: seq<string>) {
    || Rollout.Halted(h, key)
    || |Rollout.Outstanding(h, key)| + |batch| >= p.maxInFlight
    || |batch| == (if Rollout.SucceededOnce(h, key) then p.batchSize else p.canary)
  }

  /** The rollouts the pass finds are those of a history h, in which the key of the component version has this state. */
  ghost predicate Knows(w: World, p: Policy, h: seq<Rollout.Event>, key: string) {
    Rollout.Valid(p, h) && StateOf(w.rollouts, key) == StateOf(Rollout.After(p, h), key)
  }

  function KeyFor(component: string, d: Desired): string {
    RolloutKey(component, Field(d.versions, FieldOf(component)))
  }

  lemma BehindIsHandedOver(nodes: seq<NodeRec>, component: string, d: Desired, n: NodeRec)
    requires n in nodes && IsBehind(component, d)(n)
    ensures n.name in Needing(nodes, component, d.versions) && Field(d.versions, FieldOf(component)) != ""
  {
    var needing := Needing(nodes, component, d.versions);
    var at := NeedingLists(nodes, component, d);
    var i: nat :| i < |nodes| && nodes[i] == n;
    var k: nat :| k < |at| && at[k] == i;
    assert needing[k] == n.name;
  }

  lemma HandedOverIsPicked(w: World, p: Policy, h: seq<Rollout.Event>, nodes: seq<NodeRec>, component: string, d: Desired,
                           name: string)
    requires Knows(w, p, h, KeyFor(component, d)) && name in Needing(nodes, component, d.versions)
    requires Field(d.versions, FieldOf(component)) != ""
    ensures var key, batch := KeyFor(component, d), BatchFor(w, p, nodes, component, d);
      name in Rollout.Outstanding(h, key) || name in batch || AtABound(p, h, key, batch)
  {
    Rollout.NextBatch(p, h, KeyFor(component, d), Needing(nodes, component, d.versions));
  }

  /** The node was outstanding in its rollout before the pass, has an update in flight after it, or its rollout is at a
      bound. */
  ghost predicate Attended(p: Policy, h: seq<Rollout.Event>, key: string, batch: seq<string>, after: Dispatch, name: string)
  {
    name in Rollout.Outstanding(h, key) || HasInFlight(after, name, "update") || AtABound(p, h, key, batch)
  }

  lemma ConvergeAttends(w: World, p: Policy, h: seq<Rollout.Event>, nodes: seq<NodeRec>, component: string, d: Desired,
                        ids: Ids, name: string)
    requires Knows(w, p, h, KeyFor(component, d)) && Converge(w, p, nodes, component, d, ids).1
    requires name in Needing(nodes, component, d.versions) && Field(d.versions, FieldOf(component)) != ""
    ensures Attended(p, h, KeyFor(component, d), BatchFor(w, p, nodes, component, d),
                     Converge(w, p, nodes, component, d, ids).0.dispatch, name)
  {
    HandedOverIsPicked(w, p, h, nodes, component, d, name);
    ConvergeTaken(w, p, nodes, component, d, ids, name);
  }

  // ---- over a whole pass ----

  /** Command ids are new: no two drawn are alike, and none to be drawn is in the in-flight table. */
  ghost predicate FreshIds(w: World, ids: Ids) {
    && (forall i: nat, j: nat :: i != j ==> ids(i) != ids(j))
    && (forall k: nat, n :: k >= w.next ==> ids(k) !in Bucket(w.dispatch, n))
  }

  lemma IssueKeeps(w: World, name: string, verb: string, live: bool, ids: Ids)
    requires FreshIds(w, ids)
    ensures var w' := Issue(w, name, verb, live, ids);
      FreshIds(w', ids) && forall n :: HasInFlight(w.dispatch, n, "update") ==> HasInFlight(w'.dispatch, n, "update")
  {
    var w' := Issue(w, name, verb, live, ids);
    forall n | HasInFlight(w.dispatch, n, "update") ensures HasInFlight(w'.dispatch, n, "update") {
      var id :| id in Bucket(w.dispatch, n) && Bucket(w.dispatch, n)[id].category == "update";
      assert id != ids(w.next);
      assert id in Bucket(w'.dispatch, n) && Bucket(w'.dispatch, n)[id] == Bucket(w.dispatch, n)[id];
    }
    forall k: nat, n | k >= w'.next ensures ids(k) !in Bucket(w'.dispatch, n) {
      assert ids(k) !in Bucket(w.dispatch, n) && ids(k) != ids(w.next);
    }
  }

  lemma {:induction false} UpdatesKeepFresh(w: World, batch: seq<string>, component: string, d: Desired, ids: Ids)
    requires FreshIds(w, ids)
    ensures FreshIds(SendUpdates(w, batch, component, d, ids).0, ids)
    decreases |batch|
  {
    if batch != [] {
      var live := Live(d, batch[0]);
      UpdatesKeepFresh(w, batch[1..], component, d, ids);
      IssueKeeps(w, batch[0], UpdateVerb(component), live, ids);
      UpdatesKeepFresh(Issue(w, batch[0], UpdateVerb(component), live, ids), batch[1..], component, d, ids);
    }
  }

  lemma ConvergeKeepsFresh(w: World, p: Policy, nodes: seq<NodeRec>, component: string, d: Desired, ids: Ids)
    requires FreshIds(w, ids)
    ensures FreshIds(Converge(w, p, nodes, component, d, ids).0, ids)
  {
    var version := Field(d.versions, FieldOf(component));
    if version != "" {
      var key, needing := RolloutKey(component, version), Needing(nodes, component, d.versions);
      UpdatesKeepFresh(w.(rollouts := Pick(w.rollouts, p, key, needing)), BatchFor(w, p, nodes, component, d),
                       component, d, ids);
    }
  }

  /** The drain step leaves updates in flight. */
  lemma {:induction false} DrainsKeepUpdates(w: World, nodes: seq<NodeRec>, d: Desired, ids: Ids, n: string)
    requires FreshIds(w, ids) && HasInFlight(w.dispatch, n, "update")
    ensures HasInFlight(SendDrains(w, nodes, d, ids).0.dispatch, n, "update")
    decreases |nodes|
  {
    if nodes != [] {
      var name, verb, live := nodes[0].name, DrainVerb(nodes[0]), Live(d, nodes[0].name);
      DrainsKeepUpdates(w, nodes[1..], d, ids, n);
      IssueKeeps(w, name, verb, live, ids);
      DrainsKeepUpdates(Issue(w, name, verb, live, ids), nodes[1..], d, ids, n);
    }
  }

  lemma WorkerStep(w: World, p: Policy, nodes: seq<NodeRec>, d: Desired, ids: Ids)
    requires Converge(w, p, nodes, SUPERVISOR, d, ids).1
    ensures var w1 := Converge(w, p, nodes, SUPERVISOR, d, ids).0;
      && StateOf(w1.rollouts, KeyFor(WORKER, d)) == StateOf(w.rollouts, KeyFor(WORKER, d))
      && BatchFor(w1, p, nodes, WORKER, d) == BatchFor(w, p, nodes, WORKER, d)
  {
    ConvergeIdleIff(w, p, nodes, SUPERVISOR, d, ids);
    KeysApart(Field(d.versions, FieldOf(SUPERVISOR)), Field(d.versions, FieldOf(WORKER)));
  }

  /** No node is left behind: when the update steps of a pass get through, every node that is behind on a component was
      outstanding in the rollout of that component already, or has an update in flight when the pass is over, unless that
      rollout is halted, its canary or batch size was reached, or maxInFlight was. */
  lemma PassAttends(w: World, p: Policy, h: seq<Rollout.Event>, nodes: seq<NodeRec>, d: Desired, ids: Ids,
                    component: string, n: NodeRec)
    requires FreshIds(w, ids) && Rollout.Valid(p, h) && w.rollouts == Rollout.After(p, h)
    requires Updated(w, p, nodes, d, ids)
    requires (component == SUPERVISOR || component == WORKER) && n in nodes && IsBehind(component, d)(n)
    ensures Attended(p, h, KeyFor(component, d), BatchFor(w, p, nodes, component, d),
                     Pass(w, p, nodes, d, ids).0.dispatch, n.name)
  {
    BehindIsHandedOver(nodes, component, d, n);
    var (w1, _) := Converge(w, p, nodes, SUPERVISOR, d, ids);
    var (w2, _) := Converge(w1, p, nodes, WORKER, d, ids);
    WorkerStep(w, p, nodes, d, ids);
    if component == SUPERVISOR {
      ConvergeAttends(w, p, h, nodes, SUPERVISOR, d, ids, n.name);
      ConvergeTaken(w1, p, nodes, WORKER, d, ids, n.name);
    } else {
      ConvergeAttends(w1, p, h, nodes, WORKER, d, ids, n.name);
    }
    ConvergeKeepsFresh(w, p, nodes, SUPERVISOR, d, ids);
    ConvergeKeepsFresh(w1, p, nodes, WORKER, d, ids);
    if HasInFlight(w2.dispatch, n.name, "update") {
      DrainsKeepUpdates(w2, nodes, d, ids, n.name);
    }
  }
}
