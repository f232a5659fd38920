/** What the reconciler guarantees over whole histories, and exactly when a pass does nothing. */
module ReconcilerSafety {
  import opened Common
  import opened Versions
  import opened CommandState
  import DispatchHistory
  import opened RolloutState
  import Rollout
  import opened Reconciler

  // ---- at most one update in flight per node ----

  /** What happens to the dispatcher, one step at a time: the guarded sends of any number of interleaved passes, any
      other command, any result. */
  datatype Event =
    | GuardedUpdate(node: string, command: Command, live: bool)
    | OtherCommand(node: string, command: Command, live: bool)
    | ResultArrives(node: string, report: Report)

  predicate Allowed(e: Event) {
    match e
    case GuardedUpdate(_, c, _) => IsUpdate(c.verb)
    case OtherCommand(_, c, _) => !IsUpdate(c.verb)
    case ResultArrives(_, _) => true
  }

  function Step(d: Dispatch, e: Event): Dispatch {
    match e
    case GuardedUpdate(n, c, live) => if HasInFlight(d, n, "update") then d else Send(d, n, c, live)
    case OtherCommand(n, c, live) => Send(d, n, c, live)
    case ResultArrives(n, r) => OnResult(d, n, r)
  }

  function Run(d: Dispatch, events: seq<Event>): Dispatch {
    if events == [] then d else Step(Run(d, events[..|events| - 1]), events[|events| - 1])
  }

  function UpdatesInFlight(d: Dispatch, node: string): set<string> {
    set id | id in Bucket(d, node) && IsUpdate(Bucket(d, node)[id].command.verb)
  }

  lemma StepFiles(d: Dispatch, e: Event, node: string)
    requires DispatchHistory.Filed(d, node)
    ensures DispatchHistory.Filed(Step(d, e), node)
  {
    match e
    case GuardedUpdate(n, c, live) => DispatchHistory.StepFiles(d, DispatchHistory.Sent(n, c, live), node);
    case OtherCommand(n, c, live) => DispatchHistory.StepFiles(d, DispatchHistory.Sent(n, c, live), node);
    case ResultArrives(n, r) => DispatchHistory.StepFiles(d, DispatchHistory.Resulted(n, r), node);
  }

  lemma NoneInFlight(d: Dispatch, node: string)
    requires DispatchHistory.Filed(d, node) && !HasInFlight(d, node, "update")
    ensures UpdatesInFlight(d, node) == {}
  {
    forall id | id in Bucket(d, node) ensures !IsUpdate(Bucket(d, node)[id].command.verb) {
      assert DispatchHistory.WellFiled(id, Bucket(d, node)[id]);
    }
  }

  lemma StepKeepsOne(d: Dispatch, e: Event, node: string)
    requires Allowed(e) && DispatchHistory.Filed(d, node) && |UpdatesInFlight(d, node)| <= 1
    ensures |UpdatesInFlight(Step(d, e), node)| <= 1
  {
    var before, after := UpdatesInFlight(d, node), UpdatesInFlight(Step(d, e), node);
    if e.GuardedUpdate? && e.node == node && !HasInFlight(d, node, "update") {
      NoneInFlight(d, node);
      assert after == {e.command.id};
    } else {
      SubsetSize(after, before);
    }
  }

  /** Reconciler idempotence: whatever the interleaving of passes, other commands and results, no node name ever has
      two update commands in flight, over both components. */
  lemma {:induction false} OneUpdatePerNode(events: seq<Event>, node: string)
    requires forall e :: e in events ==> Allowed(e)
    ensures |UpdatesInFlight(Run(FRESH_DISPATCH, events), node)| <= 1
    ensures DispatchHistory.Filed(Run(FRESH_DISPATCH, events), node)
  {
    if events == [] {
      assert UpdatesInFlight(FRESH_DISPATCH, node) == {};
    } else {
      OneUpdatePerNode(events[..|events| - 1], node);
      StepKeepsOne(Run(FRESH_DISPATCH, events[..|events| - 1]), events[|events| - 1], node);
      StepFiles(Run(FRESH_DISPATCH, events[..|events| - 1]), events[|events| - 1], node);
    }
  }

  lemma RunConcat(d: Dispatch, a: seq<Event>, e: Event)
    ensures Run(d, a + [e]) == Step(Run(d, a), e)
  {
    assert (a + [e])[..|a|] == a;
  }

  /** A pass is such a history: every update it sends is guarded, every other command is not an update. */
  lemma PassIsGuarded(w: World, p: Policy, nodes: seq<NodeRec>, d: Desired, ids: Ids) returns (events: seq<Event>)
    ensures forall e :: e in events ==> Allowed(e)
    ensures Run(w.dispatch, events) == Pass(w, p, nodes, d, ids).0.dispatch
  {
    events := ConvergeIsGuarded(w, [], w.dispatch, p, nodes, SUPERVISOR, d, ids);
    var (w1, ok1) := Converge(w, p, nodes, SUPERVISOR, d, ids);
    if ok1 {
      events := ConvergeIsGuarded(w1, events, w.dispatch, p, nodes, WORKER, d, ids);
      var (w2, ok2) := Converge(w1, p, nodes, WORKER, d, ids);
      if ok2 {
        events := DrainsAreOther(w2, events, w.dispatch, nodes, d, ids);
      }
    }
  }

  lemma ConvergeIsGuarded(w: World, before: seq<Event>, start: Dispatch, p: Policy, nodes: seq<NodeRec>,
                          component: string, d: Desired, ids: Ids)
    returns (events: seq<Event>)
    requires (forall e :: e in before ==> Allowed(e)) && Run(start, before) == w.dispatch
    ensures forall e :: e in events ==> Allowed(e)
    ensures Run(start, events) == Converge(w, p, nodes, component, d, ids).0.dispatch
  {
    var version := Field(d.versions, FieldOf(component));
    if version == "" {
      events := before;
    } else {
      var key, needing := RolloutKey(component, version), Needing(nodes, component, d.versions);
      events := UpdatesAreGuarded(w.(rollouts := Pick(w.rollouts, p, key, needing)), before, start,
                                  Batch(p, StateOf(w.rollouts, key), needing), component, d, ids);
    }
  }

  lemma {:induction false} UpdatesAreGuarded(w: World, before: seq<Event>, start: Dispatch, batch: seq<string>,
                                             component: string, d: Desired, ids: Ids)
    returns (events: seq<Event>)
    requires (forall e :: e in before ==> Allowed(e)) && Run(start, before) == w.dispatch
    ensures forall e :: e in events ==> Allowed(e)
    ensures Run(start, events) == SendUpdates(w, batch, component, d, ids).0.dispatch
    decreases |batch|
  {
    if batch == [] {
      events := before;
    } else if HasInFlight(w.dispatch, batch[0], "update") {
      events := UpdatesAreGuarded(w, before, start, batch[1..], component, d, ids);
    } else if RolloutKey(component, Field(d.versions, FieldOf(component))) !in d.bundles {
      events := before;
    } else {
      var live := Live(d, batch[0]);
      var e := GuardedUpdate(batch[0], Command(ids(w.next), UpdateVerb(component)), live);
      RunConcat(start, before, e);
      events := before + [e];
      if live {
        events := UpdatesAreGuarded(Issue(w, batch[0], UpdateVerb(component), live, ids), events, start, batch[1..],
                                    component, d, ids);
      }
    }
  }

  lemma {:induction false} DrainsAreOther(w: World, before: seq<Event>, start: Dispatch, nodes: seq<NodeRec>, d: Desired,
                                          ids: Ids)
    returns (events: seq<Event>)
    requires (forall e :: e in before ==> Allowed(e)) && Run(start, before) == w.dispatch
    ensures forall e :: e in events ==> Allowed(e)
    ensures Run(start, events) == SendDrains(w, nodes, d, ids).0.dispatch
    decreases |nodes|
  {
    if nodes == [] {
      events := before;
    } else if Agrees(nodes[0], d) {
      events := DrainsAreOther(w, before, start, nodes[1..], d, ids);
    } else {
      var live := Live(d, nodes[0].name);
      var e := OtherCommand(nodes[0].name, Command(ids(w.next), DrainVerb(nodes[0])), live);
      RunConcat(start, before, e);
      events := before + [e];
      if live {
        events := DrainsAreOther(Issue(w, nodes[0].name, DrainVerb(nodes[0]), live, ids), events, start, nodes[1..], d, ids);
      }
    }
  }

  // ---- when a pass sends nothing ----

  predicate AllBusy(dis: Dispatch, batch: seq<string>) {
    forall n :: n in batch ==> HasInFlight(dis, n, "update")
  }

  /** The batch the pass would pick for a component. */
  function BatchFor(w: World, p: Policy, nodes: seq<NodeRec>, component: string, d: Desired): seq<string> {
    var version := Field(d.versions, FieldOf(component));
    if version == "" then []
    else Batch(p, StateOf(w.rollouts, RolloutKey(component, version)), Needing(nodes, component, d.versions))
  }

  predicate Missing(component: string, d: Desired) {
    RolloutKey(component, Field(d.versions, FieldOf(component))) !in d.bundles
  }

  predicate DrainsAgree(nodes: seq<NodeRec>, d: Desired) {
    forall n :: n in nodes ==> Agrees(n, d)
  }

  /** Either nothing is due, or the pass gives up on an unregistered bundle before it has sent anything. */
  predicate Idle(w: World, p: Policy, nodes: seq<NodeRec>, d: Desired) {
    if !AllBusy(w.dispatch, BatchFor(w, p, nodes, SUPERVISOR, d)) then Missing(SUPERVISOR, d)
    else if !AllBusy(w.dispatch, BatchFor(w, p, nodes, WORKER, d)) then Missing(WORKER, d)
    else DrainsAgree(nodes, d)
  }

  lemma {:induction false} NextGrows(w: World, batch: seq<string>, component: string, d: Desired, ids: Ids)
    ensures SendUpdates(w, batch, component, d, ids).0.next >= w.next
    decreases |batch|
  {
    if batch != [] {
      NextGrows(w, batch[1..], component, d, ids);
      NextGrows(Issue(w, batch[0], UpdateVerb(component), Live(d, batch[0]), ids), batch[1..], component, d, ids);
    }
  }

  lemma {:induction false} NextGrowsByDrains(w: World, nodes: seq<NodeRec>, d: Desired, ids: Ids)
    ensures SendDrains(w, nodes, d, ids).0.next >= w.next
    decreases |nodes|
  {
    if nodes != [] {
      NextGrowsByDrains(w, nodes[1..], d, ids);
      NextGrowsByDrains(Issue(w, nodes[0].name, DrainVerb(nodes[0]), Live(d, nodes[0].name), ids), nodes[1..], d, ids);
    }
  }

  lemma {:induction false} UpdatesIdleIff(w: World, batch: seq<string>, component: string, d: Desired, ids: Ids)
    ensures var (w', ok) := SendUpdates(w, batch, component, d, ids);
      && (w'.next == w.next <==> AllBusy(w.dispatch, batch) || Missing(component, d))
      && (w'.next == w.next ==> w' == w && (ok <==> AllBusy(w.dispatch, batch)))
    decreases |batch|
  {
    if batch != [] {
      assert batch == [batch[0]] + batch[1..];
      if HasInFlight(w.dispatch, batch[0], "update") {
        UpdatesIdleIff(w, batch[1..], component, d, ids);
      } else if !Missing(component, d) {
        NextGrows(Issue(w, batch[0], UpdateVerb(component), Live(d, batch[0]), ids), batch[1..], component, d, ids);
      }
    }
  }

  lemma {:induction false} DrainsIdleIff(w: World, nodes: seq<NodeRec>, d: Desired, ids: Ids)
    ensures var (w', ok) := SendDrains(w, nodes, d, ids);
      (w'.next == w.next <==> DrainsAgree(nodes, d)) && (w'.next == w.next ==> w' == w && ok)
    decreases |nodes|
  {
    if nodes != [] {
      assert nodes == [nodes[0]] + nodes[1..];
      if Agrees(nodes[0], d) {
        DrainsIdleIff(w, nodes[1..], d, ids);
      } else {
        NextGrowsByDrains(Issue(w, nodes[0].name, DrainVerb(nodes[0]), Live(d, nodes[0].name), ids), nodes[1..], d, ids);
      }
    }
  }

  lemma KeysApart(v: string, v': string)
    ensures RolloutKey(SUPERVISOR, v) != RolloutKey(WORKER, v')
  {
    assert RolloutKey(SUPERVISOR, v)[0] == 'c' && RolloutKey(WORKER, v')[0] == 'a';
  }

  /** Converging on one component when it sends nothing changes its own rollout and nothing else. */
  lemma ConvergeIdleIff(w: World, p: Policy, nodes: seq<NodeRec>, component: string, d: Desired, ids: Ids)
    ensures var (w', ok) := Converge(w, p, nodes, component, d, ids); var batch := BatchFor(w, p, nodes, component, d);
      && w'.next >= w.next
      && (w'.next == w.next <==> AllBusy(w.dispatch, batch) || Missing(component, d))
      && (w'.next == w.next ==> w'.dispatch == w.dispatch && (ok <==> AllBusy(w.dispatch, batch)))
      && (forall k :: k != RolloutKey(component, Field(d.versions, FieldOf(component))) ==>
            StateOf(w'.rollouts, k) == StateOf(w.rollouts, k))
  {
    var version := Field(d.versions, FieldOf(component));
    if version != "" {
      var key, needing := RolloutKey(component, version), Needing(nodes, component, d.versions);
      var w1, batch := w.(rollouts := Pick(w.rollouts, p, key, needing)), BatchFor(w, p, nodes, component, d);
      UpdatesIdleIff(w1, batch, component, d, ids);
      NextGrows(w1, batch, component, d, ids);
      RolloutsKept(w1, batch, component, d, ids);
    }
  }

  lemma {:induction false} RolloutsKept(w: World, batch: seq<string>, component: string, d: Desired, ids: Ids)
    ensures SendUpdates(w, batch, component, d, ids).0.rollouts == w.rollouts
    decreases |batch|
  {
    if batch != [] {
      RolloutsKept(w, batch[1..], component, d, ids);
      RolloutsKept(Issue(w, batch[0], UpdateVerb(component), Live(d, batch[0]), ids), batch[1..], component, d, ids);
    }
  }

  /** Exactly when a pass issues no command at all; the dispatcher is then untouched. */
  lemma PassIdleIff(w: World, p: Policy, nodes: seq<NodeRec>, d: Desired, ids: Ids)
    ensures var w' := Pass(w, p, nodes, d, ids).0;
      && (w'.next == w.next <==> Idle(w, p, nodes, d))
      && (w'.next == w.next ==> w'.dispatch == w.dispatch)
  {
    ConvergeIdleIff(w, p, nodes, SUPERVISOR, d, ids);
    var (w1, ok1) := Converge(w, p, nodes, SUPERVISOR, d, ids);
    if ok1 {
      KeysApart(Field(d.versions, FieldOf(SUPERVISOR)), Field(d.versions, FieldOf(WORKER)));
      ConvergeIdleIff(w1, p, nodes, WORKER, d, ids);
      var (w2, ok2) := Converge(w1, p, nodes, WORKER, d, ids);
      if ok2 {
        DrainsIdleIff(w2, nodes, d, ids);
        NextGrowsByDrains(w2, nodes, d, ids);
      }
    }
  }

  lemma {:induction false} NoneNeeds(nodes: seq<NodeRec>, component: string, desired: VersionMap)
    ensures (forall n :: n in nodes ==> !Needs(n, component, desired)) <==> Needing(nodes, component, desired) == []
  {
    if nodes != [] {
      var front, last := nodes[..|nodes| - 1], nodes[|nodes| - 1];
      NoneNeeds(front, component, desired);
      assert nodes == front + [last];
    }
  }

  /** A fleet at or above the desired supervisor and worker versions, each node drained exactly as wanted, hears
      nothing. */
  lemma ConvergedFleetIsQuiet(w: World, p: Policy, nodes: seq<NodeRec>, d: Desired, ids: Ids)
    requires DrainsAgree(nodes, d)
    requires forall n :: n in nodes ==>
      !Behind(n.versions, d.versions)(FieldOf(SUPERVISOR)) && !Behind(n.versions, d.versions)(FieldOf(WORKER))
    ensures var (w', ok) := Pass(w, p, nodes, d, ids); ok && w'.next == w.next && w'.dispatch == w.dispatch
  {
    forall n | n in nodes ensures !Needs(n, SUPERVISOR, d.versions) && !Needs(n, WORKER, d.versions) {
      PlanQuietWhenCurrent(n.versions, d.versions);
    }
    NoneNeeds(nodes, SUPERVISOR, d.versions);
    NoneNeeds(nodes, WORKER, d.versions);
    PassIdleIff(w, p, nodes, d, ids);
    ConvergeIdleIff(w, p, nodes, SUPERVISOR, d, ids);
    var w1 := Converge(w, p, nodes, SUPERVISOR, d, ids).0;
    ConvergeIdleIff(w1, p, nodes, WORKER, d, ids);
    DrainsIdleIff(Converge(w1, p, nodes, WORKER, d, ids).0, nodes, d, ids);
  }

  // ---- nothing is sent without a reason ----

  /** Some node of that name is behind on the component the command updates, or its drain state is not as wanted. */
  ghost predicate Justified(m: Down, nodes: seq<NodeRec>, d: Desired) {
    exists n :: n in nodes && n.name == m.node &&
      match m.command.verb
      case "update_agent" => Behind(n.versions, d.versions)("agentVersion")
      case "update_control_plane_agent" => Behind(n.versions, d.versions)("controlPlaneAgentVersion")
      case "drain" => WantsDrain(n, d) && n.status != "draining"
      case "undrain" => !WantsDrain(n, d) && n.status == "draining"
      case _ => false
  }

  ghost predicate OnlyJustified(before: Dispatch, after: Dispatch, nodes: seq<NodeRec>, d: Desired) {
    forall m :: m in after.pushed ==> m in before.pushed || Justified(m, nodes, d)
  }

  lemma {:induction false} NeedingAreBehind(nodes: seq<NodeRec>, component: string, desired: VersionMap, name: string)
    requires name in Needing(nodes, component, desired)
    ensures exists n :: n in nodes && n.name == name && Needs(n, component, desired)
  {
    var front, last := nodes[..|nodes| - 1], nodes[|nodes| - 1];
    assert nodes == front + [last];
    if name in Needing(front, component, desired) {
      NeedingAreBehind(front, component, desired, name);
      var n :| n in front && n.name == name && Needs(n, component, desired);
      assert n in nodes;
    } else {
      assert last in nodes;
    }
  }

  lemma UpdateJustified(nodes: seq<NodeRec>, component: string, d: Desired, name: string, id: string)
    requires (component == SUPERVISOR || component == WORKER) && name in Needing(nodes, component, d.versions)
    ensures Justified(Down(name, Command(id, UpdateVerb(component))), nodes, d)
  {
    NeedingAreBehind(nodes, component, d.versions, name);
    var n :| n in nodes && n.name == name && Needs(n, component, d.versions);
    PlanQuietWhenCurrent(n.versions, d.versions);
  }

  lemma {:induction false} UpdatesJustified(w: World, batch: seq<string>, nodes: seq<NodeRec>, component: string,
                                            d: Desired, ids: Ids)
    requires component == SUPERVISOR || component == WORKER
    requires forall b :: b in batch ==> b in Needing(nodes, component, d.versions)
    ensures OnlyJustified(w.dispatch, SendUpdates(w, batch, component, d, ids).0.dispatch, nodes, d)
    decreases |batch|
  {
    if batch != [] {
      assert batch[0] in batch && forall b :: b in batch[1..] ==> b in batch;
      UpdateJustified(nodes, component, d, batch[0], ids(w.next));
      UpdatesJustified(w, batch[1..], nodes, component, d, ids);
      UpdatesJustified(Issue(w, batch[0], UpdateVerb(component), Live(d, batch[0]), ids), batch[1..], nodes, component, d, ids);
    }
  }

  lemma ConvergeJustified(w: World, p: Policy, nodes: seq<NodeRec>, component: string, d: Desired, ids: Ids)
    requires component == SUPERVISOR || component == WORKER
    ensures OnlyJustified(w.dispatch, Converge(w, p, nodes, component, d, ids).0.dispatch, nodes, d)
  {
    var version := Field(d.versions, FieldOf(component));
    if version != "" {
      var key, needing := RolloutKey(component, version), Needing(nodes, component, d.versions);
      FilterMembers(needing, (n: string) => n !in StateOf(w.rollouts, key).inFlight);
      UpdatesJustified(w.(rollouts := Pick(w.rollouts, p, key, needing)), BatchFor(w, p, nodes, component, d), nodes,
                       component, d, ids);
    }
  }

  lemma {:induction false} DrainsJustified(w: World, rest: seq<NodeRec>, nodes: seq<NodeRec>, d: Desired, ids: Ids)
    requires forall n :: n in rest ==> n in nodes
    ensures OnlyJustified(w.dispatch, SendDrains(w, rest, d, ids).0.dispatch, nodes, d)
    decreases |rest|
  {
    if rest != [] {
      assert rest[0] in nodes;
      DrainsJustified(w, rest[1..], nodes, d, ids);
      DrainsJustified(Issue(w, rest[0].name, DrainVerb(rest[0]), Live(d, rest[0].name), ids), rest[1..], nodes, d, ids);
    }
  }

  /** Every command a pass pushes has its reason in a node of that name: an update goes where that component is behind
      its desired version, a drain or undrain where the drain state is not as wanted; nothing else is pushed. */
  lemma PassIsJustified(w: World, p: Policy, nodes: seq<NodeRec>, d: Desired, ids: Ids)
    ensures OnlyJustified(w.dispatch, Pass(w, p, nodes, d, ids).0.dispatch, nodes, d)
  {
    ConvergeJustified(w, p, nodes, SUPERVISOR, d, ids);
    var (w1, ok1) := Converge(w, p, nodes, SUPERVISOR, d, ids);
    if ok1 {
      ConvergeJustified(w1, p, nodes, WORKER, d, ids);
      var (w2, ok2) := Converge(w1, p, nodes, WORKER, d, ids);
      if ok2 {
        DrainsJustified(w2, nodes, nodes, d, ids);
      }
    }
  }

  // ---- when a pass gets through ----

  /** The node has an update in flight, or can be sent one. */
  predicate Servable(dis: Dispatch, name: string, component: string, d: Desired) {
    HasInFlight(dis, name, "update") || (!Missing(component, d) && Live(d, name))
  }

  lemma UpdateTaken(w: World, name: string, component: string, live: bool, ids: Ids, n: string)
    ensures HasInFlight(Issue(w, name, UpdateVerb(component), live, ids).dispatch, n, "update") <==>
      HasInFlight(w.dispatch, n, "update") || n == name
  {
    var id, w' := ids(w.next), Issue(w, name, UpdateVerb(component), live, ids);
    if n == name {
      assert id in Bucket(w'.dispatch, n) && Bucket(w'.dispatch, n)[id].category == "update";
    } else {
      assert Bucket(w'.dispatch, n) == Bucket(w.dispatch, n);
    }
  }

  /** A batch is served to its end exactly when each of its nodes is busy or can be sent the update. */
  lemma {:induction false} UpdatesGoThroughIff(w: World, batch: seq<string>, component: string, d: Desired, ids: Ids)
    ensures SendUpdates(w, batch, component, d, ids).1 <==>
      forall b :: b in batch ==> Servable(w.dispatch, b, component, d)
    decreases |batch|
  {
    if batch != [] {
      assert batch == [batch[0]] + batch[1..];
      if HasInFlight(w.dispatch, batch[0], "update") {
        UpdatesGoThroughIff(w, batch[1..], component, d, ids);
      } else if Servable(w.dispatch, batch[0], component, d) {
        var w1 := Issue(w, batch[0], UpdateVerb(component), true, ids);
        UpdatesGoThroughIff(w1, batch[1..], component, d, ids);
        forall b | b in batch
          ensures Servable(w1.dispatch, b, component, d) <==> Servable(w.dispatch, b, component, d)
        {
          UpdateTaken(w, batch[0], component, true, ids, b);
        }
      }
    }
  }

  /** After a batch that was served to its end, its nodes are busy too. */
  lemma {:induction false} UpdatesTaken(w: World, batch: seq<string>, component: string, d: Desired, ids: Ids, n: string)
    requires SendUpdates(w, batch, component, d, ids).1
    ensures HasInFlight(SendUpdates(w, batch, component, d, ids).0.dispatch, n, "update") <==>
      HasInFlight(w.dispatch, n, "update") || n in batch
    decreases |batch|
  {
    if batch != [] {
      if HasInFlight(w.dispatch, batch[0], "update") {
        UpdatesTaken(w, batch[1..], component, d, ids, n);
      } else {
        UpdateTaken(w, batch[0], component, true, ids, n);
        UpdatesTaken(Issue(w, batch[0], UpdateVerb(component), true, ids), batch[1..], component, d, ids, n);
      }
    }
  }

  /** Both batches can be served: every node picked is busy, has been served with the first batch, or can be sent the
      update. */
  predicate GoesThrough(w: World, p: Policy, nodes: seq<NodeRec>, d: Desired) {
    var first := BatchFor(w, p, nodes, SUPERVISOR, d);
    && (forall b :: b in first ==> Servable(w.dispatch, b, SUPERVISOR, d))
    && (forall b :: b in BatchFor(w, p, nodes, WORKER, d) ==> b in first || Servable(w.dispatch, b, WORKER, d))
  }

  lemma ConvergeThroughIff(w: World, p: Policy, nodes: seq<NodeRec>, component: string, d: Desired, ids: Ids)
    ensures var batch := BatchFor(w, p, nodes, component, d);
      Converge(w, p, nodes, component, d, ids).1 <==> forall b :: b in batch ==> Servable(w.dispatch, b, component, d)
  {
    var version := Field(d.versions, FieldOf(component));
    if version != "" {
      var key, needing := RolloutKey(component, version), Needing(nodes, component, d.versions);
      UpdatesGoThroughIff(w.(rollouts := Pick(w.rollouts, p, key, needing)), BatchFor(w, p, nodes, component, d),
                          component, d, ids);
    }
  }

  lemma ConvergeTaken(w: World, p: Policy, nodes: seq<NodeRec>, component: string, d: Desired, ids: Ids, n: string)
    requires Converge(w, p, nodes, component, d, ids).1
    ensures HasInFlight(Converge(w, p, nodes, component, d, ids).0.dispatch, n, "update") <==>
      HasInFlight(w.dispatch, n, "update") || n in BatchFor(w, p, nodes, component, d)
  {
    var version := Field(d.versions, FieldOf(component));
    if version != "" {
      var key, needing := RolloutKey(component, version), Needing(nodes, component, d.versions);
      UpdatesTaken(w.(rollouts := Pick(w.rollouts, p, key, needing)), BatchFor(w, p, nodes, component, d),
                   component, d, ids, n);
    }
  }

  /** Both update steps of the pass complete. */
  predicate Updated(w: World, p: Policy, nodes: seq<NodeRec>, d: Desired, ids: Ids) {
    var (w1, ok1) := Converge(w, p, nodes, SUPERVISOR, d, ids);
    ok1 && Converge(w1, p, nodes, WORKER, d, ids).1
  }

  /** They do exactly when both batches can be served. */
  lemma GoesThroughIff(w: World, p: Policy, nodes: seq<NodeRec>, d: Desired, ids: Ids)
    ensures Updated(w, p, nodes, d, ids) <==> GoesThrough(w, p, nodes, d)
  {
    ConvergeThroughIff(w, p, nodes, SUPERVISOR, d, ids);
    var (w1, ok1) := Converge(w, p, nodes, SUPERVISOR, d, ids);
    if ok1 {
      ConvergeIdleIff(w, p, nodes, SUPERVISOR, d, ids);
      KeysApart(Field(d.versions, FieldOf(SUPERVISOR)), Field(d.versions, FieldOf(WORKER)));
      var second := BatchFor(w, p, nodes, WORKER, d);
      assert BatchFor(w1, p, nodes, WORKER, d) == second;
      ConvergeThroughIff(w1, p, nodes, WORKER, d, ids);
      forall b | b in second
        ensures Servable(w1.dispatch, b, WORKER, d) <==>
          b in BatchFor(w, p, nodes, SUPERVISOR, d) || Servable(w.dispatch, b, WORKER, d)
      {
        ConvergeTaken(w, p, nodes, SUPERVISOR, d, ids, b);
      }
    }
  }

  // ---- drains are not guarded ----

  /** The nodes the drain step gets to: it stops at a node that disagrees and has no session. */
  function Served(nodes: seq<NodeRec>, d: Desired): seq<NodeRec> {
    if nodes == [] || (!Agrees(nodes[0], d) && !Live(d, nodes[0].name)) then []
    else [nodes[0]] + Served(nodes[1..], d)
  }

  /** The commands the drain step pushes: they do not depend on what is in flight. */
  function DrainPushes(nodes: seq<NodeRec>, d: Desired, ids: Ids, next: nat): seq<Down>
    decreases |nodes|
  {
    if nodes == [] then []
    else if Agrees(nodes[0], d) then DrainPushes(nodes[1..], d, ids, next)
    else if !Live(d, nodes[0].name) then []
    else [Down(nodes[0].name, Command(ids(next), DrainVerb(nodes[0])))] + DrainPushes(nodes[1..], d, ids, next + 1)
  }

  lemma {:induction false} DrainsIgnoreFlight(w: World, nodes: seq<NodeRec>, d: Desired, ids: Ids)
    ensures var (w', ok) := SendDrains(w, nodes, d, ids);
      && w'.dispatch.pushed == w.dispatch.pushed + DrainPushes(nodes, d, ids, w.next)
      && (ok <==> Served(nodes, d) == nodes)
    decreases |nodes|
  {
    if nodes != [] {
      var rest := nodes[1..];
      assert nodes == [nodes[0]] + rest;
      if Agrees(nodes[0], d) {
        DrainsIgnoreFlight(w, rest, d, ids);
      } else {
        DrainsIgnoreFlight(Issue(w, nodes[0].name, DrainVerb(nodes[0]), Live(d, nodes[0].name), ids), rest, d, ids);
      }
    }
  }

  /** A pass completes without throwing exactly when both batches can be served and every node whose drain state is not
      as wanted has a session. */
  lemma PassCompletesIff(w: World, p: Policy, nodes: seq<NodeRec>, d: Desired, ids: Ids)
    ensures Pass(w, p, nodes, d, ids).1 <==>
      GoesThrough(w, p, nodes, d) && forall n :: n in nodes ==> Agrees(n, d) || Live(d, n.name)
  {
    GoesThroughIff(w, p, nodes, d, ids);
    var (w1, ok1) := Converge(w, p, nodes, SUPERVISOR, d, ids);
    var (w2, ok2) := Converge(w1, p, nodes, WORKER, d, ids);
    DrainsIgnoreFlight(w2, nodes, d, ids);
    ServedAllIff(nodes, d);
  }

  lemma {:induction false} ServedAllIff(nodes: seq<NodeRec>, d: Desired)
    ensures Served(nodes, d) == nodes <==> forall n :: n in nodes ==> Agrees(n, d) || Live(d, n.name)
  {
    if nodes != [] {
      assert nodes == [nodes[0]] + nodes[1..];
      ServedAllIff(nodes[1..], d);
    }
  }

  predicate DisagreesBusy(n: NodeRec, d: Desired, dis: Dispatch) {
    !Agrees(n, d) && HasInFlight(dis, n.name, "drain")
  }

  lemma {:induction false} DrainPushedIff(dis: Dispatch, nodes: seq<NodeRec>, d: Desired, ids: Ids, next: nat)
    ensures (exists m :: m in DrainPushes(nodes, d, ids, next) && HasInFlight(dis, m.node, "drain"))
      <==> (exists n :: n in Served(nodes, d) && DisagreesBusy(n, d, dis))
    decreases |nodes|
  {
    if nodes != [] && (Agrees(nodes[0], d) || Live(d, nodes[0].name)) {
      var rest := nodes[1..];
      assert Served(nodes, d) == [nodes[0]] + Served(rest, d);
      if Agrees(nodes[0], d) {
        DrainPushedIff(dis, rest, d, ids, next);
      } else {
        DrainPushedIff(dis, rest, d, ids, next + 1);
        var first := Down(nodes[0].name, Command(ids(next), DrainVerb(nodes[0])));
        assert DrainPushes(nodes, d, ids, next) == [first] + DrainPushes(rest, d, ids, next + 1);
        assert first in DrainPushes(nodes, d, ids, next) && nodes[0] in Served(nodes, d);
        assert HasInFlight(dis, first.node, "drain") <==> DisagreesBusy(nodes[0], d, dis);
      }
    }
  }

  lemma {:induction false} DrainPushesAreDrains(nodes: seq<NodeRec>, d: Desired, ids: Ids, next: nat)
    ensures forall m :: m in DrainPushes(nodes, d, ids, next) ==> IsDrain(m.command.verb)
    decreases |nodes|
  {
    if nodes != [] {
      DrainPushesAreDrains(nodes[1..], d, ids, next);
      DrainPushesAreDrains(nodes[1..], d, ids, next + 1);
    }
  }

  /** after continues before with updates only. */
  ghost predicate AddsUpdates(before: seq<Down>, after: seq<Down>) {
    before <= after && forall i :: |before| <= i < |after| ==> IsUpdate(after[i].command.verb)
  }

  lemma AddsTransitive(a: seq<Down>, b: seq<Down>, c: seq<Down>)
    requires AddsUpdates(a, b) && AddsUpdates(b, c)
    ensures AddsUpdates(a, c)
  {
    forall i | |a| <= i < |c| ensures IsUpdate(c[i].command.verb) {
      assert i < |b| ==> c[i] == b[i];
    }
  }

  lemma {:induction false} UpdatesPush(w: World, batch: seq<string>, component: string, d: Desired, ids: Ids)
    ensures AddsUpdates(w.dispatch.pushed, SendUpdates(w, batch, component, d, ids).0.dispatch.pushed)
    decreases |batch|
  {
    if batch != [] {
      var live := Live(d, batch[0]);
      var w1 := Issue(w, batch[0], UpdateVerb(component), live, ids);
      UpdatesPush(w, batch[1..], component, d, ids);
      UpdatesPush(w1, batch[1..], component, d, ids);
      AddsTransitive(w.dispatch.pushed, w1.dispatch.pushed,
                     SendUpdates(w1, batch[1..], component, d, ids).0.dispatch.pushed);
    }
  }

  lemma ConvergePushes(w: World, p: Policy, nodes: seq<NodeRec>, component: string, d: Desired, ids: Ids)
    ensures AddsUpdates(w.dispatch.pushed, Converge(w, p, nodes, component, d, ids).0.dispatch.pushed)
  {
    var version := Field(d.versions, FieldOf(component));
    if version != "" {
      var key, needing := RolloutKey(component, version), Needing(nodes, component, d.versions);
      UpdatesPush(w.(rollouts := Pick(w.rollouts, p, key, needing)), BatchFor(w, p, nodes, component, d),
                  component, d, ids);
    }
  }

  /** Among the commands pushed from before to after is a drain or undrain to a node that had one in flight. */
  ghost predicate ReissuesDrain(before: Dispatch, after: seq<Down>) {
    exists i :: |before.pushed| <= i < |after| && IsDrain(after[i].command.verb)
                && HasInFlight(before, after[i].node, "drain")
  }

  lemma ReissuesAmong(before: Dispatch, mid: seq<Down>, drains: seq<Down>)
    requires AddsUpdates(before.pushed, mid)
    requires forall m :: m in drains ==> IsDrain(m.command.verb)
    ensures ReissuesDrain(before, mid + drains) <==> exists m :: m in drains && HasInFlight(before, m.node, "drain")
  {
    var after := mid + drains;
    forall i | |mid| <= i < |after| ensures after[i] in drains {
      assert after[i] == drains[i - |mid|];
    }
    if m :| m in drains && HasInFlight(before, m.node, "drain") {
      var i :| 0 <= i < |drains| && drains[i] == m;
      assert after[|mid| + i] == m;
    }
  }

  lemma ThroughPassReissues(w: World, p: Policy, nodes: seq<NodeRec>, d: Desired, ids: Ids)
    requires Updated(w, p, nodes, d, ids)
    ensures ReissuesDrain(w.dispatch, Pass(w, p, nodes, d, ids).0.dispatch.pushed) <==>
      exists n :: n in Served(nodes, d) && DisagreesBusy(n, d, w.dispatch)
  {
    var (w1, _) := Converge(w, p, nodes, SUPERVISOR, d, ids);
    var (w2, _) := Converge(w1, p, nodes, WORKER, d, ids);
    ConvergePushes(w, p, nodes, SUPERVISOR, d, ids);
    ConvergePushes(w1, p, nodes, WORKER, d, ids);
    AddsTransitive(w.dispatch.pushed, w1.dispatch.pushed, w2.dispatch.pushed);
    DrainsIgnoreFlight(w2, nodes, d, ids);
    DrainPushesAreDrains(nodes, d, ids, w2.next);
    DrainPushedIff(w.dispatch, nodes, d, ids, w2.next);
    ReissuesAmong(w.dispatch, w2.dispatch.pushed, DrainPushes(nodes, d, ids, w2.next));
  }

  lemma StoppedPassReissuesNone(w: World, p: Policy, nodes: seq<NodeRec>, d: Desired, ids: Ids)
    requires !Updated(w, p, nodes, d, ids)
    ensures AddsUpdates(w.dispatch.pushed, Pass(w, p, nodes, d, ids).0.dispatch.pushed)
  {
    var (w1, ok1) := Converge(w, p, nodes, SUPERVISOR, d, ids);
    ConvergePushes(w, p, nodes, SUPERVISOR, d, ids);
    if ok1 {
      ConvergePushes(w1, p, nodes, WORKER, d, ids);
      AddsTransitive(w.dispatch.pushed, w1.dispatch.pushed, Converge(w1, p, nodes, WORKER, d, ids).0.dispatch.pushed);
    }
  }

  /** Exactly when a pass re-issues a drain: both update steps get through, and among the nodes the drain step gets to
      there is one whose drain state is not as wanted and that has a drain or undrain in flight already. */
  lemma DrainReissuedIff(w: World, p: Policy, nodes: seq<NodeRec>, d: Desired, ids: Ids)
    ensures ReissuesDrain(w.dispatch, Pass(w, p, nodes, d, ids).0.dispatch.pushed) <==>
      GoesThrough(w, p, nodes, d) && exists n :: n in Served(nodes, d) && DisagreesBusy(n, d, w.dispatch)
  {
    GoesThroughIff(w, p, nodes, d, ids);
    if Updated(w, p, nodes, d, ids) {
      ThroughPassReissues(w, p, nodes, d, ids);
    } else {
      StoppedPassReissuesNone(w, p, nodes, d, ids);
    }
  }

  // ---- a session that has not said hello ----

  /** A pass that picks the record of such a session for the supervisor, and has not done so before, throws. */
  lemma UnnamedStopsThePass(w: World, p: Policy, nodes: seq<NodeRec>, d: Desired, ids: Ids)
    requires "" in BatchFor(w, p, nodes, SUPERVISOR, d) && !HasInFlight(w.dispatch, "", "update")
    ensures !Pass(w, p, nodes, d, ids).1
  {
    PassCompletesIff(w, p, nodes, d, ids);
    assert !Servable(w.dispatch, "", SUPERVISOR, d);
  }

  /** One such record and one desired supervisor version are enough. */
  lemma UnnamedThrows(ids: Ids)
    ensures var d := Desired(map["controlPlaneAgentVersion" := "2"], {}, {}, {RolloutKey(SUPERVISOR, "2")});
      !Pass(World(FRESH_DISPATCH, map[], 0), Policy(1, 1, 1), [NodeRec("", "connected", map[])], d, ids).1
  {
    var d := Desired(map["controlPlaneAgentVersion" := "2"], {}, {}, {RolloutKey(SUPERVISOR, "2")});
    var w, p, n := World(FRESH_DISPATCH, map[], 0), Policy(1, 1, 1), NodeRec("", "connected", map[]);
    assert Field(n.versions, FieldOf(SUPERVISOR)) == "" && Field(d.versions, FieldOf(SUPERVISOR)) == "2";
    assert Groups("") == [] && Groups("2") != [];
    PlanQuietWhenCurrent(n.versions, d.versions);
    assert [n][..0] == [] && Needing([n], SUPERVISOR, d.versions) == [""];
    Rollout.BatchOfAll(p, FRESH_ROLLOUT, [""]);
    assert StateOf(w.rollouts, RolloutKey(SUPERVISOR, "2")) == FRESH_ROLLOUT;
    assert BatchFor(w, p, [n], SUPERVISOR, d) == [""];
    UnnamedStopsThePass(w, p, [n], d, ids);
  }

  /** A drain flag for a node called "undefined" is taken for one on a session without a name, and no other flag is: such
      a session then makes a pass throw that would complete without the flag. */
  lemma UndefinedIsUnnamed(p: Policy, drain: set<string>, ids: Ids)
    ensures Pass(World(FRESH_DISPATCH, map[], 0), p, [NodeRec("", "connected", map[])], Desired(map[], drain, {}, {}), ids).1
      <==> "undefined" !in drain
  {
    var w, n, d := World(FRESH_DISPATCH, map[], 0), NodeRec("", "connected", map[]), Desired(map[], drain, {}, {});
    assert Field(d.versions, FieldOf(SUPERVISOR)) == "" && Field(d.versions, FieldOf(WORKER)) == "";
    PassCompletesIff(w, p, [n], d, ids);
    assert n in [n];
  }

  lemma DrainPass(w: World, p: Policy, name: string, ids: Ids)
    requires name != ""
    ensures Pass(w, p, [NodeRec(name, "ready", map[])], Desired(map[], {name}, {name}, {}), ids)
         == (Issue(w, name, "drain", true, ids), true)
  {
    var nodes, d := [NodeRec(name, "ready", map[])], Desired(map[], {name}, {name}, {});
    assert Field(d.versions, FieldOf(SUPERVISOR)) == "" && Field(d.versions, FieldOf(WORKER)) == "";
    var w1 := Issue(w, name, "drain", true, ids);
    assert nodes[1..] == [] && SendDrains(w1, [], d, ids) == (w1, true);
    assert SendDrains(w, nodes, d, ids) == (w1, true);
  }

  /** Two passes over one node that should drain and has not yet said so put two drain commands in flight. */
  lemma DrainSentTwice(p: Policy, name: string, ids: Ids)
    requires name != "" && ids(0) != ids(1)
    ensures var nodes, d := [NodeRec(name, "ready", map[])], Desired(map[], {name}, {name}, {});
      var w := Pass(World(FRESH_DISPATCH, map[], 0), p, nodes, d, ids).0;
      var b := Bucket(Pass(w, p, nodes, d, ids).0.dispatch, name);
      ids(0) in b && ids(1) in b && b[ids(0)].command.verb == b[ids(1)].command.verb == "drain"
  {
    var w0 := World(FRESH_DISPATCH, map[], 0);
    DrainPass(w0, p, name, ids);
    DrainPass(Issue(w0, name, "drain", true, ids), p, name, ids);
  }
}
