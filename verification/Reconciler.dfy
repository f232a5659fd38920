/** The desired-state loop (control-plane/control/reconciler.mjs). */
module Reconciler {
  import opened Versions
  import opened CommandState
  import Commands
  import opened RolloutState
  import Rollout

  /** A connected record of the registry. A session that has not said hello has no name yet, written "". */
  datatype NodeRec = NodeRec(name: string, status: string, versions: VersionMap)

  /** Desired versions, names the operator wants drained, names with a session, and keys of registered bundles. */
  datatype Desired = Desired(versions: VersionMap, drain: set<string>, live: set<string>, bundles: set<string>)

  /** The registry finds a session for the name; it throws on a missing name as it does on a missing session. */
  predicate Live(d: Desired, name: string) {
    name != "" && name in d.live
  }

  /** The operator's drain flags are the properties of an object; a missing name reads the property "undefined". */
  predicate WantsDrain(n: NodeRec, d: Desired) {
    (if n.name == "" then "undefined" else n.name) in d.drain
  }

  /** What a pass changes; next counts the command ids drawn from the supply. */
  datatype World = World(dispatch: Dispatch, rollouts: Rollouts, next: nat)

  const SUPERVISOR := "control-plane-agent"
  const WORKER := "agent"

  function FieldOf(component: string): string {
    if component == WORKER then "agentVersion" else "controlPlaneAgentVersion"
  }

  function UpdateVerb(component: string): string {
    if component == SUPERVISOR then "update_control_plane_agent" else "update_agent"
  }

  predicate Needs(n: NodeRec, component: string, desired: VersionMap) {
    var plan := PlanFor(n.versions, desired);
    if component == WORKER then plan.updateAgent else plan.updateSupervisor
  }

  function Needing(nodes: seq<NodeRec>, component: string, desired: VersionMap): seq<string> {
    if nodes == [] then []
    else
      var last := nodes[|nodes| - 1];
      Needing(nodes[..|nodes| - 1], component, desired) + (if Needs(last, component, desired) then [last.name] else [])
  }

  type Ids = nat -> string

  function Issue(w: World, name: string, verb: string, live: bool, ids: Ids): World {
    w.(dispatch := Send(w.dispatch, name, Command(ids(w.next), verb), live), next := w.next + 1)
  }

  /** Send the update to every node of the batch that has none in flight; false when the pass throws. */
  function SendUpdates(w: World, batch: seq<string>, component: string, d: Desired, ids: Ids): (World, bool)
    decreases |batch|
  {
    if batch == [] then (w, true)
    else if HasInFlight(w.dispatch, batch[0], "update") then SendUpdates(w, batch[1..], component, d, ids)
    else if RolloutKey(component, Field(d.versions, FieldOf(component))) !in d.bundles then (w, false)
    else
      var w1 := Issue(w, batch[0], UpdateVerb(component), Live(d, batch[0]), ids);
      if Live(d, batch[0]) then SendUpdates(w1, batch[1..], component, d, ids) else (w1, false)
  }

  function Converge(w: World, p: Policy, nodes: seq<NodeRec>, component: string, d: Desired, ids: Ids): (World, bool) {
    var version := Field(d.versions, FieldOf(component));
    if version == "" then (w, true)
    else
      var key, needing := RolloutKey(component, version), Needing(nodes, component, d.versions);
      SendUpdates(w.(rollouts := Pick(w.rollouts, p, key, needing)), Batch(p, StateOf(w.rollouts, key), needing),
                  component, d, ids)
  }

  predicate Agrees(n: NodeRec, d: Desired) {
    WantsDrain(n, d) <==> n.status == "draining"
  }

  function DrainVerb(n: NodeRec): string {
    if n.status == "draining" then "undrain" else "drain"
  }

  function SendDrains(w: World, nodes: seq<NodeRec>, d: Desired, ids: Ids): (World, bool)
    decreases |nodes|
  {
    if nodes == [] then (w, true)
    else if Agrees(nodes[0], d) then SendDrains(w, nodes[1..], d, ids)
    else
      var w1 := Issue(w, nodes[0].name, DrainVerb(nodes[0]), Live(d, nodes[0].name), ids);
      if Live(d, nodes[0].name) then SendDrains(w1, nodes[1..], d, ids) else (w1, false)
  }

  /** Supervisor updates, then worker updates, then drains; configuration is never pushed. */
  function Pass(w: World, p: Policy, nodes: seq<NodeRec>, d: Desired, ids: Ids): (World, bool) {
    var (w1, ok1) := Converge(w, p, nodes, SUPERVISOR, d, ids);
    if !ok1 then (w1, false)
    else
      var (w2, ok2) := Converge(w1, p, nodes, WORKER, d, ids);
      if !ok2 then (w2, false) else SendDrains(w2, nodes, d, ids)
  }

  class Reconciler {
    const dispatcher: Commands.Dispatcher
    const updates: Rollout.UpdateManager
    const ids: Ids
    var next: nat

    constructor (dispatcher: Commands.Dispatcher, updates: Rollout.UpdateManager, ids: Ids)
      ensures this.dispatcher == dispatcher && this.updates == updates && this.ids == ids && next == 0
    {
      this.dispatcher, this.updates, this.ids, next := dispatcher, updates, ids, 0;
    }

    ghost function Abstract(): World
      reads this, dispatcher, updates
    {
      World(dispatcher.Abstract(), updates.rolloutState, next)
    }

    method ReconcileOnce(nodes: seq<NodeRec>, d: Desired) returns (ok: bool)
      modifies this, dispatcher, updates
      ensures (Abstract(), ok) == Pass(old(Abstract()), updates.policy, nodes, d, ids)
    {
      ok := ConvergeComponent(nodes, SUPERVISOR, d);
      if ok {
        ok := ConvergeComponent(nodes, WORKER, d);
      }
      if ok {
        ok := ConvergeDrains(nodes, d);
      }
    }

    method SendCommand(name: string, verb: string, live: bool) returns (sent: bool)
      modifies this, dispatcher
      ensures Abstract() == Issue(old(Abstract()), name, verb, live, ids) && sent == live
    {
      sent := dispatcher.Send(name, Command(ids(next), verb), live);
      next := next + 1;
    }

    method ConvergeComponent(nodes: seq<NodeRec>, component: string, d: Desired) returns (ok: bool)
      modifies this, dispatcher, updates
      ensures (Abstract(), ok) == Converge(old(Abstract()), updates.policy, nodes, component, d, ids)
    {
      var version := Field(d.versions, FieldOf(component));
      if version == "" {
        return true;
      }
      var needing := NodesNeeding(nodes, component, d.versions);
      var batch := updates.PickRolloutBatch(component, version, needing);
      ok := SendBatch(batch, component, version, d);
    }

    method SendBatch(batch: seq<string>, component: string, version: string, d: Desired) returns (ok: bool)
      requires version == Field(d.versions, FieldOf(component))
      modifies this, dispatcher
      ensures (Abstract(), ok) == SendUpdates(old(Abstract()), batch, component, d, ids)
    {
      ghost var w := Abstract();
      for i := 0 to |batch|
        invariant SendUpdates(Abstract(), batch[i..], component, d, ids) == SendUpdates(w, batch, component, d, ids)
      {
        assert batch[i..][0] == batch[i] && batch[i..][1..] == batch[i + 1..];
        var busy := dispatcher.HasInFlightCommand(batch[i], "update");
        if !busy {
          if RolloutKey(component, version) !in d.bundles {
            return false;
          }
          var sent := SendCommand(batch[i], UpdateVerb(component), Live(d, batch[i]));
          if !sent {
            return false;
          }
        }
      }
      return true;
    }

    method ConvergeDrains(nodes: seq<NodeRec>, d: Desired) returns (ok: bool)
      modifies this, dispatcher
      ensures (Abstract(), ok) == SendDrains(old(Abstract()), nodes, d, ids)
    {
      ghost var w := Abstract();
      for i := 0 to |nodes|
        invariant SendDrains(Abstract(), nodes[i..], d, ids) == SendDrains(w, nodes, d, ids)
      {
        assert nodes[i..][0] == nodes[i] && nodes[i..][1..] == nodes[i + 1..];
        var wantDrain, draining := WantsDrain(nodes[i], d), nodes[i].status == "draining";
        if wantDrain && !draining {
          var sent := SendCommand(nodes[i].name, "drain", Live(d, nodes[i].name));
          if !sent {
            return false;
          }
        }
        if !wantDrain && draining {
          var sent := SendCommand(nodes[i].name, "undrain", Live(d, nodes[i].name));
          if !sent {
            return false;
          }
        }
      }
      return true;
    }
  }

  method NodesNeeding(nodes: seq<NodeRec>, component: string, desired: VersionMap) returns (needing: seq<string>)
    ensures needing == Needing(nodes, component, desired)
  {
    needing := [];
    for i := 0 to |nodes|
      invariant needing == Needing(nodes[..i], component, desired)
    {
      assert nodes[..i + 1][..i] == nodes[..i];
      var plan := UpdatePlan(nodes[i].versions, desired);
      if (if component == WORKER then plan.updateAgent else plan.updateSupervisor) {
        needing := needing + [nodes[i].name];
      }
    }
    assert nodes[..|nodes|] == nodes;
  }
}
