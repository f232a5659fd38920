/** Which nodes a URL is tested on, and whether it may be tested at all (control-plane/scheduler/node-selection.mjs). */
module NodeSelection {
  import opened Common
  import opened Classification
  import opened Versions

  /** The part of a registry record that selection looks at. */
  datatype Registered = Registered(name: string, nodeType: NodeType, status: string, versions: VersionMap)

  datatype Node = Node(name: string, nodeType: NodeType)

  datatype Unmet = Unmet(nodeType: NodeType, need: nat, have: nat)

  datatype Selection = Selection(selected: seq<Node>, unmet: seq<Unmet>)
  {
    predicate CanDispatch() { unmet == [] }
  }

  /** One configured node type; the quorum defaults to 1. */
  datatype Policy = Policy(nodeType: NodeType, required: bool, quorum: Option<nat>, all: bool)
  {
    function Quorum(): nat { if quorum.Some? then quorum.value else 1 }
  }

  const UNAVAILABLE_STATUSES: set<string> :=
    { "draining", "updating", "rebooting", "offline", "disconnected", "heartbeat_missing", "version_mismatch", "blocked" }

  function MinimumsOf(desired: VersionMap): seq<(string, string)> {
    [("agentVersion", Field(desired, "agentVersion")),
     ("contractsVersion", Field(desired, "contractsVersion")),
     ("protocolVersion", Field(desired, "protocolVersion")),
     ("schemaVersion", Field(desired, "schemaVersion"))]
  }

  ghost predicate Eligible(n: Registered, t: NodeType, desired: VersionMap) {
    n.nodeType == t && n.status !in UNAVAILABLE_STATUSES && Meets(n.versions, MinimumsOf(desired))
  }

  /** The eligible nodes of one type, in registry order. */
  ghost function Pool(connected: seq<Registered>, t: NodeType, desired: VersionMap): seq<Node> {
    if connected == [] then []
    else
      var front, last := connected[..|connected| - 1], connected[|connected| - 1];
      Pool(front, t, desired) + (if Eligible(last, t, desired) then [Node(last.name, last.nodeType)] else [])
  }

  method EligibleNodes(connected: seq<Registered>, t: NodeType, desired: VersionMap) returns (pool: seq<Node>)
    ensures pool == Pool(connected, t, desired)
  {
    pool := [];
    for i := 0 to |connected|
      invariant pool == Pool(connected[..i], t, desired)
    {
      var n := connected[i];
      assert connected[..i + 1][..i] == connected[..i];
      if n.nodeType == t && n.status !in UNAVAILABLE_STATUSES {
        var ok, _ := MeetsMinimums(n.versions, MinimumsOf(desired));
        if ok {
          pool := pool + [Node(n.name, n.nodeType)];
        }
      }
    }
    assert connected[..|connected|] == connected;
  }

  /** How many of a pool a policy takes: the whole pool in "all" mode, otherwise the quorum. */
  function Picked(pool: seq<Node>, p: Policy): seq<Node> {
    Take(pool, Max(p.Quorum(), if pool != [] && p.all then |pool| else p.Quorum()))
  }

  ghost function Select(connected: seq<Registered>, policies: seq<Policy>, desired: VersionMap): Selection {
    if policies == [] then Selection([], [])
    else
      var front, p := Select(connected, policies[..|policies| - 1], desired), policies[|policies| - 1];
      var picked := Picked(Pool(connected, p.nodeType, desired), p);
      Selection(front.selected + picked,
                if p.required && |picked| < p.Quorum()
                then front.unmet + [Unmet(p.nodeType, p.Quorum(), |picked|)] else front.unmet)
  }

  method SelectForUrl(connected: seq<Registered>, policies: seq<Policy>, desired: VersionMap) returns (sel: Selection)
    ensures sel == Select(connected, policies, desired)
  {
    var selected: seq<Node>, unmet: seq<Unmet> := [], [];
    for i := 0 to |policies|
      invariant Selection(selected, unmet) == Select(connected, policies[..i], desired)
    {
      var p := policies[i];
      assert policies[..i + 1][..i] == policies[..i];
      var pool := EligibleNodes(connected, p.nodeType, desired);
      var quorum := p.Quorum();
      var picked := Take(pool, Max(quorum, if |pool| != 0 && p.all then |pool| else quorum));
      selected := selected + picked;
      if p.required && |picked| < quorum {
        unmet := unmet + [Unmet(p.nodeType, quorum, |picked|)];
      }
    }
    assert policies[..|policies|] == policies;
    return Selection(selected, unmet);
  }

  lemma {:induction false} PoolMembers(connected: seq<Registered>, t: NodeType, desired: VersionMap, x: Node)
    ensures x in Pool(connected, t, desired)
       <==> exists n :: n in connected && Eligible(n, t, desired) && x == Node(n.name, n.nodeType)
  {
    if connected != [] {
      var front, last := connected[..|connected| - 1], connected[|connected| - 1];
      PoolMembers(front, t, desired, x);
      assert connected == front + [last];
    }
  }

  ghost function EligibleFor(t: NodeType, desired: VersionMap): Registered -> bool {
    (n: Registered) => Eligible(n, t, desired)
  }

  /** The pool of a type holds one node for each eligible record, in registry order. */
  lemma {:induction false} PoolLists(connected: seq<Registered>, t: NodeType, desired: VersionMap)
    ensures var records := Filter(connected, EligibleFor(t, desired)); var pool := Pool(connected, t, desired);
      |pool| == |records| && forall i :: 0 <= i < |pool| ==> pool[i] == Node(records[i].name, records[i].nodeType)
  {
    if connected != [] {
      PoolLists(connected[..|connected| - 1], t, desired);
    }
  }

  /** Every required type reaches its quorum exactly when the URL may be dispatched. */
  lemma {:induction false} DispatchIffQuorums(connected: seq<Registered>, policies: seq<Policy>, desired: VersionMap)
    ensures Select(connected, policies, desired).CanDispatch()
       <==> forall p :: p in policies && p.required ==> |Pool(connected, p.nodeType, desired)| >= p.Quorum()
  {
    if policies != [] {
      var front, last := policies[..|policies| - 1], policies[|policies| - 1];
      DispatchIffQuorums(connected, front, desired);
      assert policies == front + [last];
    }
  }

  /** Only eligible nodes of configured types are ever selected. */
  lemma {:induction false} SelectedAreEligible(connected: seq<Registered>, policies: seq<Policy>, desired: VersionMap, x: Node)
    requires x in Select(connected, policies, desired).selected
    ensures exists p, n :: p in policies && n in connected && Eligible(n, p.nodeType, desired) && x == Node(n.name, n.nodeType)
  {
    var front, last := policies[..|policies| - 1], policies[|policies| - 1];
    assert policies == front + [last];
    if x in Select(connected, front, desired).selected {
      SelectedAreEligible(connected, front, desired, x);
    } else {
      PoolMembers(connected, last.nodeType, desired, x);
    }
  }

  /** A dispatchable URL has at least one node once some required type asks for a quorum above zero. */
  lemma {:induction false} DispatchableIsNonEmpty(connected: seq<Registered>, policies: seq<Policy>, desired: VersionMap)
    requires Select(connected, policies, desired).CanDispatch()
    requires exists p :: p in policies && p.required && p.Quorum() > 0
    ensures Select(connected, policies, desired).selected != []
  {
    var front, last := policies[..|policies| - 1], policies[|policies| - 1];
    assert policies == front + [last];
    DispatchIffQuorums(connected, policies, desired);
    if !(last.required && last.Quorum() > 0) {
      DispatchIffQuorums(connected, front, desired);
      DispatchableIsNonEmpty(connected, front, desired);
    }
  }

  /** Of each pool the first nodes are taken, in its order: all of them in "all" mode, otherwise as many as the quorum
      says, or one without a quorum. */
  lemma PickedMeans(pool: seq<Node>, p: Policy)
    ensures Picked(pool, p) <= pool
    ensures p.all ==> Picked(pool, p) == pool
    ensures !p.all && p.quorum.Some? ==> |Picked(pool, p)| == Min(p.quorum.value, |pool|)
    ensures !p.all && p.quorum.None? ==> |Picked(pool, p)| == Min(1, |pool|)
  {
  }

  /** A node is eligible for a type exactly when it is of that type, can take work, and is at or above the desired
      version of its worker, its contracts, its protocol and its schema. */
  lemma EligibleIff(n: Registered, t: NodeType, desired: VersionMap)
    ensures Eligible(n, t, desired) <==>
      && n.nodeType == t
      && n.status !in {"draining", "updating", "rebooting", "offline", "disconnected", "heartbeat_missing",
                       "version_mismatch", "blocked"}
      && forall f :: f in {"agentVersion", "contractsVersion", "protocolVersion", "schemaVersion"} ==>
           Compare(Field(n.versions, f), Field(desired, f)) >= 0
  {
    var minimums := MinimumsOf(desired);
    forall f | f in {"agentVersion", "contractsVersion", "protocolVersion", "schemaVersion"}
      ensures (f, Field(desired, f)) in minimums
    {
      assert minimums[0].0 == "agentVersion" && minimums[1].0 == "contractsVersion";
      assert minimums[2].0 == "protocolVersion" && minimums[3].0 == "schemaVersion";
    }
  }

  /** In "all" mode every eligible node of the type is selected. */
  lemma {:induction false} AllModeSelectsAll(connected: seq<Registered>, policies: seq<Policy>, desired: VersionMap,
                                             p: Policy, n: Registered)
    requires p in policies && p.all && n in connected && Eligible(n, p.nodeType, desired)
    ensures Node(n.name, n.nodeType) in Select(connected, policies, desired).selected
  {
    var front, last := policies[..|policies| - 1], policies[|policies| - 1];
    assert policies == front + [last];
    if last == p {
      PoolMembers(connected, p.nodeType, desired, Node(n.name, n.nodeType));
      PickedMeans(Pool(connected, p.nodeType, desired), p);
    } else {
      AllModeSelectsAll(connected, front, desired, p, n);
    }
  }

  /** The policy requires its type and the pool falls short of its quorum. */
  ghost function FallsShort(connected: seq<Registered>, desired: VersionMap): Policy -> bool {
    (p: Policy) => p.required && |Pool(connected, p.nodeType, desired)| < p.Quorum()
  }

  /** The unmet quorums are those of the required types whose pool falls short, in the order of the policies, each with
      what is needed and what there is. */
  lemma {:induction false} UnmetLists(connected: seq<Registered>, policies: seq<Policy>, desired: VersionMap)
    ensures var short := Filter(policies, FallsShort(connected, desired)); var unmet := Select(connected, policies, desired).unmet;
      && |unmet| == |short|
      && forall i :: 0 <= i < |unmet| ==>
           unmet[i] == Unmet(short[i].nodeType, short[i].Quorum(), |Pool(connected, short[i].nodeType, desired)|)
  {
    if policies != [] {
      UnmetLists(connected, policies[..|policies| - 1], desired);
    }
  }

  /** The nodes of earlier policies come first. */
  lemma {:induction false} SelectedInOrder(connected: seq<Registered>, policies: seq<Policy>, desired: VersionMap, n: nat)
    requires n <= |policies|
    ensures Select(connected, policies[..n], desired).selected <= Select(connected, policies, desired).selected
  {
    if n == |policies| {
      assert policies[..n] == policies;
    } else {
      var front := policies[..|policies| - 1];
      assert front[..n] == policies[..n];
      SelectedInOrder(connected, front, desired, n);
    }
  }
}
