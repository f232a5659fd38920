/** Staged rollout of one component version: canary first, bounded in flight, halted by a failure
    (control-plane/control/update-manager.mjs). */
module RolloutState {
  import opened Common

  datatype Phase = Canary | Rolling

  datatype Rollout = Rollout(phase: Phase, canaryOk: bool, failed: bool, inFlight: set<string>)

  const FRESH_ROLLOUT := Rollout(Canary, false, false, {})

  datatype Policy = Policy(canary: nat, batchSize: nat, maxInFlight: nat)

  /** The outcome a node reports; anything but these two only frees its slot. */
  datatype Outcome = Succeeded | Failed | Other

  type Rollouts = map<string, Rollout>

  /** Key of a component version. */
  function RolloutKey(component: string, version: string): string {
    component + "@" + version
  }

  function StateOf(m: Rollouts, key: string): Rollout {
    if key in m then m[key] else FRESH_ROLLOUT
  }

  function Capacity(p: Policy, st: Rollout): nat {
    Max(0, p.maxInFlight - |st.inFlight|)
  }

  function Limit(p: Policy, st: Rollout): nat {
    Min(if st.phase == Canary then p.canary else p.batchSize, Capacity(p, st))
  }

  function Eligible(needing: seq<string>, inFlight: set<string>): seq<string> {
    Filter(needing, (n: string) => n !in inFlight)
  }

  /** The nodes to update now. */
  function Batch(p: Policy, st: Rollout, needing: seq<string>): seq<string> {
    if st.failed || Capacity(p, st) == 0 then [] else Take(Eligible(needing, st.inFlight), Limit(p, st))
  }

  function Pick(m: Rollouts, p: Policy, key: string, needing: seq<string>): Rollouts {
    var st := StateOf(m, key);
    m[key := st.(inFlight := st.inFlight + set n | n in Batch(p, st, needing))]
  }

  function Record(m: Rollouts, key: string, node: string, outcome: Outcome): Rollouts {
    var st := StateOf(m, key);
    var st1 := st.(inFlight := st.inFlight - {node});
    m[key := match outcome
             case Failed => st1.(failed := true)
             case Succeeded => if st.phase == Canary then st1.(canaryOk := true, phase := Rolling) else st1
             case Other => st1]
  }

  function Clear(m: Rollouts, key: string): Rollouts {
    m[key := StateOf(m, key).(failed := false)]
  }
}
