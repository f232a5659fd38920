/** The updater as it is run, and what a fallible update can and cannot leave behind. */
module Updater {
  import opened Common
  import opened UpdaterState

  class HostUpdater {
    var agent: Install
    var supervisor: Install
    var worker: Worker
    var restarts: nat

    ghost function Abstract(): Host
      reads this
    {
      Host(agent, supervisor, worker, restarts)
    }

    constructor (h: Host)
      ensures Abstract() == h
    {
      agent, supervisor, worker, restarts := h.agent, h.supervisor, h.worker, h.restarts;
    }

    method SwapCurrent(component: Component, version: string, swap: Swap) returns (ok: bool)
      modifies this`agent, this`supervisor
      ensures Abstract() == SwapTo(old(Abstract()), component, version, swap) && ok == (swap == Swapped)
    {
      var link := if swap == Swapped then Some(version) else None;
      if swap != Untouched {
        if component == Agent {
          agent := agent.(link := link);
        } else {
          supervisor := supervisor.(link := link);
        }
      }
      return swap == Swapped;
    }

    method StopWorker(ok: bool) returns (stopped: bool)
      modifies this`worker
      ensures stopped == Stops(old(Abstract()), ok)
      ensures worker == if stopped then old(worker).(running := false) else old(worker)
    {
      if !worker.running {
        return true;
      }
      if !ok {
        return false;
      }
      worker := worker.(running := false);
      return true;
    }

    method Unpack(component: Component, version: string, extract: Unpacking) returns (ok: bool)
      modifies this`agent, this`supervisor
      ensures Abstract() == WithExtracted(old(Abstract()), component, version, extract) && ok == (extract == Whole)
    {
      if extract != NotBegun {
        var i := if component == Agent then agent else supervisor;
        i := i.(damaged := if extract == Whole then i.damaged - {version} else i.damaged + {version});
        if component == Agent {
          agent := i;
        } else {
          supervisor := i;
        }
      }
      return extract == Whole;
    }

    method ApplyBundle(r: Request, f: Fate) returns (outcome: Outcome)
      modifies this
      ensures (Abstract(), outcome) == Apply(old(Abstract()), r, f)
    {
      var previous := InstalledVersion(if r.component == Agent then agent else supervisor);
      if !f.download {
        return Failed;
      }
      if r.keysConfigured && !f.signature {
        return Failed;
      }
      var unpacked := Unpack(r.component, r.version, f.extract);
      if !unpacked || !f.marker {
        return Failed;
      }
      if r.component == Supervisor {
        supervisor := supervisor.(markers := supervisor.markers[r.version := r.version]);
        var swapped := SwapCurrent(Supervisor, r.version, f.swap);
        if !swapped {
          return Failed;
        }
        restarts := restarts + 1;
        return Succeeded(previous);
      }
      agent := agent.(markers := agent.markers[r.version := r.version]);
      var switched := SwitchWorker(r.version, f.stop, f.swap, f.start);
      if !switched {
        return Failed;
      }
      if !f.healthy {
        var back := RollbackTo(Agent, previous, f);
        if !back {
          return Failed;
        }
        return RolledBack(previous.value);
      }
      return Succeeded(previous);
    }

    method SwitchWorker(version: string, stop: bool, swap: Swap, start: bool) returns (ok: bool)
      modifies this`agent, this`supervisor, this`worker
      ensures (Abstract(), ok) == Switch(old(Abstract()), version, stop, swap, start)
    {
      worker := worker.(draining := true);
      ok := StopWorker(stop);
      if !ok {
        return;
      }
      ok := SwapCurrent(Agent, version, swap);
      if !ok {
        return;
      }
      worker := worker.(version := Some(version));
      if !start {
        return false;
      }
      worker := worker.(running := true);
      worker := worker.(draining := false);
    }

    method RollbackTo(component: Component, to: Option<string>, f: Fate) returns (ok: bool)
      modifies this
      ensures (Abstract(), ok) == Rollback(old(Abstract()), component, to, f)
      ensures ok ==> to.Some?
    {
      if to.None? || to.value == "" {
        return false;
      }
      if component == Agent {
        ok := SwitchWorker(to.value, f.stopBack, f.swapBack, f.startBack);
      } else {
        ok := SwapCurrent(Supervisor, to.value, f.swapBack);
        if ok {
          restarts := restarts + 1;
        }
      }
    }
  }

  // ---- one update ----

  datatype Attempt = Attempt(request: Request, fate: Fate)

  /** The hash of the bundle was right, and with keys configured its signature too. */
  predicate Checked(a: Attempt) {
    a.fate.download && (a.request.keysConfigured ==> a.fate.signature)
  }

  /** The health gate failed after everything before it succeeded. */
  predicate GateFails(h: Host, r: Request, f: Fate) {
    r.component == Agent && Unpacked(r, f) && Stops(h, f.stop) && f.swap == Swapped && f.start && !f.healthy
  }

  /** The swap of the update itself is reached. */
  predicate Swaps(h: Host, r: Request, f: Fate) {
    Unpacked(r, f) && (r.component == Agent ==> Stops(h, f.stop))
  }

  /** The swap of the rollback is reached. */
  predicate SwapsBack(h: Host, r: Request, f: Fate) {
    GateFails(h, r, f) && InstalledVersion(h.agent).Some? && f.stopBack
  }

  /** Where `current` points after an update, whatever failed: requested after the checks and the swap, unless the gate
      failed and the rollback swapped back to the version that was marked as current; lost exactly when a swap that was
      reached lost it. */
  lemma LinkAfter(h: Host, r: Request, f: Fate)
    ensures var link := SideOf(Apply(h, r, f).0, r.component).link;
      link == (if !Swaps(h, r, f) || f.swap == Untouched then SideOf(h, r.component).link
               else if f.swap == LinkLost then None
               else if !SwapsBack(h, r, f) || f.swapBack == Untouched then Some(r.version)
               else if f.swapBack == LinkLost then None
               else InstalledVersion(h.agent))
    ensures forall c :: c != r.component ==> SideOf(Apply(h, r, f).0, c) == SideOf(h, c)
  {
  }

  /** The gate failed, the previous version is known, and every step back succeeds: the rollback completes and the
      worker runs the previous version, undrained, from the previous link. */
  lemma GateFailureRestores(h: Host, r: Request, f: Fate)
    requires GateFails(h, r, f) && InstalledVersion(h.agent).Some?
    requires f.stopBack && f.swapBack == Swapped && f.startBack
    ensures var (h', outcome) := Apply(h, r, f); var previous := InstalledVersion(h.agent);
      && outcome == RolledBack(previous.value) && h'.agent.link == previous
      && h'.worker == Worker(previous, true, false)
  {
  }

  /** So the host is as before, in link and worker, exactly when the link's directory is named after its marker and the
      worker was running that version and not draining: the rollback does not put back a drain that was set before. */
  lemma RestoredIff(h: Host, r: Request, f: Fate)
    requires GateFails(h, r, f) && InstalledVersion(h.agent).Some?
    requires f.stopBack && f.swapBack == Swapped && f.startBack
    ensures var h' := Apply(h, r, f).0;
      (h'.agent.link == h.agent.link && h'.worker == h.worker) <==>
      (InstalledVersion(h.agent) == h.agent.link && h.worker == Worker(h.agent.link, true, false))
  {
    GateFailureRestores(h, r, f);
  }

  /** Exactly which updates succeed. */
  lemma SucceedsIff(h: Host, r: Request, f: Fate)
    ensures Apply(h, r, f).1.Succeeded? <==>
      && f.download && (r.keysConfigured ==> f.signature) && f.extract == Whole && f.marker && f.swap == Swapped
      && (r.component == Agent ==> (h.worker.running ==> f.stop) && f.start && f.healthy)
  {
  }

  /** The supervisor is restarted by its own updates, by each that succeeds, and by nothing else. */
  lemma RestartsIff(h: Host, r: Request, f: Fate)
    ensures Apply(h, r, f).0.restarts
         == h.restarts + (if r.component == Supervisor && Apply(h, r, f).1.Succeeded? then 1 else 0)
  {
  }

  /** A rollback of the supervisor that is asked for by itself: to a known version whose swap works, and then restarted. */
  lemma SupervisorRollback(h: Host, to: Option<string>, f: Fate)
    ensures var (h', ok) := Rollback(h, Supervisor, to, f);
      && (ok <==> to.Some? && to.value != "" && f.swapBack == Swapped)
      && (ok ==> h'.supervisor.link == to && h'.restarts == h.restarts + 1)
      && (!ok ==> h'.restarts == h.restarts) && h'.agent == h.agent && h'.worker == h.worker
  {
  }

  /** An update that was not draining before leaves the drain flag set exactly when it fails between draining and
      undraining, on the way in or on the way back: there is no rollback for a stop, swap or start that throws. */
  lemma DrainStuckIff(h: Host, r: Request, f: Fate)
    requires !h.worker.draining
    ensures Apply(h, r, f).0.worker.draining <==>
      && r.component == Agent && Unpacked(r, f)
      && (if GateFails(h, r, f)
          then InstalledVersion(h.agent).Some? && !(f.stopBack && f.swapBack == Swapped && f.startBack)
          else !(Stops(h, f.stop) && f.swap == Swapped && f.start))
  {
  }

  /** A host whose worker runs version "1" from its link, drained as said. */
  function RunningHost(draining: bool): Host {
    var i := Install(Some("1"), map["1" := "1"], {});
    Host(i, i, Worker(Some("1"), true, draining), 0)
  }

  /** Every step works, but the new version never becomes healthy. */
  const UNHEALTHY := Fate(true, true, Whole, true, true, Swapped, true, false, true, Swapped, true)

  /** A rollback that works all the way does not put back a drain the operator had set. */
  lemma DrainNotRestored()
    ensures var (h', outcome) := Apply(RunningHost(true), Request(Agent, "2", false), UNHEALTHY);
      outcome == RolledBack("1") && RunningHost(true).worker.draining && !h'.worker.draining
  {
    GateFailureRestores(RunningHost(true), Request(Agent, "2", false), UNHEALTHY);
  }

  /** A start that throws leaves the worker draining, on the new version, with nothing rolled back. */
  lemma DrainStuckAfterStart()
    ensures var (h', outcome) := Apply(RunningHost(false), Request(Agent, "2", false), UNHEALTHY.(start := false));
      outcome == Failed && h'.worker == Worker(Some("2"), false, true) && h'.agent.link == Some("2")
  {
    DrainStuckIff(RunningHost(false), Request(Agent, "2", false), UNHEALTHY.(start := false));
  }

  /** With a sound current version to begin with, `current` points into a half-written directory exactly when the update
      was to the current version itself, its bundle had passed the checks, and unpacking failed half-way. */
  lemma CurrentDamagedIff(h: Host, r: Request, f: Fate)
    requires var i := SideOf(h, r.component);
      i.link.Some? && i.link.value !in i.damaged && (InstalledVersion(i).Some? ==> InstalledVersion(i) == i.link)
    ensures var i' := SideOf(Apply(h, r, f).0, r.component);
      (i'.link.Some? && i'.link.value in i'.damaged) <==>
      (Checked(Attempt(r, f)) && f.extract == HalfWay && SideOf(h, r.component).link == Some(r.version))
  {
    LinkAfter(h, r, f);
    DamagedAfter(h, r, f);
  }

  lemma DamagedAfter(h: Host, r: Request, f: Fate)
    ensures SideOf(Apply(h, r, f).0, r.component).damaged
         == var before := SideOf(h, r.component).damaged;
            if !Verified(r, f) || f.extract == NotBegun then before
            else if f.extract == Whole then before - {r.version} else before + {r.version}
  {
  }

  // ---- runs of updates ----

  function After(h: Host, attempts: seq<Attempt>): Host {
    if attempts == [] then h
    else
      var last := attempts[|attempts| - 1];
      Apply(After(h, attempts[..|attempts| - 1]), last.request, last.fate).0
  }

  /** Every version directory carries its own name as its marker. */
  predicate SelfNamed(i: Install) {
    forall d :: d in i.markers ==> i.markers[d] == d
  }

  /** A version of a component that was current at the start or whose bundle has passed its checks since. */
  ghost predicate Trusted(h: Host, attempts: seq<Attempt>, c: Component, version: string) {
    || SideOf(h, c).link == Some(version)
    || exists a :: a in attempts && a.request.component == c && a.request.version == version && Checked(a)
  }

  ghost predicate SwapLost(attempts: seq<Attempt>) {
    exists a :: a in attempts && (a.fate.swap == LinkLost || a.fate.swapBack == LinkLost)
  }

  lemma TrustGrows(h: Host, attempts: seq<Attempt>, c: Component, version: string)
    requires attempts != [] && Trusted(h, attempts[..|attempts| - 1], c, version)
    ensures Trusted(h, attempts, c, version)
  {
    var front := attempts[..|attempts| - 1];
    if SideOf(h, c).link != Some(version) {
      var a :| a in front && a.request.component == c && a.request.version == version && Checked(a);
      assert a in attempts;
    }
  }

  lemma MarkersAfter(h: Host, r: Request, f: Fate, c: Component)
    ensures SideOf(Apply(h, r, f).0, c).markers
         == if c == r.component && Unpacked(r, f) then SideOf(h, c).markers[r.version := r.version] else SideOf(h, c).markers
  {
  }

  lemma {:induction false} MarkersStaySelfNamed(h: Host, attempts: seq<Attempt>)
    requires SelfNamed(h.agent) && SelfNamed(h.supervisor)
    ensures SelfNamed(After(h, attempts).agent) && SelfNamed(After(h, attempts).supervisor)
  {
    if attempts != [] {
      var front, a := attempts[..|attempts| - 1], attempts[|attempts| - 1];
      MarkersStaySelfNamed(h, front);
      MarkersAfter(After(h, front), a.request, a.fate, Agent);
      MarkersAfter(After(h, front), a.request, a.fate, Supervisor);
    }
  }

  /** Over any number of updates of either component, failing wherever they may, `current` points at the version it
      pointed at in the beginning or at one whose bundle passed the hash check and, with keys configured, the signature
      check; it is missing only after a swap has lost it. */
  lemma {:induction false} CurrentIsTrusted(h: Host, attempts: seq<Attempt>, c: Component)
    requires SelfNamed(h.agent) && SelfNamed(h.supervisor) && SideOf(h, c).link.Some?
    ensures var link := SideOf(After(h, attempts), c).link;
      if link.Some? then Trusted(h, attempts, c, link.value) else SwapLost(attempts)
  {
    if attempts != [] {
      var front, a := attempts[..|attempts| - 1], attempts[|attempts| - 1];
      var before := After(h, front);
      var was, now := SideOf(before, c).link, SideOf(After(h, attempts), c).link;
      CurrentIsTrusted(h, front, c);
      MarkersStaySelfNamed(h, front);
      LinkAfter(before, a.request, a.fate);
      assert attempts == front + [a];
      if was.Some? {
        TrustGrows(h, attempts, c, was.value);
      }
      if now.Some? && now != was {
        assert now == Some(a.request.version) && Checked(a) && a.request.component == c;
        assert a in attempts;
      } else if now.None? && was.Some? {
        assert a in attempts;
      } else if now.None? {
        assert SwapLost(front);
        var b :| b in front && (b.fate.swap == LinkLost || b.fate.swapBack == LinkLost);
        assert b in attempts;
      }
    }
  }
}
