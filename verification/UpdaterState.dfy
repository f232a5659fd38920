/** Applying a bundle and rolling back over a platform whose steps may fail
    (control-plane-agent/updater/apply-bundle.mjs and rollback.mjs). */
module UpdaterState {
  import opened Common

  /** One component on disk: where `current` points, the VERSION markers under versions/, and the version directories
      left half-written by an extraction that failed. */
  datatype Install = Install(link: Option<string>, markers: map<string, string>, damaged: set<string>)

  datatype Worker = Worker(version: Option<string>, running: bool, draining: bool)

  /** The two components, the worker process, and how often the supervisor service was told to restart. */
  datatype Host = Host(agent: Install, supervisor: Install, worker: Worker, restarts: nat)

  datatype Component = Agent | Supervisor

  /** Replacing the link: done, failed with the link as it was, or failed with the old link already removed. */
  datatype Swap = Swapped | Untouched | LinkLost

  /** Unpacking a bundle: done, failed half-way, or failed before it wrote anything. */
  datatype Unpacking = Whole | HalfWay | NotBegun

  /** How each fallible step turns out if it is reached; the download checks the hash. */
  datatype Fate = Fate(
    download: bool, signature: bool, extract: Unpacking, marker: bool, stop: bool, swap: Swap, start: bool, healthy: bool,
    stopBack: bool, swapBack: Swap, startBack: bool)

  datatype Request = Request(component: Component, version: string, keysConfigured: bool)

  datatype Outcome =
    | Succeeded(previous: Option<string>)
    | RolledBack(to: string)
    | Failed

  function SideOf(h: Host, c: Component): Install {
    if c == Agent then h.agent else h.supervisor
  }

  function WithSide(h: Host, c: Component, i: Install): Host {
    if c == Agent then h.(agent := i) else h.(supervisor := i)
  }

  /** What `<current>/VERSION` says; an empty marker counts as none. */
  function InstalledVersion(i: Install): Option<string> {
    if i.link.Some? && i.link.value in i.markers && i.markers[i.link.value] != ""
    then Some(i.markers[i.link.value]) else None
  }

  function SwapTo(h: Host, c: Component, version: string, s: Swap): Host {
    match s
    case Swapped => WithSide(h, c, SideOf(h, c).(link := Some(version)))
    case Untouched => h
    case LinkLost => WithSide(h, c, SideOf(h, c).(link := None))
  }

  function Draining(h: Host, b: bool): Host {
    h.(worker := h.worker.(draining := b))
  }

  /** A worker that is not running needs no stopping, so stopping it cannot fail. */
  predicate Stops(h: Host, ok: bool) {
    !h.worker.running || ok
  }

  /** Drain, stop, swap, start, undrain; whatever fails leaves the steps after it undone. */
  function Switch(h: Host, version: string, stop: bool, swap: Swap, start: bool): (Host, bool) {
    var h1 := Draining(h, true);
    if !Stops(h1, stop) then (h1, false)
    else
      var h2 := h1.(worker := h1.worker.(running := false));
      var h3 := SwapTo(h2, Agent, version, swap);
      if swap != Swapped then (h3, false)
      else
        var h4 := h3.(worker := h3.worker.(version := Some(version)));
        if !start then (h4, false)
        else (Draining(h4.(worker := h4.worker.(running := true)), false), true)
  }

  function Rollback(h: Host, c: Component, to: Option<string>, f: Fate): (Host, bool) {
    if to.None? || to.value == "" then (h, false)
    else if c == Agent then Switch(h, to.value, f.stopBack, f.swapBack, f.startBack)
    else if f.swapBack == Swapped then
      var h1 := SwapTo(h, c, to.value, f.swapBack);
      (h1.(restarts := h1.restarts + 1), true)
    else (SwapTo(h, c, to.value, f.swapBack), false)
  }

  /** The hash has been checked, and the signature where keys are configured. */
  predicate Verified(r: Request, f: Fate) {
    f.download && (r.keysConfigured ==> f.signature)
  }

  predicate Unpacked(r: Request, f: Fate) {
    Verified(r, f) && f.extract == Whole && f.marker
  }

  function WithMarker(h: Host, c: Component, version: string): Host {
    var i := SideOf(h, c);
    WithSide(h, c, i.(markers := i.markers[version := version]))
  }

  /** Unpacking writes over the version's directory, even if that version is current. */
  function WithExtracted(h: Host, c: Component, version: string, u: Unpacking): Host {
    var i := SideOf(h, c);
    match u
    case Whole => WithSide(h, c, i.(damaged := i.damaged - {version}))
    case HalfWay => WithSide(h, c, i.(damaged := i.damaged + {version}))
    case NotBegun => h
  }

  function Apply(h: Host, r: Request, f: Fate): (Host, Outcome) {
    var previous := InstalledVersion(SideOf(h, r.component));
    if !Verified(r, f) then (h, Failed)
    else if !Unpacked(r, f) then (WithExtracted(h, r.component, r.version, f.extract), Failed)
    else
      var h1 := WithMarker(WithExtracted(h, r.component, r.version, f.extract), r.component, r.version);
      if r.component == Supervisor then
        var h2 := SwapTo(h1, Supervisor, r.version, f.swap);
        if f.swap == Swapped then (h2.(restarts := h2.restarts + 1), Succeeded(previous)) else (h2, Failed)
      else
        var (h2, switched) := Switch(h1, r.version, f.stop, f.swap, f.start);
        if !switched then (h2, Failed)
        else if f.healthy then (h2, Succeeded(previous))
        else
          var (h3, back) := Rollback(h2, Agent, previous, f);
          if back then (h3, RolledBack(previous.value)) else (h3, Failed)
  }
}
