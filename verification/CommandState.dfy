/** What each operation does at the two ends of the command protocol: the supervisor's router
    (control-plane-agent/commands/index.mjs) and the control plane's dispatcher (control-plane/control/dispatcher.mjs). */
module CommandState {

  datatype Status = Accepted | InProgress | Succeeded | Failed | Rejected | Superseded

  datatype Command = Command(id: string, verb: string)

  datatype Report = Report(id: string, status: Status)

  // ---- the router ----

  /** What a router remembers of each command, the reports it has sent up, and the handlers it has started. */
  datatype Router = Router(seen: map<string, Status>, reports: seq<Report>, started: seq<string>)

  const FRESH_ROUTER := Router(map[], [], [])

  predicate Finished(s: Status) {
    s == Succeeded || s == Failed || s == Rejected
  }

  function Say(r: Router, id: string, s: Status): Router {
    r.(reports := r.reports + [Report(id, s)])
  }

  /** A command arrives: a finished one is acknowledged again, a running one ignored, any other one started. */
  function Handle(r: Router, id: string): Router {
    if id in r.seen && Finished(r.seen[id]) then Say(r, id, r.seen[id])
    else if id in r.seen && r.seen[id] == InProgress then r
    else Say(r.(seen := r.seen[id := InProgress], started := r.started + [id]), id, Accepted)
  }

  /** The handler of a command has returned or thrown. */
  function Finish(r: Router, id: string, ok: bool): Router {
    var s := if ok then Succeeded else Failed;
    Say(r.(seen := r.seen[id := s]), id, s)
  }

  // ---- the dispatcher ----

  datatype Slot = Slot(command: Command, category: string)

  datatype Down = Down(node: string, command: Command)

  datatype Notice =
    | CommandIssued(node: string, id: string)
    | CommandSucceeded(node: string, id: string)
    | CommandFailed(node: string, id: string)

  /** The in-flight table, the messages handed to sessions, and the events emitted. */
  datatype Dispatch = Dispatch(inFlight: map<string, map<string, Slot>>, pushed: seq<Down>, events: seq<Notice>)

  const FRESH_DISPATCH := Dispatch(map[], [], [])

  function CategoryOf(verb: string): string {
    if verb == "update_agent" || verb == "update_control_plane_agent" then "update"
    else if verb == "drain" || verb == "undrain" then "drain"
    else if verb == "dispatch_job" || verb == "cancel_job" then "job"
    else verb
  }

  predicate IsUpdate(verb: string) {
    verb == "update_agent" || verb == "update_control_plane_agent"
  }

  predicate IsDrain(verb: string) {
    verb == "drain" || verb == "undrain"
  }

  predicate IsJob(verb: string) {
    verb == "dispatch_job" || verb == "cancel_job"
  }

  function Bucket(d: Dispatch, node: string): map<string, Slot> {
    if node in d.inFlight then d.inFlight[node] else map[]
  }

  predicate InFlight(d: Dispatch, node: string, id: string) {
    id in Bucket(d, node)
  }

  predicate Ends(s: Status) {
    s == Succeeded || s == Failed || s == Rejected || s == Superseded
  }

  /** The slot is taken before the push; without a session the push throws and the slot stays. */
  function Send(d: Dispatch, node: string, c: Command, live: bool): Dispatch {
    var d1 := d.(inFlight := d.inFlight[node := Bucket(d, node)[c.id := Slot(c, CategoryOf(c.verb))]]);
    if live then d1.(pushed := d.pushed + [Down(node, c)], events := d.events + [CommandIssued(node, c.id)]) else d1
  }

  function NoticeOf(node: string, r: Report): Notice {
    if r.status == Succeeded then CommandSucceeded(node, r.id) else CommandFailed(node, r.id)
  }

  function OnResult(d: Dispatch, node: string, r: Report): Dispatch {
    if !InFlight(d, node, r.id) || !Ends(r.status) then d
    else d.(inFlight := d.inFlight[node := Bucket(d, node) - {r.id}], events := d.events + [NoticeOf(node, r)])
  }

  predicate HasInFlight(d: Dispatch, node: string, category: string) {
    exists id :: id in Bucket(d, node) && Bucket(d, node)[id].category == category
  }
}
