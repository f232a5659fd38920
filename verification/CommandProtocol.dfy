/** The command protocol as a whole: a dispatcher, one router per node name, and a network between them that loses,
    repeats and reorders messages but does not make them up. */
module CommandProtocol {
  import opened Common
  import opened CommandState

  /** issued records which node each command id was issued to. */
  datatype System = System(dispatch: Dispatch, routers: map<string, Router>, issued: map<string, string>)

  const START := System(FRESH_DISPATCH, map[], map[])

  function RouterOf(s: System, node: string): Router {
    if node in s.routers then s.routers[node] else FRESH_ROUTER
  }

  datatype Event =
    | Issue(node: string, command: Command, live: bool)
    | ArriveDown(node: string, command: Command)
    | Progress(node: string, id: string)
    | Done(node: string, id: string, ok: bool)
    | ArriveUp(node: string, report: Report)

  /** Command ids are new; a message that arrives was sent, once or more often; only running handlers speak. */
  predicate Allowed(s: System, e: Event) {
    match e
    case Issue(n, c, _) => c.id !in s.issued
    case ArriveDown(n, c) => Down(n, c) in s.dispatch.pushed
    case Progress(n, id) => id in RouterOf(s, n).seen && RouterOf(s, n).seen[id] == InProgress
    case Done(n, id, _) => id in RouterOf(s, n).seen && RouterOf(s, n).seen[id] == InProgress
    case ArriveUp(n, r) => r in RouterOf(s, n).reports
  }

  function WithRouter(s: System, node: string, r: Router): System {
    s.(routers := s.routers[node := r])
  }

  function Step(s: System, e: Event): System {
    match e
    case Issue(n, c, live) => s.(dispatch := Send(s.dispatch, n, c, live), issued := s.issued[c.id := n])
    case ArriveDown(n, c) => WithRouter(s, n, Handle(RouterOf(s, n), c.id))
    case Progress(n, id) => WithRouter(s, n, Say(RouterOf(s, n), id, InProgress))
    case Done(n, id, ok) => WithRouter(s, n, Finish(RouterOf(s, n), id, ok))
    case ArriveUp(n, r) => s.(dispatch := OnResult(s.dispatch, n, r))
  }

  function After(events: seq<Event>): System {
    if events == [] then START else Step(After(events[..|events| - 1]), events[|events| - 1])
  }

  predicate Valid(events: seq<Event>) {
    events == [] ||
    (Valid(events[..|events| - 1]) && Allowed(After(events[..|events| - 1]), events[|events| - 1]))
  }

  // ---- the reports of one command ----

  /** The statuses a router has reported for one command, in order. */
  function Statuses(reports: seq<Report>, id: string): seq<Status> {
    if reports == [] then []
    else
      var last := reports[|reports| - 1];
      Statuses(reports[..|reports| - 1], id) + (if last.id == id then [last.status] else [])
  }

  /** accepted, then only in_progress. */
  predicate Running(sts: seq<Status>) {
    sts != [] && sts[0] == Accepted && forall i :: 1 <= i < |sts| ==> sts[i] == InProgress
  }

  /** n reports of a running command, then the terminal status t, at least once and from then on only t. */
  predicate EndsAt(sts: seq<Status>, n: int, t: Status) {
    && 0 <= n < |sts| && Running(sts[..n]) && (t == Succeeded || t == Failed)
    && forall i :: n <= i < |sts| ==> sts[i] == t
  }

  ghost predicate Fits(seen: Option<Status>, sts: seq<Status>) {
    match seen
    case None => sts == []
    case Some(t) => if t == InProgress then Running(sts) else exists n :: EndsAt(sts, n, t)
  }

  function SeenOf(r: Router, id: string): Option<Status> {
    if id in r.seen then Some(r.seen[id]) else None
  }

  function Times(ids: seq<string>, id: string): nat {
    if ids == [] then 0
    else Times(ids[..|ids| - 1], id) + (if ids[|ids| - 1] == id then 1 else 0)
  }

  /** The reports of a command fit what the router remembers of it, and its handler ran once if it ran at all. */
  ghost predicate Orderly(r: Router, id: string) {
    && Fits(SeenOf(r, id), Statuses(r.reports, id))
    && Times(r.started, id) == (if id in r.seen then 1 else 0)
  }

  lemma Extend(sts: seq<Status>, n: int, t: Status)
    requires EndsAt(sts, n, t)
    ensures EndsAt(sts + [t], n, t)
  {
    assert (sts + [t])[..n] == sts[..n];
  }

  lemma SayAdds(r: Router, id: string, s: Status, other: string)
    ensures Statuses(r.reports + [Report(id, s)], other)
         == if other == id then Statuses(r.reports, other) + [s] else Statuses(r.reports, other)
  {
    assert (r.reports + [Report(id, s)])[..|r.reports|] == r.reports;
  }

  lemma HandleOrderly(r: Router, id: string, other: string)
    requires Orderly(r, id) && Orderly(r, other)
    ensures Orderly(Handle(r, id), other)
  {
    SayAdds(r, id, Accepted, other);
    assert (r.started + [id])[..|r.started|] == r.started;
    if id in r.seen && Finished(r.seen[id]) {
      SayAdds(r, id, r.seen[id], other);
      if other == id {
        var n :| EndsAt(Statuses(r.reports, id), n, r.seen[id]);
        Extend(Statuses(r.reports, id), n, r.seen[id]);
      }
    }
  }

  lemma ProgressOrderly(r: Router, id: string, other: string)
    requires id in r.seen && r.seen[id] == InProgress && Orderly(r, id) && Orderly(r, other)
    ensures Orderly(Say(r, id, InProgress), other)
  {
    SayAdds(r, id, InProgress, other);
  }

  lemma FinishOrderly(r: Router, id: string, ok: bool, other: string)
    requires id in r.seen && r.seen[id] == InProgress && Orderly(r, id) && Orderly(r, other)
    ensures Orderly(Finish(r, id, ok), other)
  {
    var s := if ok then Succeeded else Failed;
    SayAdds(r, id, s, other);
    if other == id {
      var sts := Statuses(r.reports, id);
      assert (sts + [s])[..|sts|] == sts;
      assert EndsAt(sts + [s], |sts|, s);
    }
  }

  /** Every router in every reachable state, for every command. */
  lemma {:induction false} AlwaysOrderly(events: seq<Event>, node: string, id: string)
    requires Valid(events)
    ensures Orderly(RouterOf(After(events), node), id)
  {
    if events != [] {
      var front, last := events[..|events| - 1], events[|events| - 1];
      AlwaysOrderly(front, node, id);
      var r := RouterOf(After(front), node);
      match last
      case ArriveDown(n, c) =>
        AlwaysOrderly(front, node, c.id);
        if n == node {
          HandleOrderly(r, c.id, id);
        }
      case Progress(n, k) =>
        AlwaysOrderly(front, node, k);
        if n == node {
          ProgressOrderly(r, k, id);
        }
      case Done(n, k, ok) =>
        AlwaysOrderly(front, node, k);
        if n == node {
          FinishOrderly(r, k, ok, id);
        }
      case _ =>
    }
  }

  /** accepted, in_progress any number of times, then nothing or one terminal status repeated. */
  ghost predicate WellOrdered(sts: seq<Status>) {
    sts == [] || Running(sts) || exists n, t :: EndsAt(sts, n, t)
  }

  /** Command protocol, router side: the handler of a command runs at most once, and only where it was pushed to; the
      reports are accepted, in_progress*, then one fixed terminal status repeated. */
  lemma HandledOnce(events: seq<Event>, node: string, id: string)
    requires Valid(events)
    ensures Times(RouterOf(After(events), node).started, id) <= 1
    ensures WellOrdered(Statuses(RouterOf(After(events), node).reports, id))
    ensures Times(RouterOf(After(events), node).started, id) == 1 ==>
      PushedTo(After(events), node, id) && id in After(events).issued && After(events).issued[id] == node
  {
    AlwaysOrderly(events, node, id);
    if id in RouterOf(After(events), node).seen {
      OnlyPushed(events, node, id);
      OnlyIssued(events, node, id);
    }
  }

  // ---- only what was pushed is seen, only what was issued is pushed ----

  ghost predicate PushedTo(s: System, node: string, id: string) {
    exists c: Command :: Down(node, c) in s.dispatch.pushed && c.id == id
  }

  lemma PushedGrows(s: System, e: Event, node: string, id: string)
    requires PushedTo(s, node, id)
    ensures PushedTo(Step(s, e), node, id)
  {
    var c: Command :| Down(node, c) in s.dispatch.pushed && c.id == id;
    assert Down(node, c) in Step(s, e).dispatch.pushed;
  }

  lemma {:induction false} OnlyPushed(events: seq<Event>, node: string, id: string)
    requires Valid(events) && id in RouterOf(After(events), node).seen
    ensures PushedTo(After(events), node, id)
  {
    var front, last := events[..|events| - 1], events[|events| - 1];
    if id in RouterOf(After(front), node).seen {
      OnlyPushed(front, node, id);
    } else {
      NewlySeen(After(front), last, node, id);
    }
    PushedGrows(After(front), last, node, id);
  }

  lemma NewlySeen(s: System, e: Event, node: string, id: string)
    requires Allowed(s, e) && id !in RouterOf(s, node).seen && id in RouterOf(Step(s, e), node).seen
    ensures PushedTo(s, node, id)
  {
    assert e.ArriveDown?;
  }

  lemma {:induction false} OnlyIssued(events: seq<Event>, node: string, id: string)
    requires Valid(events) && PushedTo(After(events), node, id)
    ensures id in After(events).issued && After(events).issued[id] == node
  {
    var front, last := events[..|events| - 1], events[|events| - 1];
    var c: Command :| Down(node, c) in After(events).dispatch.pushed && c.id == id;
    if Down(node, c) in After(front).dispatch.pushed {
      OnlyIssued(front, node, id);
    }
  }

  /** A command has been pushed exactly when it was issued to the node while it had a session. */
  ghost predicate IssuedLive(events: seq<Event>, node: string, id: string) {
    exists c: Command :: c.id == id && Issue(node, c, true) in events
  }

  lemma {:induction false} PushedIffLive(events: seq<Event>, node: string, id: string)
    ensures PushedTo(After(events), node, id) <==> IssuedLive(events, node, id)
  {
    if events != [] {
      var front, last := events[..|events| - 1], events[|events| - 1];
      assert events == front + [last];
      PushedIffLive(front, node, id);
      PushedByStep(After(front), last, node, id);
      if c: Command :| c.id == id && Issue(node, c, true) in front {
        assert Issue(node, c, true) in events;
      }
    }
  }

  lemma PushedByStep(s: System, e: Event, node: string, id: string)
    ensures PushedTo(Step(s, e), node, id) <==>
      PushedTo(s, node, id) || (e.Issue? && e.node == node && e.command.id == id && e.live)
  {
    if PushedTo(s, node, id) {
      PushedGrows(s, e, node, id);
    }
    if e.Issue? && e.live {
      var pushed := Step(s, e).dispatch.pushed;
      assert pushed[|pushed| - 1] == Down(e.node, e.command);
    }
    if c: Command :| Down(node, c) in Step(s, e).dispatch.pushed && c.id == id {
      assert Down(node, c) in s.dispatch.pushed || (e.Issue? && e.node == node && e.command == c && e.live);
    }
  }

  /** The decision of a router is the outcome of its handler: succeeded if it returned, failed if it threw. */
  lemma {:induction false} DecidedByHandler(events: seq<Event>, node: string, id: string)
    requires Valid(events)
    ensures var seen := SeenOf(RouterOf(After(events), node), id);
      && (seen == Some(Succeeded) <==> Done(node, id, true) in events)
      && (seen == Some(Failed) <==> Done(node, id, false) in events)
  {
    if events != [] {
      var front, last := events[..|events| - 1], events[|events| - 1];
      assert events == front + [last];
      DecidedByHandler(front, node, id);
      AlwaysOrderly(front, node, id);
      DecidedByStep(After(front), last, node, id);
    }
  }

  lemma DecidedByStep(s: System, e: Event, node: string, id: string)
    requires Allowed(s, e) && Orderly(RouterOf(s, node), id)
    ensures var before, after := SeenOf(RouterOf(s, node), id), SeenOf(RouterOf(Step(s, e), node), id);
      && (after == Some(Succeeded) <==> before == Some(Succeeded) || e == Done(node, id, true))
      && (after == Some(Failed) <==> before == Some(Failed) || e == Done(node, id, false))
  {
  }

  // ---- slots and terminal notices ----

  predicate EndsFor(n: Notice, id: string) {
    (n.CommandSucceeded? || n.CommandFailed?) && n.id == id
  }

  /** How many terminal notices the dispatcher has emitted for a command. */
  function Endings(events: seq<Notice>, id: string): nat {
    if events == [] then 0
    else Endings(events[..|events| - 1], id) + (if EndsFor(events[|events| - 1], id) then 1 else 0)
  }

  /** A command that has been issued is in flight or has one terminal notice, never both and never two. */
  ghost predicate Accounted(s: System, id: string) {
    && (forall n :: InFlight(s.dispatch, n, id) ==> id in s.issued && s.issued[id] == n)
    && Endings(s.dispatch.events, id) == (if id in s.issued && !InFlight(s.dispatch, s.issued[id], id) then 1 else 0)
  }

  lemma EndingsAdd(events: seq<Notice>, n: Notice, id: string)
    ensures Endings(events + [n], id) == Endings(events, id) + (if EndsFor(n, id) then 1 else 0)
  {
    assert (events + [n])[..|events|] == events;
  }

  lemma SendSlots(d: Dispatch, n: string, c: Command, live: bool, m: string, id: string)
    ensures InFlight(Send(d, n, c, live), m, id) <==> InFlight(d, m, id) || (m == n && id == c.id)
  {
  }

  lemma ResultSlots(d: Dispatch, n: string, r: Report, m: string, id: string)
    ensures InFlight(OnResult(d, n, r), m, id) <==> InFlight(d, m, id) && !(m == n && id == r.id && Ends(r.status))
  {
  }

  lemma SendAccounted(s: System, n: string, c: Command, live: bool, id: string)
    requires c.id !in s.issued && Accounted(s, id)
    ensures Accounted(Step(s, Issue(n, c, live)), id)
  {
    var d' := Send(s.dispatch, n, c, live);
    forall m ensures InFlight(d', m, id) <==> InFlight(s.dispatch, m, id) || (m == n && id == c.id) {
      SendSlots(s.dispatch, n, c, live, m, id);
    }
    EndingsAdd(s.dispatch.events, CommandIssued(n, c.id), id);
  }

  lemma ResultEnds(d: Dispatch, n: string, r: Report, id: string)
    ensures Endings(OnResult(d, n, r).events, id)
         == Endings(d.events, id) + (if r.id == id && InFlight(d, n, id) && Ends(r.status) then 1 else 0)
  {
    EndingsAdd(d.events, NoticeOf(n, r), id);
  }

  lemma ResultAccounted(s: System, n: string, r: Report, id: string)
    requires Accounted(s, id)
    ensures Accounted(Step(s, ArriveUp(n, r)), id)
  {
    var d' := OnResult(s.dispatch, n, r);
    assert Step(s, ArriveUp(n, r)).dispatch == d';
    forall m ensures InFlight(d', m, id) <==> InFlight(s.dispatch, m, id) && !(m == n && id == r.id && Ends(r.status)) {
      ResultSlots(s.dispatch, n, r, m, id);
    }
    ResultEnds(s.dispatch, n, r, id);
  }

  lemma {:induction false} AlwaysAccounted(events: seq<Event>, id: string)
    requires Valid(events)
    ensures Accounted(After(events), id)
  {
    if events != [] {
      var front, last := events[..|events| - 1], events[|events| - 1];
      AlwaysAccounted(front, id);
      match last
      case Issue(n, c, live) => SendAccounted(After(front), n, c, live, id);
      case ArriveUp(n, r) => ResultAccounted(After(front), n, r, id);
      case _ =>
    }
  }

  /** The notice tells what the router of that node decided. */
  predicate Agrees(s: System, n: Notice) {
    match n
    case CommandIssued(_, _) => true
    case CommandSucceeded(node, id) => SeenOf(RouterOf(s, node), id) == Some(Succeeded)
    case CommandFailed(node, id) => SeenOf(RouterOf(s, node), id) == Some(Failed)
  }

  /** A decision is never taken back. */
  lemma DecisionStays(s: System, e: Event, node: string, id: string)
    requires Allowed(s, e) && id in RouterOf(s, node).seen && RouterOf(s, node).seen[id] in {Succeeded, Failed}
    ensures SeenOf(RouterOf(Step(s, e), node), id) == SeenOf(RouterOf(s, node), id)
  {
  }

  lemma {:induction false} ReportedIn(reports: seq<Report>, r: Report)
    requires r in reports
    ensures r.status in Statuses(reports, r.id)
  {
    var last := reports[|reports| - 1];
    if r != last {
      assert r in reports[..|reports| - 1];
      ReportedIn(reports[..|reports| - 1], r);
    }
  }

  lemma EndedOnly(sts: seq<Status>, n: int, t: Status, i: nat)
    requires EndsAt(sts, n, t) && i < |sts|
    ensures if i < n then !Ends(sts[i]) else sts[i] == t
  {
    if i < n {
      assert sts[i] == sts[..n][i];
    }
  }

  /** A terminal status in a report is the router's decision. */
  lemma ReportIsDecision(r: Router, rep: Report)
    requires rep in r.reports && Ends(rep.status) && Orderly(r, rep.id)
    ensures SeenOf(r, rep.id) == Some(rep.status) && (rep.status == Succeeded || rep.status == Failed)
  {
    ReportedIn(r.reports, rep);
    var sts := Statuses(r.reports, rep.id);
    var i :| 0 <= i < |sts| && sts[i] == rep.status;
    if rep.id in r.seen && r.seen[rep.id] != InProgress {
      var n :| EndsAt(sts, n, r.seen[rep.id]);
      EndedOnly(sts, n, r.seen[rep.id], i);
    }
  }

  lemma {:induction false} AlwaysAgrees(events: seq<Event>, n: Notice)
    requires Valid(events) && n in After(events).dispatch.events
    ensures Agrees(After(events), n)
  {
    var front, last := events[..|events| - 1], events[|events| - 1];
    var s := After(front);
    if n in s.dispatch.events {
      AlwaysAgrees(front, n);
      if !n.CommandIssued? {
        DecisionStays(s, last, n.node, n.id);
      }
    } else if last.ArriveUp? {
      AlwaysOrderly(front, last.node, last.report.id);
      ReportIsDecision(RouterOf(s, last.node), last.report);
    }
  }

  /** Command protocol, dispatcher side: at most one terminal event per command, emitted for the node it was issued to
      and agreeing with what that node's router decided; until then, and only then, it occupies its slot. */
  lemma EndsOnce(events: seq<Event>, id: string)
    requires Valid(events)
    ensures var s := After(events);
      && Endings(s.dispatch.events, id) <= 1
      && (forall n :: n in s.dispatch.events ==> Agrees(s, n))
      && (id in s.issued ==> (Endings(s.dispatch.events, id) == 1 <==> !InFlight(s.dispatch, s.issued[id], id)))
  {
    AlwaysAccounted(events, id);
    forall n | n in After(events).dispatch.events ensures Agrees(After(events), n) {
      AlwaysAgrees(events, n);
    }
  }

  /** A command that has not been pushed has not run anywhere, and is in flight. */
  lemma UnpushedStaysInFlight(events: seq<Event>, id: string)
    requires Valid(events) && id in After(events).issued
    requires !PushedTo(After(events), After(events).issued[id], id)
    ensures var s := After(events);
      InFlight(s.dispatch, s.issued[id], id) && forall n :: Times(RouterOf(s, n).started, id) == 0
  {
    var s := After(events);
    forall n ensures id !in RouterOf(s, n).seen && Times(RouterOf(s, n).started, id) == 0 {
      AlwaysOrderly(events, n, id);
      if id in RouterOf(s, n).seen {
        OnlyPushed(events, n, id);
        OnlyIssued(events, n, id);
      }
    }
    AlwaysAccounted(events, id);
    if Endings(s.dispatch.events, id) > 0 {
      var n := EndingExists(s.dispatch.events, id);
      AlwaysAgrees(events, n);
    }
  }

  // ---- when a slot is freed ----

  /** A terminal report about a command has arrived from the node it was issued to. */
  ghost predicate Heard(events: seq<Event>, node: string, id: string) {
    exists e :: e in events && e.ArriveUp? && e.node == node && e.report.id == id && Ends(e.report.status)
  }

  lemma HeardGrows(events: seq<Event>, node: string, id: string)
    requires events != []
    ensures var last := events[|events| - 1];
      Heard(events, node, id) <==>
      Heard(events[..|events| - 1], node, id)
      || (last.ArriveUp? && last.node == node && last.report.id == id && Ends(last.report.status))
  {
    assert events == events[..|events| - 1] + [events[|events| - 1]];
  }

  lemma {:induction false} IssuedGrows(events: seq<Event>, id: string)
    requires Valid(events) && events != [] && id in After(events[..|events| - 1]).issued
    ensures id in After(events).issued && After(events).issued[id] == After(events[..|events| - 1]).issued[id]
  {
  }

  /** Nothing is heard of a command before it has been issued. */
  lemma {:induction false} HeardWasIssued(events: seq<Event>, node: string, id: string)
    requires Valid(events) && Heard(events, node, id)
    ensures id in After(events).issued && After(events).issued[id] == node
  {
    var front, last := events[..|events| - 1], events[|events| - 1];
    HeardGrows(events, node, id);
    if Heard(front, node, id) {
      HeardWasIssued(front, node, id);
      IssuedGrows(events, id);
    } else {
      var r := RouterOf(After(front), node);
      AlwaysOrderly(front, node, id);
      ReportedIn(r.reports, last.report);
      OnlyPushed(front, node, id);
      OnlyIssued(front, node, id);
    }
  }

  /** Exactly when a slot is free again: an issued command has left the in-flight table iff a terminal report about it
      has arrived from the node it was issued to. */
  lemma {:induction false} SlotFreedIff(events: seq<Event>, id: string)
    requires Valid(events) && id in After(events).issued
    ensures !InFlight(After(events).dispatch, After(events).issued[id], id) <==> Heard(events, After(events).issued[id], id)
  {
    var front, last := events[..|events| - 1], events[|events| - 1];
    var s, node := After(front), After(events).issued[id];
    HeardGrows(events, node, id);
    if id in s.issued {
      SlotFreedIff(front, id);
      match last
      case Issue(n, c, live) => SendSlots(s.dispatch, n, c, live, node, id);
      case ArriveUp(n, r) => ResultSlots(s.dispatch, n, r, node, id);
      case _ =>
    } else {
      SendSlots(s.dispatch, last.node, last.command, last.live, node, id);
      if Heard(front, node, id) {
        HeardWasIssued(front, node, id);
      }
    }
  }

  lemma Follow(events: seq<Event>, e: Event)
    requires Valid(events) && Allowed(After(events), e)
    ensures Valid(events + [e]) && After(events + [e]) == Step(After(events), e)
  {
    assert (events + [e])[..|events|] == events;
  }

  /** Some continuation of a history hears of the command. */
  ghost predicate CanHear(events: seq<Event>, node: string, id: string) {
    exists more :: Valid(events + more) && Heard(events + more, node, id)
  }

  lemma Longer(events: seq<Event>, more: seq<Event>, e: Event)
    ensures events + (more + [e]) == events + more + [e]
  {
  }

  lemma HearFrom(events: seq<Event>, more: seq<Event>, node: string, r: Report)
    requires Valid(events + more) && r in RouterOf(After(events + more), node).reports && Ends(r.status)
    ensures CanHear(events, node, r.id)
  {
    var e := ArriveUp(node, r);
    Follow(events + more, e);
    Longer(events, more, e);
    assert e in events + more + [e];
  }

  lemma HearAfterDone(events: seq<Event>, more: seq<Event>, node: string, id: string)
    requires Valid(events + more) && SeenOf(RouterOf(After(events + more), node), id) == Some(InProgress)
    ensures CanHear(events, node, id)
  {
    var e := Done(node, id, true);
    Follow(events + more, e);
    Longer(events, more, e);
    HearFrom(events, more + [e], node, Report(id, Succeeded));
  }

  lemma {:induction false} StatusReported(reports: seq<Report>, id: string, i: nat)
    requires i < |Statuses(reports, id)|
    ensures Report(id, Statuses(reports, id)[i]) in reports
  {
    var front, last := reports[..|reports| - 1], reports[|reports| - 1];
    if i < |Statuses(front, id)| {
      StatusReported(front, id, i);
    }
  }

  lemma PushedCanHear(events: seq<Event>, node: string, id: string)
    requires Valid(events) && PushedTo(After(events), node, id)
    ensures CanHear(events, node, id)
  {
    var r := RouterOf(After(events), node);
    AlwaysOrderly(events, node, id);
    assert events + [] == events;
    if id !in r.seen {
      var c: Command :| Down(node, c) in After(events).dispatch.pushed && c.id == id;
      Follow(events, ArriveDown(node, c));
      HearAfterDone(events, [ArriveDown(node, c)], node, id);
    } else if r.seen[id] == InProgress {
      HearAfterDone(events, [], node, id);
    } else {
      var n :| EndsAt(Statuses(r.reports, id), n, r.seen[id]);
      StatusReported(r.reports, id, n);
      HearFrom(events, [], node, Report(id, r.seen[id]));
    }
  }

  lemma PushedBefore(s: System, e: Event, node: string, id: string)
    requires Allowed(s, e) && id in s.issued && PushedTo(Step(s, e), node, id)
    ensures PushedTo(s, node, id)
  {
    var c: Command :| Down(node, c) in Step(s, e).dispatch.pushed && c.id == id;
    assert Down(node, c) in s.dispatch.pushed;
  }

  lemma UnpushedStep(s: System, e: Event, node: string, id: string)
    requires Allowed(s, e) && id in s.issued && !PushedTo(s, node, id)
    ensures id in Step(s, e).issued && !PushedTo(Step(s, e), node, id)
  {
    if PushedTo(Step(s, e), node, id) {
      PushedBefore(s, e, node, id);
    }
  }

  lemma {:induction false} UnpushedStays(events: seq<Event>, more: seq<Event>, node: string, id: string)
    requires Valid(events + more) && id in After(events).issued && !PushedTo(After(events), node, id)
    ensures id in After(events + more).issued && !PushedTo(After(events + more), node, id)
  {
    if more == [] {
      assert events + more == events;
    } else {
      var fewer := more[..|more| - 1];
      OneBack(events, more);
      UnpushedStays(events, fewer, node, id);
      UnpushedStep(After(events + fewer), more[|more| - 1], node, id);
    }
  }

  lemma IssuedStep(s: System, e: Event, id: string, node: string)
    requires Allowed(s, e) && id in s.issued && s.issued[id] == node
    ensures id in Step(s, e).issued && Step(s, e).issued[id] == node
  {
  }

  lemma Back(events: seq<Event>, e: Event)
    requires Valid(events + [e])
    ensures Valid(events) && Allowed(After(events), e) && After(events + [e]) == Step(After(events), e)
  {
    assert (events + [e])[..|events|] == events;
  }

  /** A longer history, one event back. */
  lemma OneBack(events: seq<Event>, more: seq<Event>)
    requires more != [] && Valid(events + more)
    ensures var fewer, last := events + more[..|more| - 1], more[|more| - 1];
      Valid(fewer) && Allowed(After(fewer), last) && After(events + more) == Step(After(fewer), last)
  {
    var fewer, last := events + more[..|more| - 1], more[|more| - 1];
    assert events + more == fewer + [last];
    Back(fewer, last);
  }

  lemma {:induction false} IssuedStays(events: seq<Event>, more: seq<Event>, id: string)
    requires Valid(events + more) && id in After(events).issued
    ensures id in After(events + more).issued && After(events + more).issued[id] == After(events).issued[id]
  {
    if more == [] {
      assert events + more == events;
    } else {
      var fewer := more[..|more| - 1];
      OneBack(events, more);
      IssuedStays(events, fewer, id);
      IssuedStep(After(events + fewer), more[|more| - 1], id, After(events).issued[id]);
    }
  }

  /** In some continuation of a history the command is no longer in flight. */
  ghost predicate Freeable(events: seq<Event>, node: string, id: string) {
    exists more :: Valid(events + more) && !InFlight(After(events + more).dispatch, node, id)
  }

  /** The slot of an issued command is free or can still be freed, by some continuation of the history, exactly when the
      command has been pushed to a session. */
  lemma FreeableIff(events: seq<Event>, id: string)
    requires Valid(events) && id in After(events).issued
    ensures Freeable(events, After(events).issued[id], id) <==> PushedTo(After(events), After(events).issued[id], id)
  {
    var node := After(events).issued[id];
    if PushedTo(After(events), node, id) {
      PushedCanHear(events, node, id);
      var more :| Valid(events + more) && Heard(events + more, node, id);
      IssuedStays(events, more, id);
      SlotFreedIff(events + more, id);
    }
    forall more | Valid(events + more) && !InFlight(After(events + more).dispatch, node, id)
      ensures PushedTo(After(events), node, id)
    {
      IssuedStays(events, more, id);
      SlotFreedIff(events + more, id);
      HeardWasPushed(events + more, node, id);
      if !PushedTo(After(events), node, id) {
        UnpushedStays(events, more, node, id);
      }
    }
  }

  lemma {:induction false} HeardWasPushed(events: seq<Event>, node: string, id: string)
    requires Valid(events) && Heard(events, node, id)
    ensures PushedTo(After(events), node, id)
  {
    var front, last := events[..|events| - 1], events[|events| - 1];
    HeardGrows(events, node, id);
    if Heard(front, node, id) {
      HeardWasPushed(front, node, id);
    } else {
      AlwaysOrderly(front, node, id);
      ReportedIn(RouterOf(After(front), node).reports, last.report);
      OnlyPushed(front, node, id);
    }
    PushedGrows(After(front), last, node, id);
  }

  /** One command sent to a node without a session: its slot is taken, and no continuation frees it. */
  lemma StuckSlot(node: string, c: Command)
    ensures var events := [Issue(node, c, false)];
      && Valid(events) && InFlight(After(events).dispatch, node, c.id) && !Freeable(events, node, c.id)
  {
    var e := Issue(node, c, false);
    assert [] + [e] == [e];
    Follow([], e);
    SendSlots(FRESH_DISPATCH, node, c, false, node, c.id);
    FreeableIff([e], c.id);
  }

  lemma {:induction false} EndingExists(events: seq<Notice>, id: string) returns (n: Notice)
    requires Endings(events, id) > 0
    ensures n in events && EndsFor(n, id)
  {
    if EndsFor(events[|events| - 1], id) {
      n := events[|events| - 1];
    } else {
      n := EndingExists(events[..|events| - 1], id);
    }
  }
}
