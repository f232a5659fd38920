/** The in-flight table of the dispatcher, read off the commands sent and the results received: which commands it
    holds, and what it answers when asked for a kind of command. */
module DispatchHistory {
  import opened CommandState

  /** The verbs a command can be made with (shared/contracts/commands.mjs). */
  const CONTROL_COMMANDS: set<string> :=
    { "dispatch_job", "cancel_job", "update_agent", "update_control_plane_agent", "reboot", "restart_worker", "drain",
      "undrain", "set_config", "collect_diagnostics", "ping" }

  datatype Event =
    | Sent(node: string, command: Command, live: bool)
    | Resulted(node: string, report: Report)

  function Step(d: Dispatch, e: Event): Dispatch {
    match e
    case Sent(n, c, live) => Send(d, n, c, live)
    case Resulted(n, r) => OnResult(d, n, r)
  }

  function After(events: seq<Event>): Dispatch {
    if events == [] then FRESH_DISPATCH else Step(After(events[..|events| - 1]), events[|events| - 1])
  }

  /** Every command sent has a verb of its contract; ids may repeat, results may be about anything. */
  predicate Known(events: seq<Event>) {
    forall e :: e in events && e.Sent? ==> e.command.verb in CONTROL_COMMANDS
  }

  /** A result that is not an interim one has come for the command. */
  predicate Ended(e: Event, node: string, id: string) {
    e.Resulted? && e.node == node && e.report.id == id && e.report.status !in {Accepted, InProgress}
  }

  /** The command was sent to the node, and since then no final result for it has come from there, nor has another
      command been sent there under its id: read off the history alone. */
  predicate Pending(events: seq<Event>, node: string, c: Command) {
    events != [] &&
    (var front, last := events[..|events| - 1], events[|events| - 1];
     if last.Sent? && last.node == node && last.command.id == c.id then last.command == c
     else !Ended(last, node, c.id) && Pending(front, node, c))
  }

  predicate Holds(d: Dispatch, node: string, c: Command) {
    c.id in Bucket(d, node) && Bucket(d, node)[c.id].command == c
  }

  predicate WellFiled(id: string, slot: Slot) {
    slot.command.id == id && slot.category == CategoryOf(slot.command.verb)
  }

  /** Every slot is under the id of its command and filed by its verb. */
  ghost predicate Filed(d: Dispatch, node: string) {
    var b := Bucket(d, node);
    forall id :: id in b ==> WellFiled(id, b[id])
  }

  lemma StepFiles(d: Dispatch, e: Event, node: string)
    requires Filed(d, node)
    ensures Filed(Step(d, e), node)
  {
    var b, b' := Bucket(d, node), Bucket(Step(d, e), node);
    forall id | id in b' ensures WellFiled(id, b'[id]) {
      if id in b && b'[id] == b[id] {
        assert WellFiled(id, b[id]);
      } else {
        assert e.Sent? && e.node == node && id == e.command.id;
      }
    }
  }

  lemma StepHolds(d: Dispatch, e: Event, node: string, c: Command)
    ensures Holds(Step(d, e), node, c) <==>
      if e.Sent? && e.node == node && e.command.id == c.id then e.command == c
      else !Ended(e, node, c.id) && Holds(d, node, c)
  {
  }

  lemma {:induction false} AlwaysFiled(events: seq<Event>, node: string)
    ensures Filed(After(events), node)
  {
    if events != [] {
      AlwaysFiled(events[..|events| - 1], node);
      StepFiles(After(events[..|events| - 1]), events[|events| - 1], node);
    }
  }

  /** The dispatcher holds exactly the pending commands. */
  lemma {:induction false} HeldIff(events: seq<Event>, node: string, c: Command)
    ensures Holds(After(events), node, c) <==> Pending(events, node, c)
  {
    if events != [] {
      HeldIff(events[..|events| - 1], node, c);
      StepHolds(After(events[..|events| - 1]), events[|events| - 1], node, c);
    }
  }

  lemma {:induction false} PendingWasSent(events: seq<Event>, node: string, c: Command)
    requires Pending(events, node, c)
    ensures exists e :: e in events && e.Sent? && e.node == node && e.command == c
  {
    var front, last := events[..|events| - 1], events[|events| - 1];
    assert events == front + [last];
    if !(last.Sent? && last.node == node && last.command.id == c.id) {
      PendingWasSent(front, node, c);
      var e :| e in front && e.Sent? && e.node == node && e.command == c;
      assert e in events;
    } else {
      assert last in events;
    }
  }

  // ---- kinds of commands ----

  /** The verbs asked for by a category: three kinds, and every other verb by its own name. */
  predicate AskedFor(category: string, verb: string) {
    match category
    case "update" => IsUpdate(verb)
    case "drain" => IsDrain(verb)
    case "job" => IsJob(verb)
    case _ => verb == category && !IsUpdate(verb) && !IsDrain(verb) && !IsJob(verb)
  }

  lemma FiledByKind(verb: string, category: string)
    requires verb in CONTROL_COMMANDS
    ensures CategoryOf(verb) == category <==> AskedFor(category, verb)
  {
  }

  ghost predicate SomePending(events: seq<Event>, node: string, category: string) {
    exists c :: Pending(events, node, c) && AskedFor(category, c.verb)
  }

  /** After any history the dispatcher says that a kind of command is in flight for a node exactly when some command of
      one of its verbs is pending there: for "update" the two update verbs, for "drain" drain and undrain. */
  lemma InFlightIff(events: seq<Event>, node: string, category: string)
    requires Known(events)
    ensures HasInFlight(After(events), node, category) <==> SomePending(events, node, category)
  {
    var b := Bucket(After(events), node);
    AlwaysFiled(events, node);
    forall c | Pending(events, node, c) && AskedFor(category, c.verb)
      ensures HasInFlight(After(events), node, category)
    {
      HeldIff(events, node, c);
      PendingWasSent(events, node, c);
      FiledByKind(c.verb, category);
      assert b[c.id].category == category;
    }
    if id :| id in b && b[id].category == category {
      var c := b[id].command;
      HeldIff(events, node, c);
      PendingWasSent(events, node, c);
      FiledByKind(c.verb, category);
    }
  }

  /** So jobs, drains, reboots, pings and every other command in flight never count as an update. */
  lemma OtherWorkIsNoUpdate(events: seq<Event>, node: string)
    requires Known(events) && forall c :: Pending(events, node, c) ==> !IsUpdate(c.verb)
    ensures !HasInFlight(After(events), node, "update")
  {
    InFlightIff(events, node, "update");
  }

  /** One job sent to a node: a job is in flight there, and no update. */
  lemma JobIsNoUpdate(node: string, id: string)
    ensures var d := After([Sent(node, Command(id, "dispatch_job"), true)]);
      HasInFlight(d, node, "job") && !HasInFlight(d, node, "update")
  {
    var c := Command(id, "dispatch_job");
    var events := [Sent(node, c, true)];
    assert events[..0] == [] && Pending(events, node, c) && AskedFor("job", c.verb);
    InFlightIff(events, node, "job");
    forall x | Pending(events, node, x) ensures !IsUpdate(x.verb) {
      PendingWasSent(events, node, x);
    }
    OtherWorkIsNoUpdate(events, node);
  }

  // ---- notices ----

  /** How often a command has been sent to the node under this id while the node had a session. */
  function TimesSentLive(events: seq<Event>, node: string, id: string): nat {
    if events == [] then 0
    else
      var last := events[|events| - 1];
      TimesSentLive(events[..|events| - 1], node, id)
      + (if last.Sent? && last.live && last.node == node && last.command.id == id then 1 else 0)
  }

  function TimesNoticed(notices: seq<Notice>, n: Notice): nat {
    if notices == [] then 0
    else TimesNoticed(notices[..|notices| - 1], n) + (if notices[|notices| - 1] == n then 1 else 0)
  }

  lemma NoticeAdded(notices: seq<Notice>, last: Notice, n: Notice)
    ensures TimesNoticed(notices + [last], n) == TimesNoticed(notices, n) + (if last == n then 1 else 0)
  {
    assert (notices + [last])[..|notices|] == notices;
  }

  lemma StepAnnounces(d: Dispatch, e: Event, n: Notice)
    requires n.CommandIssued?
    ensures TimesNoticed(Step(d, e).events, n) == TimesNoticed(d.events, n)
      + (if e.Sent? && e.live && e.node == n.node && e.command.id == n.id then 1 else 0)
  {
    match e
    case Sent(m, c, live) => NoticeAdded(d.events, CommandIssued(m, c.id), n);
    case Resulted(m, r) => NoticeAdded(d.events, NoticeOf(m, r), n);
  }

  /** That a command was issued is announced each time it was pushed, and only then. */
  lemma {:induction false} AnnouncedWhenPushed(events: seq<Event>, node: string, id: string)
    ensures TimesNoticed(After(events).events, CommandIssued(node, id)) == TimesSentLive(events, node, id)
  {
    if events != [] {
      AnnouncedWhenPushed(events[..|events| - 1], node, id);
      StepAnnounces(After(events[..|events| - 1]), events[|events| - 1], CommandIssued(node, id));
    }
  }
}
