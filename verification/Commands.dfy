/** The command router and the dispatcher as they are run, each method tied to its function on states. */
module Commands {
  import opened Common
  import opened CommandState

  class CommandRouter {
    var seen: map<string, Status>
    var reports: seq<Report>
    var started: seq<string>

    ghost function Abstract(): Router
      reads this
    {
      Router(seen, reports, started)
    }

    constructor ()
      ensures Abstract() == FRESH_ROUTER
    {
      seen, reports, started := map[], [], [];
    }

    method Tell(id: string, status: Status)
      modifies this`reports
      ensures Abstract() == Say(old(Abstract()), id, status)
    {
      reports := reports + [Report(id, status)];
    }

    /** Up to the point where the handler runs; run says whether it does. */
    method Handle(id: string) returns (run: bool)
      modifies this
      ensures Abstract() == CommandState.Handle(old(Abstract()), id)
      ensures run <==> started != old(started)
    {
      if id in seen && (seen[id] == Succeeded || seen[id] == Failed || seen[id] == Rejected) {
        Tell(id, seen[id]);
        return false;
      }
      if id in seen && seen[id] == InProgress {
        return false;
      }
      seen := seen[id := InProgress];
      started := started + [id];
      Tell(id, Accepted);
      return true;
    }

    /** After the handler has run. */
    method Finish(id: string, ok: bool)
      modifies this
      ensures Abstract() == CommandState.Finish(old(Abstract()), id, ok)
    {
      var status := if ok then Succeeded else Failed;
      seen := seen[id := status];
      Tell(id, status);
    }
  }

  class Dispatcher {
    var inFlight: map<string, map<string, Slot>>
    var pushed: seq<Down>
    var events: seq<Notice>

    ghost function Abstract(): Dispatch
      reads this
    {
      Dispatch(inFlight, pushed, events)
    }

    constructor ()
      ensures Abstract() == FRESH_DISPATCH
    {
      inFlight, pushed, events := map[], [], [];
    }

    /** live says whether the registry holds a session for the node; sent is false when it throws. */
    method Send(node: string, command: Command, live: bool) returns (sent: bool)
      modifies this
      ensures Abstract() == CommandState.Send(old(Abstract()), node, command, live) && sent == live
    {
      var category := CategoryOf(command.verb);
      if node !in inFlight {
        inFlight := inFlight[node := map[]];
      }
      inFlight := inFlight[node := inFlight[node][command.id := Slot(command, category)]];
      if !live {
        return false;
      }
      pushed := pushed + [Down(node, command)];
      events := events + [CommandIssued(node, command.id)];
      return true;
    }

    method HasInFlightCommand(node: string, category: string) returns (found: bool)
      ensures found <==> HasInFlight(Abstract(), node, category)
    {
      if node !in inFlight {
        return false;
      }
      var todo := inFlight[node].Keys;
      while todo != {}
        invariant todo <= inFlight[node].Keys
        invariant forall id :: id in inFlight[node] && id !in todo ==> inFlight[node][id].category != category
        decreases |todo|
      {
        var id :| id in todo;
        if inFlight[node][id].category == category {
          assert id in Bucket(Abstract(), node);
          return true;
        }
        todo := todo - {id};
      }
      return false;
    }

    method OnCommandResult(node: string, result: Report) returns (answer: Option<Command>)
      modifies this
      ensures Abstract() == OnResult(old(Abstract()), node, result)
      ensures answer == if InFlight(old(Abstract()), node, result.id)
                        then Some(Bucket(old(Abstract()), node)[result.id].command) else None
    {
      if node !in inFlight || result.id !in inFlight[node] {
        return None;
      }
      answer := Some(inFlight[node][result.id].command);
      if Ends(result.status) {
        inFlight := inFlight[node := inFlight[node] - {result.id}];
        var notice := if result.status == Succeeded then CommandSucceeded(node, result.id) else CommandFailed(node, result.id);
        events := events + [notice];
      }
    }
  }
}
