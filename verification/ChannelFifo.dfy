/** Whole runs of the up-channel: whatever the network does, envelopes leave the buffer in the order they were sent. */
module ChannelFifo {
  import opened Common
  import opened ChannelState

  /** tried holds every envelope a push request has been made for; wire is the server's log of those it has processed. */
  datatype World = World(conn: Conn, started: bool, tried: set<Envelope>, wire: seq<Envelope>)

  datatype Event =
    | Started
    | Sent(envelope: Envelope)
    | SocketOpens
    | SocketCloses
    | SocketClosed
    | RetryTimer
    | ServerProcesses(copy: Envelope)
    | ReplyArrives(reply: PushReply)
    | PollReturns
    | PollUnauthorized
    | Stopped

  /** start is called once; a push request may be processed any number of times and however late, even after its sender
      has given up on it, but at least once before it is acknowledged. */
  predicate Allowed(w: World, e: Event) {
    match e
    case Started => !w.started
    case SocketOpens => w.conn.socket == Connecting
    case SocketCloses => w.conn.socket == Open
    case SocketClosed => w.conn.socket != NoSocket || w.conn.closed
    case RetryTimer => w.conn.retrying
    case ServerProcesses(x) => x in w.tried
    case ReplyArrives(r) =>
      && w.conn.posting.Some? && w.conn.outbox != []
      && (r == PushOk ==> w.conn.posting.value in w.wire)
    case _ => true
  }

  function StepConn(c: Conn, e: Event): Conn
    requires e.ReplyArrives? ==> c.posting.Some? && c.outbox != []
  {
    match e
    case Started => Start(c)
    case Sent(x) => Send(c, x)
    case SocketOpens => OnOpen(c)
    case SocketCloses => c.(socket := Closing)
    case SocketClosed => OnClose(c)
    case RetryTimer => Retry(c)
    case ServerProcesses(_) => c
    case ReplyArrives(r) => OnPushReply(c, r)
    case PollReturns => LpFlush(c)
    case PollUnauthorized => c.(closed := true)
    case Stopped => Close(c)
  }

  function Step(w: World, e: Event): World
    requires Allowed(w, e)
  {
    var c := StepConn(w.conn, e);
    World(c, w.started || e.Started?,
          if c.posting.Some? then w.tried + {c.posting.value} else w.tried,
          if e.ServerProcesses? then w.wire + [e.copy] else w.wire)
  }

  datatype Setup = Setup(transport: Transport, failoverAfter: nat)

  function After(z: Setup, events: seq<Event>): World
    requires Valid(z, events)
    decreases events, 1
  {
    if events == [] then World(Fresh(z.transport, z.failoverAfter), false, {}, [])
    else Step(After(z, events[..|events| - 1]), events[|events| - 1])
  }

  predicate Valid(z: Setup, events: seq<Event>)
    decreases events, 0
  {
    events == [] ||
    (Valid(z, events[..|events| - 1]) && Allowed(After(z, events[..|events| - 1]), events[|events| - 1]))
  }

  /** The envelopes sent, in order. */
  function Sends(events: seq<Event>): seq<Envelope> {
    if events == [] then []
    else
      var last := events[|events| - 1];
      Sends(events[..|events| - 1]) + (if last.Sent? then [last.envelope] else [])
  }

  /** The envelopes sent while there was room for them. */
  function Kept(z: Setup, events: seq<Event>): seq<Envelope>
    requires Valid(z, events)
  {
    if events == [] then []
    else
      var front, last := events[..|events| - 1], events[|events| - 1];
      Kept(z, front) + (if last.Sent? && !Full(After(z, front).conn) then [last.envelope] else [])
  }

  ghost predicate Overflows(z: Setup, events: seq<Event>)
    requires Valid(z, events)
  {
    events != [] &&
    (Overflows(z, events[..|events| - 1])
     || (events[|events| - 1].Sent? && Full(After(z, events[..|events| - 1]).conn)))
  }

  /** What holds of the connection in every reachable state. */
  ghost predicate Good(w: World) {
    var c := w.conn;
    && |c.outbox| <= OUTBOX_LIMIT
    && (c.socket == Open ==> c.outbox == [])
    && (c.mode == LongPollMode ==> c.socket == NoSocket && !c.retrying)
    && (c.mode == WebSocketMode ==> c.acked == [] && w.wire == [] && w.tried == {} && c.posting.None?)
    && (c.retrying ==> c.socket == NoSocket)
    && (!w.started ==> c.socket == NoSocket && !c.retrying)
    && (c.posting.Some? ==> c.outbox != [] && c.outbox[0] == c.posting.value)
  }

  lemma GoodKept(w: World, e: Event)
    requires Good(w) && Allowed(w, e)
    ensures Good(Step(w, e))
  {
  }

  lemma {:induction false} AlwaysGood(z: Setup, events: seq<Event>)
    requires Valid(z, events)
    ensures Good(After(z, events))
  {
    if events != [] {
      AlwaysGood(z, events[..|events| - 1]);
      GoodKept(After(z, events[..|events| - 1]), events[|events| - 1]);
    }
  }

  function Flow(c: Conn): seq<Envelope> {
    c.handedOff + c.acked + c.outbox
  }

  /** Only sending adds to the flow; everything else moves envelopes along it. */
  lemma FlowStep(w: World, e: Event)
    requires Good(w) && Allowed(w, e)
    ensures Flow(Step(w, e).conn) == Flow(w.conn) + (if e.Sent? && !Full(w.conn) then [e.envelope] else [])
  {
    if e == ReplyArrives(PushOk) {
      AckFlow(w.conn);
    } else if e.Sent? {
      SendFlow(w.conn, e.envelope);
    }
  }

  lemma AckFlow(c: Conn)
    requires c.posting.Some? && c.outbox != []
    ensures Flow(OnPushReply(c, PushOk)) == Flow(c)
  {
    assert c.outbox == [c.outbox[0]] + c.outbox[1..];
  }

  lemma SendFlow(c: Conn, x: Envelope)
    requires Live(c) ==> c.acked == [] && c.outbox == []
    ensures Flow(Send(c, x)) == Flow(c) + (if Full(c) then [] else [x])
  {
    assert Flow(c) + [x] == c.handedOff + c.acked + (c.outbox + [x]);
  }

  lemma {:induction false} KeptFlows(z: Setup, events: seq<Event>)
    requires Valid(z, events)
    ensures Kept(z, events) == Flow(After(z, events).conn)
  {
    if events != [] {
      var front, last := events[..|events| - 1], events[|events| - 1];
      KeptFlows(z, front);
      AlwaysGood(z, front);
      FlowStep(After(z, front), last);
    }
  }

  lemma {:induction false} NothingDropped(z: Setup, events: seq<Event>)
    requires Valid(z, events)
    ensures |Kept(z, events)| <= |Sends(events)|
    ensures !Overflows(z, events) ==> Kept(z, events) == Sends(events)
    ensures Overflows(z, events) ==> |Kept(z, events)| < |Sends(events)|
  {
    if events != [] {
      NothingDropped(z, events[..|events| - 1]);
    }
  }

  /** Up-channel FIFO: everything sent is, in order, handed to a socket, acknowledged by the server, or still buffered,
      exactly when no envelope was sent while the buffer was full; the buffer never exceeds its bound. */
  lemma UpChannelFifo(z: Setup, events: seq<Event>)
    requires Valid(z, events)
    ensures var c := After(z, events).conn;
      && (!Overflows(z, events) <==> Sends(events) == c.handedOff + c.acked + c.outbox)
      && Kept(z, events) == c.handedOff + c.acked + c.outbox
      && |c.outbox| <= OUTBOX_LIMIT && (c.socket == Open ==> c.outbox == [])
  {
    KeptFlows(z, events);
    NothingDropped(z, events);
    AlwaysGood(z, events);
  }

  // ---- the long-poll wire ----

  /** A log with adjacent repeats removed. */
  function Collapse(log: seq<Envelope>): (r: seq<Envelope>)
    ensures log != [] ==> r != [] && r[|r| - 1] == log[|log| - 1]
  {
    if log == [] then []
    else
      var front, last := Collapse(log[..|log| - 1]), log[|log| - 1];
      if front != [] && front[|front| - 1] == last then front else front + [last]
  }

  lemma {:induction false} CollapseAdd(log: seq<Envelope>, x: Envelope)
    ensures Collapse(log + [x])
         == if log != [] && log[|log| - 1] == x then Collapse(log) else Collapse(log) + [x]
  {
    var more := log + [x];
    assert more[..|more| - 1] == log && more[|more| - 1] == x;
  }

  lemma {:induction false} KeptAreSends(z: Setup, events: seq<Event>)
    requires Valid(z, events)
    ensures forall x :: x in Kept(z, events) ==> x in Sends(events)
    ensures Distinct(Sends(events)) ==> Distinct(Kept(z, events))
  {
    if events != [] {
      var front, last := events[..|events| - 1], events[|events| - 1];
      KeptAreSends(z, front);
      if Distinct(Sends(events)) {
        DistinctPrefix(Sends(front), if last.Sent? then [last.envelope] else []);
        if last.Sent? {
          assert last.envelope !in Sends(front) by {
            assert Sends(events)[|Sends(front)|] == last.envelope;
          }
        }
      }
    }
  }

  lemma DistinctPrefix(a: seq<Envelope>, b: seq<Envelope>)
    requires Distinct(a + b)
    ensures Distinct(a) && forall x :: x in a ==> x !in b
  {
    forall i, j | 0 <= i < j < |a| ensures a[i] != a[j] {
      assert (a + b)[i] != (a + b)[j];
    }
    forall i, j | 0 <= i < |a| && 0 <= j < |b| ensures a[i] != b[j] {
      assert (a + b)[i] != (a + b)[|a| + j];
    }
  }

  lemma {:induction false} CollapseMembers(log: seq<Envelope>, x: Envelope)
    ensures x in Collapse(log) <==> x in log
  {
    if log != [] {
      CollapseMembers(log[..|log| - 1], x);
      assert log == log[..|log| - 1] + [log[|log| - 1]];
    }
  }

  /** Pushes are made for the head of the buffer only, and what has been acknowledged has been processed. */
  ghost predicate Traced(w: World) {
    && (forall x :: x in w.tried ==> x in w.conn.acked || (w.conn.outbox != [] && w.conn.outbox[0] == x))
    && (forall x :: x in w.conn.acked ==> x in w.wire)
  }

  lemma TracedKept(w: World, e: Event)
    requires Good(w) && Traced(w) && Allowed(w, e)
    ensures Traced(Step(w, e))
  {
    if e != ReplyArrives(PushOk) {
      Unacked(w, e);
    }
  }

  lemma {:induction false} AlwaysTraced(z: Setup, events: seq<Event>)
    requires Valid(z, events)
    ensures Traced(After(z, events))
  {
    if events != [] {
      AlwaysTraced(z, events[..|events| - 1]);
      AlwaysGood(z, events[..|events| - 1]);
      TracedKept(After(z, events[..|events| - 1]), events[|events| - 1]);
    }
  }

  /** A copy of an acknowledged envelope that does not just repeat the last entry of the log. */
  predicate Stale(w: World, e: Event) {
    e.ServerProcesses? && e.copy in w.conn.acked && (w.wire == [] || w.wire[|w.wire| - 1] != e.copy)
  }

  /** No such copy is processed. */
  predicate NoneStale(z: Setup, events: seq<Event>)
    requires Valid(z, events)
  {
    events == [] ||
    (NoneStale(z, events[..|events| - 1]) && !Stale(After(z, events[..|events| - 1]), events[|events| - 1]))
  }

  /** The server has seen what was acknowledged, and perhaps the head of the buffer, in order and repeated at most in
      place. */
  ghost predicate InStep(w: World) {
    || Collapse(w.wire) == w.conn.acked
    || (w.conn.outbox != [] && Collapse(w.wire) == w.conn.acked + [w.conn.outbox[0]])
  }

  /** The head of the buffer has not been acknowledged. */
  ghost predicate HeadIsNew(c: Conn) {
    c.outbox != [] ==> c.outbox[0] !in c.acked
  }

  lemma FlowDistinct(c: Conn)
    requires Distinct(Flow(c))
    ensures HeadIsNew(c)
  {
    if c.outbox != [] {
      var k := |c.handedOff| + |c.acked|;
      forall i | 0 <= i < |c.acked| ensures c.acked[i] != c.outbox[0] {
        assert Flow(c)[|c.handedOff| + i] == c.acked[i] && Flow(c)[k] == c.outbox[0];
      }
    }
  }

  lemma ProcessedInStep(w: World, x: Envelope)
    requires Good(w) && InStep(w) && Traced(w) && HeadIsNew(w.conn) && x in w.tried
    requires !Stale(w, ServerProcesses(x))
    ensures InStep(Step(w, ServerProcesses(x)))
  {
    CollapseAdd(w.wire, x);
  }

  lemma AckInStep(w: World)
    requires Good(w) && InStep(w) && HeadIsNew(w.conn) && Allowed(w, ReplyArrives(PushOk))
    ensures InStep(Step(w, ReplyArrives(PushOk)))
  {
    CollapseMembers(w.wire, w.conn.outbox[0]);
    assert Collapse(w.wire) == w.conn.acked + [w.conn.outbox[0]];
  }

  lemma OtherInStep(w: World, e: Event)
    requires Good(w) && InStep(w) && Allowed(w, e) && !e.ServerProcesses? && e != ReplyArrives(PushOk)
    ensures InStep(Step(w, e))
  {
    Unacked(w, e);
  }

  /** Only an acknowledgement takes the head off the buffer of a long-poll channel. */
  lemma Unacked(w: World, e: Event)
    requires Good(w) && Allowed(w, e) && e != ReplyArrives(PushOk)
    ensures var w' := Step(w, e); (!e.ServerProcesses? ==> w'.wire == w.wire) && w'.conn.acked == w.conn.acked
    ensures w.conn.mode == LongPollMode ==> w.conn.outbox <= Step(w, e).conn.outbox
  {
  }

  lemma {:induction false} AlwaysInStep(z: Setup, events: seq<Event>)
    requires Valid(z, events) && Distinct(Sends(events)) && NoneStale(z, events)
    ensures InStep(After(z, events))
  {
    if events != [] {
      var front, last := events[..|events| - 1], events[|events| - 1];
      DistinctPrefix(Sends(front), if last.Sent? then [last.envelope] else []);
      AlwaysInStep(z, front);
      AlwaysGood(z, front);
      AlwaysTraced(z, front);
      KeptAreSends(z, front);
      KeptFlows(z, front);
      FlowDistinct(After(z, front).conn);
      if last.ServerProcesses? {
        ProcessedInStep(After(z, front), last.copy);
      } else if last == ReplyArrives(PushOk) {
        AckInStep(After(z, front));
      } else {
        OtherInStep(After(z, front), last);
      }
    }
  }

  /** Without adjacent repeats the server's log continues the envelopes handed to sockets to a prefix of what was kept;
      it holds everything acknowledged and at most one envelope more. */
  ghost predicate RepeatsOnlyTheHead(w: World, kept: seq<Envelope>) {
    var seen := Collapse(w.wire);
    w.conn.handedOff + seen <= kept && w.conn.acked <= seen && |seen| <= |w.conn.acked| + 1
  }

  lemma InStepRepeats(c: Conn, w: World)
    requires InStep(w) && c == w.conn
    ensures RepeatsOnlyTheHead(w, Flow(c))
  {
    if c.outbox != [] {
      assert c.outbox == [c.outbox[0]] + c.outbox[1..];
      assert Flow(c) == c.handedOff + (c.acked + [c.outbox[0]]) + c.outbox[1..];
    }
    assert c.handedOff + c.acked <= Flow(c);
  }

  /** A stale copy leaves a repeat in the log that never goes away. */
  lemma {:induction false} StaleRepeats(z: Setup, events: seq<Event>)
    requires Valid(z, events) && !NoneStale(z, events)
    ensures !Distinct(Collapse(After(z, events).wire))
  {
    var front, last := events[..|events| - 1], events[|events| - 1];
    var w := After(z, front);
    if last.ServerProcesses? {
      CollapseAdd(w.wire, last.copy);
    }
    if NoneStale(z, front) {
      AlwaysTraced(z, front);
      CollapseMembers(w.wire, last.copy);
      var seen := Collapse(w.wire);
      var i :| 0 <= i < |seen| && seen[i] == last.copy;
      assert (seen + [last.copy])[i] == (seen + [last.copy])[|seen|];
    } else {
      StaleRepeats(z, front);
      var seen := Collapse(w.wire);
      var i, j :| 0 <= i < j < |seen| && seen[i] == seen[j];
      var more := Collapse(After(z, events).wire);
      assert more[i] == more[j];
    }
  }

  lemma PrefixDistinct(handed: seq<Envelope>, seen: seq<Envelope>, kept: seq<Envelope>)
    requires handed + seen <= kept && Distinct(kept)
    ensures Distinct(seen)
  {
    forall i, j | 0 <= i < j < |seen| ensures seen[i] != seen[j] {
      assert kept[|handed| + i] == seen[i] && kept[|handed| + j] == seen[j];
    }
  }

  /** Long-poll wire: with unique envelopes, removing adjacent repeats from the server's log gives a prefix of the sends
      exactly when no copy of an acknowledged envelope has been processed late, other than in place. */
  lemma WireRepeatsOnlyTheHead(z: Setup, events: seq<Event>)
    requires Valid(z, events) && Distinct(Sends(events))
    ensures RepeatsOnlyTheHead(After(z, events), Kept(z, events)) <==> NoneStale(z, events)
  {
    var w := After(z, events);
    KeptFlows(z, events);
    KeptAreSends(z, events);
    if NoneStale(z, events) {
      AlwaysInStep(z, events);
      InStepRepeats(w.conn, w);
    } else {
      StaleRepeats(z, events);
      if RepeatsOnlyTheHead(w, Kept(z, events)) {
        PrefixDistinct(w.conn.handedOff, Collapse(w.wire), Kept(z, events));
      }
    }
  }

  lemma Follow(z: Setup, events: seq<Event>, e: Event)
    requires Valid(z, events) && Allowed(After(z, events), e)
    ensures var more := events + [e];
      && Valid(z, more) && After(z, more) == Step(After(z, events), e)
      && Sends(more) == Sends(events) + (if e.Sent? then [e.envelope] else [])
      && (NoneStale(z, more) <==> NoneStale(z, events) && !Stale(After(z, events), e))
  {
    assert (events + [e])[..|events|] == events;
  }

  /** A started long-poll channel with this much of its life behind it. */
  function LpWorld(posting: Option<Envelope>, outbox: seq<Envelope>, acked: seq<Envelope>, tried: set<Envelope>,
                   wire: seq<Envelope>): World
  {
    World(Conn(LongPollOnly, 2, LongPollMode, NoSocket, false, false, false, 0, posting, outbox, [], acked),
          true, tried, wire)
  }

  /** A push that fails for its sender, though its request is still on the way. */
  lemma FirstPushFails(z: Setup, a: Envelope) returns (events: seq<Event>)
    requires z == Setup(LongPollOnly, 2)
    ensures Valid(z, events) && Sends(events) == [a] && After(z, events) == LpWorld(None, [a], [], {a}, [])
  {
    Follow(z, [], Started);
    events := [] + [Started];
    assert After(z, events) == LpWorld(None, [], [], {}, []);
    Follow(z, events, Sent(a));
    events := events + [Sent(a)];
    assert After(z, events) == LpWorld(Some(a), [a], [], {a}, []);
    Follow(z, events, ReplyArrives(PushFailed));
    events := events + [ReplyArrives(PushFailed)];
  }

  /** The next poll pushes it again, and this request is processed and acknowledged. */
  lemma RetryAcknowledged(z: Setup, a: Envelope) returns (events: seq<Event>)
    requires z == Setup(LongPollOnly, 2)
    ensures Valid(z, events) && Sends(events) == [a] && After(z, events) == LpWorld(None, [], [a], {a}, [a])
  {
    events := FirstPushFails(z, a);
    Follow(z, events, PollReturns);
    events := events + [PollReturns];
    assert After(z, events) == LpWorld(Some(a), [a], [], {a}, []);
    Follow(z, events, ServerProcesses(a));
    events := events + [ServerProcesses(a)];
    assert After(z, events) == LpWorld(Some(a), [a], [], {a}, [a]);
    Follow(z, events, ReplyArrives(PushOk));
    events := events + [ReplyArrives(PushOk)];
  }

  /** A second envelope is sent and processed. */
  lemma SecondProcessed(z: Setup, a: Envelope, b: Envelope) returns (events: seq<Event>)
    requires z == Setup(LongPollOnly, 2) && a != b
    ensures Valid(z, events) && Sends(events) == [a, b]
    ensures After(z, events) == LpWorld(Some(b), [b], [a], {a, b}, [a, b])
  {
    events := RetryAcknowledged(z, a);
    Follow(z, events, Sent(b));
    events := events + [Sent(b)];
    assert After(z, events) == LpWorld(Some(b), [b], [a], {a, b}, [a]);
    Follow(z, events, ServerProcesses(b));
    events := events + [ServerProcesses(b)];
  }

  /** And only then the first request arrives: its copy is stale. */
  lemma LateCopyArrives(a: Envelope, b: Envelope) returns (z: Setup, events: seq<Event>)
    requires a != b
    ensures Valid(z, events) && Sends(events) == [a, b] && !NoneStale(z, events)
    ensures After(z, events).wire == [a, b, a]
  {
    z := Setup(LongPollOnly, 2);
    events := SecondProcessed(z, a, b);
    Follow(z, events, ServerProcesses(a));
    events := events + [ServerProcesses(a)];
  }
}
