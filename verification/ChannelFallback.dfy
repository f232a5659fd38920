/** When the up-channel gives up on WebSocket, and that it then goes on by long-poll. */
module ChannelFallback {
  import opened Common
  import opened ChannelState
  import opened ChannelFifo

  // ---- the life of the sockets, read off the events alone ----

  /** Whether the channel has been started, and given up since; whether the last socket created has opened; how many
      sockets in a row have failed to open. */
  datatype Life = Life(started: bool, givenUp: bool, hasOpened: bool, failures: nat)

  const UNBORN := Life(false, false, false, 0)

  /** The channel is given up by a stop or by an answer that the credential is no longer good. */
  predicate GivesUp(e: Event) {
    e == Stopped || e == PollUnauthorized || e == ReplyArrives(Unauthorized)
  }

  function Next(l: Life, e: Event): Life {
    Life(l.started || e.Started?,
         GivesUp(e) || (l.givenUp && !e.Started?),
         e.SocketOpens? || (l.hasOpened && !e.Started? && !e.RetryTimer?),
         if e.SocketOpens? then 0 else if e.SocketClosed? && !l.givenUp && !l.hasOpened then l.failures + 1 else l.failures)
  }

  function LifeOf(events: seq<Event>): Life {
    if events == [] then UNBORN else Next(LifeOf(events[..|events| - 1]), events[|events| - 1])
  }

  /** At some point as many sockets in a row had failed to open as the channel puts up with, and at least one. */
  ghost predicate RanOut(z: Setup, events: seq<Event>) {
    exists k :: 0 <= k <= |events| && LifeOf(events[..k]).failures >= Max(1, z.failoverAfter)
  }

  // ---- what the connection remembers of it ----

  ghost predicate Alive(w: World, l: Life) {
    w.started == l.started && w.conn.closed == l.givenUp
  }

  /** While WebSocket is tried, a started channel has a socket or a reconnect pending. */
  ghost predicate Trying(w: World, l: Life) {
    var c := w.conn;
    c.mode == WebSocketMode && c.transport != LongPollOnly && l.started && !l.givenUp ==>
      c.everOpen == l.hasOpened && (c.socket != NoSocket || c.retrying)
  }

  ghost predicate Counting(w: World, l: Life) {
    var c := w.conn;
    c.mode == WebSocketMode && c.transport == Auto ==> c.preOpenFailures == l.failures < Max(1, c.failoverAfter)
  }

  lemma AliveKept(w: World, e: Event, l: Life)
    requires Allowed(w, e) && Good(w) && Alive(w, l)
    ensures Alive(Step(w, e), Next(l, e))
  {
  }

  lemma TryingKept(w: World, e: Event, l: Life)
    requires Allowed(w, e) && Good(w) && Alive(w, l) && Trying(w, l)
    ensures Trying(Step(w, e), Next(l, e))
  {
  }

  lemma CountingKept(w: World, e: Event, l: Life)
    requires Allowed(w, e) && Good(w) && Alive(w, l) && Trying(w, l) && Counting(w, l)
    ensures Counting(Step(w, e), Next(l, e))
  {
  }

  /** One event turns a WebSocket channel into a long-poll channel exactly when it makes up the number. */
  lemma TurnsIff(w: World, e: Event, l: Life)
    requires Allowed(w, e) && Alive(w, l) && Trying(w, l) && Counting(w, l) && Good(w)
    requires w.conn.mode == WebSocketMode && w.conn.transport != LongPollOnly
    ensures Step(w, e).conn.mode == LongPollMode <==>
      w.conn.transport == Auto && Next(l, e).failures >= Max(1, w.conn.failoverAfter)
  {
  }

  lemma SetupKept(w: World, e: Event)
    requires Allowed(w, e)
    ensures var c, c' := w.conn, StepConn(w.conn, e); c'.transport == c.transport && c'.failoverAfter == c.failoverAfter
  {
  }

  lemma LongPollStays(w: World, e: Event)
    requires Allowed(w, e) && w.conn.mode == LongPollMode
    ensures StepConn(w.conn, e).mode == LongPollMode
  {
  }

  ghost predicate SetUp(c: Conn, z: Setup) {
    c.transport == z.transport && c.failoverAfter == z.failoverAfter && (z.transport == LongPollOnly ==> c.mode == LongPollMode)
  }

  lemma {:induction false} AlwaysRemembered(z: Setup, events: seq<Event>)
    requires Valid(z, events)
    ensures var w, l := After(z, events), LifeOf(events);
      SetUp(w.conn, z) && Alive(w, l) && Trying(w, l) && Counting(w, l)
  {
    if events != [] {
      var front, e := events[..|events| - 1], events[|events| - 1];
      var w, l := After(z, front), LifeOf(front);
      AlwaysRemembered(z, front);
      AlwaysGood(z, front);
      SetupKept(w, e);
      if w.conn.mode == LongPollMode {
        LongPollStays(w, e);
      }
      AliveKept(w, e, l);
      TryingKept(w, e, l);
      CountingKept(w, e, l);
    }
  }

  lemma RanOutGrows(z: Setup, events: seq<Event>)
    requires events != []
    ensures RanOut(z, events) <==>
      RanOut(z, events[..|events| - 1]) || LifeOf(events).failures >= Max(1, z.failoverAfter)
  {
    var front := events[..|events| - 1];
    assert events[..|events|] == events;
    assert forall k :: 0 <= k <= |front| ==> front[..k] == events[..k];
  }

  /** Fallback: after any history the channel is a long-poll channel exactly when it was set up as one, or is free to
      choose and at some point, before being given up, as many sockets in a row as it puts up with, and at least one,
      had closed without having opened. */
  lemma {:induction false} FallsBackIff(z: Setup, events: seq<Event>)
    requires Valid(z, events)
    ensures After(z, events).conn.mode == LongPollMode <==>
      z.transport == LongPollOnly || (z.transport == Auto && RanOut(z, events))
  {
    if events == [] {
      assert LifeOf([]).failures == 0;
    } else {
      var front, e := events[..|events| - 1], events[|events| - 1];
      FallsBackIff(z, front);
      AlwaysRemembered(z, front);
      AlwaysGood(z, front);
      RanOutGrows(z, events);
      if After(z, front).conn.mode == LongPollMode {
        LongPollStays(After(z, front), e);
      } else {
        TurnsIff(After(z, front), e, LifeOf(front));
      }
    }
  }

  /** Until then it never rests: a started channel that has not been given up has a socket or a reconnect pending. */
  lemma KeepsTrying(z: Setup, events: seq<Event>)
    requires Valid(z, events) && LifeOf(events).started && !LifeOf(events).givenUp
    requires z.transport == WebSocketOnly || (z.transport == Auto && !RanOut(z, events))
    ensures var c := After(z, events).conn; !c.closed && (c.socket != NoSocket || c.retrying)
  {
    FallsBackIff(z, events);
    AlwaysRemembered(z, events);
  }

  /** And from then on what is buffered moves: with every envelope sent, and with every poll that comes back while
      something is buffered, the head of the buffer is being pushed. */
  lemma PushesItsHead(z: Setup, events: seq<Event>, e: Event)
    requires Valid(z, events) && !LifeOf(events).givenUp
    requires z.transport == LongPollOnly || (z.transport == Auto && RanOut(z, events))
    requires e.Sent? || (e == PollReturns && After(z, events).conn.outbox != [])
    ensures var c, c' := After(z, events).conn, StepConn(After(z, events).conn, e);
      && c'.outbox != [] && c'.posting == Some(c'.outbox[0]) && (c.outbox != [] ==> c'.outbox[0] == c.outbox[0])
  {
    FallsBackIff(z, events);
    AlwaysRemembered(z, events);
    AlwaysGood(z, events);
  }

  /** Once it has been given up, nothing new is begun: no socket is created and no push is made, whatever timers and
      messages are still to come. */
  lemma GivenUpRests(z: Setup, events: seq<Event>, e: Event)
    requires Valid(z, events) && Allowed(After(z, events), e)
    requires LifeOf(events).givenUp && !e.Started?
    ensures var c, c' := After(z, events).conn, StepConn(After(z, events).conn, e);
      && (c'.socket == Connecting ==> c.socket == Connecting)
      && (c'.posting.Some? ==> c'.posting == c.posting)
  {
    AlwaysRemembered(z, events);
  }

  /** A socket that opens takes all that is buffered and then whatever is sent; a stop lets go of it. */
  lemma OpenSocketTakesAll(z: Setup, events: seq<Event>, x: Envelope)
    requires Valid(z, events) && Allowed(After(z, events), SocketOpens)
    ensures var c, c' := After(z, events).conn, StepConn(After(z, events).conn, SocketOpens);
      && Live(c') && c'.handedOff == c.handedOff + c.outbox && c'.outbox == []
      && StepConn(c', Sent(x)).handedOff == c'.handedOff + [x] && StepConn(c', Sent(x)).outbox == []
      && StepConn(c', Stopped).socket == NoSocket
  {
    AlwaysGood(z, events);
  }
}
