/** The long-poll session of the server: messages down wait in a queue, at most one poll waits for messages
    (control-plane/server/channel.mjs). */
module LongPoll {
  import opened Common
  import opened ChannelState

  type Request = nat

  datatype Reply = Reply(request: Request, body: seq<Envelope>)

  /** replies records the polls answered, in order; dropped the polls whose client went away while they waited. */
  datatype Session = Session(queue: seq<Envelope>, waiter: Option<Request>, replies: seq<Reply>, dropped: seq<Request>)

  const FRESH_SESSION := Session([], None, [], [])

  datatype Event =
    | Push(envelope: Envelope)
    | Poll(request: Request)
    | TimedOut(timed: Request)
    | ClientGone(gone: Request)
    | Detach

  function Flushed(s: Session): Session {
    if s.waiter.Some? && s.queue != []
    then s.(waiter := None, queue := [], replies := s.replies + [Reply(s.waiter.value, s.queue)])
    else s
  }

  /** Answer the waiting poll, if any, with nothing. */
  function Release(s: Session): Session {
    if s.waiter.Some? then s.(waiter := None, replies := s.replies + [Reply(s.waiter.value, [])]) else s
  }

  function Step(s: Session, e: Event): Session {
    match e
    case Push(x) => Flushed(s.(queue := s.queue + [x]))
    case Poll(r) =>
      if s.queue != [] then s.(queue := [], replies := s.replies + [Reply(r, s.queue)])
      else Release(s).(waiter := Some(r))
    case TimedOut(r) => if s.waiter == Some(r) then Release(s) else s
    case ClientGone(r) => if s.waiter == Some(r) then s.(waiter := None, dropped := s.dropped + [r]) else s
    case Detach => Release(s)
  }

  function After(events: seq<Event>): Session {
    if events == [] then FRESH_SESSION else Step(After(events[..|events| - 1]), events[|events| - 1])
  }

  class LongPollSession {
    var queue: seq<Envelope>
    var waiter: Option<Request>
    var replies: seq<Reply>
    ghost var dropped: seq<Request>

    ghost function Abstract(): Session
      reads this
    {
      Session(queue, waiter, replies, dropped)
    }

    constructor ()
      ensures Abstract() == FRESH_SESSION
    {
      queue, waiter, replies, dropped := [], None, [], [];
    }

    method Respond(request: Request, body: seq<Envelope>)
      modifies this`replies
      ensures replies == old(replies) + [Reply(request, body)]
    {
      replies := replies + [Reply(request, body)];
    }

    method Send(envelope: Envelope)
      modifies this
      ensures Abstract() == Step(old(Abstract()), Push(envelope))
    {
      queue := queue + [envelope];
      FlushWaiter();
    }

    method FlushWaiter()
      modifies this
      ensures Abstract() == Flushed(old(Abstract()))
    {
      if waiter.Some? && |queue| > 0 {
        var request := waiter.value;
        waiter := None;
        Respond(request, queue);
        queue := [];
      }
    }

    method HandlePoll(request: Request)
      modifies this
      ensures Abstract() == Step(old(Abstract()), Poll(request))
    {
      if |queue| > 0 {
        Respond(request, queue);
        queue := [];
        return;
      }
      if waiter.Some? {
        Respond(waiter.value, []);
        waiter := None;
      }
      waiter := Some(request);
    }

    method OnTimeout(request: Request)
      modifies this
      ensures Abstract() == Step(old(Abstract()), TimedOut(request))
    {
      if waiter == Some(request) {
        waiter := None;
        Respond(request, []);
      }
    }

    method OnRequestClose(request: Request)
      modifies this
      ensures Abstract() == Step(old(Abstract()), ClientGone(request))
    {
      if waiter == Some(request) {
        waiter := None;
        dropped := dropped + [request];
      }
    }

    method Close()
      modifies this
      ensures Abstract() == Step(old(Abstract()), Detach)
    {
      if waiter.Some? {
        Respond(waiter.value, []);
        waiter := None;
      }
    }
  }

  // ---- whole sessions ----

  /** The envelopes sent to the session, in order. */
  function Pushes(events: seq<Event>): seq<Envelope> {
    if events == [] then []
    else
      var last := events[|events| - 1];
      Pushes(events[..|events| - 1]) + (if last.Push? then [last.envelope] else [])
  }

  /** All reply bodies, in reply order. */
  function Bodies(replies: seq<Reply>): seq<Envelope> {
    if replies == [] then [] else Bodies(replies[..|replies| - 1]) + replies[|replies| - 1].body
  }

  lemma BodiesAdd(replies: seq<Reply>, r: Reply)
    ensures Bodies(replies + [r]) == Bodies(replies) + r.body
  {
    assert (replies + [r])[..|replies|] == replies;
  }

  lemma StepConserves(s: Session, e: Event)
    requires s.waiter.Some? ==> s.queue == []
    ensures var s' := Step(s, e);
      && (s'.waiter.Some? ==> s'.queue == [])
      && Bodies(s'.replies) + s'.queue == Bodies(s.replies) + s.queue + (if e.Push? then [e.envelope] else [])
  {
    if s.waiter.Some? {
      BodiesAdd(s.replies, Reply(s.waiter.value, []));
    }
    match e
    case Push(x) =>
      assert Bodies(s.replies) + (s.queue + [x]) == Bodies(s.replies) + s.queue + [x];
      if s.waiter.Some? {
        BodiesAdd(s.replies, Reply(s.waiter.value, s.queue + [x]));
      }
    case Poll(r) => BodiesAdd(s.replies, Reply(r, s.queue));
    case _ =>
  }

  /** Long-poll session: the bodies of all replies followed by the queue are the envelopes sent, in order, and no poll
      waits while there is something to deliver. */
  lemma {:induction false} DeliversInOrder(events: seq<Event>)
    ensures var s := After(events);
      Bodies(s.replies) + s.queue == Pushes(events) && (s.waiter.Some? ==> s.queue == [])
  {
    if events != [] {
      var front, last := events[..|events| - 1], events[|events| - 1];
      DeliversInOrder(front);
      StepConserves(After(front), last);
    }
  }

  function TimesAnswered(replies: seq<Reply>, r: Request): nat {
    if replies == [] then 0
    else TimesAnswered(replies[..|replies| - 1], r) + (if replies[|replies| - 1].request == r then 1 else 0)
  }

  function TimesDropped(dropped: seq<Request>, r: Request): nat {
    if dropped == [] then 0
    else TimesDropped(dropped[..|dropped| - 1], r) + (if dropped[|dropped| - 1] == r then 1 else 0)
  }

  function TimesPolled(events: seq<Event>, r: Request): nat {
    if events == [] then 0
    else TimesPolled(events[..|events| - 1], r) + (if events[|events| - 1] == Poll(r) then 1 else 0)
  }

  /** How often a request has been settled, counting the one that waits. */
  function Settled(s: Session, r: Request): nat {
    TimesAnswered(s.replies, r) + TimesDropped(s.dropped, r) + (if s.waiter == Some(r) then 1 else 0)
  }

  lemma AnsweredAdd(replies: seq<Reply>, x: Reply, r: Request)
    ensures TimesAnswered(replies + [x], r) == TimesAnswered(replies, r) + (if x.request == r then 1 else 0)
  {
    assert (replies + [x])[..|replies|] == replies;
  }

  lemma StepSettles(s: Session, e: Event, r: Request)
    ensures Settled(Step(s, e), r) == Settled(s, r) + (if e == Poll(r) then 1 else 0)
  {
    if s.waiter.Some? {
      AnsweredAdd(s.replies, Reply(s.waiter.value, []), r);
    }
    match e
    case Push(x) =>
      if s.waiter.Some? {
        AnsweredAdd(s.replies, Reply(s.waiter.value, s.queue + [x]), r);
      }
    case Poll(q) => AnsweredAdd(s.replies, Reply(q, s.queue), r);
    case ClientGone(q) => assert (s.dropped + [q])[..|s.dropped|] == s.dropped;
    case _ =>
  }

  /** Every poll is answered, dropped by its client, or the one that waits: exactly one of these, exactly once. */
  lemma {:induction false} EveryPollSettledOnce(events: seq<Event>, r: Request)
    ensures Settled(After(events), r) == TimesPolled(events, r)
  {
    if events != [] {
      var front, last := events[..|events| - 1], events[|events| - 1];
      EveryPollSettledOnce(front, r);
      StepSettles(After(front), last, r);
    }
  }

  lemma {:induction false} OnlyGoneAreDropped(events: seq<Event>, r: Request)
    requires ClientGone(r) !in events
    ensures TimesDropped(After(events).dropped, r) == 0
  {
    if events != [] {
      var front, last := events[..|events| - 1], events[|events| - 1];
      assert events == front + [last];
      OnlyGoneAreDropped(front, r);
      var dropped := After(front).dropped;
      if last.ClientGone? {
        assert (dropped + [last.gone])[..|dropped|] == dropped;
      }
    }
  }

  /** What ends the wait of a poll: its time is up, the next poll comes, a message comes, the session is detached. */
  predicate EndsWait(e: Event, r: Request) {
    e == TimedOut(r) || e.Push? || e.Detach? || (e.Poll? && e.request != r)
  }

  lemma WaitEnds(s: Session, e: Event, r: Request)
    requires EndsWait(e, r) && (s.waiter.Some? ==> s.queue == [])
    ensures Step(s, e).waiter != Some(r)
  {
    if e.Push? {
      assert (s.queue + [e.envelope])[|s.queue|] == e.envelope;
    }
  }

  /** A poll that waits goes on waiting exactly until one of these happens to it or its client goes away: the timeouts
      and departures of other polls do not concern it. */
  lemma WaitsUntil(events: seq<Event>, e: Event, r: Request)
    requires After(events).waiter == Some(r)
    ensures After(events + [e]).waiter == Some(r) <==> !EndsWait(e, r) && e != ClientGone(r)
  {
    DeliversInOrder(events);
    assert (events + [e])[..|events|] == events;
    if EndsWait(e, r) {
      WaitEnds(After(events), e, r);
    }
  }

  /** Unless its client goes away, a poll is answered as soon as its time is up, the next poll comes, a message comes, or
      the session is detached: as often as it was made. */
  lemma AnsweredInTime(events: seq<Event>, r: Request)
    requires events != [] && EndsWait(events[|events| - 1], r) && ClientGone(r) !in events
    ensures TimesAnswered(After(events).replies, r) == TimesPolled(events, r)
  {
    var front, last := events[..|events| - 1], events[|events| - 1];
    EveryPollSettledOnce(events, r);
    OnlyGoneAreDropped(events, r);
    DeliversInOrder(front);
    WaitEnds(After(front), last, r);
  }
}
