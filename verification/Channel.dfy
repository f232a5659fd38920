/** The supervisor's connection as it is run, each handler tied to its function on states. */
module Channel {
  import opened Common
  import opened ChannelState

  class Connection {
    const transport: Transport
    const failoverAfter: nat
    var mode: Mode
    var socket: Socket
    var everOpen: bool
    var closed: bool
    var retrying: bool
    var preOpenFailures: nat
    var posting: Option<Envelope>
    var outbox: seq<Envelope>
    ghost var handedOff: seq<Envelope>
    ghost var acked: seq<Envelope>

    ghost function Abstract(): Conn
      reads this
    {
      Conn(transport, failoverAfter, mode, socket, everOpen, closed, retrying, preOpenFailures, posting, outbox,
           handedOff, acked)
    }

    constructor (transport: Transport, failoverAfter: nat)
      ensures Abstract() == Fresh(transport, failoverAfter)
    {
      this.transport, this.failoverAfter := transport, failoverAfter;
      mode := if transport == LongPollOnly then LongPollMode else WebSocketMode;
      socket, everOpen, closed, retrying, preOpenFailures, posting, outbox := NoSocket, false, false, false, 0, None, [];
      handedOff, acked := [], [];
    }

    method Start()
      modifies this
      ensures Abstract() == ChannelState.Start(old(Abstract()))
    {
      closed := false;
      if mode == LongPollMode {
        StartLongPoll();
      } else {
        ConnectWs();
      }
    }

    /** The result says "accepted", but in long-poll mode it says so of a dropped envelope too. */
    method Send(e: Envelope) returns (accepted: bool)
      modifies this
      ensures Abstract() == ChannelState.Send(old(Abstract()), e)
      ensures accepted <==> old(Live(Abstract())) || mode == LongPollMode
    {
      if mode == WebSocketMode && socket == Open {
        handedOff := handedOff + [e];
        return true;
      }
      if |outbox| < OUTBOX_LIMIT {
        outbox := outbox + [e];
      }
      if mode == LongPollMode {
        LpFlush();
        return true;
      }
      return false;
    }

    method FlushWs()
      modifies this
      ensures Abstract() == ChannelState.FlushWs(old(Abstract()))
    {
      if socket != Open {
        return;
      }
      ghost var before := Abstract();
      while |outbox| > 0
        invariant Abstract() == before.(outbox := outbox, handedOff := handedOff)
        invariant handedOff + outbox == before.handedOff + before.outbox
        decreases |outbox|
      {
        handedOff := handedOff + [outbox[0]];
        outbox := outbox[1..];
      }
    }

    method ConnectWs()
      modifies this
      ensures Abstract() == ChannelState.ConnectWs(old(Abstract()))
    {
      if !closed {
        socket, everOpen := Connecting, false;
      }
    }

    method OnOpen()
      modifies this
      ensures Abstract() == ChannelState.OnOpen(old(Abstract()))
    {
      socket, everOpen, preOpenFailures := Open, true, 0;
      FlushWs();
    }

    method OnClose()
      modifies this
      ensures Abstract() == ChannelState.OnClose(old(Abstract()))
    {
      socket := NoSocket;
      if closed {
        return;
      }
      if !everOpen && transport == Auto {
        preOpenFailures := preOpenFailures + 1;
        if preOpenFailures >= failoverAfter {
          StartLongPoll();
          return;
        }
      }
      retrying := true;
    }

    method Retry()
      modifies this
      ensures Abstract() == ChannelState.Retry(old(Abstract()))
    {
      retrying := false;
      ConnectWs();
    }

    method StartLongPoll()
      modifies this
      ensures Abstract() == ChannelState.StartLongPoll(old(Abstract()))
    {
      if closed {
        return;
      }
      mode := LongPollMode;
      LpFlush();
    }

    /** Up to the first push request. */
    method LpFlush()
      modifies this
      ensures Abstract() == ChannelState.LpFlush(old(Abstract()))
    {
      if posting.Some? || mode != LongPollMode {
        return;
      }
      PushNext();
    }

    /** The head of the flush loop. */
    method PushNext()
      modifies this
      ensures Abstract() == ChannelState.PushNext(old(Abstract()))
    {
      if |outbox| > 0 && mode == LongPollMode && !closed {
        posting := Some(outbox[0]);
      } else {
        posting := None;
      }
    }

    /** From the answer to one push request to the next one. */
    method OnPushReply(reply: PushReply)
      requires posting.Some? && outbox != []
      modifies this
      ensures Abstract() == ChannelState.OnPushReply(old(Abstract()), reply)
    {
      match reply
      case Unauthorized =>
        closed, posting := true, None;
      case PushFailed =>
        posting := None;
      case PushOk =>
        acked := acked + [outbox[0]];
        outbox := outbox[1..];
        PushNext();
    }

    method Close()
      modifies this
      ensures Abstract() == ChannelState.Close(old(Abstract()))
    {
      closed, socket := true, NoSocket;
    }
  }
}
