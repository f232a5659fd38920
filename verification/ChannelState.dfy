/** The up-channel of the supervisor: WebSocket first, long-poll as a fallback, one bounded buffer
    (control-plane-agent/core/connection.mjs). What each handler does to the connection. */
module ChannelState {
  import opened Common

  datatype Transport = Auto | WebSocketOnly | LongPollOnly

  datatype Mode = WebSocketMode | LongPollMode

  datatype Socket = NoSocket | Connecting | Open | Closing

  /** An envelope, known by its id. */
  datatype Envelope = Envelope(id: string)

  const OUTBOX_LIMIT := 1000

  /** posting is the envelope whose push request is outstanding; handedOff and acked record what has left the buffer. */
  datatype Conn = Conn(
    transport: Transport, failoverAfter: nat, mode: Mode, socket: Socket, everOpen: bool, closed: bool, retrying: bool,
    preOpenFailures: nat, posting: Option<Envelope>, outbox: seq<Envelope>,
    handedOff: seq<Envelope>, acked: seq<Envelope>)

  function FirstMode(t: Transport): Mode {
    if t == LongPollOnly then LongPollMode else WebSocketMode
  }

  function Fresh(t: Transport, failoverAfter: nat): Conn {
    Conn(t, failoverAfter, FirstMode(t), NoSocket, false, false, false, 0, None, [], [], [])
  }

  predicate Live(c: Conn) {
    c.mode == WebSocketMode && c.socket == Open
  }

  /** An envelope sent now would be dropped. */
  predicate Full(c: Conn) {
    !Live(c) && |c.outbox| >= OUTBOX_LIMIT
  }

  /** Push the head of the buffer, if there is one and the channel still is a long-poll channel. */
  function PushNext(c: Conn): Conn {
    if c.outbox != [] && c.mode == LongPollMode && !c.closed then c.(posting := Some(c.outbox[0]))
    else c.(posting := None)
  }

  /** A flush that is already under way takes care of new envelopes itself. */
  function LpFlush(c: Conn): Conn {
    if c.posting.Some? || c.mode != LongPollMode then c else PushNext(c)
  }

  function Send(c: Conn, e: Envelope): Conn {
    if Live(c) then c.(handedOff := c.handedOff + [e])
    else LpFlush(if |c.outbox| < OUTBOX_LIMIT then c.(outbox := c.outbox + [e]) else c)
  }

  function FlushWs(c: Conn): Conn {
    if c.socket != Open then c else c.(handedOff := c.handedOff + c.outbox, outbox := [])
  }

  function StartLongPoll(c: Conn): Conn {
    if c.closed then c else LpFlush(c.(mode := LongPollMode))
  }

  function ConnectWs(c: Conn): Conn {
    if c.closed then c else c.(socket := Connecting, everOpen := false)
  }

  function Start(c: Conn): Conn {
    var c1 := c.(closed := false);
    if c1.mode == LongPollMode then StartLongPoll(c1) else ConnectWs(c1)
  }

  function OnOpen(c: Conn): Conn {
    FlushWs(c.(socket := Open, everOpen := true, preOpenFailures := 0))
  }

  /** A socket that never opened counts towards giving up on WebSocket; otherwise a reconnect is scheduled. */
  function OnClose(c: Conn): Conn {
    var c1 := c.(socket := NoSocket);
    if c1.closed then c1
    else if !c1.everOpen && c1.transport == Auto then
      var c2 := c1.(preOpenFailures := c1.preOpenFailures + 1);
      if c2.preOpenFailures >= c2.failoverAfter then StartLongPoll(c2) else c2.(retrying := true)
    else c1.(retrying := true)
  }

  function Retry(c: Conn): Conn {
    ConnectWs(c.(retrying := false))
  }

  datatype PushReply = PushOk | Unauthorized | PushFailed

  /** What the flush does when its push request comes back, or throws. */
  function OnPushReply(c: Conn, reply: PushReply): Conn
    requires c.posting.Some? && c.outbox != []
  {
    match reply
    case PushOk => PushNext(c.(outbox := c.outbox[1..], acked := c.acked + [c.outbox[0]]))
    case Unauthorized => c.(closed := true, posting := None)
    case PushFailed => c.(posting := None)
  }

  function Close(c: Conn): Conn {
    c.(closed := true, socket := NoSocket)
  }
}
