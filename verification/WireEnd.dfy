/**
 * One end of a wire as a value: what each OSC handler of classes/SCLOrkWire.sc makes of the end's
 * state, and the messages it puts on the network.
 */
module WireEnd {
  import opened Options

  type Payload = seq<string>

  datatype Connection =
    | NeverConnected
    | Knocking
    | ConnectionRequested
    | ConnectionAccepted
    | Connected
    | DisconnectRequested
    | Disconnected
    | FailureTimeout

  /** The OSC messages. `to` is the identifier by which the sender knows the receiving end. */
  datatype Message =
    | Request(from: int)
    | Accept(to: Option<int>, from: int)
    | Confirm(to: Option<int>)
    | Data(to: Option<int>, serial: nat, payload: Payload)
    | Ack(to: Option<int>, serial: nat)
    | Disconnect(to: Option<int>)
    | DisconnectConfirm(to: Option<int>)

  /** The condition under which a retry job sends its message again. */
  datatype KeepGoing = WhileState(state: Connection) | WhileUnacked(serial: nat)

  /** A scheduled SCLOrkWireSendRetry. */
  datatype Retry = Retry(message: Message, keepGoing: KeepGoing, retries: nat)

  /**
   * `sent` and `received` record the payloads accepted by sendMsg and those handed to
   * onMessageReceived since the counters were last reset.
   */
  datatype End = End(
    id: int,
    bufferSize: nat,
    maxRetries: nat,
    selfId: Option<int>,
    connection: Connection,
    sendSerial: nat,
    sendAckSerial: nat,
    sendBuffer: seq<Option<Message>>,
    receiveSerial: nat,
    receiveBuffer: seq<Option<Payload>>,
    timers: seq<Retry>,
    sent: seq<Payload>,
    received: seq<Payload>)
  {
    predicate Valid() {
      0 < bufferSize && |sendBuffer| == bufferSize && |receiveBuffer| == bufferSize
    }

    /** What wrapAt finds in the reorder buffer for a serial. */
    function Slot(serial: nat): Option<Payload>
      requires Valid()
    {
      receiveBuffer[serial % bufferSize]
    }

    function SendSlot(serial: nat): Option<Message>
      requires Valid()
    {
      sendBuffer[serial % bufferSize]
    }

    predicate MayConnect() {
      connection == NeverConnected || connection == Disconnected || connection == FailureTimeout
    }

    predicate MayAccept() {
      connection == NeverConnected || connection == Knocking || connection == Disconnected
    }

    predicate KeepsGoing(k: KeepGoing) {
      match k
      case WhileState(s) => connection == s
      case WhileUnacked(serial) => sendAckSerial < serial
    }

    predicate IsIdle()
      requires Valid()
    {
      && (connection == Connected || connection == Disconnected)
      && sendSerial == sendAckSerial
      && forall i | 0 <= i < bufferSize :: receiveBuffer[i].None?
    }
  }

  /** A handler's result: the new state and the messages sent to the other end. */
  datatype Effect = Effect(end: End, out: seq<Message>)

  function Empty<T>(n: nat): (s: seq<Option<T>>)
    ensures |s| == n && forall i | 0 <= i < n :: s[i].None?
  {
    seq(n, i => None)
  }

  function New(id: int, maxRetries: nat, bufferSize: nat): (e: End) {
    End(id, bufferSize, maxRetries, None, NeverConnected, 0, 0, Empty(bufferSize), 0, Empty(bufferSize), [], [], [])
  }

  /** prChangeConnectionState: becoming connected always resets the serials and both buffers. */
  function ChangeState(e: End, s: Connection): (r: End) {
    if s == Connected then
      e.(connection := s, sendBuffer := Empty(e.bufferSize), sendSerial := 0, sendAckSerial := 0,
         receiveSerial := 0, receiveBuffer := Empty(e.bufferSize), sent := [], received := [])
    else
      e.(connection := s)
  }

  /** Making an SCLOrkWireSendRetry sends the message once and schedules it to be sent again. */
  function StartRetry(e: End, m: Message, k: KeepGoing): Effect {
    Effect(e.(timers := e.timers + [Retry(m, k, 0)]), [m])
  }

  function Connect(e: End): Effect {
    if e.MayConnect() then
      StartRetry(ChangeState(e, ConnectionRequested), Request(e.id), WhileState(ConnectionRequested))
    else
      Effect(e, [])
  }

  function SendMsg(e: End, p: Payload): Effect
    requires e.Valid()
  {
    if e.connection == Connected then
      var serial := e.sendSerial + 1;
      var m := Data(e.selfId, serial, p);
      var started := StartRetry(e.(sendSerial := serial, sent := e.sent + [p]), m, WhileUnacked(serial));
      started.(end := started.end.(sendBuffer := e.sendBuffer[serial % e.bufferSize := Some(m)]))
    else
      Effect(e, [])
  }

  function HangUp(e: End): Effect {
    if e.connection == Connected then
      StartRetry(ChangeState(e, DisconnectRequested), Disconnect(e.selfId), WhileState(DisconnectRequested))
    else
      Effect(e, [])
  }

  /** The scheduled function of timer `i` runs: resend, finish quietly, or fail the connection. */
  function Fire(e: End, i: nat): Effect
    requires i < |e.timers|
  {
    var t := e.timers[i];
    var without := e.timers[..i] + e.timers[i + 1..];
    if t.retries >= e.maxRetries then
      Effect(ChangeState(e.(timers := without), FailureTimeout), [])
    else if e.KeepsGoing(t.keepGoing) then
      Effect(e.(timers := e.timers[i := t.(retries := t.retries + 1)]), [t.message])
    else
      Effect(e.(timers := without), [])
  }

  function OnRequest(e: End, from: int): Effect {
    if e.MayAccept() then
      StartRetry(ChangeState(e, ConnectionAccepted).(selfId := Some(from)),
                 Accept(Some(from), e.id), WhileState(ConnectionAccepted))
    else
      Effect(e, [])
  }

  function OnAccept(e: End, to: Option<int>, from: int): Effect {
    if to == Some(e.id) then
      Effect(ChangeState(e.(selfId := Some(from)), Connected), [Confirm(Some(from))])
    else
      Effect(e, [])
  }

  function OnConfirm(e: End, to: Option<int>): Effect {
    Effect(if to == Some(e.id) then ChangeState(e, Connected) else e, [])
  }

  /** The number of messages waiting in a reorder buffer. */
  function Waiting(buffer: seq<Option<Payload>>): (n: nat) {
    if buffer == [] then 0 else (if buffer[0].Some? then 1 else 0) + Waiting(buffer[1..])
  }

  lemma {:induction false} TakeOneOut(buffer: seq<Option<Payload>>, i: nat)
    requires i < |buffer| && buffer[i].Some?
    ensures Waiting(buffer[i := None]) == Waiting(buffer) - 1
  {
    if i == 0 {
      assert buffer[i := None][1..] == buffer[1..];
    } else {
      TakeOneOut(buffer[1..], i - 1);
      assert buffer[i := None][1..] == buffer[1..][i - 1 := None];
    }
  }

  /** Hands out buffered messages for as long as the next serial is waiting. */
  function Drain(e: End): (r: End)
    requires e.Valid()
    ensures r.Valid()
    decreases Waiting(e.receiveBuffer)
  {
    var next := e.receiveSerial + 1;
    match e.Slot(next)
    case None => e
    case Some(p) =>
      TakeOneOut(e.receiveBuffer, next % e.bufferSize);
      Drain(e.(receiveSerial := next, received := e.received + [p],
               receiveBuffer := e.receiveBuffer[next % e.bufferSize := None]))
  }

  function Receive(e: End, serial: nat, p: Payload): (r: End)
    requires e.Valid()
    ensures r.Valid()
  {
    if serial <= e.receiveSerial then
      e
    else if serial == e.receiveSerial + 1 then
      Drain(e.(receiveSerial := serial, received := e.received + [p]))
    else
      e.(receiveBuffer := e.receiveBuffer[serial % e.bufferSize := Some(p)])
  }

  /** Receiving touches the receive counters and nothing else. */
  lemma {:induction false} DrainFrame(e: End)
    requires e.Valid()
    ensures var r := Drain(e);
      r == e.(receiveSerial := r.receiveSerial, receiveBuffer := r.receiveBuffer, received := r.received)
    decreases Waiting(e.receiveBuffer)
  {
    var next := e.receiveSerial + 1;
    if e.Slot(next).Some? {
      TakeOneOut(e.receiveBuffer, next % e.bufferSize);
      DrainFrame(e.(receiveSerial := next, received := e.received + [e.Slot(next).value],
                    receiveBuffer := e.receiveBuffer[next % e.bufferSize := None]));
    }
  }

  lemma ReceiveFrame(e: End, serial: nat, p: Payload)
    requires e.Valid()
    ensures var r := Receive(e, serial, p);
      r == e.(receiveSerial := r.receiveSerial, receiveBuffer := r.receiveBuffer, received := r.received)
  {
    if serial == e.receiveSerial + 1 {
      DrainFrame(e.(receiveSerial := serial, received := e.received + [p]));
    }
  }

  function OnData(e: End, to: Option<int>, serial: nat, p: Payload): Effect
    requires e.Valid()
  {
    if to == Some(e.id) then
      Effect(Receive(e, serial, p), [Ack(e.selfId, serial)])
    else
      Effect(e, [])
  }

  function OnAck(e: End, to: Option<int>, serial: nat): Effect
    requires e.Valid()
  {
    if to == Some(e.id) && serial == e.sendAckSerial + 1 then
      Effect(e.(sendAckSerial := serial, sendBuffer := e.sendBuffer[serial % e.bufferSize := None]), [])
    else
      Effect(e, [])
  }

  function OnDisconnect(e: End, to: Option<int>): Effect {
    if to == Some(e.id) then
      Effect(ChangeState(e, Disconnected), [DisconnectConfirm(e.selfId)])
    else
      Effect(e, [])
  }

  function OnDisconnectConfirm(e: End, to: Option<int>): Effect {
    Effect(if to == Some(e.id) then ChangeState(e, Disconnected) else e, [])
  }

  function OnMessage(e: End, m: Message): Effect
    requires e.Valid()
  {
    match m
    case Request(from) => OnRequest(e, from)
    case Accept(to, from) => OnAccept(e, to, from)
    case Confirm(to) => OnConfirm(e, to)
    case Data(to, serial, p) => OnData(e, to, serial, p)
    case Ack(to, serial) => OnAck(e, to, serial)
    case Disconnect(to) => OnDisconnect(e, to)
    case DisconnectConfirm(to) => OnDisconnectConfirm(e, to)
  }
}
