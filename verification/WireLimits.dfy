/** Runs showing that the conditions of a session are needed: the window, and no reset of an end in use. */
module WireLimits {
  import opened Options
  import opened Modular
  import opened WireEnd
  import opened WireNetwork
  import Handshake = WireHandshake
  import opened Session = WireSession

  lemma Then(y: System, run: seq<Action>, a: Action)
    requires y.Valid() && Legal(y, run) && Enabled(After(y, run), a)
    ensures Legal(y, run + [a]) && After(y, run + [a]) == Next(After(y, run), a)
  {
    assert (run + [a])[..|run + [a]| - 1] == run;
  }

  lemma ThenInSession(y: System, run: seq<Action>, a: Action, window: nat)
    requires y.Valid() && SessionRun(y, run, window) && Enabled(After(y, run), a) && InSession(After(y, run), a, window)
    ensures SessionRun(y, run + [a], window) && After(y, run + [a]) == Next(After(y, run), a)
  {
    Then(y, run, a);
    assert (run + [a])[..|run + [a]| - 1] == run;
  }

  // ---- One message more than the window allows ----

  /** Payloads that tell the messages apart. */
  function Numbered(k: nat): (p: Payload)
    ensures |p| == k
  {
    seq(k, i => "x")
  }

  /** The left end has sent messages 1 to n, and nothing has arrived at the right one. */
  ghost predicate HasSent(right: End, b: System, n: nat) {
    && b.right == right && b.left.Valid()
    && b.left.connection == Connected && b.left.selfId == Some(2)
    && b.left.sendSerial == |b.left.sent| == n && b.left.sendAckSerial == 0
    && (forall k: nat | k < n :: b.left.sent[k] == Numbered(k + 1))
    && (forall k: nat | 1 <= k <= n :: Packet(Right, Data(Some(2), k, Numbered(k))) in b.net)
  }

  lemma SendOne(right: End, b: System, n: nat, p: Payload)
    requires b.Valid() && HasSent(right, b, n) && p == Numbered(n + 1)
    ensures HasSent(right, Next(b, DoSend(Left, p)), n + 1)
  {
    PacketsAdded(b, Left, Reaction(b.left, DoSend(Left, p)), Packet(Right, Data(Some(2), n + 1, p)));
  }

  lemma {:induction false} SendMany(y: System, run: seq<Action>, right: End, n: nat, window: nat)
    returns (run': seq<Action>)
    requires y.Valid() && SessionRun(y, run, window) && HasSent(right, After(y, run), 0) && n <= window
    ensures SessionRun(y, run', window) && HasSent(right, After(y, run'), n)
  {
    if n == 0 {
      run' := run;
    } else {
      run' := SendMany(y, run, right, n - 1, window);
      run' := SendAfter(y, run', right, n - 1, window, Numbered(n));
    }
  }

  lemma SendAfter(y: System, run: seq<Action>, right: End, n: nat, window: nat, p: Payload)
    returns (run': seq<Action>)
    requires y.Valid() && SessionRun(y, run, window) && HasSent(right, After(y, run), n) && n < window
    requires p == Numbered(n + 1)
    ensures SessionRun(y, run', window) && HasSent(right, After(y, run'), n + 1)
  {
    ThenInSession(y, run, DoSend(Left, p), window);
    SendOne(right, After(y, run), n, p);
    run' := run + [DoSend(Left, p)];
  }

  lemma {:induction false} DrainExtends(e: End)
    requires e.Valid()
    ensures e.received <= Drain(e).received
    decreases Waiting(e.receiveBuffer)
  {
    var next := e.receiveSerial + 1;
    if e.Slot(next).Some? {
      TakeOneOut(e.receiveBuffer, next % e.bufferSize);
      DrainExtends(e.(receiveSerial := next, received := e.received + [e.Slot(next).value],
                      receiveBuffer := e.receiveBuffer[next % e.bufferSize := None]));
    }
  }

  /** A message one period and one past the second serial sits in the second's slot, and takes its place. */
  lemma TakesItsPlace(z: End, n: nat)
    requires z.Valid() && n == z.bufferSize + 2 && z.receiveSerial == 0 && z.received == []
    ensures [Numbered(1), Numbered(n)] <= Receive(Receive(z, n, Numbered(n)), 1, Numbered(1)).received
  {
    var late := Receive(z, n, Numbered(n));
    OneRound(2, z.bufferSize);
    assert late.Slot(2) == Some(Numbered(n));
    var z1 := late.(receiveSerial := 1, received := [Numbered(1)]);
    var z2 := z1.(receiveSerial := 2, received := [Numbered(1), Numbered(n)],
                  receiveBuffer := z1.receiveBuffer[2 % z.bufferSize := None]);
    assert z1.received + [Numbered(n)] == z2.received;
    assert late.received + [Numbered(1)] == z1.received;
    assert Receive(late, 1, Numbered(1)) == Drain(z1) == Drain(z2);
    DrainExtends(z2);
  }

  function Arrives(k: nat): Action {
    Deliver(Packet(Right, Data(Some(2), k, Numbered(k))))
  }

  lemma DeliverOne(b: System, k: nat)
    requires b.Valid() && Packet(Right, Data(Some(2), k, Numbered(k))) in b.net
    requires b.right.id == 2
    ensures Enabled(b, Arrives(k))
    ensures var b' := Next(b, Arrives(k));
      b'.left == b.left && b'.right == Receive(b.right, k, Numbered(k)) && b.net <= b'.net
  {}

  /** The last of them arrives first, and then the first. */
  lemma TwoArrive(right: End, b: System, n: nat)
    requires b.Valid() && HasSent(right, b, n) && n == right.bufferSize + 2
    requires right.id == 2 && right.receiveSerial == 0 && right.received == []
    ensures Enabled(b, Arrives(n)) && Enabled(Next(b, Arrives(n)), Arrives(1))
    ensures var b' := Next(Next(b, Arrives(n)), Arrives(1));
      b'.left == b.left && [Numbered(1), Numbered(n)] <= b'.right.received
  {
    DeliverOne(b, n);
    ReceiveFrame(b.right, n, Numbered(n));
    DeliverOne(Next(b, Arrives(n)), 1);
    TakesItsPlace(b.right, n);
  }

  lemma ThenTwo(y: System, run: seq<Action>, a: Action, b: Action, window: nat) returns (run': seq<Action>)
    requires y.Valid() && SessionRun(y, run, window) && a.Deliver? && a.packet.message.Data? && b.Deliver?
      && b.packet.message.Data?
    requires Enabled(After(y, run), a) && Enabled(Next(After(y, run), a), b)
    ensures SessionRun(y, run', window) && After(y, run') == Next(Next(After(y, run), a), b)
  {
    ThenInSession(y, run, a, window);
    ThenInSession(y, run + [a], b, window);
    run' := run + [a] + [b];
  }

  lemma NotPrefix(b: System, n: nat, received: seq<Payload>)
    requires n >= 3 && |b.left.sent| == n && b.left.sent[1] == Numbered(2) && [Numbered(1), Numbered(n)] <= received
    ensures !(received <= b.left.sent)
  {
    assert received[1] == Numbered(n) && |Numbered(n)| != |Numbered(2)|;
  }

  lemma Overrun(y: System, sends: seq<Action>, right: End, n: nat) returns (run: seq<Action>)
    requires Fresh(y) && SessionRun(y, sends, n) && HasSent(right, After(y, sends), n)
    requires 3 <= n == right.bufferSize + 2 && right.id == 2 && right.receiveSerial == 0 && right.received == []
    ensures SessionRun(y, run, n) && !(After(y, run).right.received <= Submitted(y, run, Left))
  {
    var b := After(y, sends);
    TwoArrive(right, b, n);
    run := ThenTwo(y, sends, Arrives(n), Arrives(1), n);
    SentIsSubmitted(y, run, n, Left);
    NotPrefix(b, n, After(y, run).right.received);
  }

  lemma {:induction false} WiderWindow(y: System, run: seq<Action>, window: nat)
    requires y.Valid() && SessionRun(y, run, 1) && 1 <= window
    ensures SessionRun(y, run, window)
    decreases |run|
  {
    if run != [] {
      WiderWindow(y, run[..|run| - 1], window);
    }
  }

  /** Both ends are connected, and nothing was sent yet. */
  lemma Connects(n: nat, window: nat) returns (y: System, run: seq<Action>)
    requires 1 <= n && 1 <= window
    ensures Handshake.Initial(y) && FreshEnd(y.left) && FreshEnd(y.right)
    ensures y.left.bufferSize == y.right.bufferSize == n
    ensures SessionRun(y, run, window) && HasSent(After(y, run).right, After(y, run), 0)
    ensures Settled(After(y, run).right, 2, 1, n, 0, [])
  {
    y, run := Ask(n);
    WiderWindow(y, run, window);
    ResetSettles(After(y, run).right, 2, 1, n);
    ConfirmConnects(After(y, run));
    ThenInSession(y, run, Deliver(CONFIRM), window);
    run := run + [Deliver(CONFIRM)];
  }

  lemma ConfirmConnects(b: System)
    requires b.Valid() && CONFIRM in b.net && b.right.id == 2
    ensures var b' := Next(b, Deliver(CONFIRM)); b'.left == b.left && b'.right == ChangeState(b.right, Connected)
  {}

  /**
   * The window bound is sharp: for every buffer size, two more un-acked messages than there are
   * slots let a run, from two new ends on, hand out a later message in the place of the second.
   */
  lemma OverrunMisorders(bufferSize: nat) returns (y: System, run: seq<Action>)
    requires 1 <= bufferSize
    ensures Handshake.Initial(y) && FreshEnd(y.left) && FreshEnd(y.right)
    ensures y.left.bufferSize == y.right.bufferSize == bufferSize
    ensures SessionRun(y, run, bufferSize + 2)
    ensures !(After(y, run).right.received <= Submitted(y, run, Left))
  {
    var n := bufferSize + 2;
    y, run := Connects(bufferSize, n);
    var right := After(y, run).right;
    run := SendMany(y, run, right, n, n);
    InitialFresh(y);
    run := Overrun(y, run, right, n);
  }

  // ---- An Accept or a Confirm that comes after the first exchange ----

  /** No packet is delivered twice. */
  predicate NoneTwice(run: seq<Action>) {
    forall i, j | 0 <= i < j < |run| && run[i].Deliver? :: run[i] != run[j]
  }

  lemma Step(y: System, run: seq<Action>, a: Action) returns (run': seq<Action>)
    requires y.Valid() && Legal(y, run) && Enabled(After(y, run), a)
    ensures run' == run + [a] && Legal(y, run') && After(y, run') == Next(After(y, run), a)
    ensures After(y, run).net <= After(y, run').net
    ensures Submitted(y, run', Left) == Submitted(y, run, Left) +
      if a.DoSend? && a.at == Left && After(y, run).left.connection == Connected then [a.payload] else []
    ensures SessionRun(y, run, 1) && InSession(After(y, run), a, 1) ==> SessionRun(y, run', 1)
    ensures forall m | m in Reaction(After(y, run).At(Actor(a)), a).out ::
      Packet(Actor(a).Other(), m) in After(y, run').net
  {
    Then(y, run, a);
    run' := run + [a];
    assert run'[..|run'| - 1] == run;
    var b := After(y, run);
    forall m | m in Reaction(b.At(Actor(a)), a).out ensures Packet(Actor(a).Other(), m) in After(y, run').net {
      PacketsAdded(b, Actor(a), Reaction(b.At(Actor(a)), a), Packet(Actor(a).Other(), m));
    }
  }

  const REQUEST := Packet(Right, Request(1))
  const ACCEPT := Packet(Left, Accept(Some(1), 2))
  const CONFIRM := Packet(Right, Confirm(Some(2)))

  function DATA(k: nat, p: Payload): Packet {
    Packet(Right, Data(Some(2), k, p))
  }

  function ACK(k: nat): Packet {
    Packet(Left, Ack(Some(1), k))
  }

  /** A connected end with nothing un-acked. */
  ghost predicate AllAcked(e: End, id: int, peerId: int, n: nat, sendSerial: nat) {
    && e.Valid() && e.bufferSize == n && e.id == id && e.selfId == Some(peerId) && e.connection == Connected
    && e.sendSerial == e.sendAckSerial == sendSerial
  }

  ghost predicate HasHandedOut(e: End, received: seq<Payload>) {
    e.receiveSerial == |received| && e.received == received && e.receiveBuffer == Empty(e.bufferSize)
  }

  /** An end with nothing waiting and nothing un-acked. */
  ghost predicate Settled(e: End, id: int, peerId: int, n: nat, sendSerial: nat, received: seq<Payload>) {
    AllAcked(e, id, peerId, n, sendSerial) && HasHandedOut(e, received)
  }

  /** The left end asks, and its request arrives. */
  lemma Knock(n: nat) returns (y: System, run: seq<Action>)
    requires 1 <= n
    ensures y == System(New(1, 5, n), New(2, 5, n), {})
    ensures Legal(y, run) && run == [DoConnect(Left), Deliver(REQUEST)]
    ensures Submitted(y, run, Left) == [] && SessionRun(y, run, 1)
    ensures var b := After(y, run);
      b.left == Connect(New(1, 5, n)).end && b.right == OnRequest(New(2, 5, n), 1).end && ACCEPT in b.net
  {
    y := System(New(1, 5, n), New(2, 5, n), {});
    assert Request(1) in Reaction(y.left, DoConnect(Left)).out;
    run := Step(y, [], DoConnect(Left));
    assert ACCEPT.message in Reaction(y.right, Deliver(REQUEST)).out;
    run := Step(y, run, Deliver(REQUEST));
  }

  /** The answer arrives, too. */
  lemma Ask(n: nat) returns (y: System, run: seq<Action>)
    requires 1 <= n
    ensures Handshake.Initial(y) && Legal(y, run) && Submitted(y, run, Left) == []
    ensures FreshEnd(y.left) && FreshEnd(y.right) && y.left.bufferSize == y.right.bufferSize == n
    ensures run == [DoConnect(Left), Deliver(REQUEST), Deliver(ACCEPT)] && SessionRun(y, run, 1)
    ensures var b := After(y, run);
      && Settled(b.left, 1, 2, n, 0, []) && b.right == OnRequest(New(2, 5, n), 1).end
      && ACCEPT in b.net && CONFIRM in b.net
  {
    y, run := Knock(n);
    assert CONFIRM.message in Reaction(After(y, run).left, Deliver(ACCEPT)).out;
    run := Step(y, run, Deliver(ACCEPT));
  }

  function Exchanged(k: nat, p: Payload): (run: seq<Action>)
    ensures |run| == 3
  {
    [DoSend(Left, p), Deliver(DATA(k, p)), Deliver(ACK(k))]
  }

  lemma Sent(y: System, run: seq<Action>, k: nat, p: Payload) returns (run': seq<Action>)
    requires y.Valid() && Legal(y, run)
    requires var e := After(y, run).left;
      e.connection == Connected && e.sendSerial == e.sendAckSerial == k - 1 && e.selfId == Some(2)
    ensures run' == run + [DoSend(Left, p)] && Legal(y, run')
    ensures Submitted(y, run', Left) == Submitted(y, run, Left) + [p]
    ensures SessionRun(y, run, 1) ==> SessionRun(y, run', 1)
    ensures After(y, run).net <= After(y, run').net && DATA(k, p) in After(y, run').net
    ensures After(y, run').left == SendMsg(After(y, run).left, p).end && After(y, run').right == After(y, run).right
  {
    assert DATA(k, p).message in Reaction(After(y, run).left, DoSend(Left, p)).out;
    run' := Step(y, run, DoSend(Left, p));
  }

  lemma Arrived(y: System, run: seq<Action>, k: nat, p: Payload) returns (run': seq<Action>)
    requires y.Valid() && Legal(y, run) && DATA(k, p) in After(y, run).net
    requires After(y, run).right.id == 2 && After(y, run).right.selfId == Some(1)
    ensures run' == run + [Deliver(DATA(k, p))] && Legal(y, run')
    ensures Submitted(y, run', Left) == Submitted(y, run, Left)
    ensures SessionRun(y, run, 1) ==> SessionRun(y, run', 1)
    ensures After(y, run).net <= After(y, run').net && ACK(k) in After(y, run').net
    ensures After(y, run').left == After(y, run).left && After(y, run').right == Receive(After(y, run).right, k, p)
  {
    assert ACK(k).message in Reaction(After(y, run).right, Deliver(DATA(k, p))).out;
    run' := Step(y, run, Deliver(DATA(k, p)));
  }

  lemma DataArrives(y: System, run: seq<Action>, k: nat, p: Payload) returns (run': seq<Action>)
    requires y.Valid() && Legal(y, run) && After(y, run).left.connection == Connected
    requires var b := After(y, run);
      && b.left.sendSerial == b.left.sendAckSerial == k - 1 && b.left.selfId == Some(2)
      && b.right.id == 2 && b.right.selfId == Some(1)
    ensures run' == run + [DoSend(Left, p), Deliver(DATA(k, p))]
    ensures Legal(y, run') && Submitted(y, run', Left) == Submitted(y, run, Left) + [p]
    ensures SessionRun(y, run, 1) ==> SessionRun(y, run', 1)
    ensures After(y, run).net <= After(y, run').net && ACK(k) in After(y, run').net
    ensures After(y, run').left == SendMsg(After(y, run).left, p).end
    ensures After(y, run').right == Receive(After(y, run).right, k, p)
  {
    run' := Sent(y, run, k, p);
    run' := Arrived(y, run', k, p);
  }

  /** The left end sends a message; it arrives, and so does its ack. */
  lemma Exchange(y: System, run: seq<Action>, k: nat, p: Payload) returns (run': seq<Action>)
    requires y.Valid() && Legal(y, run)
    requires var b := After(y, run);
      AllAcked(b.left, 1, 2, b.left.bufferSize, k) && b.right.id == 2 && b.right.selfId == Some(1)
    ensures run' == run + Exchanged(k + 1, p)
    ensures Legal(y, run') && Submitted(y, run', Left) == Submitted(y, run, Left) + [p]
    ensures SessionRun(y, run, 1) ==> SessionRun(y, run', 1)
    ensures After(y, run).net <= After(y, run').net
    ensures var b, b' := After(y, run), After(y, run');
      && AllAcked(b'.left, 1, 2, b.left.bufferSize, k + 1)
      && b'.left.receiveBuffer == b.left.receiveBuffer && b'.left.receiveSerial == b.left.receiveSerial
      && b'.left.received == b.left.received
      && b'.right == Receive(b.right, k + 1, p)
  {
    run' := DataArrives(y, run, k + 1, p);
    run' := Step(y, run', Deliver(ACK(k + 1)));
  }

  /** The Accept or the Confirm arrives. */
  lemma ConnectionArrives(y: System, run: seq<Action>, packet: Packet) returns (run': seq<Action>)
    requires y.Valid() && Legal(y, run) && packet in After(y, run).net
    requires if packet == ACCEPT then After(y, run).left.id == 1 else packet == CONFIRM && After(y, run).right.id == 2
    ensures run' == run + [Deliver(packet)] && Legal(y, run') && After(y, run') == Next(After(y, run), Deliver(packet))
    ensures Submitted(y, run', Left) == Submitted(y, run, Left)
    ensures After(y, run).net <= After(y, run').net
    ensures var b, b' := After(y, run), After(y, run');
      if packet == ACCEPT then
        b'.right == b.right && b'.left == ChangeState(b.left.(selfId := Some(2)), Connected)
      else
        b'.left == b.left && b'.right == ChangeState(b.right, Connected)
  {
    if packet == ACCEPT { AcceptConnects(After(y, run)); } else { ConfirmConnects(After(y, run)); }
    run' := Step(y, run, Deliver(packet));
  }

  lemma AcceptConnects(b: System)
    requires b.Valid() && ACCEPT in b.net && b.left.id == 1
    ensures var b' := Next(b, Deliver(ACCEPT));
      b'.right == b.right && b'.left == ChangeState(b.left.(selfId := Some(2)), Connected)
  {}

  lemma ResetSettles(e: End, id: int, peerId: int, n: nat)
    requires e.Valid() && e.bufferSize == n && e.id == id && e.selfId == Some(peerId)
    ensures Settled(ChangeState(e, Connected), id, peerId, n, 0, [])
  {}

  lemma ReceiveExpected(e: End, received: seq<Payload>, p: Payload)
    requires e.Valid() && HasHandedOut(e, received)
    ensures HasHandedOut(Receive(e, |received| + 1, p), received + [p])
    ensures |received| > 0 ==> Receive(e, 1, p) == e
  {
    var e' := e.(receiveSerial := |received| + 1, received := received + [p]);
    assert Drain(e') == e';
  }

  lemma SettledIsIdle(e: End, id: int, n: nat, peerId: int, k: nat)
    requires AllAcked(e, id, peerId, n, k) && HasHandedOut(e, [])
    ensures e.connection == Connected && e.IsIdle()
  {}

  lemma {:induction false} ReceiveKnows(e: End, serial: nat, p: Payload)
    requires e.Valid()
    ensures var r := Receive(e, serial, p); r.id == e.id && r.selfId == e.selfId && r.bufferSize == e.bufferSize
  {
    ReceiveFrame(e, serial, p);
  }

  /** The whole handshake, and one message. */
  lemma FirstExchange(n: nat, first: Payload) returns (y: System, run: seq<Action>)
    requires 1 <= n
    ensures Handshake.Initial(y) && y.left.bufferSize == y.right.bufferSize == n && Legal(y, run)
    ensures Submitted(y, run, Left) == [first]
    ensures var b := After(y, run);
      && AllAcked(b.left, 1, 2, n, 1) && HasHandedOut(b.left, [])
      && b.right.id == 2 && b.right.selfId == Some(1) && HasHandedOut(b.right, [first]) && ACCEPT in b.net
  {
    y, run := Ask(n);
    run := ConnectionArrives(y, run, CONFIRM);
    var b := After(y, run);
    ResetSettles(OnRequest(New(2, 5, n), 1).end, 2, 1, n);
    ReceiveExpected(b.right, [], first);
    ReceiveKnows(b.right, 1, first);
    run := Exchange(y, run, 0, first);
  }

  /**
   * A duplicate of the Accept, delivered after the first exchange, makes the initiator number its
   * next message 1 again; the responder takes it for a duplicate and acks it, and it is lost
   * although the initiator is idle.
   */
  lemma SecondAcceptLosesMessage(n: nat, first: Payload, second: Payload) returns (y: System, run: seq<Action>)
    requires 1 <= n
    ensures Handshake.Initial(y) && y.left.bufferSize == y.right.bufferSize == n && Legal(y, run)
    ensures Submitted(y, run, Left) == [first, second]
    ensures After(y, run).left.connection == Connected && After(y, run).left.IsIdle()
    ensures After(y, run).right.received == [first]
  {
    y, run := FirstExchange(n, first);
    ResetSettles(After(y, run).left.(selfId := Some(2)), 1, 2, n);
    run := ConnectionArrives(y, run, ACCEPT);
    ReceiveExpected(After(y, run).right, [first], second);
    run := Exchange(y, run, 0, second);
    SettledIsIdle(After(y, run).left, 1, n, 2, 1);
  }

  /** The responder expects message 1, which the initiator has sent and takes for acked. */
  ghost predicate Stuck(b: System, first: Payload) {
    && Handshake.Inv(b) && b.right.id == 2
    && b.left.sendSerial >= 1 && b.right.receiveSerial == 0 && b.right.received == []
    && forall p | p in b.net && p.dest == Right && p.message.Data? ::
         p.message.to == Some(2) && p.message.serial == 1 ==> p == DATA(1, first)
  }

  /** No copy of message 1 comes again, and nothing makes the initiator count anew. */
  predicate Spares(a: Action, first: Payload) {
    a.Deliver? ==>
      && a.packet != DATA(1, first)
      && (a.packet.dest == Left ==> !a.packet.message.Accept? && !a.packet.message.Confirm?)
  }

  lemma StuckStep(b: System, a: Action, first: Payload)
    requires Stuck(b, first) && Enabled(b, a) && Spares(a, first)
    ensures Stuck(Next(b, a), first)
  {
    Handshake.StepInv(b, a);
    Handshake.NextGrows(b, a);
    var b' := Next(b, a);
    forall p | p in b'.net && p !in b.net && p.message.Data? ensures p.message.serial != 1 || p.dest == Left {
      NewPackets(b, a, p);
    }
    if Actor(a) == Left && !(a.DoSend? && b.left.connection == Connected) {
      SendingFrame(b.left, a);
    }
    if Actor(a) == Right && !ResetBy(b.right, a) {
      ReceivingFrame(b.right, a);
    }
  }

  lemma {:induction false} StuckForGood(y: System, run: seq<Action>, n: nat, first: Payload)
    requires y.Valid() && Legal(y, run) && n <= |run| && Legal(y, run[..n]) && Stuck(After(y, run[..n]), first)
    requires forall i | n <= i < |run| :: Spares(run[i], first)
    ensures Stuck(After(y, run), first)
    decreases |run|
  {
    if n == |run| {
      assert run[..n] == run;
    } else {
      var before := run[..|run| - 1];
      assert before[..n] == run[..n];
      StuckForGood(y, before, n, first);
      StuckStep(After(y, before), run[|run| - 1], first);
    }
  }

  lemma BecomesStuck(b: System, first: Payload)
    requires Handshake.Inv(b) && Flow(b, Left, 1) && CONFIRM in b.net && b.left.sent == [first] && b.right.id == 2
    ensures Stuck(Next(b, Deliver(CONFIRM)), first)
  {
    Handshake.StepInv(b, Deliver(CONFIRM));
  }

  lemma HasFlow(n: nat, y: System, run: seq<Action>, first: Payload)
    requires 1 <= n && Handshake.Initial(y) && FreshEnd(y.left) && FreshEnd(y.right) && SessionRun(y, run, 1)
    requires y.left.bufferSize == y.right.bufferSize == n && Submitted(y, run, Left) == [first]
    ensures Handshake.Inv(After(y, run)) && Flow(After(y, run), Left, 1) && After(y, run).left.sent == [first]
  {
    InitialFresh(y);
    FreshSession(y, 1);
    SessionRunInv(y, run, 1);
    SentIsSubmitted(y, run, 1, Left);
  }

  function LateConfirm(first: Payload): seq<Action> {
    [DoConnect(Left), Deliver(REQUEST), Deliver(ACCEPT)] + Exchanged(1, first) + [Deliver(CONFIRM)]
  }

  lemma LateConfirmNoneTwice(first: Payload, second: Payload)
    ensures NoneTwice(LateConfirm(first) + Exchanged(2, second))
  {
    assert LateConfirm(first) + Exchanged(2, second) ==
      [DoConnect(Left), Deliver(REQUEST), Deliver(ACCEPT), DoSend(Left, first), Deliver(DATA(1, first)),
       Deliver(ACK(1)), Deliver(CONFIRM), DoSend(Left, second), Deliver(DATA(2, second)), Deliver(ACK(2))];
  }

  /** A Confirm that comes after the first message and its ack makes the responder expect it again. */
  lemma Overtaken(n: nat, first: Payload) returns (y: System, run: seq<Action>)
    requires 1 <= n
    ensures Handshake.Initial(y) && y.left.bufferSize == y.right.bufferSize == n && Legal(y, run)
      && run == LateConfirm(first)
    ensures Submitted(y, run, Left) == [first] && Stuck(After(y, run), first)
    ensures var b := After(y, run);
      && AllAcked(b.left, 1, 2, n, 1) && HasHandedOut(b.left, []) && Settled(b.right, 2, 1, n, 0, [])
  {
    y, run := Ask(n);
    ReceiveKnows(After(y, run).right, 1, first);
    run := Exchange(y, run, 0, first);
    HasFlow(n, y, run, first);
    var b := After(y, run);
    BecomesStuck(b, first);
    ResetSettles(b.right, 2, 1, n);
    run := ConnectionArrives(y, run, CONFIRM);
  }

  lemma ReceiveAhead(e: End, p: Payload)
    requires e.Valid() && HasHandedOut(e, [])
    ensures var r := Receive(e, 2, p); r.received == [] && r.Slot(2) == Some(p) && r.connection == e.connection
  {}

  /**
   * With no packet delivered twice, a Confirm that comes after the first message and its ack makes
   * the responder expect message 1 again. The second message is acked but waits behind it, and
   * nothing is handed out ever after, unless a copy of message 1 or an Accept comes again.
   */
  lemma OvertakenConfirmLosesMessage(n: nat, first: Payload, second: Payload) returns (y: System, run: seq<Action>)
    requires 1 <= n
    ensures Handshake.Initial(y) && y.left.bufferSize == y.right.bufferSize == n && Legal(y, run) && NoneTwice(run)
    ensures Submitted(y, run, Left) == [first, second]
    ensures var b := After(y, run);
      && b.left.connection == b.right.connection == Connected && b.left.IsIdle()
      && b.right.received == [] && b.right.Slot(2) == Some(second)
    ensures forall more | run <= more && Legal(y, more) && (forall i | |run| <= i < |more| :: Spares(more[i], first)) ::
      After(y, more).right.received == []
  {
    y, run := Overtaken(n, first);
    var overtaken := run;
    LateConfirmNoneTwice(first, second);
    ReceiveAhead(After(y, run).right, second);
    run := Exchange(y, run, 1, second);
    SettledIsIdle(After(y, run).left, 1, n, 2, 2);
    forall more | run <= more && Legal(y, more) && (forall i | |run| <= i < |more| :: Spares(more[i], first))
      ensures After(y, more).right.received == []
    {
      StillStuck(y, overtaken, run, more, first, second);
    }
  }

  lemma StillStuck(y: System, overtaken: seq<Action>, run: seq<Action>, more: seq<Action>, first: Payload,
      second: Payload)
    requires y.Valid() && Legal(y, overtaken) && Stuck(After(y, overtaken), first)
    requires run == overtaken + Exchanged(2, second)
    requires run <= more && Legal(y, more) && forall i | |run| <= i < |more| :: Spares(more[i], first)
    ensures After(y, more).right.received == []
  {
    var n := |overtaken|;
    assert more[..n] == overtaken;
    assert run[n..] == Exchanged(2, second);
    forall i | n <= i < |more| ensures Spares(more[i], first) {
      if i < |run| { assert more[i] == run[i] == run[n..][i - n]; }
    }
    StuckForGood(y, more, n, first);
  }
}
