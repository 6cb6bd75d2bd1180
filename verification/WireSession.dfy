/**
 * The data phase. A session starts with nothing sent and nothing received, as two new ends do, and
 * runs until an Accept or a Confirm resets an end that has sent or received something; each end
 * keeps at most `window` messages un-acked.
 */
module WireSession {
  import opened Options
  import opened Modular
  import opened WireEnd
  import opened WireNetwork
  import Handshake = WireHandshake

  // ---- The reorder buffer on its own ----

  /** Serial `k` is waiting in the buffer, which covers one period of serials starting at `from`. */
  predicate Holds(z: End, from: nat, k: nat)
    requires z.Valid()
  {
    from <= k < from + z.bufferSize && z.Slot(k).Some?
  }

  /** Everything handed out or waiting is what was sent under that serial. */
  ghost predicate Faithful(z: End, from: nat, sent: seq<Payload>) {
    && z.Valid()
    && |z.received| == z.receiveSerial <= |sent|
    && z.received == sent[..z.receiveSerial]
    && forall k: nat | Holds(z, from, k) :: k <= |sent| && 1 <= k && z.Slot(k).value == sent[k - 1]
  }

  /** Between handlers, the serials an end has received, in order or ahead of order. */
  predicate Got(z: End, k: nat)
    requires z.Valid()
  {
    k <= z.receiveSerial || Holds(z, z.receiveSerial + 2, k)
  }

  /** The same inside the drain loop, where the next serial may be waiting as well. */
  predicate GotDraining(z: End, k: nat)
    requires z.Valid()
  {
    k <= z.receiveSerial || Holds(z, z.receiveSerial + 1, k)
  }

  /** Filling or clearing one slot concerns only its own serial. */
  lemma OtherSlots(z: End, z': End, from: nat, k: nat, v: Option<Payload>)
    requires z.Valid() && from <= k < from + z.bufferSize
    requires z' == z.(receiveBuffer := z.receiveBuffer[k % z.bufferSize := v])
    ensures z'.Slot(k) == v
    ensures forall j: nat | from <= j < from + z.bufferSize && j != k :: z'.Slot(j) == z.Slot(j)
  {
    forall j: nat | from <= j < from + z.bufferSize && j != k
      ensures z'.Slot(j) == z.Slot(j)
    {
      if j < k { SlotsDiffer(j, k, z.bufferSize); } else { SlotsDiffer(k, j, z.bufferSize); }
    }
  }

  /** With the first slot empty the covered period may start one later. */
  lemma Shift(z: End, from: nat, k: nat)
    requires z.Valid() && z.Slot(from).None?
    ensures Holds(z, from, k) == Holds(z, from + 1, k)
  {
    OneRound(from, z.bufferSize);
  }

  /** The drain loop delivers faithfully and loses nothing it holds. */
  lemma {:induction false} DrainDelivers(z: End, sent: seq<Payload>)
    requires Faithful(z, z.receiveSerial + 1, sent)
    ensures var r := Drain(z);
      && z.receiveSerial <= r.receiveSerial
      && Faithful(r, r.receiveSerial + 2, sent)
      && forall k: nat :: Got(r, k) <==> GotDraining(z, k)
    decreases Waiting(z.receiveBuffer)
  {
    var next := z.receiveSerial + 1;
    if z.Slot(next).None? {
      forall k: nat ensures Holds(z, next, k) == Holds(z, next + 1, k) { Shift(z, next, k); }
    } else {
      assert Holds(z, next, next);
      var cleared := z.(receiveBuffer := z.receiveBuffer[next % z.bufferSize := None]);
      OtherSlots(z, cleared, next, next, None);
      var z' := cleared.(receiveSerial := next, received := z.received + [z.Slot(next).value]);
      forall k: nat ensures Holds(z', next + 1, k) <==> Holds(z, next, k) && k != next {
        Shift(cleared, next, k);
        assert Holds(z', next + 1, k) == Holds(cleared, next + 1, k);
      }
      assert Faithful(z', next + 1, sent) by {
        forall k: nat | Holds(z', next + 1, k)
          ensures k <= |sent| && 1 <= k && z'.Slot(k).value == sent[k - 1]
        {
          assert Holds(z, next, k);
          assert z'.Slot(k) == cleared.Slot(k);
        }
      }
      TakeOneOut(z.receiveBuffer, next % z.bufferSize);
      DrainDelivers(z', sent);
      assert forall k: nat :: GotDraining(z', k) <==> GotDraining(z, k);
    }
  }

  /** Receiving any message that was sent, at most one period past the expected one, is faithful. */
  lemma ReceiveDelivers(z: End, sent: seq<Payload>, serial: nat)
    requires Faithful(z, z.receiveSerial + 2, sent)
    requires 1 <= serial <= |sent| && serial <= z.receiveSerial + z.bufferSize + 1
    ensures var r := Receive(z, serial, sent[serial - 1]);
      && z.receiveSerial <= r.receiveSerial
      && Faithful(r, r.receiveSerial + 2, sent)
      && forall k: nat :: Got(r, k) <==> Got(z, k) || k == serial
  {
    var p := sent[serial - 1];
    if serial == z.receiveSerial + 1 {
      var z' := z.(receiveSerial := serial, received := z.received + [p]);
      var next := serial + 1;
      assert forall k: nat :: Holds(z', next, k) == Holds(z, next, k);
      DrainDelivers(z', sent);
      assert forall k: nat :: GotDraining(z', k) <==> Got(z, k) || k == serial;
    } else if serial > z.receiveSerial {
      OtherSlots(z, Receive(z, serial, p), z.receiveSerial + 2, serial, Some(p));
    }
  }

  // ---- Both ends and the network ----

  /** What a session keeps about the messages from the end at `s` to the other end. */
  ghost predicate Flow(y: System, s: Side, window: nat)
    requires y.Valid()
  {
    var x, z := y.At(s), y.At(s.Other());
    && |x.sent| == x.sendSerial <= x.sendAckSerial + window
    && x.sendAckSerial <= z.receiveSerial
    && Faithful(z, z.receiveSerial + 2, x.sent)
    && (forall p | p in y.net && p.dest == s.Other() && p.message.Data? ::
          1 <= p.message.serial <= x.sendSerial && p.message.payload == x.sent[p.message.serial - 1])
    && (forall k: nat | 1 <= k <= x.sendSerial :: DataPacket(x, s, z.id, k) in y.net)
    && (forall p | p in y.net && p.dest == s && p.message.Ack? :: 1 <= p.message.serial && Got(z, p.message.serial))
    && (forall k: nat | 1 <= k && Got(z, k) :: Packet(s, Ack(Some(x.id), k)) in y.net)
  }

  function DataPacket(x: End, s: Side, peerId: int, k: nat): Packet
    requires 1 <= k <= |x.sent|
  {
    Packet(s.Other(), Data(Some(peerId), k, x.sent[k - 1]))
  }

  /** Only ends that know each other send. */
  predicate Introduced(y: System) {
    y.left.sendSerial > 0 || y.right.sendSerial > 0 ==> y.left.selfId.Some? && y.right.selfId.Some?
  }

  ghost predicate SessionInv(y: System, window: nat) {
    && Handshake.Inv(y) && Introduced(y)
    && Flow(y, Left, window) && Flow(y, Right, window)
  }

  /** Nothing sent, nothing received, no data or ack on the network; connected or not yet. */
  ghost predicate Fresh(y: System) {
    && Handshake.Inv(y)
    && (forall s: Side :: FreshEnd(y.At(s)))
    && (forall p | p in y.net :: !p.message.Data? && !p.message.Ack?)
  }

  ghost predicate FreshEnd(e: End) {
    && e.sendSerial == e.sendAckSerial == e.receiveSerial == 0
    && e.sent == [] && e.received == []
    && e.sendBuffer == Empty(e.bufferSize) && e.receiveBuffer == Empty(e.bufferSize)
  }

  /** The end was never used: nothing sent, handed out or waiting. */
  predicate Untouched(e: End) {
    && e.sendSerial == 0 && e.receiveSerial == 0
    && forall i | 0 <= i < |e.receiveBuffer| :: e.receiveBuffer[i].None?
  }

  /** A delivery to `e` that runs prChangeConnectionState(\connected). */
  predicate ResetBy(e: End, a: Action) {
    a.Deliver? && (a.packet.message.Accept? || a.packet.message.Confirm?) && a.packet.message.to == Some(e.id)
  }

  predicate Resets(y: System, a: Action) {
    ResetBy(y.At(Actor(a)), a)
  }

  /** The actions of a session: none resets an end in use, and no end overruns the window. */
  predicate InSession(y: System, a: Action, window: nat) {
    && (Resets(y, a) ==> Untouched(y.At(Actor(a))))
    && (a.DoSend? && y.At(a.at).connection == Connected ==>
          y.At(a.at).sendSerial < y.At(a.at).sendAckSerial + window)
  }

  ghost predicate SessionRun(y: System, run: seq<Action>, window: nat)
    requires y.Valid()
    decreases |run|
  {
    Legal(y, run) && (run != [] ==>
      && SessionRun(y, run[..|run| - 1], window)
      && InSession(After(y, run[..|run| - 1]), run[|run| - 1], window))
  }

  /** Two new ends and an empty network. */
  lemma InitialFresh(y: System)
    requires Handshake.Initial(y) && FreshEnd(y.left) && FreshEnd(y.right)
    ensures Fresh(y)
  {}

  lemma FreshSession(y: System, window: nat)
    requires Fresh(y)
    ensures SessionInv(y, window)
  {
    forall s: Side ensures Flow(y, s, window) {
      assert FreshEnd(y.At(s)) && FreshEnd(y.At(s.Other()));
    }
  }

  /** An action that is not a send leaves the sending half alone, but for acks in their order. */
  lemma SendingFrame(e: End, a: Action)
    requires e.Valid() && (a.DoFire? ==> a.timer < |e.timers|)
    requires a.DoSend? ==> e.connection != Connected
    requires !ResetBy(e, a)
    ensures var r := Reaction(e, a).end;
      && r.id == e.id && r.sent == e.sent && r.sendSerial == e.sendSerial
      && (r.sendAckSerial == e.sendAckSerial ||
          (r.sendAckSerial == e.sendAckSerial + 1 && a.Deliver?
            && a.packet.message == Ack(Some(e.id), r.sendAckSerial)))
  {
    if a.Deliver? && a.packet.message.Data? {
      ReceiveFrame(e, a.packet.message.serial, a.packet.message.payload);
    }
  }

  predicate TakesData(e: End, a: Action) {
    a.Deliver? && a.packet.message.Data? && a.packet.message.to == Some(e.id)
  }

  /** Only a data message touches the receiving half. */
  lemma ReceivingFrame(e: End, a: Action)
    requires e.Valid() && (a.DoFire? ==> a.timer < |e.timers|)
    requires !ResetBy(e, a)
    ensures var r := Reaction(e, a).end;
      && r.Valid() && r.id == e.id
      && (TakesData(e, a) ||
          (r.receiveSerial == e.receiveSerial && r.received == e.received
           && r.receiveBuffer == e.receiveBuffer && r.bufferSize == e.bufferSize))
  {
    if a.Deliver? && a.packet.message.Data? {
      ReceiveFrame(e, a.packet.message.serial, a.packet.message.payload);
    }
  }

  /** The data and ack messages an action puts on the network for the first time. */
  lemma NewPackets(y: System, a: Action, p: Packet)
    requires Handshake.Inv(y) && Enabled(y, a)
    requires p in Next(y, a).net && p !in y.net
    ensures p.dest == Actor(a).Other()
    ensures p.message.Data? ==> a.DoSend? && p.message == Data(y.At(a.at).selfId, y.At(a.at).sendSerial + 1, a.payload)
                                && y.At(a.at).connection == Connected
    ensures p.message.Ack? ==> TakesData(y.At(Actor(a)), a)
                               && p.message == Ack(y.At(Actor(a)).selfId, a.packet.message.serial)
  {
    PacketsAdded(y, Actor(a), Reaction(y.At(Actor(a)), a), p);
  }

  /** The parts of two states that Flow(_, s, _) reads agree, but for the network's growth. */
  ghost predicate SameReceiver(z: End, z': End) {
    && z'.Valid() && z'.id == z.id && z'.bufferSize == z.bufferSize
    && z'.receiveSerial == z.receiveSerial && z'.received == z.received && z'.receiveBuffer == z.receiveBuffer
  }

  ghost predicate SameSender(x: End, x': End) {
    x'.id == x.id && x'.sent == x.sent && x'.sendSerial == x.sendSerial && x'.sendAckSerial == x.sendAckSerial
  }

  lemma GotDepends(z: End, z': End, k: nat)
    requires z.Valid() && SameReceiver(z, z')
    ensures Got(z', k) == Got(z, k)
    ensures z'.Slot(k) == z.Slot(k)
  {}

  lemma FlowKept(y: System, y': System, s: Side, window: nat)
    requires y.Valid() && Flow(y, s, window) && y'.Valid()
    requires SameReceiver(y.At(s.Other()), y'.At(s.Other())) && SameSender(y.At(s), y'.At(s))
    requires NothingNew(y, y', s)
    ensures Flow(y', s, window)
  {
    var x, z, x', z' := y.At(s), y.At(s.Other()), y'.At(s), y'.At(s.Other());
    forall k: nat { GotDepends(z, z', k); }
    assert Faithful(z', z'.receiveSerial + 2, x'.sent) by {
      forall k: nat | Holds(z', z'.receiveSerial + 2, k)
        ensures k <= |x'.sent| && 1 <= k && z'.Slot(k).value == x'.sent[k - 1]
      {
        assert Holds(z, z.receiveSerial + 2, k);
      }
    }
    forall k: nat | 1 <= k <= x'.sendSerial ensures DataPacket(x', s, z'.id, k) in y'.net {
      assert DataPacket(x', s, z'.id, k) == DataPacket(x, s, z.id, k);
    }
  }

  lemma FlowSend(y: System, y': System, s: Side, window: nat, p: Payload)
    requires y.Valid() && Flow(y, s, window) && y'.Valid()
    requires y'.At(s.Other()) == y.At(s.Other())
    requires y'.At(s).id == y.At(s).id && y'.At(s).sendAckSerial == y.At(s).sendAckSerial
    requires y'.At(s).sendSerial == y.At(s).sendSerial + 1 <= y.At(s).sendAckSerial + window
    requires y'.At(s).sent == y.At(s).sent + [p]
    requires y'.net == y.net + {Packet(s.Other(), Data(Some(y.At(s.Other()).id), y.At(s).sendSerial + 1, p))}
    ensures Flow(y', s, window)
  {
    var x, z, x' := y.At(s), y.At(s.Other()), y'.At(s);
    assert x'.sent[..z.receiveSerial] == x.sent[..z.receiveSerial];
    forall k: nat | 1 <= k <= x'.sendSerial ensures DataPacket(x', s, z.id, k) in y'.net {
      if k <= x.sendSerial {
        assert DataPacket(x', s, z.id, k) == DataPacket(x, s, z.id, k);
      }
    }
  }

  lemma FlowAck(y: System, y': System, s: Side, window: nat)
    requires y.Valid() && Flow(y, s, window) && y'.Valid()
    requires y'.At(s.Other()) == y.At(s.Other()) && y'.net == y.net
    requires Packet(s, Ack(Some(y.At(s).id), y.At(s).sendAckSerial + 1)) in y.net
    requires SameSender(y.At(s).(sendAckSerial := y.At(s).sendAckSerial + 1), y'.At(s))
    ensures Flow(y', s, window)
  {
    var x, z, x' := y.At(s), y.At(s.Other()), y'.At(s);
    assert Got(z, x.sendAckSerial + 1);
    forall k: nat | 1 <= k <= x'.sendSerial ensures DataPacket(x', s, z.id, k) in y'.net {
      assert DataPacket(x', s, z.id, k) == DataPacket(x, s, z.id, k);
    }
  }

  lemma FlowReceive(y: System, y': System, s: Side, window: nat, serial: nat)
    requires y.Valid() && Flow(y, s, window) && y'.Valid()
    requires y'.At(s) == y.At(s)
    requires 1 <= serial <= y.At(s).sendSerial && window <= y.At(s.Other()).bufferSize + 1
    requires y'.At(s.Other()) == Receive(y.At(s.Other()), serial, y.At(s).sent[serial - 1])
    requires y'.net == y.net + {Packet(s, Ack(Some(y.At(s).id), serial))}
    ensures Flow(y', s, window)
  {
    var x, z, z' := y.At(s), y.At(s.Other()), y'.At(s.Other());
    ReceiveDelivers(z, x.sent, serial);
    ReceiveFrame(z, serial, x.sent[serial - 1]);
    forall k: nat | 1 <= k <= x.sendSerial ensures DataPacket(x, s, z'.id, k) in y'.net {
      assert DataPacket(x, s, z'.id, k) == DataPacket(x, s, z.id, k);
    }
  }

  /** No new data for, and no new ack from, the receiver of the messages of the end at `s`. */
  ghost predicate NothingNew(y: System, y': System, s: Side) {
    && y.net <= y'.net
    && forall p | p in y'.net && p !in y.net ::
      !(p.dest == s.Other() && p.message.Data?) && !(p.dest == s && p.message.Ack?)
  }

  lemma QuietSender(y: System, a: Action)
    requires Handshake.Inv(y) && Enabled(y, a) && (a.DoSend? ==> y.At(a.at).connection != Connected)
    ensures NothingNew(y, Next(y, a), Actor(a))
  {
    forall p | p in Next(y, a).net && p !in y.net
      ensures !(p.dest == Actor(a).Other() && p.message.Data?) && !(p.dest == Actor(a) && p.message.Ack?)
    {
      NewPackets(y, a, p);
    }
  }

  lemma QuietReceiver(y: System, a: Action)
    requires Handshake.Inv(y) && Enabled(y, a) && !TakesData(y.At(Actor(a)), a)
    ensures NothingNew(y, Next(y, a), Actor(a).Other())
  {
    forall p | p in Next(y, a).net && p !in y.net
      ensures !(p.dest == Actor(a) && p.message.Data?) && !(p.dest == Actor(a).Other() && p.message.Ack?)
    {
      NewPackets(y, a, p);
    }
  }

  lemma SenderSends(y: System, a: Action, window: nat)
    requires SessionInv(y, window) && Enabled(y, a) && InSession(y, a, window)
    requires a.DoSend? && y.At(a.at).connection == Connected
    ensures Flow(Next(y, a), a.at, window)
  {
    var x := y.At(a.at);
    forall p { PacketsAdded(y, a.at, Reaction(x, a), p); }
    FlowSend(y, Next(y, a), a.at, window, a.payload);
  }

  lemma SenderStep(y: System, a: Action, window: nat)
    requires SessionInv(y, window) && Enabled(y, a) && InSession(y, a, window) && !Resets(y, a)
    ensures Flow(Next(y, a), Actor(a), window)
  {
    var s := Actor(a);
    var x, y' := y.At(s), Next(y, a);
    if a.DoSend? && x.connection == Connected {
      SenderSends(y, a, window);
    } else {
      QuietSender(y, a);
      SendingFrame(x, a);
      if y'.At(s).sendAckSerial != x.sendAckSerial {
        FlowAck(y, y', s, window);
      } else {
        FlowKept(y, y', s, window);
      }
    }
  }

  lemma OneAck(y: System, a: Action)
    requires Handshake.Inv(y) && Enabled(y, a) && TakesData(y.At(Actor(a)), a) && y.At(Actor(a)).selfId.Some?
    ensures Next(y, a).net ==
      y.net + {Packet(Actor(a).Other(), Ack(Some(y.At(Actor(a).Other()).id), a.packet.message.serial))}
  {
    forall p { PacketsAdded(y, Actor(a), Reaction(y.At(Actor(a)), a), p); }
  }

  lemma ReceiverTakes(y: System, a: Action, window: nat)
    requires SessionInv(y, window) && Enabled(y, a)
    requires TakesData(y.At(Actor(a)), a) && window <= y.At(Actor(a)).bufferSize + 1
    ensures Flow(Next(y, a), Actor(a).Other(), window)
  {
    var s := Actor(a).Other();
    var x, serial := y.At(s), a.packet.message.serial;
    assert Flow(y, s, window);
    OneAck(y, a);
    FlowReceive(y, Next(y, a), s, window, serial);
  }

  lemma ReceiverStep(y: System, a: Action, window: nat)
    requires SessionInv(y, window) && Enabled(y, a) && !Resets(y, a)
    requires window <= y.At(Actor(a)).bufferSize + 1
    ensures Flow(Next(y, a), Actor(a).Other(), window)
  {
    if TakesData(y.At(Actor(a)), a) {
      ReceiverTakes(y, a, window);
    } else {
      QuietReceiver(y, a);
      ReceivingFrame(y.At(Actor(a)), a);
      FlowKept(y, Next(y, a), Actor(a).Other(), window);
    }
  }

  lemma KeepsSize(e: End, a: Action)
    requires e.Valid() && (a.DoFire? ==> a.timer < |e.timers|)
    ensures Reaction(e, a).end.bufferSize == e.bufferSize
  {
    if a.Deliver? && a.packet.message.Data? {
      ReceiveFrame(e, a.packet.message.serial, a.packet.message.payload);
    }
  }

  predicate Fits(y: System, window: nat) {
    window <= y.left.bufferSize + 1 && window <= y.right.bufferSize + 1
  }

  /** A reset leaves an untouched end as it was, for the two flows. */
  lemma ResetFrame(e: End, a: Action)
    requires e.Valid() && ResetBy(e, a) && Untouched(e)
    requires |e.sent| == |e.received| == e.sendAckSerial == 0
    ensures var r := Reaction(e, a).end; SameReceiver(e, r) && SameSender(e, r)
  {
    assert e.receiveBuffer == Empty(e.bufferSize);
  }

  lemma ResetOfUntouched(y: System, a: Action, window: nat)
    requires SessionInv(y, window) && Enabled(y, a) && Resets(y, a) && Untouched(y.At(Actor(a)))
    ensures SessionInv(Next(y, a), window)
  {
    var s := Actor(a);
    assert Flow(y, s, window) && Flow(y, s.Other(), window);
    Handshake.StepInv(y, a);
    Handshake.NextGrows(y, a);
    ResetFrame(y.At(s), a);
    QuietSender(y, a);
    QuietReceiver(y, a);
    FlowKept(y, Next(y, a), s, window);
    FlowKept(y, Next(y, a), s.Other(), window);
  }

  lemma StaysIntroduced(y: System, a: Action)
    requires Handshake.Inv(y) && Introduced(y) && Enabled(y, a) && !Resets(y, a)
    ensures Introduced(Next(y, a))
  {
    Handshake.NextGrows(y, a);
    var e := y.At(Actor(a));
    if !a.DoSend? || e.connection != Connected {
      SendingFrame(e, a);
    }
  }

  lemma SessionStep(y: System, a: Action, window: nat)
    requires SessionInv(y, window) && Enabled(y, a) && InSession(y, a, window) && Fits(y, window)
    ensures SessionInv(Next(y, a), window) && Fits(Next(y, a), window)
  {
    KeepsSize(y.At(Actor(a)), a);
    if Resets(y, a) {
      ResetOfUntouched(y, a, window);
    } else {
      SenderStep(y, a, window);
      ReceiverStep(y, a, window);
      Handshake.StepInv(y, a);
      StaysIntroduced(y, a);
    }
  }

  lemma {:induction false} SessionRunInv(y: System, run: seq<Action>, window: nat)
    requires SessionInv(y, window) && SessionRun(y, run, window) && Fits(y, window)
    ensures SessionInv(After(y, run), window) && Fits(After(y, run), window)
    decreases |run|
  {
    if run != [] {
      var before, a := run[..|run| - 1], run[|run| - 1];
      SessionRunInv(y, before, window);
      SessionStep(After(y, before), a, window);
    }
  }

  // ---- The main results ----

  /** The payloads given to sendMsg at `s` while it was connected, in order. */
  ghost function Submitted(y: System, run: seq<Action>, s: Side): seq<Payload>
    requires y.Valid() && Legal(y, run)
    decreases |run|
  {
    if run == [] then [] else
      var before, a := run[..|run| - 1], run[|run| - 1];
      Submitted(y, before, s) +
      if a.DoSend? && a.at == s && After(y, before).At(s).connection == Connected then [a.payload] else []
  }

  lemma {:induction false} SentIsSubmitted(y: System, run: seq<Action>, window: nat, s: Side)
    requires Fresh(y) && SessionRun(y, run, window)
    ensures var x := After(y, run).At(s); x.sent == Submitted(y, run, s) && |x.sent| == x.sendSerial
    decreases |run|
  {
    if run == [] {
      assert FreshEnd(y.At(s));
    } else {
      var before, a := run[..|run| - 1], run[|run| - 1];
      SentIsSubmitted(y, before, window, s);
      var b := After(y, before);
      var e := b.At(Actor(a));
      if !Resets(b, a) && (!a.DoSend? || e.connection != Connected) {
        SendingFrame(e, a);
      }
    }
  }

  /**
   * Exactly-once, in-order delivery: whatever the network loses, repeats or reorders, the payloads
   * handed to onMessageReceived are those of serials 1..receiveSerial, and none is handed out
   * before it is submitted or acked before it is handed out.
   */
  lemma ExactlyOnceInOrder(y: System, run: seq<Action>, window: nat, s: Side)
    requires Fresh(y) && SessionRun(y, run, window) && Fits(y, window)
    ensures var x, z := After(y, run).At(s), After(y, run).At(s.Other());
      && x.sendAckSerial <= z.receiveSerial <= x.sendSerial == |Submitted(y, run, s)|
      && z.received == Submitted(y, run, s)[..z.receiveSerial]
  {
    FreshSession(y, window);
    SessionRunInv(y, run, window);
    SentIsSubmitted(y, run, window, s);
  }

  /** In particular from two new ends on, through the handshake and all that follows. */
  lemma NewEndsDeliver(y: System, run: seq<Action>, window: nat, s: Side)
    requires Handshake.Initial(y) && FreshEnd(y.left) && FreshEnd(y.right)
    requires SessionRun(y, run, window) && Fits(y, window)
    ensures var x, z := After(y, run).At(s), After(y, run).At(s.Other());
      && x.sendAckSerial <= z.receiveSerial <= x.sendSerial == |Submitted(y, run, s)|
      && z.received == Submitted(y, run, s)[..z.receiveSerial]
  {
    InitialFresh(y);
    ExactlyOnceInOrder(y, run, window, s);
  }

  lemma AllHandedOut(y: System, s: Side, window: nat)
    requires y.Valid() && Flow(y, s, window) && y.At(s).sendSerial == y.At(s).sendAckSerial
    ensures var z := y.At(s.Other());
      z.received == y.At(s).sent && forall i | 0 <= i < z.bufferSize :: z.receiveBuffer[i].None?
  {
    var z := y.At(s.Other());
    forall i | 0 <= i < z.bufferSize ensures z.receiveBuffer[i].None? {
      var k := SerialInSlot(z, i);
      assert !Holds(z, z.receiveSerial + 2, k);
    }
  }

  /** Once everything sent is acked, everything was delivered and nothing is left waiting. */
  lemma AckedMeansDelivered(y: System, run: seq<Action>, window: nat, s: Side)
    requires Fresh(y) && SessionRun(y, run, window) && Fits(y, window)
    requires After(y, run).At(s).sendSerial == After(y, run).At(s).sendAckSerial
    ensures var z := After(y, run).At(s.Other());
      && z.received == Submitted(y, run, s)
      && forall i | 0 <= i < z.bufferSize :: z.receiveBuffer[i].None?
  {
    FreshSession(y, window);
    SessionRunInv(y, run, window);
    SentIsSubmitted(y, run, window, s);
    AllHandedOut(After(y, run), s, window);
  }

  /** When both ends are idle, each has handed out all that the other submitted. */
  lemma IdleMeansDelivered(y: System, run: seq<Action>, window: nat, s: Side)
    requires Fresh(y) && SessionRun(y, run, window) && Fits(y, window)
    requires After(y, run).At(s).IsIdle()
    ensures After(y, run).At(s.Other()).received == Submitted(y, run, s)
  {
    AckedMeansDelivered(y, run, window, s);
  }

  /** The one serial, of the period the reorder buffer covers, that belongs in slot `i`. */
  lemma SerialInSlot(z: End, i: nat) returns (k: nat)
    requires z.Valid() && i < z.bufferSize
    ensures z.receiveSerial + 2 <= k < z.receiveSerial + 2 + z.bufferSize && k % z.bufferSize == i
    ensures forall j: nat | z.receiveSerial + 2 <= j < z.receiveSerial + 2 + z.bufferSize && j % z.bufferSize == i ::
      j == k
  {
    var from, n := z.receiveSerial + 2, z.bufferSize;
    k := from;
    while k % n != i
      invariant from <= k < from + n
      invariant forall j: nat | from <= j < k :: j % n != i
      decreases from + n - k
    {
      if k + 1 == from + n {
        EverySlot(from, n, i);
      }
      k := k + 1;
    }
    forall j: nat | from <= j < from + n && j % n == i ensures j == k {
      if j < k { SlotsDiffer(j, k, n); } else if k < j { SlotsDiffer(k, j, n); }
    }
  }

  /** One period of consecutive numbers visits every slot. */
  lemma EverySlot(from: nat, n: nat, i: nat)
    requires i < n
    ensures exists k: nat :: from <= k < from + n && k % n == i
    decreases from
  {
    if from == 0 {
      assert i % n == i;
    } else {
      EverySlot(from - 1, n, i);
      var k: nat :| from - 1 <= k < from - 1 + n && k % n == i;
      OneRound(k, n);
      assert from <= k < from + n || k + n < from + n;
      assert (k + n) % n == i;
    }
  }

  lemma WaitingInFlow(y: System, s: Side, window: nat, i: nat) returns (k: nat)
    requires y.Valid() && Flow(y, s, window)
    requires i < y.At(s.Other()).bufferSize && y.At(s.Other()).receiveBuffer[i].Some?
    ensures var x, z := y.At(s), y.At(s.Other());
      && k % z.bufferSize == i
      && z.receiveSerial + 2 <= k <= |x.sent| && k <= z.receiveSerial + window
      && z.receiveBuffer[i].value == x.sent[k - 1]
  {
    var z := y.At(s.Other());
    k := SerialInSlot(z, i);
    assert Holds(z, z.receiveSerial + 2, k);
  }

  /** Every waiting message is the one submitted under its slot's serial, ahead of the next expected. */
  lemma WaitingIsAhead(y: System, run: seq<Action>, window: nat, s: Side, i: nat) returns (k: nat)
    requires Fresh(y) && SessionRun(y, run, window) && Fits(y, window)
    requires i < After(y, run).At(s.Other()).bufferSize
    requires After(y, run).At(s.Other()).receiveBuffer[i].Some?
    ensures var z := After(y, run).At(s.Other());
      && k % z.bufferSize == i
      && z.receiveSerial + 2 <= k <= |Submitted(y, run, s)| && k <= z.receiveSerial + window
      && z.receiveBuffer[i].value == Submitted(y, run, s)[k - 1]
  {
    FreshSession(y, window);
    SessionRunInv(y, run, window);
    SentIsSubmitted(y, run, window, s);
    k := WaitingInFlow(After(y, run), s, window, i);
  }

  // ---- The send buffer ----

  /** The send buffer holds exactly the un-acked messages. */
  ghost predicate SendSlots(x: End, peerId: int) {
    && x.Valid() && |x.sent| == x.sendSerial
    && forall k: nat | x.sendAckSerial < k <= x.sendAckSerial + x.bufferSize ::
         x.SendSlot(k) == if k <= x.sendSerial then Some(Data(Some(peerId), k, x.sent[k - 1])) else None
  }

  lemma SendSlotsSend(x: End, x': End, peerId: int, p: Payload)
    requires SendSlots(x, peerId) && x.sendSerial < x.sendAckSerial + x.bufferSize
    requires x.sendAckSerial <= x.sendSerial
    requires x'.bufferSize == x.bufferSize && x'.sendAckSerial == x.sendAckSerial && x'.Valid()
    requires x'.sendSerial == x.sendSerial + 1 && x'.sent == x.sent + [p]
    requires x'.sendBuffer == x.sendBuffer[x'.sendSerial % x.bufferSize := Some(Data(Some(peerId), x'.sendSerial, p))]
    ensures SendSlots(x', peerId)
  {
    var n := x.bufferSize;
    forall k: nat | x.sendAckSerial < k <= x.sendAckSerial + n && k != x'.sendSerial
      ensures x'.SendSlot(k) == x.SendSlot(k)
    {
      if k < x'.sendSerial { SlotsDiffer(k, x'.sendSerial, n); } else { SlotsDiffer(x'.sendSerial, k, n); }
    }
  }

  lemma SendSlotsAck(x: End, x': End, peerId: int)
    requires SendSlots(x, peerId) && x.sendAckSerial < x.sendSerial <= x.sendAckSerial + x.bufferSize
    requires x'.bufferSize == x.bufferSize && x'.sendAckSerial == x.sendAckSerial + 1 && x'.Valid()
    requires x'.sendSerial == x.sendSerial && x'.sent == x.sent
    requires x'.sendBuffer == x.sendBuffer[x'.sendAckSerial % x.bufferSize := None]
    ensures SendSlots(x', peerId)
  {
    var n := x.bufferSize;
    OneRound(x'.sendAckSerial, n);
    forall k: nat | x'.sendAckSerial < k < x'.sendAckSerial + n
      ensures x'.SendSlot(k) == x.SendSlot(k)
    {
      SlotsDiffer(x'.sendAckSerial, k, n);
    }
  }

  /** Other actions leave the send buffer alone. */
  lemma SendBufferFrame(e: End, a: Action)
    requires e.Valid() && (a.DoFire? ==> a.timer < |e.timers|)
    requires a.DoSend? ==> e.connection != Connected
    requires !ResetBy(e, a)
    ensures var r := Reaction(e, a).end;
      && r.Valid() && r.bufferSize == e.bufferSize
      && r.sendBuffer == if r.sendAckSerial == e.sendAckSerial then e.sendBuffer
                         else e.sendBuffer[r.sendAckSerial % e.bufferSize := None]
  {
    if a.Deliver? && a.packet.message.Data? {
      ReceiveFrame(e, a.packet.message.serial, a.packet.message.payload);
    }
  }

  lemma SendSlotsStep(y: System, a: Action, window: nat, s: Side)
    requires SessionInv(y, window) && Enabled(y, a) && InSession(y, a, window)
    requires window <= y.At(s).bufferSize && SendSlots(y.At(s), y.At(s.Other()).id)
    ensures SendSlots(Next(y, a).At(s), y.At(s.Other()).id)
  {
    var x, x' := y.At(s), Next(y, a).At(s);
    var peerId := y.At(s.Other()).id;
    if Actor(a) != s {
    } else if Resets(y, a) {
    } else if a.DoSend? && x.connection == Connected {
      assert Flow(y, s, window);
      SendSlotsSend(x, x', peerId, a.payload);
    } else {
      SendingFrame(x, a);
      SendBufferFrame(x, a);
      if x'.sendAckSerial == x.sendAckSerial {
        assert forall k: nat :: x'.SendSlot(k) == x.SendSlot(k);
      } else {
        assert Flow(y, s, window);
        assert Got(y.At(s.Other()), x'.sendAckSerial);
        SendSlotsAck(x, x', peerId);
      }
    }
  }

  /** With no more un-acked messages than slots, the filled send slots are exactly the un-acked ones. */
  lemma {:induction false} SendBufferIsUnacked(y: System, run: seq<Action>, window: nat, s: Side)
    requires Fresh(y) && SessionRun(y, run, window)
    requires window <= y.left.bufferSize && window <= y.right.bufferSize
    ensures SendSlots(After(y, run).At(s), After(y, run).At(s.Other()).id)
    ensures After(y, run).At(s).bufferSize == y.At(s).bufferSize
    decreases |run|
  {
    if run == [] {
      assert FreshEnd(y.At(s));
    } else {
      var before, a := run[..|run| - 1], run[|run| - 1];
      SendBufferIsUnacked(y, before, window, s);
      FreshSession(y, window);
      SessionRunInv(y, before, window);
      Handshake.NextGrows(After(y, before), a);
      SendSlotsStep(After(y, before), a, window, s);
      KeepsSize(After(y, before).At(Actor(a)), a);
    }
  }
}
