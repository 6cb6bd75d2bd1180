/**
 * What is delivered, as opposed to what is invariant: which reset of an end leaves delivery intact
 * however the session goes on.
 */
module WireDelivery {
  import opened Options
  import opened WireEnd
  import opened WireNetwork
  import opened WireSession
  import Handshake = WireHandshake

  /** What was handed out is what was sent, up to the serial reached, and acks do not run ahead. */
  predicate InOrder(y: System, s: Side) {
    var x, z := y.At(s), y.At(s.Other());
    && x.sendAckSerial <= z.receiveSerial <= x.sendSerial == |x.sent|
    && z.received == x.sent[..z.receiveSerial]
  }

  /** However the session goes on from here, both directions stay in order. */
  ghost predicate Delivers(y: System, window: nat)
    requires y.Valid()
  {
    forall run: seq<Action>, s: Side :: SessionRun(y, run, window) ==> InOrder(After(y, run), s)
  }

  lemma SessionDelivers(y: System, window: nat)
    requires SessionInv(y, window) && Fits(y, window)
    ensures Delivers(y, window)
  {
    forall run: seq<Action>, s: Side | SessionRun(y, run, window) ensures InOrder(After(y, run), s) {
      SessionRunInv(y, run, window);
      assert Flow(After(y, run), s, window);
    }
  }

  /**
   * An Accept or a Confirm resets the end that it is for. Delivery stays intact exactly when that
   * end had sent nothing and received nothing yet.
   */
  lemma ResetHarmlessIff(y: System, a: Action, window: nat)
    requires SessionInv(y, window) && Fits(y, window) && Enabled(y, a) && Resets(y, a)
    ensures Delivers(Next(y, a), window) <==> Untouched(y.At(Actor(a)))
  {
    var s := Actor(a);
    assert Flow(y, s, window) && Flow(y, s.Other(), window);
    if Untouched(y.At(s)) {
      SessionStep(y, a, window);
      SessionDelivers(Next(y, a), window);
    } else {
      Handshake.StepInv(y, a);
      if y.At(s).sendSerial > 0 {
        ResetOfSender(y, a, window);
      } else {
        ResetOfReceiver(y, a, window);
      }
    }
  }

  lemma NotInOrder(y: System, run: seq<Action>, s: Side, window: nat)
    requires y.Valid() && SessionRun(y, run, window) && !InOrder(After(y, run), s)
    ensures !Delivers(y, window)
  {}

  lemma One(y: System, run: seq<Action>, a: Action, window: nat) returns (run': seq<Action>)
    requires y.Valid() && SessionRun(y, run, window)
    requires Enabled(After(y, run), a) && InSession(After(y, run), a, window)
    ensures SessionRun(y, run', window) && After(y, run') == Next(After(y, run), a)
  {
    run' := run + [a];
    assert run'[..|run'| - 1] == run;
  }

  // ---- An end that had sent something ----

  lemma {:induction false} DrainAdvances(e: End)
    requires e.Valid()
    ensures e.receiveSerial <= Drain(e).receiveSerial
    decreases Waiting(e.receiveBuffer)
  {
    var next := e.receiveSerial + 1;
    if e.Slot(next).Some? {
      TakeOneOut(e.receiveBuffer, next % e.bufferSize);
      DrainAdvances(e.(receiveSerial := next, received := e.received + [e.Slot(next).value],
                       receiveBuffer := e.receiveBuffer[next % e.bufferSize := None]));
    }
  }

  /** Its message 1 is handed out although it has not sent a message 1 since the reset. */
  lemma ResetOfSender(y: System, a: Action, window: nat)
    requires SessionInv(y, window) && Enabled(y, a) && Resets(y, a) && y.At(Actor(a)).sendSerial > 0
    ensures !Delivers(Next(y, a), window)
  {
    var s := Actor(a);
    var y' := Next(y, a);
    var x, z := y.At(s), y.At(s.Other());
    assert Flow(y, s, window);
    assert SessionRun(y', [], window);
    if z.receiveSerial > 0 {
      NotInOrder(y', [], s, window);
    } else {
      var first := Deliver(DataPacket(x, s, z.id, 1));
      assert first.packet in y'.net;
      var run := One(y', [], first, window);
      DrainAdvances(z.(receiveSerial := 1, received := z.received + [x.sent[0]]));
      NotInOrder(y', run, s, window);
    }
  }

  // ---- An end that had received something ----

  lemma GotSomething(x: End) returns (k: nat)
    requires x.Valid() && !Untouched(x) && x.sendSerial == 0
    ensures 1 <= k && Got(x, k)
  {
    if x.receiveSerial > 0 {
      k := 1;
    } else {
      var i :| 0 <= i < |x.receiveBuffer| && x.receiveBuffer[i].Some?;
      k := SerialInSlot(x, i);
    }
  }

  /** The end at `s` has handed out messages 1 to j in order, and all of them are acked. */
  ghost predicate CaughtUp(y: System, b: System, s: Side, j: nat) {
    var x, z := b.At(s), b.At(s.Other());
    && b.Valid() && y.net <= b.net
    && x.id == y.At(s).id && x.selfId == Some(z.id) && x.receiveBuffer == Empty(x.bufferSize)
    && z.id == y.At(s.Other()).id
    && x.receiveSerial == j == z.sendAckSerial
  }

  lemma CatchUpOne(y: System, b: System, s: Side, j: nat, p: Payload)
    requires CaughtUp(y, b, s, j)
    requires Packet(s, Data(Some(y.At(s).id), j + 1, p)) in y.net
    ensures var data := Deliver(Packet(s, Data(Some(y.At(s).id), j + 1, p)));
      var ack := Deliver(Packet(s.Other(), Ack(Some(y.At(s.Other()).id), j + 1)));
      Enabled(b, data) && Enabled(Next(b, data), ack) && CaughtUp(y, Next(Next(b, data), ack), s, j + 1)
  {
    var data := Deliver(Packet(s, Data(Some(y.At(s).id), j + 1, p)));
    var x := b.At(s);
    var x' := x.(receiveSerial := j + 1, received := x.received + [p]);
    assert x'.Slot(j + 2).None?;
    assert Receive(x, j + 1, p) == Drain(x') == x';
    var ack := Packet(s.Other(), Ack(Some(y.At(s.Other()).id), j + 1));
    PacketsAdded(b, s, Reaction(x, data), ack);
  }

  lemma {:induction false} CatchUp(y: System, z: End, s: Side, j: nat, window: nat) returns (run: seq<Action>)
    requires y.Valid() && CaughtUp(y, y, s, 0) && j <= |z.sent|
    requires forall k: nat | 1 <= k <= j :: DataPacket(z, s.Other(), y.At(s).id, k) in y.net
    ensures SessionRun(y, run, window) && CaughtUp(y, After(y, run), s, j)
  {
    if j == 0 {
      run := [];
    } else {
      run := CatchUp(y, z, s, j - 1, window);
      var b := After(y, run);
      assert DataPacket(z, s.Other(), y.At(s).id, j) in y.net;
      CatchUpOne(y, b, s, j - 1, z.sent[j - 1]);
      run := One(y, run, Deliver(DataPacket(z, s.Other(), y.At(s).id, j)), window);
      run := One(y, run, Deliver(Packet(s.Other(), Ack(Some(y.At(s.Other()).id), j))), window);
    }
  }

  /** What the reset leaves on the network for an end that had got message `k`. */
  lemma LeftBehind(y: System, s: Side, window: nat, k: nat)
    requires y.Valid() && Flow(y, s.Other(), window) && 1 <= k && Got(y.At(s), k)
    ensures var x, z := y.At(s), y.At(s.Other());
      && k <= |z.sent| && z.sendAckSerial <= x.receiveSerial
      && Packet(s.Other(), Ack(Some(z.id), k)) in y.net
      && forall j: nat | 1 <= j < k :: DataPacket(z, s.Other(), x.id, j) in y.net
  {
    var x := y.At(s);
    assert k <= x.receiveSerial || Holds(x, x.receiveSerial + 2, k);
  }

  lemma StartsOver(y: System, a: Action)
    requires Handshake.Inv(y) && Enabled(y, a) && Resets(y, a) && y.At(Actor(a).Other()).sendAckSerial == 0
    ensures var y' := Next(y, a); CaughtUp(y', y', Actor(a), 0) && y'.At(Actor(a).Other()) == y.At(Actor(a).Other())
    ensures y.net <= Next(y, a).net && Next(y, a).At(Actor(a)).id == y.At(Actor(a)).id
  {
    assert Handshake.Proper(y, Actor(a).Other(), a.packet.message);
  }

  /** From there, its peer can be told that message `k` arrived before it does. */
  lemma AckedTooEarly(y: System, s: Side, z: End, k: nat, window: nat)
    requires y.Valid() && CaughtUp(y, y, s, 0) && 1 <= k <= |z.sent|
    requires Packet(s.Other(), Ack(Some(y.At(s.Other()).id), k)) in y.net
    requires forall j: nat | 1 <= j < k :: DataPacket(z, s.Other(), y.At(s).id, j) in y.net
    ensures !Delivers(y, window)
  {
    var run := CatchUp(y, z, s, k - 1, window);
    run := One(y, run, Deliver(Packet(s.Other(), Ack(Some(y.At(s.Other()).id), k))), window);
    NotInOrder(y, run, s.Other(), window);
  }

  /** An old ack tells its peer that a message arrived which the reset made it forget. */
  lemma ResetOfReceiver(y: System, a: Action, window: nat)
    requires SessionInv(y, window) && Enabled(y, a) && Resets(y, a)
    requires !Untouched(y.At(Actor(a))) && y.At(Actor(a)).sendSerial == 0
    ensures !Delivers(Next(y, a), window)
  {
    var s := Actor(a);
    var k := GotSomething(y.At(s));
    LeftBehind(y, s, window, k);
    if y.At(s.Other()).sendAckSerial > 0 {
      assert SessionRun(Next(y, a), [], window);
      NotInOrder(Next(y, a), [], s.Other(), window);
    } else {
      StartsOver(y, a);
      AckedTooEarly(Next(y, a), s, y.At(s.Other()), k, window);
    }
  }
}
