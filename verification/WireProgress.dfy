/**
 * That things get on: what a due retry job does, and that by resending alone everything is
 * delivered, whatever the network has lost; connecting, hanging up and being idle.
 */
module WireProgress {
  import opened Options
  import opened WireEnd
  import opened WireNetwork
  import opened WireSession
  import Handshake = WireHandshake

  /** The messages that a step puts on the network. */
  function Out(y: System, a: Action): seq<Message>
    requires y.Valid() && Enabled(y, a)
  {
    Reaction(y.At(Actor(a)), a).out
  }

  /** The run has put the packet on the network, again or for the first time. */
  ghost predicate PutOut(y: System, run: seq<Action>, p: Packet)
    requires y.Valid() && Legal(y, run)
    decreases |run|
  {
    run != [] &&
      var before, a := run[..|run| - 1], run[|run| - 1];
      PutOut(y, before, p) || (p.dest == Actor(a).Other() && p.message in Out(After(y, before), a))
  }

  /** The run delivers only what it has put out itself: all that was under way before may be lost. */
  ghost predicate SelfSupplied(y: System, run: seq<Action>)
    requires y.Valid() && Legal(y, run)
    decreases |run|
  {
    run != [] ==>
      var before, a := run[..|run| - 1], run[|run| - 1];
      SelfSupplied(y, before) && (a.Deliver? ==> PutOut(y, before, a.packet))
  }

  lemma Extend(y: System, run: seq<Action>, a: Action) returns (run': seq<Action>)
    requires y.Valid() && Legal(y, run) && Enabled(After(y, run), a)
    ensures run' == run + [a] && Legal(y, run') && After(y, run') == Next(After(y, run), a)
    ensures SelfSupplied(y, run') <==> SelfSupplied(y, run) && (a.Deliver? ==> PutOut(y, run, a.packet))
    ensures forall m | m in Out(After(y, run), a) :: PutOut(y, run', Packet(Actor(a).Other(), m))
  {
    run' := run + [a];
    assert run'[..|run'| - 1] == run;
  }

  // ---- Retry jobs ----

  /** The job's message is still to be sent again. */
  predicate Wanted(e: End, t: Retry) {
    match t.keepGoing
    case WhileState(awaited) => e.connection == awaited
    case WhileUnacked(serial) => e.sendAckSerial < serial
  }

  /**
   * A due job with retries left sends its message again, and is scheduled with one retry more, if
   * that is still wanted; otherwise it goes without a word. Without retries left the connection fails.
   */
  lemma DueJob(y: System, s: Side, i: nat)
    requires y.Valid() && i < |y.At(s).timers|
    ensures var e, t, e' := y.At(s), y.At(s).timers[i], Next(y, DoFire(s, i)).At(s);
      var without := e.timers[..i] + e.timers[i + 1..];
      if t.retries >= e.maxRetries then
        Out(y, DoFire(s, i)) == [] && e' == e.(timers := without, connection := FailureTimeout)
      else if Wanted(e, t) then
        Out(y, DoFire(s, i)) == [t.message] && e' == e.(timers := e.timers[i := t.(retries := t.retries + 1)])
      else
        Out(y, DoFire(s, i)) == [] && e' == e.(timers := without)
    ensures Next(y, DoFire(s, i)).At(s.Other()) == y.At(s.Other())
  {}

  /** Job `i` carries message `k` until it is acked. */
  predicate Carries(e: End, peerId: int, k: nat, i: nat)
    requires i < |e.timers| && 1 <= k <= |e.sent|
  {
    e.timers[i].message == Data(Some(peerId), k, e.sent[k - 1]) && e.timers[i].keepGoing == WhileUnacked(k)
  }

  ghost predicate HasJob(e: End, peerId: int, k: nat)
    requires 1 <= k <= |e.sent|
  {
    exists i: nat :: i < |e.timers| && Carries(e, peerId, k, i)
  }

  /** A connected end has a job for every un-acked message. */
  ghost predicate Jobs(e: End, peerId: int) {
    && |e.sent| == e.sendSerial
    && (e.connection == Connected ==> forall k: nat | e.sendAckSerial < k <= e.sendSerial :: HasJob(e, peerId, k))
  }

  lemma JobMoves(e: End, e': End, peerId: int, k: nat, i: nat, j: nat)
    requires 1 <= k <= |e.sent| && i < |e.timers| && j < |e'.timers| && e.sent <= e'.sent
    requires Carries(e, peerId, k, i)
    requires e'.timers[j].message == e.timers[i].message && e'.timers[j].keepGoing == e.timers[i].keepGoing
    ensures HasJob(e', peerId, k)
  {
    assert e'.sent[k - 1] == e.sent[k - 1];
    assert Carries(e', peerId, k, j);
  }

  /** Jobs are only added to the end of the list. */
  lemma JobsGrow(e: End, e': End, peerId: int)
    requires Jobs(e, peerId) && e.timers <= e'.timers && e'.sent == e.sent && e'.sendSerial == e.sendSerial
    requires e'.connection == Connected ==> e.connection == Connected
    requires e.sendAckSerial <= e'.sendAckSerial
    ensures Jobs(e', peerId)
  {
    if e'.connection == Connected {
      forall k: nat | e'.sendAckSerial < k <= e'.sendSerial ensures HasJob(e', peerId, k) {
        assert HasJob(e, peerId, k);
        var i: nat :| i < |e.timers| && Carries(e, peerId, k, i);
        JobMoves(e, e', peerId, k, i, i);
      }
    }
  }

  lemma JobsSend(e: End, peerId: int, p: Payload)
    requires e.Valid() && Jobs(e, peerId) && e.connection == Connected && e.selfId == Some(peerId)
    ensures Jobs(SendMsg(e, p).end, peerId)
  {
    var e' := SendMsg(e, p).end;
    forall k: nat | e'.sendAckSerial < k <= e'.sendSerial ensures HasJob(e', peerId, k) {
      if k <= e.sendSerial {
        assert HasJob(e, peerId, k);
        var i: nat :| i < |e.timers| && Carries(e, peerId, k, i);
        JobMoves(e, e', peerId, k, i, i);
      } else {
        assert Carries(e', peerId, k, |e.timers|);
      }
    }
  }

  lemma JobsFire(y: System, s: Side, j: nat, peerId: int)
    requires y.Valid() && j < |y.At(s).timers| && Jobs(y.At(s), peerId)
    ensures Jobs(Next(y, DoFire(s, j)).At(s), peerId)
  {
    DueJob(y, s, j);
    var e, e' := y.At(s), Next(y, DoFire(s, j)).At(s);
    if e'.connection == Connected {
      forall k: nat | e'.sendAckSerial < k <= e'.sendSerial ensures HasJob(e', peerId, k) {
        assert HasJob(e, peerId, k);
        var i: nat :| i < |e.timers| && Carries(e, peerId, k, i);
        JobMoves(e, e', peerId, k, i, if i <= j || Wanted(e, e.timers[j]) then i else i - 1);
      }
    }
  }

  /** What the other actions do to jobs and to the sending half. */
  lemma OtherActions(e: End, a: Action)
    requires e.Valid() && !a.DoFire? && !ResetBy(e, a) && (a.DoSend? ==> e.connection != Connected)
    ensures var r := Reaction(e, a).end;
      && e.timers <= r.timers && r.sent == e.sent && r.sendSerial == e.sendSerial
      && e.sendAckSerial <= r.sendAckSerial && (r.connection == Connected ==> e.connection == Connected)
  {
    if a.Deliver? && a.packet.message.Data? {
      ReceiveFrame(e, a.packet.message.serial, a.packet.message.payload);
    }
  }

  lemma JobsStep(y: System, a: Action, s: Side)
    requires Handshake.Inv(y) && Enabled(y, a) && Jobs(y.At(s), y.At(s.Other()).id)
    ensures Jobs(Next(y, a).At(s), y.At(s.Other()).id)
  {
    var e, peerId := y.At(s), y.At(s.Other()).id;
    if Actor(a) != s || ResetBy(e, a) {
    } else if a.DoFire? {
      JobsFire(y, s, a.timer, peerId);
    } else if a.DoSend? && e.connection == Connected {
      JobsSend(e, peerId, a.payload);
    } else {
      OtherActions(e, a);
      JobsGrow(e, Reaction(e, a).end, peerId);
    }
  }

  /** In every run a connected end has a job for each of its un-acked messages. */
  lemma {:induction false} JobsRun(y: System, run: seq<Action>, s: Side)
    requires Handshake.Inv(y) && Legal(y, run) && Jobs(y.At(s), y.At(s.Other()).id)
    ensures Jobs(After(y, run).At(s), After(y, run).At(s.Other()).id)
    decreases |run|
  {
    if run != [] {
      var before, a := run[..|run| - 1], run[|run| - 1];
      JobsRun(y, before, s);
      Handshake.RunInv(y, before);
      Handshake.NextGrows(After(y, before), a);
      JobsStep(After(y, before), a, s);
    }
  }

  // ---- Resending is enough ----

  /** Every un-acked message has a job with retries left. */
  ghost predicate LiveJobs(e: End, peerId: int) {
    && |e.sent| == e.sendSerial
    && forall k: nat | e.sendAckSerial < k <= e.sendSerial :: HasLiveJob(e, peerId, k)
  }

  ghost predicate HasLiveJob(e: End, peerId: int, k: nat)
    requires 1 <= k <= |e.sent|
  {
    exists i: nat :: i < |e.timers| && Carries(e, peerId, k, i) && e.timers[i].retries < e.maxRetries
  }

  /** Nothing but the job of message `k`, and the ack of `k`, has changed. */
  lemma StillLive(e: End, e': End, peerId: int, k: nat, j: nat)
    requires LiveJobs(e, peerId) && e.sendAckSerial + 1 == k <= e.sendSerial && j < |e.timers|
      && Carries(e, peerId, k, j)
    requires e'.timers == e.timers[j := e.timers[j].(retries := e.timers[j].retries + 1)]
    requires e'.sent == e.sent && e'.sendSerial == e.sendSerial && e'.sendAckSerial == k
      && e'.maxRetries == e.maxRetries
    ensures LiveJobs(e', peerId)
  {
    forall h: nat | e'.sendAckSerial < h <= e'.sendSerial ensures HasLiveJob(e', peerId, h) {
      assert HasLiveJob(e, peerId, h);
      var i: nat :| i < |e.timers| && Carries(e, peerId, h, i) && e.timers[i].retries < e.maxRetries;
      assert Carries(e', peerId, h, i);
    }
  }

  lemma FireStep(y: System, s: Side, i: nat, k: nat, peerId: int)
    requires y.Valid() && i < |y.At(s).timers| && 1 <= k <= |y.At(s).sent|
    requires Carries(y.At(s), peerId, k, i) && y.At(s).timers[i].retries < y.At(s).maxRetries
    requires y.At(s).sendAckSerial < k
    ensures var x, y' := y.At(s), Next(y, DoFire(s, i));
      && y'.At(s) == x.(timers := x.timers[i := x.timers[i].(retries := x.timers[i].retries + 1)])
      && y'.At(s.Other()) == y.At(s.Other()) && y.net <= y'.net
      && Out(y, DoFire(s, i)) == [Data(Some(peerId), k, x.sent[k - 1])]
  {
    DueJob(y, s, i);
  }

  /** Whether it has the message or not, an end acks it. */
  lemma DataStep(y: System, s: Side, k: nat, p: Payload)
    requires y.Valid() && Packet(s, Data(Some(y.At(s).id), k, p)) in y.net
    ensures var data := Deliver(Packet(s, Data(Some(y.At(s).id), k, p)));
      && Out(y, data) == [Ack(y.At(s).selfId, k)]
      && Next(y, data).At(s.Other()) == y.At(s.Other()) && Next(y, data).At(s).id == y.At(s).id
      && Packet(s.Other(), Ack(y.At(s).selfId, k)) in Next(y, data).net
  {
    var data := Deliver(Packet(s, Data(Some(y.At(s).id), k, p)));
    ReceiveFrame(y.At(s), k, p);
    PacketsAdded(y, s, Reaction(y.At(s), data), Packet(s.Other(), Ack(y.At(s).selfId, k)));
  }

  /** The next ack in order counts. */
  lemma AckStep(y: System, s: Side, k: nat)
    requires y.Valid() && Packet(s, Ack(Some(y.At(s).id), k)) in y.net && k == y.At(s).sendAckSerial + 1
    ensures var x, y' := y.At(s), Next(y, Deliver(Packet(s, Ack(Some(y.At(s).id), k))));
      && y'.At(s) == x.(sendAckSerial := k, sendBuffer := y'.At(s).sendBuffer)
      && y'.At(s.Other()) == y.At(s.Other())
  {}

  /** Job `i` has one retry more and message `k` is acked. */
  ghost predicate Resent(x: End, x': End, k: nat, i: nat) {
    && i < |x.timers|
    && x' == x.(timers := x.timers[i := x.timers[i].(retries := x.timers[i].retries + 1)], sendAckSerial := k,
                sendBuffer := x'.sendBuffer)
  }

  /** A due job sends message `k`; the message arrives, and so does its ack. */
  lemma ResendOne(y: System, s: Side, window: nat, k: nat, i: nat) returns (run: seq<Action>)
    requires SessionInv(y, window) && y.At(s).connection == Connected
    requires k == y.At(s).sendAckSerial + 1 <= y.At(s).sendSerial == |y.At(s).sent| && i < |y.At(s).timers|
    requires Carries(y.At(s), y.At(s.Other()).id, k, i) && y.At(s).timers[i].retries < y.At(s).maxRetries
    ensures Legal(y, run) && SelfSupplied(y, run) && SessionRun(y, run, window)
    ensures Resent(y.At(s), After(y, run).At(s), k, i)
    ensures After(y, run).At(s.Other()).id == y.At(s.Other()).id
  {
    var x, z := y.At(s), y.At(s.Other());
    var data, ack := Packet(s.Other(), Data(Some(z.id), k, x.sent[k - 1])), Packet(s, Ack(Some(x.id), k));
    DataThere(y, s, k, window);
    FireStep(y, s, i, k, z.id);
    var y1 := Next(y, DoFire(s, i));
    DataStep(y1, s.Other(), k, x.sent[k - 1]);
    var y2 := Next(y1, Deliver(data));
    AckStep(y2, s, k);
    run := RunThree(y, DoFire(s, i), data, ack, window);
  }

  lemma DataThere(y: System, s: Side, k: nat, window: nat)
    requires SessionInv(y, window) && 1 <= k <= y.At(s).sendSerial == |y.At(s).sent|
    ensures DataPacket(y.At(s), s, y.At(s.Other()).id, k) in y.net
    ensures y.At(s.Other()).selfId == Some(y.At(s).id)
  {
    assert Flow(y, s, window);
    assert Introduced(y);
  }

  /** Three steps, of which the second and third deliver what the ones before them put out. */
  lemma RunThree(y: System, a: Action, p: Packet, q: Packet, window: nat) returns (run: seq<Action>)
    requires y.Valid() && Enabled(y, a) && a.DoFire? && p.message.Data? && q.message.Ack?
    requires p.dest == Actor(a).Other() && p.message in Out(y, a) && p in Next(y, a).net
    requires q.dest == p.dest.Other() && q.message in Out(Next(y, a), Deliver(p))
      && q in Next(Next(y, a), Deliver(p)).net
    ensures Legal(y, run) && SelfSupplied(y, run) && SessionRun(y, run, window)
    ensures After(y, run) == Next(Next(Next(y, a), Deliver(p)), Deliver(q))
  {
    assert SessionRun(y, [], window) && SelfSupplied(y, []);
    run := ExtendSession(y, [], a, window);
    run := ExtendSession(y, run, Deliver(p), window);
    run := ExtendSession(y, run, Deliver(q), window);
  }

  lemma ExtendSession(y: System, run: seq<Action>, a: Action, window: nat) returns (run': seq<Action>)
    requires y.Valid() && SessionRun(y, run, window) && SelfSupplied(y, run)
    requires Enabled(After(y, run), a) && InSession(After(y, run), a, window)
      && (a.Deliver? ==> PutOut(y, run, a.packet))
    ensures run' == run + [a] && SessionRun(y, run', window) && SelfSupplied(y, run')
    ensures After(y, run') == Next(After(y, run), a)
    ensures forall m | m in Out(After(y, run), a) :: PutOut(y, run', Packet(Actor(a).Other(), m))
  {
    run' := Extend(y, run, a);
    assert run'[..|run'| - 1] == run;
  }

  lemma Behind(first: seq<Action>, second: seq<Action>)
    requires second != []
    ensures var all := first + second;
      all != [] && all[..|all| - 1] == first + second[..|second| - 1] && all[|all| - 1] == second[|second| - 1]
  {}

  /** Runs one after the other. */
  lemma {:induction false} ComposeRuns(y: System, first: seq<Action>, second: seq<Action>, window: nat)
    requires y.Valid() && SessionRun(y, first, window) && SessionRun(After(y, first), second, window)
    ensures SessionRun(y, first + second, window) && After(y, first + second) == After(After(y, first), second)
    decreases |second|
  {
    if second == [] {
      assert first + second == first;
    } else {
      Behind(first, second);
      ComposeRuns(y, first, second[..|second| - 1], window);
    }
  }

  lemma {:induction false} ComposeOut(y: System, first: seq<Action>, second: seq<Action>, window: nat, p: Packet)
    requires y.Valid() && SessionRun(y, first, window) && SessionRun(After(y, first), second, window)
    requires SessionRun(y, first + second, window) && PutOut(After(y, first), second, p)
    ensures PutOut(y, first + second, p)
    decreases |second|
  {
    var before := second[..|second| - 1];
    Behind(first, second);
    ComposeRuns(y, first, before, window);
    if PutOut(After(y, first), before, p) {
      ComposeOut(y, first, before, window, p);
    }
  }

  lemma {:induction false} Compose(y: System, first: seq<Action>, second: seq<Action>, window: nat)
    requires y.Valid() && SessionRun(y, first, window) && SelfSupplied(y, first)
    requires SessionRun(After(y, first), second, window) && SelfSupplied(After(y, first), second)
    ensures SessionRun(y, first + second, window) && SelfSupplied(y, first + second)
    ensures After(y, first + second) == After(After(y, first), second)
    decreases |second|
  {
    ComposeRuns(y, first, second, window);
    if second == [] {
      assert first + second == first;
    } else {
      var before, a := second[..|second| - 1], second[|second| - 1];
      Behind(first, second);
      Compose(y, first, before, window);
      if a.Deliver? {
        ComposeOut(y, first, before, window, a.packet);
      }
    }
  }

  lemma AllThere(y: System, s: Side, window: nat)
    requires SessionInv(y, window)
    ensures var x, z := y.At(s), y.At(s.Other());
      && |x.sent| == x.sendSerial && x.sendAckSerial <= x.sendSerial
      && (x.sendAckSerial == x.sendSerial ==> z.receiveSerial == x.sendSerial && z.received == x.sent)
  {
    assert Flow(y, s, window);
    assert y.At(s).sent[..|y.At(s).sent|] == y.At(s).sent;
  }

  lemma NextJob(e: End, peerId: int) returns (i: nat)
    requires LiveJobs(e, peerId) && e.sendAckSerial < e.sendSerial
    ensures i < |e.timers| && Carries(e, peerId, e.sendAckSerial + 1, i) && e.timers[i].retries < e.maxRetries
  {
    assert HasLiveJob(e, peerId, e.sendAckSerial + 1);
    i :| 0 <= i < |e.timers| && Carries(e, peerId, e.sendAckSerial + 1, i) && e.timers[i].retries < e.maxRetries;
  }

  /** Where resending starts and goes on. */
  ghost predicate Resendable(y: System, s: Side, window: nat) {
    && SessionInv(y, window) && Fits(y, window) && y.At(s).connection == Connected
    && LiveJobs(y.At(s), y.At(s.Other()).id)
  }

  lemma ResendNext(y: System, s: Side, window: nat) returns (run: seq<Action>)
    requires Resendable(y, s, window) && y.At(s).sendAckSerial < y.At(s).sendSerial
    ensures Legal(y, run) && SelfSupplied(y, run) && SessionRun(y, run, window)
    ensures var x, y' := y.At(s), After(y, run);
      && Resendable(y', s, window) && y'.At(s).sent == x.sent
      && y'.At(s).sendSerial == x.sendSerial && y'.At(s).sendAckSerial == x.sendAckSerial + 1
  {
    var x, peerId := y.At(s), y.At(s.Other()).id;
    var i := NextJob(x, peerId);
    run := ResendOne(y, s, window, x.sendAckSerial + 1, i);
    StillResendable(y, run, s, window);
    AfterResend(x, After(y, run).At(s), peerId, x.sendAckSerial + 1, i);
  }

  lemma StillResendable(y: System, run: seq<Action>, s: Side, window: nat)
    requires SessionInv(y, window) && Fits(y, window) && SessionRun(y, run, window)
    ensures SessionInv(After(y, run), window) && Fits(After(y, run), window)
  {
    SessionRunInv(y, run, window);
  }

  lemma AfterResend(x: End, x': End, peerId: int, k: nat, i: nat)
    requires LiveJobs(x, peerId) && x.sendAckSerial + 1 == k <= x.sendSerial && Resent(x, x', k, i)
    requires Carries(x, peerId, k, i)
    ensures LiveJobs(x', peerId) && x'.sent == x.sent && x'.sendSerial == x.sendSerial && x'.connection == x.connection
    ensures x'.sendAckSerial == x.sendAckSerial + 1
  {
    StillLive(x, x', peerId, k, i);
  }

  /**
   * Resending is enough: from every state of a session, even if all that is under way is lost, an
   * end whose un-acked messages have retries left gets them all delivered and acked by its retry
   * jobs alone.
   */
  lemma {:induction false} ResendingDelivers(y: System, s: Side, window: nat) returns (run: seq<Action>)
    requires Resendable(y, s, window)
    ensures Legal(y, run) && SelfSupplied(y, run) && SessionRun(y, run, window)
    ensures var x, z := After(y, run).At(s), After(y, run).At(s.Other());
      && x.sent == y.At(s).sent && x.sendAckSerial == x.sendSerial == z.receiveSerial && z.received == x.sent
    decreases y.At(s).sendSerial - y.At(s).sendAckSerial
  {
    AllThere(y, s, window);
    if y.At(s).sendAckSerial == y.At(s).sendSerial {
      run := [];
    } else {
      var first := ResendNext(y, s, window);
      AllThere(After(y, first), s, window);
      var second := ResendingDelivers(After(y, first), s, window);
      Compose(y, first, second, window);
      run := first + second;
    }
  }

  // ---- Connecting ----

  lemma AskStep(y: System, s: Side)
    requires y.Valid() && y.At(s).MayConnect()
    ensures var y', m := Next(y, DoConnect(s)), Request(y.At(s).id);
      && Out(y, DoConnect(s)) == [m] && Packet(s.Other(), m) in y'.net
      && y'.At(s).id == y.At(s).id && y'.At(s).bufferSize == y.At(s).bufferSize && y'.At(s.Other()) == y.At(s.Other())
  {
    PacketsAdded(y, s, Reaction(y.At(s), DoConnect(s)), Packet(s.Other(), Request(y.At(s).id)));
  }

  lemma AnswerStep(y: System, s: Side, from: int)
    requires y.Valid() && y.At(s).MayAccept() && Packet(s, Request(from)) in y.net
    ensures var a := Deliver(Packet(s, Request(from)));
      var y', m := Next(y, a), Accept(Some(from), y.At(s).id);
      && Out(y, a) == [m] && Packet(s.Other(), m) in y'.net
      && y'.At(s).id == y.At(s).id && y'.At(s).selfId == Some(from) && y'.At(s.Other()) == y.At(s.Other())
  {
    var a := Deliver(Packet(s, Request(from)));
    PacketsAdded(y, s, Reaction(y.At(s), a), Packet(s.Other(), Accept(Some(from), y.At(s).id)));
  }

  lemma AcceptStep(y: System, s: Side, from: int)
    requires y.Valid() && Packet(s, Accept(Some(y.At(s).id), from)) in y.net
    ensures var a := Deliver(Packet(s, Accept(Some(y.At(s).id), from)));
      var y' := Next(y, a);
      && Out(y, a) == [Confirm(Some(from))] && Packet(s.Other(), Confirm(Some(from))) in y'.net
      && y'.At(s) == ChangeState(y.At(s).(selfId := Some(from)), Connected) && y'.At(s.Other()) == y.At(s.Other())
  {
    var a := Deliver(Packet(s, Accept(Some(y.At(s).id), from)));
    PacketsAdded(y, s, Reaction(y.At(s), a), Packet(s.Other(), Confirm(Some(from))));
  }

  lemma ConfirmStep(y: System, s: Side)
    requires y.Valid() && Packet(s, Confirm(Some(y.At(s).id))) in y.net
    ensures var y' := Next(y, Deliver(Packet(s, Confirm(Some(y.At(s).id)))));
      y'.At(s) == ChangeState(y.At(s), Connected) && y'.At(s.Other()) == y.At(s.Other())
  {}

  lemma Supplied(y: System, run: seq<Action>, a: Action, m: Message) returns (run': seq<Action>)
    requires y.Valid() && Legal(y, run) && SelfSupplied(y, run) && Enabled(After(y, run), a)
    requires (a.Deliver? ==> PutOut(y, run, a.packet)) && m in Out(After(y, run), a)
    ensures Legal(y, run') && After(y, run') == Next(After(y, run), a)
    ensures SelfSupplied(y, run') && PutOut(y, run', Packet(Actor(a).Other(), m))
  {
    run' := Extend(y, run, a);
  }

  ghost predicate Joined(e: End, peerId: int) {
    e.connection == Connected && e.selfId == Some(peerId) && FreshEnd(e)
  }

  /** From the states in which the ends may ask and answer, they come to be connected anew. */
  lemma Connecting(y: System, s: Side) returns (run: seq<Action>)
    requires y.Valid()
    requires var c := y.At(s).connection; c == NeverConnected || c == Disconnected || c == FailureTimeout
    requires var c := y.At(s.Other()).connection; c == NeverConnected || c == Knocking || c == Disconnected
    ensures Legal(y, run) && SelfSupplied(y, run)
    ensures Joined(After(y, run).At(s), y.At(s.Other()).id) && Joined(After(y, run).At(s.Other()), y.At(s).id)
  {
    var x, z := y.At(s).id, y.At(s.Other()).id;
    run := Supplied(y, [], DoConnect(s), Request(x));
    AskStep(y, s);
    AnswerStep(After(y, run), s.Other(), x);
    run := Supplied(y, run, Deliver(Packet(s.Other(), Request(x))), Accept(Some(x), z));
    run := Confirming(y, run, s, x, z);
  }

  lemma Confirming(y: System, run: seq<Action>, s: Side, x: int, z: int) returns (run': seq<Action>)
    requires y.Valid() && Legal(y, run) && SelfSupplied(y, run)
    requires PutOut(y, run, Packet(s, Accept(Some(x), z))) && Packet(s, Accept(Some(x), z)) in After(y, run).net
    requires After(y, run).At(s).id == x
    requires After(y, run).At(s.Other()).id == z && After(y, run).At(s.Other()).selfId == Some(x)
    ensures Legal(y, run') && SelfSupplied(y, run')
    ensures Joined(After(y, run').At(s), z) && Joined(After(y, run').At(s.Other()), x)
  {
    AcceptStep(After(y, run), s, z);
    run' := Supplied(y, run, Deliver(Packet(s, Accept(Some(x), z))), Confirm(Some(z)));
    ConfirmStep(After(y, run'), s.Other());
    run' := Extend(y, run', Deliver(Packet(s.Other(), Confirm(Some(z)))));
  }

  /** Asked to connect in any other state, an end does nothing. */
  lemma AsksIff(y: System, s: Side)
    requires y.Valid()
    ensures var c := y.At(s).connection;
      if c == NeverConnected || c == Disconnected || c == FailureTimeout then
        Out(y, DoConnect(s)) == [Request(y.At(s).id)]
      else
        Out(y, DoConnect(s)) == [] && Next(y, DoConnect(s)) == y
  {}

  /** A request is answered in three states; in the others, as for a duplicate, nothing happens. */
  lemma AnswersIff(y: System, p: Packet)
    requires y.Valid() && p in y.net && p.message.Request?
    ensures var e := y.At(p.dest);
      if e.connection == NeverConnected || e.connection == Knocking || e.connection == Disconnected then
        Out(y, Deliver(p)) == [Accept(Some(p.message.from), e.id)]
      else
        Out(y, Deliver(p)) == [] && Next(y, Deliver(p)) == y
  {}

  /** The end that a message is for, if it names one. */
  function Addressee(m: Message): Option<int> {
    match m
    case Request(_) => None
    case Accept(to, _) => to
    case Confirm(to) => to
    case Data(to, _, _) => to
    case Ack(to, _) => to
    case Disconnect(to) => to
    case DisconnectConfirm(to) => to
  }

  /** A message that is not for the end it arrives at does nothing. */
  lemma NotAddressed(y: System, p: Packet)
    requires y.Valid() && p in y.net && !p.message.Request? && Addressee(p.message) != Some(y.At(p.dest).id)
    ensures Out(y, Deliver(p)) == [] && Next(y, Deliver(p)) == y
  {
    assert y.net + (set m | m in Out(y, Deliver(p)) :: Packet(p.dest.Other(), m)) == y.net;
  }

  /** An end that is not connected sends nothing when given a message. */
  lemma SendsIfConnected(y: System, s: Side, p: Payload)
    requires y.Valid()
    ensures var e := y.At(s);
      if e.connection == Connected then Out(y, DoSend(s, p)) == [Data(e.selfId, e.sendSerial + 1, p)]
      else Out(y, DoSend(s, p)) == [] && Next(y, DoSend(s, p)) == y
  {
    if y.At(s).connection != Connected {
      assert y.net + (set m | m in Out(y, DoSend(s, p)) :: Packet(s.Other(), m)) == y.net;
    }
  }

  // ---- Hanging up ----

  lemma HangUpStep(y: System, s: Side)
    requires y.Valid()
    ensures var e, y' := y.At(s), Next(y, DoHangUp(s));
      if e.connection == Connected then
        && Out(y, DoHangUp(s)) == [Disconnect(e.selfId)] && Packet(s.Other(), Disconnect(e.selfId)) in y'.net
        && y'.At(s) == e.(connection := DisconnectRequested, timers := y'.At(s).timers)
        && y'.At(s.Other()) == y.At(s.Other())
      else
        Out(y, DoHangUp(s)) == [] && y' == y
  {
    PacketsAdded(y, s, Reaction(y.At(s), DoHangUp(s)), Packet(s.Other(), Disconnect(y.At(s).selfId)));
  }

  lemma DisconnectStep(y: System, s: Side)
    requires y.Valid() && Packet(s, Disconnect(Some(y.At(s).id))) in y.net
    ensures var a, e := Deliver(Packet(s, Disconnect(Some(y.At(s).id)))), y.At(s);
      && Out(y, a) == [DisconnectConfirm(e.selfId)] && Packet(s.Other(), DisconnectConfirm(e.selfId)) in Next(y, a).net
      && Next(y, a).At(s) == e.(connection := Disconnected) && Next(y, a).At(s.Other()) == y.At(s.Other())
  {
    var a := Deliver(Packet(s, Disconnect(Some(y.At(s).id))));
    PacketsAdded(y, s, Reaction(y.At(s), a), Packet(s.Other(), DisconnectConfirm(y.At(s).selfId)));
  }

  lemma DisconnectConfirmStep(y: System, s: Side)
    requires y.Valid() && Packet(s, DisconnectConfirm(Some(y.At(s).id))) in y.net
    ensures var y' := Next(y, Deliver(Packet(s, DisconnectConfirm(Some(y.At(s).id)))));
      y'.At(s) == y.At(s).(connection := Disconnected) && y'.At(s.Other()) == y.At(s.Other())
  {}

  /** A connected end hangs up, and both ends are disconnected with nothing else changed but a job. */
  lemma HangingUp(y: System, s: Side) returns (run: seq<Action>)
    requires Handshake.Inv(y) && y.At(s).connection == Connected
    ensures Legal(y, run) && SelfSupplied(y, run)
    ensures After(y, run).At(s) == y.At(s).(connection := Disconnected, timers := After(y, run).At(s).timers)
    ensures After(y, run).At(s.Other()) == y.At(s.Other()).(connection := Disconnected)
  {
    var x, z := y.At(s).id, y.At(s.Other()).id;
    assert y.At(s).selfId == Some(z) && y.At(s.Other()).selfId == Some(x);
    HangUpStep(y, s);
    run := Supplied(y, [], DoHangUp(s), Disconnect(Some(z)));
    DisconnectStep(After(y, run), s.Other());
    run := Supplied(y, run, Deliver(Packet(s.Other(), Disconnect(Some(z)))), DisconnectConfirm(Some(x)));
    DisconnectConfirmStep(After(y, run), s);
    run := Extend(y, run, Deliver(Packet(s, DisconnectConfirm(Some(x)))));
  }

  predicate SpeaksOfHangingUp(m: Message) {
    m.Disconnect? || m.DisconnectConfirm?
  }

  ghost predicate NotHungUp(e: End) {
    && e.connection != Disconnected && e.connection != DisconnectRequested
    && forall t | t in e.timers :: !SpeaksOfHangingUp(t.message)
  }

  ghost predicate NeverHungUp(y: System) {
    NotHungUp(y.left) && NotHungUp(y.right) && forall p | p in y.net :: !SpeaksOfHangingUp(p.message)
  }

  lemma NotHungUpBy(e: End, a: Action)
    requires e.Valid() && NotHungUp(e) && !a.DoHangUp? && (a.DoFire? ==> a.timer < |e.timers|)
    requires a.Deliver? ==> !SpeaksOfHangingUp(a.packet.message)
    ensures NotHungUp(Reaction(e, a).end) && forall m | m in Reaction(e, a).out :: !SpeaksOfHangingUp(m)
  {
    if a.Deliver? && a.packet.message.Data? {
      ReceiveFrame(e, a.packet.message.serial, a.packet.message.payload);
    }
  }

  /** No end gives up its connection in this way unless one is asked to hang up. */
  lemma {:induction false} OnlyByHangingUp(y: System, run: seq<Action>)
    requires y.Valid() && NeverHungUp(y) && Legal(y, run) && forall i | 0 <= i < |run| :: !run[i].DoHangUp?
    ensures NeverHungUp(After(y, run))
    decreases |run|
  {
    if run != [] {
      var before, a := run[..|run| - 1], run[|run| - 1];
      OnlyByHangingUp(y, before);
      NobodyHangsUp(After(y, before), a);
    }
  }

  lemma NobodyHangsUp(b: System, a: Action)
    requires b.Valid() && NeverHungUp(b) && Enabled(b, a) && !a.DoHangUp?
    ensures NeverHungUp(Next(b, a))
  {
    NotHungUpBy(b.At(Actor(a)), a);
    forall p | p in Next(b, a).net ensures !SpeaksOfHangingUp(p.message) {
      PacketsAdded(b, Actor(a), Reaction(b.At(Actor(a)), a), p);
    }
  }

  // ---- Being idle ----

  /** The end has acked message `k` of the other one. */
  predicate HasAcked(y: System, s: Side, k: nat) {
    Packet(s.Other(), Ack(Some(y.At(s.Other()).id), k)) in y.net
  }

  /**
   * An end in a session is idle exactly when it is connected or has hung up, all that it sent is
   * acked, and all that it has acked itself was handed out.
   */
  lemma IdleIff(y: System, s: Side, window: nat)
    requires SessionInv(y, window)
    ensures y.At(s).IsIdle() <==>
      && (y.At(s).connection == Connected || y.At(s).connection == Disconnected)
      && y.At(s).sendAckSerial == y.At(s).sendSerial
      && forall k: nat | 1 <= k && HasAcked(y, s, k) :: k <= |y.At(s).received|
  {
    var e := y.At(s);
    assert Flow(y, s.Other(), window);
    if forall k: nat | 1 <= k && HasAcked(y, s, k) :: k <= |e.received| {
      forall i | 0 <= i < e.bufferSize ensures e.receiveBuffer[i].None? {
        var k := SerialInSlot(e, i);
        assert Got(e, k) ==> HasAcked(y, s, k);
        assert !Holds(e, e.receiveSerial + 2, k);
      }
    } else {
      var k: nat :| 1 <= k && HasAcked(y, s, k) && k > |e.received|;
      assert Got(e, k);
    }
  }
}
