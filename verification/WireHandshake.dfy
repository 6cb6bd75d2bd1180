/** What every run keeps about connecting, over all actions of both ends. */
module WireHandshake {
  import opened Options
  import opened WireEnd
  import opened WireNetwork

  ghost predicate Initial(y: System) {
    y.Valid() && y.net == {} && NotYet(y.left) && NotYet(y.right)
  }

  ghost predicate NotYet(e: End) {
    (e.MayConnect() || e.MayAccept()) && e.selfId.None? && e.timers == []
  }

  /** A message from the end at `s` says only what the handshake lets it say. */
  ghost predicate Proper(y: System, s: Side, m: Message) {
    var me, peer := y.At(s), y.At(s.Other());
    match m
    case Request(from) => from == me.id
    case Accept(to, from) =>
      && to == Some(peer.id) == me.selfId && from == me.id
      && Packet(s, Request(peer.id)) in y.net
    case Confirm(to) =>
      && to == Some(peer.id) == me.selfId && peer.selfId == Some(me.id)
      && Packet(s, Accept(Some(me.id), peer.id)) in y.net
    case _ => true
  }

  ghost predicate EndInv(y: System, s: Side) {
    var me, peer := y.At(s), y.At(s.Other());
    && (me.selfId.Some? ==> me.selfId == Some(peer.id))
    && (me.connection == Connected ==> me.selfId.Some? && peer.selfId.Some?)
    && (forall t | t in me.timers :: Packet(s.Other(), t.message) in y.net)
    && (forall p | p in y.net && p.dest == s.Other() :: Proper(y, s, p.message))
  }

  ghost predicate Inv(y: System) {
    y.Valid() && EndInv(y, Left) && EndInv(y, Right)
  }

  lemma InitialInv(y: System)
    requires Initial(y)
    ensures Inv(y)
  {}

  /** Identifiers learned are never forgotten, so what was proper to say stays proper. */
  ghost predicate Grows(y: System, y': System) {
    && y.net <= y'.net
    && forall s :: y'.At(s).id == y.At(s).id && (y.At(s).selfId.Some? ==> y'.At(s).selfId == y.At(s).selfId)
  }

  /** The two messages whose arrival connects an end. */
  predicate Connects(e: End, a: Action, peerId: int) {
    a.Deliver? && (a.packet.message == Accept(Some(e.id), peerId) || a.packet.message == Confirm(Some(e.id)))
  }

  /** What a reaction may change of the state the handshake depends on. */
  lemma ReactionFrame(e: End, a: Action, peerId: int)
    requires e.Valid() && (a.DoFire? ==> a.timer < |e.timers|)
    requires e.selfId.Some? ==> e.selfId == Some(peerId)
    requires a.Deliver? && a.packet.message.Request? ==> a.packet.message.from == peerId
    requires a.Deliver? && a.packet.message.Accept? ==> a.packet.message.from == peerId
    ensures var f := Reaction(e, a);
      && f.end.Valid() && f.end.id == e.id
      && (f.end.selfId.Some? ==> f.end.selfId == Some(peerId))
      && (e.selfId.Some? ==> f.end.selfId == e.selfId)
      && (forall t | t in f.end.timers :: t in e.timers || t.message in f.out)
      && (f.end.connection == Connected ==> e.connection == Connected || Connects(e, a, peerId))
  {
    if a.Deliver? && a.packet.message.Data? {
      ReceiveFrame(e, a.packet.message.serial, a.packet.message.payload);
    }
  }

  lemma NextGrows(y: System, a: Action)
    requires Inv(y) && Enabled(y, a)
    ensures Grows(y, Next(y, a))
  {
    var s := Actor(a);
    ReactionFrame(y.At(s), a, y.At(s.Other()).id);
  }

  lemma SaysProper(y: System, a: Action, m: Message)
    requires Inv(y) && Enabled(y, a)
    requires m in Reaction(y.At(Actor(a)), a).out
    ensures Proper(Next(y, a), Actor(a), m)
  {
    var s := Actor(a);
    NextGrows(y, a);
    if a.Deliver? {
      assert Proper(y, s.Other(), a.packet.message);
    } else if a.DoFire? {
      assert Packet(s.Other(), m) in y.net;
      assert Proper(y, s, m);
    }
  }

  lemma ActorStep(y: System, a: Action)
    requires Inv(y) && Enabled(y, a)
    ensures EndInv(Next(y, a), Actor(a))
  {
    var s := Actor(a);
    var y' := Next(y, a);
    NextGrows(y, a);
    ReactionFrame(y.At(s), a, y.At(s.Other()).id);
    if a.Deliver? {
      assert Proper(y, s.Other(), a.packet.message);
    }
    forall p { PacketsAdded(y, s, Reaction(y.At(s), a), p); }
    forall p | p in y'.net && p.dest == s.Other() ensures Proper(y', s, p.message) {
      if p in y.net {
        assert Proper(y, s, p.message);
      } else {
        SaysProper(y, a, p.message);
      }
    }
  }

  lemma PeerStep(y: System, a: Action)
    requires Inv(y) && Enabled(y, a)
    ensures EndInv(Next(y, a), Actor(a).Other())
  {
    var s := Actor(a);
    var y' := Next(y, a);
    NextGrows(y, a);
    forall p | p in y'.net && p.dest == s ensures Proper(y', s.Other(), p.message) {
      PacketsAdded(y, s, Reaction(y.At(s), a), p);
      assert Proper(y, s.Other(), p.message);
    }
  }

  lemma StepInv(y: System, a: Action)
    requires Inv(y) && Enabled(y, a)
    ensures Inv(Next(y, a))
  {
    ActorStep(y, a);
    PeerStep(y, a);
    assert Actor(a) == Left || Actor(a).Other() == Left;
  }

  /** The invariant holds in every reachable state. */
  lemma {:induction false} RunInv(y: System, run: seq<Action>)
    requires Inv(y) && Legal(y, run)
    ensures Inv(After(y, run))
    decreases |run|
  {
    if run != [] {
      RunInv(y, run[..|run| - 1]);
      StepInv(After(y, run[..|run| - 1]), run[|run| - 1]);
    }
  }

  lemma {:induction false} RunGrows(y: System, run: seq<Action>, n: nat)
    requires Inv(y) && Legal(y, run) && n <= |run| && Legal(y, run[..n])
    ensures Grows(After(y, run[..n]), After(y, run))
    decreases |run|
  {
    if n == |run| {
      assert run[..n] == run;
    } else {
      var before := run[..|run| - 1];
      assert before[..n] == run[..n];
      RunGrows(y, before, n);
      RunInv(y, before);
      NextGrows(After(y, before), run[|run| - 1]);
    }
  }

  lemma NewConfirm(b: System, a: Action, s: Side, to: Option<int>)
    requires Inv(b) && Enabled(b, a)
    requires Packet(s.Other(), Confirm(to)) !in b.net && Packet(s.Other(), Confirm(to)) in Next(b, a).net
    ensures Next(b, a).At(s).connection == Connected
  {
    PacketsAdded(b, Actor(a), Reaction(b.At(Actor(a)), a), Packet(s.Other(), Confirm(to)));
  }

  /** A Confirm is on the network only if its sender has been connected. */
  lemma {:induction false} ConfirmMeansConnected(y: System, run: seq<Action>, s: Side, to: Option<int>) returns (n: nat)
    requires Initial(y) && Legal(y, run) && Packet(s.Other(), Confirm(to)) in After(y, run).net
    ensures n <= |run| && Legal(y, run[..n]) && After(y, run[..n]).At(s).connection == Connected
    decreases |run|
  {
    var before, a := run[..|run| - 1], run[|run| - 1];
    var b := After(y, before);
    InitialInv(y);
    RunInv(y, before);
    if Packet(s.Other(), Confirm(to)) in b.net {
      n := ConfirmMeansConnected(y, before, s, to);
      assert before[..n] == run[..n];
    } else {
      NewConfirm(b, a, s, to);
      n := |run|;
      assert run[..n] == run;
    }
  }

  /**
   * Agreement: while either end is connected, each end knows the other by its identifier, in this
   * and in every later state of the run.
   */
  lemma ConnectedEndsAgree(y: System, run: seq<Action>, n: nat, s: Side)
    requires Initial(y) && Legal(y, run) && n <= |run| && Legal(y, run[..n])
    requires After(y, run[..n]).At(s).connection == Connected
    ensures forall t: Side :: After(y, run).At(t).selfId == Some(y.At(t.Other()).id)
  {
    InitialInv(y);
    RunInv(y, run[..n]);
    RunGrows(y, run, n);
    IdsKept(y, run[..n]);
    ConnectedKnow(After(y, run[..n]), s);
  }

  lemma ConnectedKnow(y: System, s: Side)
    requires Inv(y) && y.At(s).connection == Connected
    ensures forall t: Side :: y.At(t).selfId == Some(y.At(t.Other()).id)
  {
    forall t: Side ensures y.At(t).selfId == Some(y.At(t.Other()).id) {
      assert t == s || t == s.Other();
    }
  }

  lemma IdsKept(y: System, run: seq<Action>)
    requires Inv(y) && Legal(y, run)
    ensures forall t: Side :: After(y, run).At(t).id == y.At(t).id
  {
    assert run[..0] == [];
    RunGrows(y, run, 0);
  }

  lemma NoRequestStep(b: System, a: Action, s: Side, from: int)
    requires Inv(b) && Enabled(b, a) && a != DoConnect(s)
    requires Packet(s.Other(), Request(from)) !in b.net
    ensures Packet(s.Other(), Request(from)) !in Next(b, a).net
  {
    PacketsAdded(b, Actor(a), Reaction(b.At(Actor(a)), a), Packet(s.Other(), Request(from)));
    if a.DoFire? && Actor(a) == s {
      assert Packet(s.Other(), b.At(s).timers[a.timer].message) in b.net;
    }
  }

  lemma {:induction false} NoRequest(y: System, run: seq<Action>, s: Side, from: int)
    requires Initial(y) && Legal(y, run)
    requires forall i | 0 <= i < |run| :: run[i] != DoConnect(s)
    ensures Packet(s.Other(), Request(from)) !in After(y, run).net
    decreases |run|
  {
    if run != [] {
      var before := run[..|run| - 1];
      NoRequest(y, before, s, from);
      InitialInv(y);
      RunInv(y, before);
      NoRequestStep(After(y, before), run[|run| - 1], s, from);
    }
  }

  /** An end that never asked is connected by a Confirm only. */
  lemma ConnectedByConfirm(b: System, a: Action, s: Side)
    requires Inv(b) && Enabled(b, a)
    requires b.At(s).connection != Connected && Next(b, a).At(s).connection == Connected
    requires Packet(s.Other(), Request(b.At(s).id)) !in b.net
    ensures a.Deliver? && a.packet in b.net && a.packet == Packet(s, Confirm(Some(b.At(s).id)))
  {
    assert Actor(a) == s;
    if a.Deliver? {
      assert Proper(b, s.Other(), a.packet.message);
    }
    ReactionFrame(b.At(s), a, b.At(s.Other()).id);
    assert Connects(b.At(s), a, b.At(s.Other()).id);
  }

  lemma JustConnected(y: System, before: seq<Action>, b: System, a: Action, s: Side)
    requires Initial(y) && Legal(y, before) && b == After(y, before) && Enabled(b, a)
    requires forall i | 0 <= i < |before| :: before[i] != DoConnect(s)
    requires b.At(s).connection != Connected && Next(b, a).At(s).connection == Connected
    ensures a.Deliver? && a.packet in b.net && a.packet == Packet(s, Confirm(Some(b.At(s).id)))
  {
    InitialInv(y);
    RunInv(y, before);
    NoRequest(y, before, s, b.At(s).id);
    ConnectedByConfirm(b, a, s);
  }

  /** An end that never asked to connect is connected only after the other end has been. */
  lemma {:induction false} ResponderConnectsSecond(y: System, run: seq<Action>, s: Side) returns (n: nat)
    requires Initial(y) && Legal(y, run)
    requires After(y, run).At(s).connection == Connected
    requires forall i | 0 <= i < |run| :: run[i] != DoConnect(s)
    ensures n <= |run| && Legal(y, run[..n]) && After(y, run[..n]).At(s.Other()).connection == Connected
    decreases |run|
  {
    var before, a := run[..|run| - 1], run[|run| - 1];
    var b := After(y, before);
    if b.At(s).connection == Connected {
      n := ResponderConnectsSecond(y, before, s);
    } else {
      JustConnected(y, before, b, a, s);
      n := ConfirmMeansConnected(y, before, s.Other(), a.packet.message.to);
    }
    assert before[..n] == run[..n];
  }
}
