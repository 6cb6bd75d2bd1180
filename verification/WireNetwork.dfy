/**
 * Two ends over a network that loses, duplicates and reorders: `net` holds every packet ever sent,
 * and a step may deliver any of them, any number of times, or never.
 */
module WireNetwork {
  import opened WireEnd

  datatype Side = Left | Right {
    function Other(): Side {
      if this == Left then Right else Left
    }
  }

  datatype Packet = Packet(dest: Side, message: Message)

  datatype Action =
    | DoConnect(at: Side)
    | DoSend(at: Side, payload: Payload)
    | DoHangUp(at: Side)
    | DoFire(at: Side, timer: nat)
    | Deliver(packet: Packet)

  datatype System = System(left: End, right: End, net: set<Packet>) {
    predicate Valid() {
      left.Valid() && right.Valid()
    }

    function At(s: Side): End {
      if s == Left then left else right
    }

    /** The state after the end at `s` reacts and its messages enter the network. */
    function React(s: Side, f: Effect): System {
      var net' := net + set m | m in f.out :: Packet(s.Other(), m);
      if s == Left then System(f.end, right, net') else System(left, f.end, net')
    }
  }

  predicate Enabled(y: System, a: Action) {
    match a
    case DoFire(s, i) => i < |y.At(s).timers|
    case Deliver(p) => p in y.net
    case _ => true
  }

  function Actor(a: Action): Side {
    if a.Deliver? then a.packet.dest else a.at
  }

  function Reaction(e: End, a: Action): Effect
    requires e.Valid()
    requires a.DoFire? ==> a.timer < |e.timers|
  {
    match a
    case DoConnect(_) => Connect(e)
    case DoSend(_, p) => SendMsg(e, p)
    case DoHangUp(_) => HangUp(e)
    case DoFire(_, i) => Fire(e, i)
    case Deliver(p) => OnMessage(e, p.message)
  }

  function Next(y: System, a: Action): (y': System)
    requires y.Valid() && Enabled(y, a)
    ensures y'.Valid()
  {
    y.React(Actor(a), Reaction(y.At(Actor(a)), a))
  }

  ghost predicate Legal(y: System, run: seq<Action>)
    requires y.Valid()
    decreases |run|, 0
  {
    run != [] ==> Legal(y, run[..|run| - 1]) && Enabled(After(y, run[..|run| - 1]), run[|run| - 1])
  }

  /** The state a legal run ends in. */
  ghost function After(y: System, run: seq<Action>): (y': System)
    requires y.Valid() && Legal(y, run)
    ensures y'.Valid()
    decreases |run|, 1
  {
    if run == [] then y else Next(After(y, run[..|run| - 1]), run[|run| - 1])
  }

  lemma {:induction false} PrefixLegal(y: System, run: seq<Action>, n: nat)
    requires y.Valid() && Legal(y, run) && n <= |run|
    ensures Legal(y, run[..n])
    decreases |run|
  {
    if n == |run| {
      assert run[..n] == run;
    } else {
      PrefixLegal(y, run[..|run| - 1], n);
      assert run[..|run| - 1][..n] == run[..n];
    }
  }

  lemma PacketsAdded(y: System, s: Side, f: Effect, p: Packet)
    ensures p in y.React(s, f).net <==> p in y.net || (p.dest == s.Other() && p.message in f.out)
  {
    if p.dest == s.Other() && p.message in f.out {
      assert p == Packet(s.Other(), p.message);
    }
  }
}
