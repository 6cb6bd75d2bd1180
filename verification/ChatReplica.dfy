/**
 * One client on one TCP connection to the server, beside any number of others: requests and replies
 * travel in two FIFO channels. The client signs in, takes a snapshot of the names and polls.
 */
module ChatReplica {
  import opened Options
  import opened ChatLog
  import opened ChatService
  import opened ChatClient

  /** A reply under way; `at` records how long the log was when the server sent it. */
  datatype Sent = Sent(reply: Reply, at: nat)

  /** A request of this client under way. */
  datatype Ask = AskSignIn(name: string) | AskAllClients | AskMessages(userId: int, messageSerial: int)

  /** `snapshot` records the length of the log behind the last snapshot the client took. */
  datatype System = System(server: Server, client: Client, up: seq<Ask>, down: seq<Sent>, snapshot: Option<nat>)

  datatype Action =
    | OthersAsk(request: Request)
    | Connect(name: string)
    | PollNow
    | ServerTakes(now: int, order: seq<int>)
    | ClientTakes

  function AsRequest(a: Ask, now: int, order: seq<int>): Request {
    match a
    case AskSignIn(name) => Request(SignIn, [StrArg(name)], now, order)
    case AskAllClients => Request(GetAllClients, [], now, order)
    case AskMessages(userId, serial) => Request(GetMessages, [IntArg(userId), IntArg(serial)], now, order)
  }

  function Post(replies: seq<Reply>, at: nat): (r: seq<Sent>)
    ensures |r| == |replies| && forall i | 0 <= i < |r| :: r[i] == Sent(replies[i], at)
  {
    seq(|replies|, i requires 0 <= i < |replies| => Sent(replies[i], at))
  }

  ghost predicate Enabled(y: System, a: Action, c: Config) {
    match a
    case OthersAsk(r) => Servable(y.server, r, c)
    case Connect(_) => true
    case PollNow => y.client.userId.Some? && y.snapshot.Some?
    case ServerTakes(now, order) => y.up != [] && Servable(y.server, AsRequest(y.up[0], now, order), c)
    case ClientTakes => y.down != []
  }

  function Next(y: System, a: Action, c: Config): System
    requires Enabled(y, a, c)
  {
    match a
    case OthersAsk(r) => y.(server := Handle(y.server, r, c).server)
    case Connect(name) => y.(up := y.up + [AskSignIn(name)])
    case PollNow => y.(up := y.up + [AskMessages(y.client.userId.value, y.client.messageSerial)])
    case ServerTakes(now, order) =>
      var result := Handle(y.server, AsRequest(y.up[0], now, order), c);
      y.(server := result.server, up := y.up[1..], down := y.down + Post(result.replies, |y.server.log|))
    case ClientTakes =>
      var sent := y.down[0];
      y.(client := OnReply(y.client, sent.reply), down := y.down[1..],
         snapshot := if sent.reply.AllClients? then Some(sent.at) else y.snapshot,
         up := if sent.reply.SignInComplete? then y.up + [AskAllClients] else y.up)
  }

  /** The state in which the client's program begins; the server may have been running for any time. */
  ghost predicate Initial(y: System) {
    ChatService.Inv(y.server) && y.client == NewClient() && y.up == [] && y.down == [] && y.snapshot.None?
  }

  // ---- The stream of replies still under way ----

  function Snap(n: Option<nat>): nat {
    if n.Some? then n.value else 0
  }

  /** After message `k`, a reply that has not yet reached the snapshot goes on with the next message. */
  function Mid(k: nat, n: nat): Option<nat> {
    if k + 1 < n then Some(k + 1) else None
  }

  /**
   * The replies under way make sense to a client whose snapshot covers the first `n` messages, who
   * has seen serials below `seen`, and who is in the middle of a reply at `mid` if that is given.
   */
  ghost predicate Stream(down: seq<Sent>, mid: Option<nat>, n: nat, seen: nat, log: seq<Entry>)
    decreases |down|
  {
    if down == [] then mid.None? && n <= |log| && seen <= Max(1, |log|) else
      match down[0].reply
      case SignInComplete(_) => mid.None? && Stream(down[1..], None, n, seen, log)
      case AllClients(names) =>
        && mid.None? && 1 <= down[0].at <= |log| && seen <= down[0].at && n <= down[0].at
        && names == Replay(map[], log[..down[0].at])
        && Stream(down[1..], None, down[0].at, seen, log)
      case Queued(e) =>
        var k := e.body.serial;
        && 0 <= k < |log| && e == log[k]
        && (mid.Some? ==> k == mid.value)
        && Stream(down[1..], Mid(k, n), n, Max(seen, k + 1), log)
  }

  /** Room for any further replies at the end of a stream. */
  ghost predicate Continues(tail: seq<Sent>, log: seq<Entry>) {
    forall n: nat, seen: nat | n <= |log| && seen <= Max(1, |log|) :: Stream(tail, None, n, seen, log)
  }

  lemma {:induction false} StreamConcat(down: seq<Sent>, tail: seq<Sent>, mid: Option<nat>, n: nat, seen: nat,
      log: seq<Entry>)
    requires Stream(down, mid, n, seen, log) && Continues(tail, log)
    ensures Stream(down + tail, mid, n, seen, log)
    decreases |down|
  {
    if down == [] {
      assert down + tail == tail;
    } else {
      assert (down + tail)[1..] == down[1..] + tail;
      match down[0].reply
      case SignInComplete(_) => StreamConcat(down[1..], tail, None, n, seen, log);
      case AllClients(names) => StreamConcat(down[1..], tail, None, down[0].at, seen, log);
      case Queued(e) => StreamConcat(down[1..], tail, Mid(e.body.serial, n), n, Max(seen, e.body.serial + 1), log);
    }
  }

  lemma {:induction false} StreamGrows(down: seq<Sent>, mid: Option<nat>, n: nat, seen: nat, log: seq<Entry>,
      log': seq<Entry>)
    requires Stream(down, mid, n, seen, log) && log <= log'
    ensures Stream(down, mid, n, seen, log')
    decreases |down|
  {
    if down != [] {
      match down[0].reply
      case SignInComplete(_) => StreamGrows(down[1..], None, n, seen, log, log');
      case AllClients(names) =>
        assert log'[..down[0].at] == log[..down[0].at];
        StreamGrows(down[1..], None, down[0].at, seen, log, log');
      case Queued(e) => StreamGrows(down[1..], Mid(e.body.serial, n), n, Max(seen, e.body.serial + 1), log, log');
    }
  }

  /** The reply to a poll is a run of consecutive messages reaching the newest. */
  lemma {:induction false} BlockStreams(log: seq<Entry>, from: nat, at: nat, mid: Option<nat>, n: nat, seen: nat)
    requires from <= |log| && n <= |log| && seen <= Max(1, |log|)
    requires mid.Some? ==> mid.value == from < |log|
    requires forall i | 0 <= i < |log| :: log[i].Proper(i)
    ensures Stream(Post(Replies(log[from..]), at), mid, n, seen, log)
    decreases |log| - from
  {
    var block := Post(Replies(log[from..]), at);
    if from < |log| {
      assert log[from].Proper(from);
      assert block[0].reply == Queued(log[from]);
      assert block[1..] == Post(Replies(log[from + 1..]), at);
      BlockStreams(log, from + 1, at, Mid(from, n), n, Max(seen, from + 1));
    }
  }

  lemma RepliesContinue(s: Server, r: Request, c: Config)
    requires ChatService.Inv(s) && Servable(s, r, c)
    requires r.command == GetAllClients ==> |s.log| >= 1
    ensures Continues(Post(Handle(s, r, c).replies, |s.log|), s.log)
  {
    var replies := Handle(s, r, c).replies;
    var tail := Post(replies, |s.log|);
    forall n: nat, seen: nat | n <= |s.log| && seen <= Max(1, |s.log|)
      ensures Stream(tail, None, n, seen, s.log)
    {
      if replies == [] {
      } else if r.command == GetMessages {
        var from := ReplyAfter(|s.log|, r.args[1].i, c.maxMessages) + 1;
        BlockStreams(s.log, from, |s.log|, None, n, seen);
      } else {
        assert tail[1..] == [];
        assert s.log[..|s.log|] == s.log;
        assert Stream([], None, n, seen, s.log) && Stream([], None, |s.log|, seen, s.log);
      }
    }
  }

  // ---- The replica ----

  /** In the middle of a reply, the names are the snapshot with the reply's part so far replayed over it. */
  ghost predicate CatchingUp(c: Client, n: nat, mid: Option<nat>, log: seq<Entry>)
    requires n <= |log|
  {
    var taken := Replay(map[], log[..n]);
    if mid.None? then c.nameMap == taken else
      && mid.value < n
      && exists j | 0 <= j <= mid.value ::
           && c.nameMap == Replay(taken, log[j..mid.value])
           && (c.messageSerial == mid.value - 1 || (c.messageSerial >= mid.value && j == mid.value))
  }

  ghost predicate InStep(c: Client, log: seq<Entry>) {
    0 <= c.messageSerial < |log| && c.nameMap == Replay(map[], log[..c.messageSerial + 1])
  }

  ghost predicate ReplicaInv(c: Client, snapshot: Option<nat>, mid: Option<nat>, log: seq<Entry>) {
    snapshot.Some? ==>
      && 1 <= snapshot.value <= |log|
      && if c.messageSerial >= snapshot.value - 1 then InStep(c, log) else CatchingUp(c, snapshot.value, mid, log)
  }

  ghost predicate Inv(y: System, mid: Option<nat>) {
    && ChatService.Inv(y.server)
    && 0 <= y.client.messageSerial
    && Stream(y.down, mid, Snap(y.snapshot), y.client.messageSerial + 1, y.server.log)
    && ReplicaInv(y.client, y.snapshot, mid, y.server.log)
    && (WillAskForAll(y) ==> |y.server.log| >= 1)
  }

  /** A sign-in has been served, and the request it leads to is still to be served. */
  ghost predicate WillAskForAll(y: System) {
    AskAllClients in y.up || exists i | 0 <= i < |y.down| :: y.down[i].reply.SignInComplete?
  }

  /** The next reply does not jump over a message that is past both the snapshot and the cursor. */
  predicate NoSkip(y: System) {
    y.down != [] && y.down[0].reply.Queued? ==>
      y.down[0].reply.entry.body.serial <= Max(y.client.messageSerial + 1, Snap(y.snapshot))
  }

  lemma ReplicaGrows(c: Client, snapshot: Option<nat>, mid: Option<nat>, log: seq<Entry>, log': seq<Entry>)
    requires ReplicaInv(c, snapshot, mid, log) && log <= log'
    ensures ReplicaInv(c, snapshot, mid, log')
  {
    if snapshot.Some? {
      var n := snapshot.value;
      assert log'[..n] == log[..n];
      if c.messageSerial >= n - 1 {
        assert log'[..c.messageSerial + 1] == log[..c.messageSerial + 1];
      } else if mid.Some? {
        assert forall j | 0 <= j <= mid.value :: log'[j..mid.value] == log[j..mid.value];
      }
    }
  }

  lemma TakesSignIn(c: Client, id: int, snapshot: Option<nat>, mid: Option<nat>, log: seq<Entry>)
    requires ReplicaInv(c, snapshot, mid, log)
    ensures ReplicaInv(OnReply(c, SignInComplete(id)), snapshot, mid, log)
  {
    var c' := OnReply(c, SignInComplete(id));
    assert c'.nameMap == c.nameMap && c'.messageSerial == c.messageSerial;
  }

  /** Taking the snapshot. */
  lemma TakesSnapshot(c: Client, names: Names, at: nat, log: seq<Entry>)
    requires 1 <= at <= |log| && 0 <= c.messageSerial < at && names == Replay(map[], log[..at])
    ensures ReplicaInv(OnReply(c, AllClients(names)), Some(at), None, log)
  {}

  /** Taking one queued message. */
  lemma TakesMessage(c: Client, n: nat, mid: Option<nat>, k: nat, log: seq<Entry>)
    requires 0 <= c.messageSerial && ReplicaInv(c, Some(n), mid, log)
    requires k < |log| && log[k].Proper(k) && (mid.Some? ==> mid.value == k)
    requires k <= Max(c.messageSerial + 1, n)
    ensures ReplicaInv(OnReply(c, Queued(log[k])), Some(n), Mid(k, n), log)
  {
    if c.messageSerial >= n - 1 {
      if k > c.messageSerial {
        TakesNext(c, k, log);
      }
    } else if k > c.messageSerial {
      TakesAhead(c, n, mid, k, log);
    } else if k + 1 < n {
      TakesOld(c, n, mid, k, log);
    }
  }

  lemma Effected(c: Client, e: Entry)
    requires e.body.serial > c.messageSerial
    ensures var c' := OnReply(c, Queued(e));
      c'.nameMap == Effect(c.nameMap, e.body) && c'.messageSerial == e.body.serial
  {}

  /** The message after the last one taken, in step. */
  lemma TakesNext(c: Client, k: nat, log: seq<Entry>)
    requires InStep(c, log) && k < |log| && log[k].Proper(k) && k == c.messageSerial + 1
    ensures InStep(OnReply(c, Queued(log[k])), log)
  {
    Effected(c, log[k]);
    ReplayNext(map[], log, 0, k);
    assert log[0..k] == log[..k] && log[0..k + 1] == log[..k + 1];
  }

  /** A message past the cursor, before the snapshot is reached. */
  lemma TakesAhead(c: Client, n: nat, mid: Option<nat>, k: nat, log: seq<Entry>)
    requires 1 <= n <= |log| && CatchingUp(c, n, mid, log) && c.messageSerial < n - 1
    requires k < |log| && log[k].Proper(k) && (mid.Some? ==> mid.value == k) && c.messageSerial < k <= n
    ensures ReplicaInv(OnReply(c, Queued(log[k])), Some(n), Mid(k, n), log)
  {
    var c', taken := OnReply(c, Queued(log[k])), Replay(map[], log[..n]);
    Effected(c, log[k]);
    if mid.Some? {
      var j: nat :| 0 <= j <= k && c.nameMap == Replay(taken, log[j..k])
        && (c.messageSerial == k - 1 || (c.messageSerial >= k && j == k));
      Ahead(c', n, taken, j, k, log, c.nameMap);
    } else {
      assert log[k..k] == [];
      Ahead(c', n, taken, k, k, log, c.nameMap);
    }
  }

  lemma Ahead(c: Client, n: nat, taken: Names, j: nat, k: nat, log: seq<Entry>, before: Names)
    requires 1 <= n <= |log| && taken == Replay(map[], log[..n]) && j <= k <= n && k < |log|
    requires before == Replay(taken, log[j..k])
    requires c.nameMap == Effect(before, log[k].body) && c.messageSerial == k
    ensures ReplicaInv(c, Some(n), Mid(k, n), log)
  {
    ReplayNext(taken, log, j, k);
    assert c.nameMap == Replay(taken, log[j..k + 1]);
    if k + 1 == n {
      assert log[..n][j..] == log[j..n];
      SuffixAgain(map[], log[..n], j);
    } else if k == n {
      CaughtUp(taken, j, n, log, before);
    }
  }

  /** The part of the log before the snapshot, replayed over the snapshot again, changes nothing. */
  lemma CaughtUp(taken: Names, j: nat, n: nat, log: seq<Entry>, before: Names)
    requires j <= n < |log| && taken == Replay(map[], log[..n]) && before == Replay(taken, log[j..n])
    ensures Effect(before, log[n].body) == Replay(map[], log[..n + 1])
  {
    assert log[..n][j..] == log[j..n];
    SuffixAgain(map[], log[..n], j);
    ReplayNext(map[], log, 0, n);
    assert log[0..n] == log[..n] && log[0..n + 1] == log[..n + 1];
  }

  /** A message that was taken before, while the snapshot is not reached. */
  lemma TakesOld(c: Client, n: nat, mid: Option<nat>, k: nat, log: seq<Entry>)
    requires 1 <= n <= |log| && CatchingUp(c, n, mid, log) && c.messageSerial < n - 1
    requires k + 1 < n && log[k].Proper(k) && (mid.Some? ==> mid.value == k) && k <= c.messageSerial
    ensures ReplicaInv(OnReply(c, Queued(log[k])), Some(n), Some(k + 1), log)
  {
    var taken := Replay(map[], log[..n]);
    if mid.Some? {
      var j: nat :| 0 <= j <= k && c.nameMap == Replay(taken, log[j..k])
        && (c.messageSerial == k - 1 || (c.messageSerial >= k && j == k));
      assert log[j..k] == [];
    }
    assert log[k + 1..k + 1] == [];
    assert c.nameMap == Replay(taken, log[k + 1..k + 1]);
  }

  lemma ReplayNext(names: Names, log: seq<Entry>, j: nat, k: nat)
    requires j <= k < |log|
    ensures Replay(names, log[j..k + 1]) == Effect(Replay(names, log[j..k]), log[k].body)
  {
    SliceNext(log, j, k);
  }

  lemma SliceNext<T>(s: seq<T>, j: nat, k: nat)
    requires j <= k < |s|
    ensures var more := s[j..k + 1]; more != [] && more[..|more| - 1] == s[j..k] && more[|more| - 1] == s[k]
  {}

  lemma MoreReplies(y: System, r: Request, c: Config, mid: Option<nat>)
    requires Inv(y, mid) && Servable(y.server, r, c) && (r.command == GetAllClients ==> |y.server.log| >= 1)
    ensures Stream(y.down + Post(Handle(y.server, r, c).replies, |y.server.log|), mid, Snap(y.snapshot),
                   y.client.messageSerial + 1, y.server.log)
  {
    var log := y.server.log;
    RepliesContinue(y.server, r, c);
    StreamConcat(y.down, Post(Handle(y.server, r, c).replies, |log|), mid, Snap(y.snapshot),
      y.client.messageSerial + 1, log);
  }

  lemma ServerStep(y: System, r: Request, y': System, c: Config, mid: Option<nat>)
    requires Inv(y, mid) && Servable(y.server, r, c)
    requires y' == y.(server := Handle(y.server, r, c).server, up := y'.up, down := y'.down)
    requires y'.down == y.down || y'.down == y.down + Post(Handle(y.server, r, c).replies, |y.server.log|)
    requires y'.down != y.down && r.command == GetAllClients ==> |y.server.log| >= 1
    requires WillAskForAll(y') ==> |y'.server.log| >= 1
    ensures Inv(y', mid)
  {
    var log, seen := y.server.log, y.client.messageSerial + 1;
    HandleInv(y.server, r, c);
    ReplicaGrows(y.client, y.snapshot, mid, log, y'.server.log);
    if y'.down != y.down {
      MoreReplies(y, r, c, mid);
    }
    StreamGrows(y'.down, mid, Snap(y.snapshot), seen, log, y'.server.log);
  }

  lemma StillAsks(y: System, a: Action, c: Config)
    requires Enabled(y, a, c) && ChatService.Inv(y.server)
    requires WillAskForAll(y) ==> |y.server.log| >= 1
    ensures WillAskForAll(Next(y, a, c)) ==> |Next(y, a, c).server.log| >= 1
    ensures a.ServerTakes? && y.up[0] == AskAllClients ==> |y.server.log| >= 1
  {
    var y' := Next(y, a, c);
    match a
    case OthersAsk(r) => HandleInv(y.server, r, c);
    case ServerTakes(now, order) => HandleInv(y.server, AsRequest(y.up[0], now, order), c);
    case ClientTakes =>
      assert forall i | 0 <= i < |y'.down| :: y'.down[i] == y.down[i + 1];
    case _ =>
  }

  lemma ClientStep(y: System, mid: Option<nat>, c: Config) returns (mid': Option<nat>)
    requires Inv(y, mid) && y.down != [] && NoSkip(y)
    ensures Inv(Next(y, ClientTakes, c), mid')
  {
    var log := y.server.log;
    var y' := Next(y, ClientTakes, c);
    mid' := mid;
    StillAsks(y, ClientTakes, c);
    assert y'.server == y.server && y'.down == y.down[1..] && y'.client == OnReply(y.client, y.down[0].reply);
    match y.down[0].reply
    case SignInComplete(id) =>
      TakesSignIn(y.client, id, y.snapshot, mid, log);
    case AllClients(names) =>
      mid' := None;
      TakesSnapshot(y.client, names, y.down[0].at, log);
    case Queued(e) =>
      var k := e.body.serial;
      mid' := Mid(k, Snap(y.snapshot));
      assert log[k].Proper(k);
      if y.snapshot.Some? {
        TakesMessage(y.client, y.snapshot.value, mid, k, log);
      }
  }

  lemma StepInv(y: System, a: Action, c: Config, mid: Option<nat>) returns (mid': Option<nat>)
    requires Inv(y, mid) && Enabled(y, a, c)
    requires a.ClientTakes? ==> NoSkip(y)
    ensures Inv(Next(y, a, c), mid')
  {
    mid' := mid;
    StillAsks(y, a, c);
    match a
    case OthersAsk(r) => ServerStep(y, r, Next(y, a, c), c, mid);
    case ServerTakes(now, order) => ServerStep(y, AsRequest(y.up[0], now, order), Next(y, a, c), c, mid);
    case ClientTakes => mid' := ClientStep(y, mid, c);
    case _ =>
  }

  // ---- The main results ----

  ghost predicate Legal(y: System, run: seq<Action>, c: Config)
    decreases |run|
  {
    run != [] ==> Enabled(y, run[0], c) && Legal(Next(y, run[0], c), run[1..], c)
  }

  ghost function After(y: System, run: seq<Action>, c: Config): System
    requires Legal(y, run, c)
    decreases |run|
  {
    if run == [] then y else After(Next(y, run[0], c), run[1..], c)
  }

  ghost predicate NeverSkips(y: System, run: seq<Action>, c: Config)
    requires Legal(y, run, c)
    decreases |run|
  {
    run != [] ==> (run[0].ClientTakes? ==> NoSkip(y)) && NeverSkips(Next(y, run[0], c), run[1..], c)
  }

  lemma {:induction false} RunInv(y: System, run: seq<Action>, c: Config, mid: Option<nat>) returns (mid': Option<nat>)
    requires Inv(y, mid) && Legal(y, run, c) && NeverSkips(y, run, c)
    ensures Inv(After(y, run, c), mid')
    decreases |run|
  {
    if run == [] {
      mid' := mid;
    } else {
      var m := StepInv(y, run[0], c, mid);
      mid' := RunInv(Next(y, run[0], c), run[1..], c, m);
    }
  }

  /**
   * Convergence: a client that has taken message k at or past its snapshot has the very names the
   * server had after its first k + 1 messages, whatever other clients did and however polls
   * overlapped; with the newest message taken, it has the server's names.
   */
  lemma ReplicaConverges(y: System, run: seq<Action>, c: Config)
    requires Initial(y) && Legal(y, run, c) && NeverSkips(y, run, c)
    ensures var z := After(y, run, c);
      z.snapshot.Some? && z.client.messageSerial >= z.snapshot.value - 1 ==>
        && z.client.messageSerial < |z.server.log|
        && z.client.nameMap == Replay(map[], z.server.log[..z.client.messageSerial + 1])
        && (z.client.messageSerial == |z.server.log| - 1 ==> z.client.nameMap == z.server.names)
  {
    var mid := RunInv(y, run, c, None);
    var z := After(y, run, c);
    assert z.server.log[..|z.server.log|] == z.server.log;
  }

  // ---- When no reply skips ----

  /** The last message that the client has seen or that its snapshot covers. */
  function Floor(y: System): int {
    ChatService.Max(y.client.messageSerial, Snap(y.snapshot) - 1)
  }

  function Raised(reply: Sent, floor: int): int {
    match reply.reply
    case SignInComplete(_) => floor
    case AllClients(_) => ChatService.Max(floor, reply.at - 1)
    case Queued(e) => ChatService.Max(floor, e.body.serial)
  }

  /** Where the floor will be once the replies under way are taken. */
  function EndFloor(down: seq<Sent>, floor: int): int {
    if down == [] then floor else EndFloor(down[1..], Raised(down[0], floor))
  }

  /** None of the replies under way will skip a message past the floor. */
  predicate Gapless(down: seq<Sent>, floor: int) {
    down != [] ==>
      && (down[0].reply.Queued? ==> down[0].reply.entry.body.serial <= floor + 1)
      && Gapless(down[1..], Raised(down[0], floor))
  }

  lemma {:induction false} GaplessConcat(down: seq<Sent>, tail: seq<Sent>, floor: int)
    ensures Gapless(down + tail, floor) <==> Gapless(down, floor) && Gapless(tail, EndFloor(down, floor))
    ensures EndFloor(down + tail, floor) == EndFloor(tail, EndFloor(down, floor))
    decreases |down|
  {
    if down == [] {
      assert down + tail == tail;
    } else {
      assert (down + tail)[1..] == down[1..] + tail;
      GaplessConcat(down[1..], tail, Raised(down[0], floor));
    }
  }

  lemma {:induction false} FloorRises(down: seq<Sent>, floor: int)
    ensures EndFloor(down, floor) >= floor
    decreases |down|
  {
    if down != [] {
      FloorRises(down[1..], Raised(down[0], floor));
    }
  }

  /** A run of consecutive messages skips at its first one or nowhere. */
  lemma {:induction false} GaplessBlock(log: seq<Entry>, from: nat, at: nat, floor: int)
    requires from <= |log| && forall i | 0 <= i < |log| :: log[i].Proper(i)
    ensures Gapless(Post(Replies(log[from..]), at), floor) <==> from == |log| || from <= floor + 1
    decreases |log| - from
  {
    var block := Post(Replies(log[from..]), at);
    if from < |log| {
      assert log[from].Proper(from);
      assert block[0].reply == Queued(log[from]);
      assert block[1..] == Post(Replies(log[from + 1..]), at);
      GaplessBlock(log, from + 1, at, ChatService.Max(floor, from));
    }
  }

  /** A client that has or will have the messages up to `floor` lacks more than an answer may hold. */
  predicate LeavesOut(logged: nat, floor: int, c: Config) {
    1 <= c.maxMessages && logged - floor > c.maxMessages + 1
  }

  /** That is exactly when an answer starts past the next message, whichever message before it is asked from. */
  lemma AnswerSkipsIff(s: Server, userId: int, serial: nat, floor: int, now: int, order: seq<int>, c: Config)
    requires ChatService.Inv(s) && Servable(s, AsRequest(AskMessages(userId, serial), now, order), c)
    requires serial <= floor
    ensures var replies := Handle(s, AsRequest(AskMessages(userId, serial), now, order), c).replies;
      LeavesOut(|s.log|, floor, c) <==>
        replies != [] && replies[0].Queued? && replies[0].entry.body.serial > floor + 1
  {
    var first := ReplyAfter(|s.log|, serial, c.maxMessages) + 1;
    if first < |s.log| {
      assert s.log[first].Proper(first);
    }
  }

  /**
   * The action does not make the server leave something out that this client will lack when it comes
   * to take the answer. What the client has seen or its snapshot covers counts as there, and so does
   * what is under way.
   */
  predicate Whole(y: System, a: Action, c: Config) {
    a.ServerTakes? && y.up != [] && y.up[0].AskMessages? ==>
      !LeavesOut(|y.server.log|, EndFloor(y.down, Floor(y)), c)
  }

  /** It is enough that no more is lacking at the time, counted from the poll's number or the snapshot. */
  lemma EnoughIsWhole(y: System, a: Action, c: Config)
    requires AsksBehind(y)
    requires a.ServerTakes? && y.up != [] && y.up[0].AskMessages? ==>
      !LeavesOut(|y.server.log|, ChatService.Max(y.up[0].messageSerial, Snap(y.snapshot) - 1), c)
    ensures Whole(y, a, c)
  {
    FloorRises(y.down, Floor(y));
    assert y.up != [] ==> y.up[0] in y.up;
  }

  /** No poll under way asks from past the floor that the replies under way lead to. */
  predicate AsksBehind(y: System) {
    forall a | a in y.up && a.AskMessages? :: 0 <= a.messageSerial <= EndFloor(y.down, Floor(y))
  }

  /** The answer to a request of this client skips exactly when it leaves something out. */
  lemma AnswerGapless(s: Server, ask: Ask, now: int, order: seq<int>, floor: int, c: Config)
    requires ChatService.Inv(s) && Servable(s, AsRequest(ask, now, order), c)
    requires ask.AskMessages? ==> 0 <= ask.messageSerial <= floor
    ensures Gapless(Post(Handle(s, AsRequest(ask, now, order), c).replies, |s.log|), floor) <==>
      (ask.AskMessages? ==> !LeavesOut(|s.log|, floor, c))
  {
    var tail := Post(Handle(s, AsRequest(ask, now, order), c).replies, |s.log|);
    if tail == [] {
    } else if ask.AskMessages? {
      GaplessBlock(s.log, ReplyAfter(|s.log|, ask.messageSerial, c.maxMessages) + 1, |s.log|, floor);
    } else {
      assert tail[1..] == [];
    }
  }

  /** Taking a reply raises the floor as expected. */
  lemma FloorAfter(y: System, mid: Option<nat>, c: Config)
    requires Inv(y, mid) && y.down != []
    ensures Floor(Next(y, ClientTakes, c)) == Raised(y.down[0], Floor(y))
  {
    match y.down[0].reply
    case Queued(e) => assert e == y.server.log[e.body.serial];
    case _ =>
  }

  lemma GaplessServer(y: System, a: Action, c: Config)
    requires Enabled(y, a, c) && ChatService.Inv(y.server) && AsksBehind(y) && a.ServerTakes?
    ensures var y' := Next(y, a, c);
      && AsksBehind(y')
      && (Gapless(y'.down, Floor(y')) <==> Gapless(y.down, Floor(y)) && Whole(y, a, c))
  {
    var y', floor := Next(y, a, c), Floor(y);
    var tail := Post(Handle(y.server, AsRequest(y.up[0], a.now, a.order), c).replies, |y.server.log|);
    assert y.up[0] in y.up && y'.down == y.down + tail && Floor(y') == floor;
    GaplessConcat(y.down, tail, floor);
    FloorRises(tail, EndFloor(y.down, floor));
    AnswerGapless(y.server, y.up[0], a.now, a.order, EndFloor(y.down, floor), c);
  }

  lemma GaplessStep(y: System, a: Action, c: Config, mid: Option<nat>)
    requires Inv(y, mid) && AsksBehind(y) && Enabled(y, a, c)
    ensures var y' := Next(y, a, c);
      && AsksBehind(y')
      && (Gapless(y.down, Floor(y)) && Whole(y, a, c) <==>
           (a.ClientTakes? ==> NoSkip(y)) && Gapless(y'.down, Floor(y')))
  {
    match a
    case ServerTakes(_, _) => GaplessServer(y, a, c);
    case PollNow => FloorRises(y.down, Floor(y));
    case ClientTakes => FloorAfter(y, mid, c);
    case _ =>
  }

  ghost predicate AllWhole(y: System, run: seq<Action>, c: Config)
    requires Legal(y, run, c)
    decreases |run|
  {
    run != [] ==> Whole(y, run[0], c) && AllWhole(Next(y, run[0], c), run[1..], c)
  }

  /** Nothing was skipped in the run, and nothing will be by what is under way at its end. */
  ghost predicate NoGap(y: System, run: seq<Action>, c: Config)
    requires Legal(y, run, c)
  {
    NeverSkips(y, run, c) && Gapless(After(y, run, c).down, Floor(After(y, run, c)))
  }

  lemma {:induction false} WholeIffNoGap(y: System, run: seq<Action>, c: Config, mid: Option<nat>)
    requires Inv(y, mid) && AsksBehind(y) && Legal(y, run, c)
    ensures NoGap(y, run, c) <==> Gapless(y.down, Floor(y)) && AllWhole(y, run, c)
    decreases |run|
  {
    if run != [] {
      var y' := Next(y, run[0], c);
      GaplessStep(y, run[0], c, mid);
      if run[0].ClientTakes? ==> NoSkip(y) {
        var mid' := StepInv(y, run[0], c, mid);
        WholeIffNoGap(y', run[1..], c, mid');
        assert NoGap(y, run, c) <==> NoGap(y', run[1..], c);
      }
    }
  }

  /** A run skips nothing, and leaves nothing under way that will, if and only if all answers are whole. */
  lemma WholeRunNeverSkips(y: System, run: seq<Action>, c: Config)
    requires Initial(y) && Legal(y, run, c)
    ensures NoGap(y, run, c) <==> AllWhole(y, run, c)
  {
    WholeIffNoGap(y, run, c, None);
  }

  /** A server that leaves nothing out that the client will lack gets it to converge. */
  lemma WholeRunConverges(y: System, run: seq<Action>, c: Config)
    requires Initial(y) && Legal(y, run, c) && AllWhole(y, run, c)
    ensures var z := After(y, run, c);
      z.snapshot.Some? && z.client.messageSerial >= z.snapshot.value - 1 ==>
        && z.client.messageSerial < |z.server.log|
        && z.client.nameMap == Replay(map[], z.server.log[..z.client.messageSerial + 1])
        && (z.client.messageSerial == |z.server.log| - 1 ==> z.client.nameMap == z.server.names)
  {
    WholeRunNeverSkips(y, run, c);
    ReplicaConverges(y, run, c);
  }

  // ---- What a skip does ----

  /** The client takes messages `from` to `to - 1`. */
  function Takes(c: Client, log: seq<Entry>, from: nat, to: nat): Client
    requires from <= to <= |log|
  {
    if from == to then c else OnReply(Takes(c, log, from, to - 1), Queued(log[to - 1]))
  }

  lemma {:induction false} TakesReplays(c: Client, log: seq<Entry>, from: nat, to: nat)
    requires c.messageSerial < from <= to <= |log| && forall i | 0 <= i < |log| :: log[i].Proper(i)
    ensures var c' := Takes(c, log, from, to);
      && c'.nameMap == Replay(c.nameMap, log[from..to])
      && c'.messageSerial == if from == to then c.messageSerial else to - 1
  {
    if from < to {
      TakesReplays(c, log, from, to - 1);
      assert log[to - 1].Proper(to - 1);
      Effected(Takes(c, log, from, to - 1), log[to - 1]);
      ReplayNext(c.nameMap, log, from, to - 1);
    }
  }

  /** Messages up to `to - 1`, of which the later ones are replayed over some other names. */
  lemma ReplayedOver(names: Names, log: seq<Entry>, from: nat, to: nat)
    requires from <= to <= |log|
    ensures Replay(names, log[from..to]) == Replay(map[], log[..to]) <==>
      forall id :: Touches(log[from..to], id) || Agree(names, Replay(map[], log[..from]), id)
  {
    assert log[..to] == log[..from] + log[from..to];
    ReplayConcat(map[], log[..from], log[from..to]);
    ReplaysAgreeIff(names, Replay(map[], log[..from]), log[from..to]);
  }

  /**
   * What a skip does, exactly, to any client, whether it has reached its snapshot, was in step or has
   * skipped before: with messages `from` to `to - 1` taken it is in step if and only if each name in
   * which it differed from the replay of all messages before `from` is changed by one of those. So a
   * name that is wrong stays wrong until the next change to it.
   */
  lemma InStepAfterSkipIff(c: Client, log: seq<Entry>, from: nat, to: nat)
    requires c.messageSerial < from < to <= |log|
    requires forall i | 0 <= i < |log| :: log[i].Proper(i)
    ensures InStep(Takes(c, log, from, to), log) <==>
      forall id :: Touches(log[from..to], id) || Agree(c.nameMap, Replay(map[], log[..from]), id)
  {
    TakesReplays(c, log, from, to);
    ReplayedOver(c.nameMap, log, from, to);
  }

  /** For a single message: it differed in no name but the one that the message changes. */
  lemma TakesAfterSkipIff(c: Client, log: seq<Entry>, k: nat)
    requires c.messageSerial < k < |log|
    requires forall i | 0 <= i < |log| :: log[i].Proper(i)
    ensures InStep(OnReply(c, Queued(log[k])), log) <==>
      forall id | !log[k].Changes(id) :: Agree(c.nameMap, Replay(map[], log[..k]), id)
  {
    InStepAfterSkipIff(c, log, k, k + 1);
    assert Takes(c, log, k, k + 1) == OnReply(Takes(c, log, k, k), Queued(log[k]));
    assert log[k..k + 1] == [log[k]];
    forall id ensures Touches(log[k..k + 1], id) <==> log[k].Changes(id) {
      assert log[k..k + 1][0] == log[k];
    }
  }

  // ---- A skip that does harm ----

  lemma {:induction false} Then(y: System, run: seq<Action>, a: Action, c: Config)
    requires Legal(y, run, c) && Enabled(After(y, run, c), a, c)
    ensures Legal(y, run + [a], c) && After(y, run + [a], c) == Next(After(y, run, c), a, c)
    decreases |run|
  {
    if run == [] {
      assert (run + [a])[1..] == [];
    } else {
      assert (run + [a])[1..] == run[1..] + [a];
      Then(Next(y, run[0], c), run[1..], a, c);
    }
  }

  /** A sign-in and a snapshot, on a fresh server. */
  lemma Joins(c: Config) returns (y: System, run: seq<Action>)
    requires c.maxMessages <= RING_SIZE
    ensures Initial(y) && Legal(y, run, c)
    ensures var z := After(y, run, c);
      && z.client == NewClient().(userId := Some(1), nameMap := map[1 := "ann"])
      && z.server == Server(1, [Entry(ChangeClient, ChangeBody(0, Add, 1, "ann"))], map[1 := "ann"], map[], [])
      && z.up == [] && z.down == [] && z.snapshot == Some(1)
  {
    y := System(Start(), NewClient(), [], [], None);
    run := [];
    Then(y, run, Connect("ann"), c);
    run := run + [Connect("ann")];
    Then(y, run, ServerTakes(0, []), c);
    run := run + [ServerTakes(0, [])];
    Then(y, run, ClientTakes, c);
    run := run + [ClientTakes];
    Then(y, run, ServerTakes(0, []), c);
    run := run + [ServerTakes(0, [])];
    Then(y, run, ClientTakes, c);
    run := run + [ClientTakes];
  }

  /** The first entry of the client that joined, that of another one, and chat messages from then on. */
  ghost predicate Talk(s: Server) {
    && s.names == map[1 := "ann", 2 := "bob"] && s.pings == map[] && |s.log| >= 2
    && forall i | 2 <= i < |s.log| :: s.log[i] == Entry(Receive, ChatBody(i, []))
  }

  /** The client has its snapshot and then nothing arrives while others act. */
  ghost predicate Waiting(y: System) {
    y == System(y.server, NewClient().(userId := Some(1), nameMap := map[1 := "ann"]), [], [], Some(1))
  }

  /** Another client signs in and sends `n` messages, unheard so far. */
  lemma {:induction false} OthersTalk(n: nat, c: Config) returns (y: System, run: seq<Action>)
    requires c.maxMessages <= RING_SIZE
    ensures Initial(y) && Legal(y, run, c)
    ensures var z := After(y, run, c); Waiting(z) && Talk(z.server) && |z.server.log| == n + 2
  {
    if n == 0 {
      y, run := Joins(c);
      var bob := OthersAsk(Request(SignIn, [StrArg("bob")], 0, []));
      Then(y, run, bob, c);
      run := run + [bob];
    } else {
      y, run := OthersTalk(n - 1, c);
      var chat := OthersAsk(Request(SendMessage, [], 0, []));
      Then(y, run, chat, c);
      run := run + [chat];
    }
  }

  /** The server's answer to a poll from the beginning when it may send all but one of the new messages. */
  lemma CutAnswer(s: Server, c: Config)
    requires Talk(s) && 1 <= c.maxMessages <= RING_SIZE && 0 < c.timeout && |s.log| == c.maxMessages + 2
    ensures var r := AsRequest(AskMessages(1, 0), 0, [1]);
      Servable(s, r, c) && Handle(s, r, c) == Result(s.(pings := map[1 := 0]), Replies(s.log[2..]))
  {
    var pinged := s.(pings := map[1 := 0]);
    assert [1][..0] == [] && Sweep(pinged, [], -c.timeout) == pinged;
    assert Sweep(pinged, [1], -c.timeout) == Visit(pinged, 1, -c.timeout) == pinged;
  }

  /** The client takes chat messages until none is left, and its names stay as they are. */
  lemma {:induction false} TakesChats(y: System, run: seq<Action>, c: Config, from: nat) returns (run': seq<Action>)
    requires Legal(y, run, c)
    requires var z := After(y, run, c);
      && z.client.messageSerial < from <= |z.server.log|
      && z.down == Post(Replies(z.server.log[from..]), |z.server.log|)
      && forall i | from <= i < |z.server.log| :: z.server.log[i] == Entry(Receive, ChatBody(i, []))
    ensures Legal(y, run', c)
    ensures var z, z' := After(y, run, c), After(y, run', c);
      && z'.server == z.server && z'.snapshot == z.snapshot && z'.down == []
      && z'.client.nameMap == z.client.nameMap
      && z'.client.messageSerial == if from < |z.server.log| then |z.server.log| - 1 else z.client.messageSerial
    decreases |After(y, run, c).server.log| - from
  {
    var z := After(y, run, c);
    run' := run;
    if from < |z.server.log| {
      assert z.down[0].reply == Queued(z.server.log[from]);
      Then(y, run, ClientTakes, c);
      assert z.down[1..] == Post(Replies(z.server.log[from + 1..]), |z.server.log|);
      run' := TakesChats(y, run + [ClientTakes], c, from + 1);
    }
  }

  /** The poll and the answer to it. */
  lemma PollsOnce(y: System, run: seq<Action>, c: Config) returns (run': seq<Action>)
    requires Legal(y, run, c) && 1 <= c.maxMessages <= RING_SIZE && 0 < c.timeout
    requires var z := After(y, run, c); Waiting(z) && Talk(z.server) && |z.server.log| == c.maxMessages + 2
    ensures Legal(y, run', c)
    ensures var z, z' := After(y, run, c), After(y, run', c);
      && z'.server.log == z.server.log && z'.server.names == z.server.names
      && z'.client == z.client && z'.snapshot == z.snapshot
      && z'.down == Post(Replies(z.server.log[2..]), |z.server.log|)
  {
    var s := After(y, run, c).server;
    CutAnswer(s, c);
    Then(y, run, PollNow, c);
    run' := run + [PollNow];
    assert After(y, run', c).up == [AskMessages(1, 0)];
    Then(y, run', ServerTakes(0, [1]), c);
    run' := run' + [ServerTakes(0, [1])];
    assert [] + Post(Replies(s.log[2..]), |s.log|) == Post(Replies(s.log[2..]), |s.log|);
  }

  /**
   * The bound is sharp: for every limit of an answer, asking for one message more lets a client take
   * every message it is sent up to the newest, and lack a name that the server holds.
   */
  lemma SkippingDiverges(c: Config) returns (y: System, run: seq<Action>)
    requires 1 <= c.maxMessages <= RING_SIZE && 0 < c.timeout
    ensures Initial(y) && Legal(y, run, c)
    ensures var z := After(y, run, c);
      && |z.server.log| == c.maxMessages + 2 && z.down == []
      && z.snapshot == Some(1) && z.client.messageSerial == |z.server.log| - 1
      && z.client.nameMap == map[1 := "ann"] && z.server.names == map[1 := "ann", 2 := "bob"]
  {
    y, run := OthersTalk(c.maxMessages, c);
    run := PollsOnce(y, run, c);
    run := TakesChats(y, run, c, 2);
  }
}
