/**
 * The chat server with an unbounded log in place of its ring of 128 slots: what each command makes
 * of the state and which replies it sends to the requester.
 */
module ChatService {
  import opened ChatLog

  const RING_SIZE := 128

  datatype Command = SignIn | GetAllClients | GetMessages | SendMessage | ChangeName | SignOut | NotFound

  datatype Reply = SignInComplete(userID: int) | AllClients(names: Names) | Queued(entry: Entry)

  datatype Config = Config(maxMessages: int, timeout: int)

  /** `freed` lists the messages handed to lo_message_free; |log| is m_messageSerial. */
  datatype Server = Server(userSerial: nat, log: seq<Entry>, names: Names, pings: map<int, int>, freed: seq<Body>)

  datatype Result = Result(server: Server, replies: seq<Reply>)

  /** A request; `now` is the clock, `order` the order in which the sweep visits the pings. */
  datatype Request = Request(command: Command, args: seq<Arg>, now: int, order: seq<int>) {
    predicate IsPoll() {
      command == GetMessages && |args| == 2 && args[0].IntArg? && args[1].IntArg?
    }
  }

  function Start(): Server {
    Server(0, [], map[], map[], [])
  }

  /** The old occupant of the slot is freed, except that the first lap frees nothing. */
  function Queue(s: Server, path: Path, b: Body): Server {
    s.(log := s.log + [Entry(path, b)],
       freed := if |s.log| > RING_SIZE then s.freed + [s.log[|s.log| - RING_SIZE].body] else s.freed)
  }

  function QueueChange(s: Server, c: Change, id: int, name: string): Server {
    Queue(s, ChangeClient, ChangeBody(|s.log|, c, id, name))
  }

  function Max(a: int, b: int): int {
    if a < b then b else a
  }

  predicate Truncated(serial: int, messageID: int, max: int) {
    serial - messageID > max
  }

  /** The message after which a reply starts. */
  function ReplyAfter(serial: int, messageID: int, max: int): int {
    if Truncated(serial, messageID, max) then Max(0, serial - max - 1) else messageID
  }

  function Replies(log: seq<Entry>): (r: seq<Reply>)
    ensures |r| == |log| && forall i | 0 <= i < |r| :: r[i] == Queued(log[i])
  {
    seq(|log|, i requires 0 <= i < |log| => Queued(log[i]))
  }

  /** One visit of the timeout sweep. */
  function Visit(s: Server, id: int, cutTime: int): Server
    requires id in s.pings
  {
    if s.pings[id] <= cutTime then
      var s1 := if id in s.names then
          QueueChange(s, Timeout, id, s.names[id]).(names := s.names - {id})
        else s;
      s1.(pings := s.pings - {id})
    else s
  }

  predicate Distinct(order: seq<int>) {
    order != [] ==> order[|order| - 1] !in order[..|order| - 1] && Distinct(order[..|order| - 1])
  }

  function Sweep(s: Server, order: seq<int>, cutTime: int): (r: Server)
    requires Distinct(order) && forall id | id in order :: id in s.pings
    ensures forall id :: id in r.pings ==> id in s.pings
    ensures forall id :: id in s.pings && id !in order ==> id in r.pings && r.pings[id] == s.pings[id]
  {
    if order == [] then s else
      var before := order[..|order| - 1];
      Visit(Sweep(s, before, cutTime), order[|order| - 1], cutTime)
  }

  /** What the code needs of its callers: no poll may index the array below zero. */
  ghost predicate Servable(s: Server, r: Request, c: Config) {
    && c.maxMessages <= RING_SIZE
    && (r.IsPoll() ==>
         && ReplyAfter(|s.log|, r.args[1].i, c.maxMessages) >= -1
         && Distinct(r.order)
         && forall id :: id in r.order <==> id in s.pings || id == r.args[0].i)
  }

  predicate Relayable(args: seq<Arg>) {
    forall i | 0 <= i < |args| :: !args[i].OtherArg?
  }

  function Poll(s: Server, userID: int, messageID: int, now: int, order: seq<int>, c: Config): Result
    requires ReplyAfter(|s.log|, messageID, c.maxMessages) >= -1
    requires Distinct(order) && forall id :: id in order <==> id in s.pings || id == userID
  {
    var from := ReplyAfter(|s.log|, messageID, c.maxMessages) + 1;
    Result(Sweep(s.(pings := s.pings[userID := now]), order, now - c.timeout),
           if from <= |s.log| then Replies(s.log[from..]) else [])
  }

  function Handle(s: Server, r: Request, c: Config): Result
    requires Servable(s, r, c)
  {
    match r.command
    case SignIn =>
      if |r.args| != 1 || !r.args[0].StrArg? then Result(s, []) else
        var id := s.userSerial + 1;
        var s1 := QueueChange(s, Add, id, r.args[0].s);
        Result(s1.(userSerial := id, names := s.names[id := r.args[0].s]), [SignInComplete(id)])
    case GetAllClients => Result(s, [AllClients(s.names)])
    case GetMessages =>
      if !r.IsPoll() then Result(s, []) else Poll(s, r.args[0].i, r.args[1].i, r.now, r.order, c)
    case SendMessage =>
      Result(if Relayable(r.args) then Queue(s, Receive, ChatBody(|s.log|, r.args)) else s, [])
    case ChangeName =>
      if |r.args| != 2 || !r.args[0].IntArg? || !r.args[1].StrArg? then Result(s, []) else
        var s1 := QueueChange(s, Rename, r.args[0].i, r.args[1].s);
        Result(s1.(names := s.names[r.args[0].i := r.args[1].s]), [])
    case SignOut =>
      if |r.args| != 1 || !r.args[0].IntArg? || r.args[0].i !in s.names then Result(s, []) else
        var id := r.args[0].i;
        Result(QueueChange(s, Remove, id, s.names[id]).(names := s.names - {id}), [])
    case NotFound => Result(s, [])
  }

  // ---- What every reachable server state satisfies ----

  /** The freed messages: those 1, 2, ..., of which a full lap has been queued since. */
  function FreedPart(log: seq<Entry>): seq<Entry> {
    if |log| > RING_SIZE + 1 then log[1..|log| - RING_SIZE] else []
  }

  ghost predicate Inv(s: Server) {
    && (forall i | 0 <= i < |s.log| :: s.log[i].Proper(i))
    && s.names == Replay(map[], s.log)
    && |s.freed| == |FreedPart(s.log)|
    && forall i | 0 <= i < |s.freed| :: s.freed[i] == FreedPart(s.log)[i].body
  }

  lemma QueueInv(s: Server, path: Path, b: Body)
    requires Inv(s) && Entry(path, b).Proper(|s.log|)
    ensures Inv(Queue(s, path, b).(names := Effect(s.names, b)))
  {
    var log' := Queue(s, path, b).log;
    assert log'[..|log'| - 1] == s.log;
  }

  lemma {:induction false} SweepInv(s: Server, order: seq<int>, cutTime: int)
    requires Inv(s) && Distinct(order) && forall id | id in order :: id in s.pings
    ensures Inv(Sweep(s, order, cutTime))
    ensures s.log <= Sweep(s, order, cutTime).log
  {
    if order != [] {
      var before, id := order[..|order| - 1], order[|order| - 1];
      SweepInv(s, before, cutTime);
      var b := Sweep(s, before, cutTime);
      if id in b.names {
        QueueInv(b, ChangeClient, ChangeBody(|b.log|, Timeout, id, b.names[id]));
      }
    }
  }

  lemma ChangeInv(s: Server, change: Change, id: int, name: string, t: Server)
    requires Inv(s)
    requires var q := QueueChange(s, change, id, name); t.log == q.log && t.freed == q.freed
    requires t.names == Effect(s.names, ChangeBody(|s.log|, change, id, name))
    ensures Inv(t) && s.log <= t.log
  {
    QueueInv(s, ChangeClient, ChangeBody(|s.log|, change, id, name));
  }

  lemma PollInv(s: Server, r: Request, c: Config)
    requires Inv(s) && r.command == GetMessages && Servable(s, r, c)
    ensures Inv(Handle(s, r, c).server) && s.log <= Handle(s, r, c).server.log
  {
    if r.IsPoll() {
      var s1 := s.(pings := s.pings[r.args[0].i := r.now]);
      assert Inv(s1);
      SweepInv(s1, r.order, r.now - c.timeout);
    }
  }

  lemma HandleInv(s: Server, r: Request, c: Config)
    requires Inv(s) && Servable(s, r, c)
    ensures Inv(Handle(s, r, c).server) && s.log <= Handle(s, r, c).server.log
  {
    var t := Handle(s, r, c).server;
    match r.command
    case SignIn =>
      if t != s { ChangeInv(s, Add, s.userSerial + 1, r.args[0].s, t); }
    case GetMessages => PollInv(s, r, c);
    case SendMessage =>
      if t != s { QueueInv(s, Receive, ChatBody(|s.log|, r.args)); }
    case ChangeName =>
      if t != s { ChangeInv(s, Rename, r.args[0].i, r.args[1].s, t); }
    case SignOut =>
      if t != s { ChangeInv(s, Remove, r.args[0].i, s.names[r.args[0].i], t); }
    case _ =>
  }

  ghost predicate AllServable(s: Server, rs: seq<Request>, c: Config)
    decreases |rs|
  {
    rs != [] ==> Servable(s, rs[0], c) && AllServable(Handle(s, rs[0], c).server, rs[1..], c)
  }

  function Served(s: Server, rs: seq<Request>, c: Config): Server
    requires AllServable(s, rs, c)
    decreases |rs|
  {
    if rs == [] then s else Served(Handle(s, rs[0], c).server, rs[1..], c)
  }

  /**
   * Through every run of requests: the map of names is the replay of the queued changes, every
   * queued message carries its own serial, and exactly the messages 1..S-129 have been freed.
   */
  lemma {:induction false} LogExplainsState(s: Server, rs: seq<Request>, c: Config)
    requires Inv(s) && AllServable(s, rs, c)
    ensures Inv(Served(s, rs, c)) && s.log <= Served(s, rs, c).log
    decreases |rs|
  {
    if rs != [] {
      HandleInv(s, rs[0], c);
      LogExplainsState(Handle(s, rs[0], c).server, rs[1..], c);
    }
  }

  lemma StartInv()
    ensures Inv(Start())
  {}

  /** Nothing is freed twice and nothing the ring still holds is freed. */
  lemma FreedOnceAndOld(s: Server)
    requires Inv(s)
    ensures |s.freed| == Max(0, |s.log| - RING_SIZE - 1)
    ensures forall i | 0 <= i < |s.freed| :: s.freed[i].serial == i + 1 && i + 1 < |s.log| - RING_SIZE
  {
    forall i | 0 <= i < |s.freed| ensures s.freed[i].serial == i + 1 {
      assert s.log[i + 1].Proper(i + 1);
    }
  }

  /** The number of the first message in an answer. */
  function FirstSent(logged: nat, messageID: int, max: int): int {
    if logged - messageID > max then Max(messageID, Max(0, logged - max - 1)) + 1 else messageID + 1
  }

  lemma FirstIsAfter(logged: nat, messageID: int, max: int)
    requires ReplyAfter(logged, messageID, max) >= -1 && max <= RING_SIZE
    ensures FirstSent(logged, messageID, max) == ReplyAfter(logged, messageID, max) + 1 >= 0
    ensures var first := FirstSent(logged, messageID, max);
      logged - first <= Max(0, max) && (first < logged ==> logged - RING_SIZE <= first)
  {}

  lemma SerialsFrom(log: seq<Entry>, first: nat)
    requires first <= |log| && forall i | 0 <= i < |log| :: log[i].Proper(i)
    ensures var replies := Replies(log[first..]);
      forall i | 0 <= i < |replies| ::
        replies[i].Queued? && replies[i].entry == log[first + i] && replies[i].entry.body.serial == first + i
  {
    forall j | first <= j < |log| ensures log[j].body.serial == j {
      assert log[j].Proper(j);
    }
  }

  /** A poll's reply: consecutive messages up to the newest, no more than allowed, none too old for the ring. */
  lemma PollReply(s: Server, userID: int, messageID: int, now: int, order: seq<int>, c: Config)
    requires Inv(s) && c.maxMessages <= RING_SIZE
    requires ReplyAfter(|s.log|, messageID, c.maxMessages) >= -1
    requires Distinct(order) && forall id :: id in order <==> id in s.pings || id == userID
    ensures var replies, first := Poll(s, userID, messageID, now, order, c).replies,
      FirstSent(|s.log|, messageID, c.maxMessages);
      && |replies| == Max(0, |s.log| - first)
      && |replies| <= Max(0, c.maxMessages)
      && (forall i | 0 <= i < |replies| ::
            replies[i].Queued? && replies[i].entry == s.log[first + i] && replies[i].entry.body.serial == first + i)
      && (replies != [] ==> |s.log| - RING_SIZE <= first)
  {
    var first := FirstSent(|s.log|, messageID, c.maxMessages);
    FirstIsAfter(|s.log|, messageID, c.maxMessages);
    if first <= |s.log| {
      SerialsFrom(s.log, first);
    }
  }

  predicate Stale(s: Server, order: seq<int>, cutTime: int, id: int) {
    id in order && id in s.pings && s.pings[id] <= cutTime
  }

  /** The signed-in users among the stale clients, in the order in which the sweep visits them. */
  function StaleUsers(s: Server, order: seq<int>, cutTime: int): (ids: seq<int>)
    requires Distinct(order) && forall id | id in order :: id in s.pings
    ensures forall i | 0 <= i < |ids| :: ids[i] in s.names
  {
    if order == [] then [] else
      var before, last := order[..|order| - 1], order[|order| - 1];
      var ids := StaleUsers(s, before, cutTime);
      if s.pings[last] <= cutTime && last in s.names then ids + [last] else ids
  }

  /** They are all of them. */
  lemma {:induction false} StaleUserIff(s: Server, order: seq<int>, cutTime: int, id: int)
    requires Distinct(order) && forall id | id in order :: id in s.pings
    ensures id in StaleUsers(s, order, cutTime) <==> Stale(s, order, cutTime, id) && id in s.names
  {
    if order != [] {
      var before, last := order[..|order| - 1], order[|order| - 1];
      assert order == before + [last];
      StaleUserIff(s, before, cutTime, id);
    }
  }

  /** Each of them once. */
  lemma {:induction false} StaleUsersOnce(s: Server, order: seq<int>, cutTime: int)
    requires Distinct(order) && forall id | id in order :: id in s.pings
    ensures Distinct(StaleUsers(s, order, cutTime))
  {
    if order != [] {
      var before, last := order[..|order| - 1], order[|order| - 1];
      StaleUsersOnce(s, before, cutTime);
      StaleUserIff(s, before, cutTime, last);
      if s.pings[last] <= cutTime && last in s.names {
        OneMore(StaleUsers(s, before, cutTime), last);
      }
    }
  }

  lemma OneMore(ids: seq<int>, id: int)
    requires Distinct(ids) && id !in ids
    ensures Distinct(ids + [id])
  {
    assert (ids + [id])[..|ids + [id]| - 1] == ids;
  }

  function TimeoutEntries(s: Server, ids: seq<int>): (log: seq<Entry>)
    requires forall i | 0 <= i < |ids| :: ids[i] in s.names
    ensures |log| == |ids|
  {
    seq(|ids|, i requires 0 <= i < |ids| =>
      Entry(ChangeClient, ChangeBody(|s.log| + i, Timeout, ids[i], s.names[ids[i]])))
  }

  /** Whatever order the sweep takes, it removes exactly the stale clients. */
  lemma {:induction false} SweepRemovesStale(s: Server, order: seq<int>, cutTime: int)
    requires Distinct(order) && forall id | id in order :: id in s.pings
    ensures var r := Sweep(s, order, cutTime);
      && (forall id :: id in r.pings <==> id in s.pings && !Stale(s, order, cutTime, id))
      && (forall id | id in r.pings :: r.pings[id] == s.pings[id])
      && (forall id :: id in r.names <==> id in s.names && !Stale(s, order, cutTime, id))
      && (forall id | id in r.names :: r.names[id] == s.names[id])
  {
    if order != [] {
      var before, last := order[..|order| - 1], order[|order| - 1];
      assert order == before + [last];
      assert last !in before;
      SweepRemovesStale(s, before, cutTime);
      assert forall id :: Stale(s, order, cutTime, id) <==>
        Stale(s, before, cutTime, id) || (id == last && s.pings[id] <= cutTime);
    }
  }

  /** It queues one timeout, under the old name, for each of them that was signed in, as it visits them. */
  lemma {:induction false} SweepQueuesTimeouts(s: Server, order: seq<int>, cutTime: int)
    requires Distinct(order) && forall id | id in order :: id in s.pings
    ensures Sweep(s, order, cutTime).log == s.log + TimeoutEntries(s, StaleUsers(s, order, cutTime))
  {
    if order == [] {
      assert TimeoutEntries(s, []) == [];
    } else {
      var before, last := order[..|order| - 1], order[|order| - 1];
      assert order == before + [last];
      SweepQueuesTimeouts(s, before, cutTime);
      SweepRemovesStale(s, before, cutTime);
      VisitQueues(s, Sweep(s, before, cutTime), StaleUsers(s, before, cutTime), last, cutTime);
    }
  }

  lemma VisitQueues(s: Server, b: Server, ids: seq<int>, id: int, cutTime: int)
    requires id in s.pings && id in b.pings && b.pings[id] == s.pings[id]
    requires (id in b.names <==> id in s.names) && (id in s.names ==> b.names[id] == s.names[id])
    requires (forall i | 0 <= i < |ids| :: ids[i] in s.names) && b.log == s.log + TimeoutEntries(s, ids)
    ensures Visit(b, id, cutTime).log ==
      s.log + TimeoutEntries(s, if s.pings[id] <= cutTime && id in s.names then ids + [id] else ids)
  {
    if s.pings[id] <= cutTime && id in s.names {
      var entry := Entry(ChangeClient, ChangeBody(|b.log|, Timeout, id, s.names[id]));
      assert TimeoutEntries(s, ids + [id]) == TimeoutEntries(s, ids) + [entry];
    }
  }
}
