/**
 * The chat server's state told from its requests alone: what was said, who goes by which name, who
 * polled when, and what each request queues.
 */
module ChatHistory {
  import opened Options
  import opened ChatLog
  import opened ChatService

  // ---- What one request does ----

  /** The request gives that user that name: a sign-in that is answered with the number, or a change of name. */
  predicate Gives(s: Server, r: Request, c: Config, id: int, name: string)
    requires Servable(s, r, c)
  {
    || (r.command == SignIn && r.args == [StrArg(name)] && Handle(s, r, c).replies == [SignInComplete(id)])
    || (r.command == ChangeName && r.args == [IntArg(id), StrArg(name)])
  }

  /** When the user was last heard of, as the sweep after a poll sees it. */
  function LastHeard(s: Server, r: Request, id: int): int
    requires r.IsPoll() && (id == r.args[0].i || id in s.pings)
  {
    if id == r.args[0].i then r.now else s.pings[id]
  }

  /** The request is a poll that finds the user silent for too long. */
  predicate Expires(s: Server, r: Request, c: Config, id: int) {
    && r.IsPoll() && (id == r.args[0].i || id in s.pings)
    && LastHeard(s, r, id) + c.timeout <= r.now
  }

  predicate Leaves(r: Request, id: int) {
    r.command == SignOut && r.args == [IntArg(id)]
  }

  /** The names after a request: only a sign-in, a change of name, a sign-out and a poll touch them, each its own. */
  lemma NameAfter(s: Server, r: Request, c: Config, id: int)
    requires Servable(s, r, c)
    ensures var t := Handle(s, r, c).server;
      && (forall name | Gives(s, r, c, id, name) :: id in t.names && t.names[id] == name)
      && (Leaves(r, id) || Expires(s, r, c, id) ==> id !in t.names)
      && ((forall name :: !Gives(s, r, c, id, name)) && !Leaves(r, id) && !Expires(s, r, c, id) ==>
            Agree(t.names, s.names, id))
  {
    if r.command == GetMessages && r.IsPoll() {
      NameAfterPoll(s, r, c, id);
    } else if r.command == SignIn && |r.args| == 1 && r.args[0].StrArg? {
      assert r.args == [StrArg(r.args[0].s)];
      assert id == s.userSerial + 1 ==> Gives(s, r, c, id, r.args[0].s);
    } else if r.command == ChangeName && |r.args| == 2 && r.args[0].IntArg? && r.args[1].StrArg? {
      assert r.args == [IntArg(r.args[0].i), StrArg(r.args[1].s)];
      assert id == r.args[0].i ==> Gives(s, r, c, id, r.args[1].s);
    } else if r.command == SignOut && |r.args| == 1 && r.args[0].IntArg? {
      assert r.args == [IntArg(r.args[0].i)];
    }
  }

  lemma NameAfterPoll(s: Server, r: Request, c: Config, id: int)
    requires Servable(s, r, c) && r.IsPoll()
    ensures var t := Handle(s, r, c).server;
      if Expires(s, r, c, id) then id !in t.names else Agree(t.names, s.names, id)
  {
    var heard := s.(pings := s.pings[r.args[0].i := r.now]);
    SweepRemovesStale(heard, r.order, r.now - c.timeout);
  }

  /** The times of the last polls: a poll notes its own, and drops those that have expired. */
  lemma HeardAfter(s: Server, r: Request, c: Config, id: int)
    requires Servable(s, r, c)
    ensures var t := Handle(s, r, c).server;
      if !r.IsPoll() then t.pings == s.pings
      else if id != r.args[0].i && id !in s.pings then id !in t.pings
      else if Expires(s, r, c, id) then id !in t.pings
      else id in t.pings && t.pings[id] == LastHeard(s, r, id)
  {
    if r.IsPoll() {
      HeardAfterPoll(s, r, c, id);
    }
  }

  lemma HeardAfterPoll(s: Server, r: Request, c: Config, id: int)
    requires Servable(s, r, c) && r.IsPoll()
    ensures var t := Handle(s, r, c).server;
      if (id != r.args[0].i && id !in s.pings) || Expires(s, r, c, id) then id !in t.pings
      else id in t.pings && t.pings[id] == LastHeard(s, r, id)
  {
    var heard := s.(pings := s.pings[r.args[0].i := r.now]);
    SweepRemovesStale(heard, r.order, r.now - c.timeout);
  }

  /** A sign-in, a change of name and a sign-out queue one change each, a chat message itself. */
  lemma ChangeQueues(s: Server, r: Request, c: Config)
    requires Servable(s, r, c) && r.command != GetMessages && Queues(s, r)
    ensures var log, log' := s.log, Handle(s, r, c).server.log;
      match r.command
      case SignIn => log' == log + [Entry(ChangeClient, ChangeBody(|log|, Add, s.userSerial + 1, r.args[0].s))]
      case ChangeName => log' == log + [Entry(ChangeClient, ChangeBody(|log|, Rename, r.args[0].i, r.args[1].s))]
      case SignOut =>
        log' == log + [Entry(ChangeClient, ChangeBody(|log|, Remove, r.args[0].i, s.names[r.args[0].i]))]
      case SendMessage => log' == log + [Entry(Receive, ChatBody(|log|, r.args))]
      case _ => true
  {}

  lemma SameTimeouts(log: seq<Entry>, s: Server, heard: Server, ids: seq<int>)
    requires heard.log == s.log && heard.names == s.names && forall i | 0 <= i < |ids| :: ids[i] in s.names
    requires log == heard.log + TimeoutEntries(heard, ids)
    ensures log == s.log + TimeoutEntries(s, ids)
  {
    assert TimeoutEntries(heard, ids) == TimeoutEntries(s, ids);
  }

  lemma ExpiredAreStale(s: Server, r: Request, c: Config, heard: Server, id: int)
    requires r.IsPoll() && heard.pings == s.pings[r.args[0].i := r.now]
    requires Stale(heard, r.order, r.now - c.timeout, id)
    ensures Expires(s, r, c, id)
  {}

  lemma PollSweeps(s: Server, r: Request, c: Config, heard: Server)
    requires Servable(s, r, c) && r.IsPoll() && heard == s.(pings := s.pings[r.args[0].i := r.now])
    ensures Distinct(r.order) && forall id | id in r.order :: id in heard.pings
    ensures Handle(s, r, c).server == Sweep(heard, r.order, r.now - c.timeout)
  {}

  lemma SilentExpires(s: Server, r: Request, c: Config, heard: Server, ids: seq<int>, id: int)
    requires r.IsPoll() && heard == s.(pings := s.pings[r.args[0].i := r.now])
    requires Distinct(r.order) && forall id | id in r.order :: id in heard.pings
    requires ids == StaleUsers(heard, r.order, r.now - c.timeout) && id in ids
    ensures Expires(s, r, c, id)
  {
    StaleUserIff(heard, r.order, r.now - c.timeout, id);
    ExpiredAreStale(s, r, c, heard, id);
  }

  lemma AllExpire(s: Server, r: Request, c: Config, heard: Server, ids: seq<int>)
    requires r.IsPoll() && heard == s.(pings := s.pings[r.args[0].i := r.now])
    requires Distinct(r.order) && forall id | id in r.order :: id in heard.pings
    requires ids == StaleUsers(heard, r.order, r.now - c.timeout)
    ensures Distinct(ids) && forall id | id in ids :: Expires(s, r, c, id)
  {
    StaleUsersOnce(heard, r.order, r.now - c.timeout);
    forall id | id in ids ensures Expires(s, r, c, id) { SilentExpires(s, r, c, heard, ids, id); }
  }

  /** A poll queues one timeout each, under the names held, for users that have expired. */
  lemma PollQueues(s: Server, r: Request, c: Config) returns (ids: seq<int>)
    requires Servable(s, r, c) && r.IsPoll()
    ensures forall i | 0 <= i < |ids| :: ids[i] in s.names
    ensures Distinct(ids) && forall id | id in ids :: Expires(s, r, c, id)
    ensures Handle(s, r, c).server.log == s.log + TimeoutEntries(s, ids)
  {
    var heard := s.(pings := s.pings[r.args[0].i := r.now]);
    PollSweeps(s, r, c, heard);
    ids := StaleUsers(heard, r.order, r.now - c.timeout);
    SweepQueuesTimeouts(heard, r.order, r.now - c.timeout);
    SameTimeouts(Handle(s, r, c).server.log, s, heard, ids);
    AllExpire(s, r, c, heard, ids);
  }

  /** Everything else queues nothing. */
  lemma OthersQueueNothing(s: Server, r: Request, c: Config)
    requires Servable(s, r, c) && !Queues(s, r)
    ensures Handle(s, r, c).server.log == s.log
  {}

  /** Every argument is a number or a string. */
  predicate Sayable(args: seq<Arg>) {
    forall i | 0 <= i < |args| :: args[i].IntArg? || args[i].StrArg?
  }

  /** The requests that queue something. */
  predicate Queues(s: Server, r: Request) {
    match r.command
    case SignIn => |r.args| == 1 && r.args[0].StrArg?
    case ChangeName => |r.args| == 2 && r.args[0].IntArg? && r.args[1].StrArg?
    case SignOut => |r.args| == 1 && r.args[0].IntArg? && r.args[0].i in s.names
    case SendMessage => Sayable(r.args)
    case GetMessages => r.IsPoll()
    case _ => false
  }

  /** Users are numbered as they sign in, and are told their numbers. */
  lemma SignInNumbers(s: Server, r: Request, c: Config)
    requires Servable(s, r, c)
    ensures var result := Handle(s, r, c);
      if r.command == SignIn && Queues(s, r) then
        result.server.userSerial == s.userSerial + 1 && result.replies == [SignInComplete(s.userSerial + 1)]
      else
        result.server.userSerial == s.userSerial && forall id :: SignInComplete(id) !in result.replies
  {
    if r.command == GetMessages && r.IsPoll() {
      SweepNumbers(s.(pings := s.pings[r.args[0].i := r.now]), r.order, r.now - c.timeout);
    }
  }

  lemma {:induction false} SweepNumbers(s: Server, order: seq<int>, cutTime: int)
    requires Distinct(order) && forall id | id in order :: id in s.pings
    ensures Sweep(s, order, cutTime).userSerial == s.userSerial
  {
    if order != [] {
      SweepNumbers(s, order[..|order| - 1], cutTime);
    }
  }

  // ---- What was said ----

  /** The chat messages of a log, as their arguments. */
  function Chats(log: seq<Entry>): seq<seq<Arg>> {
    if log == [] then [] else
      var last := log[|log| - 1].body;
      Chats(log[..|log| - 1]) + if last.ChatBody? then [last.args] else []
  }

  function Said(rs: seq<Request>): seq<seq<Arg>>
    decreases |rs|
  {
    if rs == [] then [] else SaidBy(rs[0]) + Said(rs[1..])
  }

  function SaidBy(r: Request): seq<seq<Arg>> {
    if r.command == SendMessage && Sayable(r.args) then [r.args] else []
  }

  lemma ChatsMore(log: seq<Entry>, e: Entry)
    ensures Chats(log + [e]) == Chats(log) + if e.body.ChatBody? then [e.body.args] else []
  {
    assert (log + [e])[..|log|] == log;
  }

  lemma {:induction false} NoChats(log: seq<Entry>, more: seq<Entry>)
    requires forall i | 0 <= i < |more| :: more[i].body.ChangeBody?
    ensures Chats(log + more) == Chats(log)
    decreases |more|
  {
    if more == [] {
      assert log + more == log;
    } else {
      var before := more[..|more| - 1];
      NoChats(log, before);
      assert log + more == (log + before) + [more[|more| - 1]];
      ChatsMore(log + before, more[|more| - 1]);
    }
  }

  lemma ChatsStep(s: Server, r: Request, c: Config)
    requires Servable(s, r, c)
    ensures Chats(Handle(s, r, c).server.log) == Chats(s.log) + SaidBy(r)
  {
    if r.command == GetMessages && Queues(s, r) {
      var ids := PollQueues(s, r, c);
      NoChats(s.log, TimeoutEntries(s, ids));
    } else if Queues(s, r) {
      ChangeQueues(s, r, c);
      ChatsMore(s.log, Handle(s, r, c).server.log[|s.log|]);
    } else {
      OthersQueueNothing(s, r, c);
    }
  }

  lemma Regroup<T>(a: seq<T>, b: seq<T>, c: seq<T>)
    ensures (a + b) + c == a + (b + c)
  {}

  /** Over every run: the chat messages in the log are those that were sent, as they were sent, in their order. */
  lemma {:induction false} ChatsAreSaid(s: Server, rs: seq<Request>, c: Config)
    requires AllServable(s, rs, c)
    ensures Chats(Served(s, rs, c).log) == Chats(s.log) + Said(rs)
    decreases |rs|
  {
    if rs != [] {
      ChatsStep(s, rs[0], c);
      ChatsAreSaid(Handle(s, rs[0], c).server, rs[1..], c);
      Regroup(Chats(s.log), SaidBy(rs[0]), Said(rs[1..]));
    }
  }

  /** A chat message in the log, among the chat messages. */
  lemma {:induction false} ChatAt(log: seq<Entry>, k: nat)
    requires k < |log| && log[k].body.ChatBody?
    ensures |Chats(log[..k])| < |Chats(log)| && Chats(log)[|Chats(log[..k])|] == log[k].body.args
    decreases |log|
  {
    var before := log[..|log| - 1];
    if k < |log| - 1 {
      ChatAt(before, k);
      assert before[..k] == log[..k];
    }
  }

  // ---- Names over a run ----

  /** The names given to a user in a run, in order. */
  ghost function NamesGiven(s: Server, rs: seq<Request>, c: Config, id: int): seq<string>
    requires AllServable(s, rs, c)
    decreases |rs|
  {
    if rs == [] then [] else
      var r := rs[0];
      (if r.command == SignIn && Queues(s, r) && Handle(s, r, c).replies == [SignInComplete(id)] then [r.args[0].s]
       else if r.command == ChangeName && Queues(s, r) && r.args[0].i == id then [r.args[1].s]
       else []) + NamesGiven(Handle(s, r, c).server, rs[1..], c, id)
  }

  function LastOf(names: seq<string>, otherwise: string): string {
    if names == [] then otherwise else names[|names| - 1]
  }

  /** Over every run: whoever is signed in goes by the last name that was given to that number. */
  lemma {:induction false} NameIsLastGiven(s: Server, rs: seq<Request>, c: Config, id: int, first: string)
    requires AllServable(s, rs, c) && (id in s.names ==> s.names[id] == first)
    ensures id in Served(s, rs, c).names ==>
      && Served(s, rs, c).names[id] == LastOf(NamesGiven(s, rs, c, id), first)
      && (id !in s.names ==> NamesGiven(s, rs, c, id) != [])
    decreases |rs|
  {
    if rs != [] {
      var t := Handle(s, rs[0], c).server;
      NameAfter(s, rs[0], c, id);
      var here := if id in t.names then t.names[id] else first;
      OneGiven(s, rs[0], c, id);
      NameIsLastGiven(t, rs[1..], c, id, here);
    }
  }

  lemma OneGiven(s: Server, r: Request, c: Config, id: int)
    requires Servable(s, r, c)
    ensures (r.command == SignIn && Queues(s, r) && Handle(s, r, c).replies == [SignInComplete(id)]) ==>
      Gives(s, r, c, id, r.args[0].s)
    ensures (r.command == ChangeName && Queues(s, r) && r.args[0].i == id) ==> Gives(s, r, c, id, r.args[1].s)
    ensures forall name | Gives(s, r, c, id, name) ::
      || (r.command == SignIn && Queues(s, r) && Handle(s, r, c).replies == [SignInComplete(id)])
      || (r.command == ChangeName && Queues(s, r) && r.args[0].i == id)
  {
    if r.command == SignIn && Queues(s, r) { assert r.args == [StrArg(r.args[0].s)]; }
    if r.command == ChangeName && Queues(s, r) { assert r.args == [IntArg(r.args[0].i), StrArg(r.args[1].s)]; }
  }

  /** When the user polled last, from the requests alone. */
  function LastPoll(rs: seq<Request>, id: int, before: Option<int>): Option<int>
    decreases |rs|
  {
    if rs == [] then before
    else LastPoll(rs[1..], id, if rs[0].IsPoll() && rs[0].args[0].i == id then Some(rs[0].now) else before)
  }

  /** Over every run: the time noted of a user is that of the last poll. */
  lemma {:induction false} NotedIsLastPoll(s: Server, rs: seq<Request>, c: Config, id: int, before: Option<int>)
    requires AllServable(s, rs, c) && (id in s.pings ==> before == Some(s.pings[id]))
    ensures id in Served(s, rs, c).pings ==> LastPoll(rs, id, before) == Some(Served(s, rs, c).pings[id])
    decreases |rs|
  {
    if rs != [] {
      HeardAfter(s, rs[0], c, id);
      var here := if rs[0].IsPoll() && rs[0].args[0].i == id then Some(rs[0].now) else before;
      NotedIsLastPoll(Handle(s, rs[0], c).server, rs[1..], c, id, here);
    }
  }

  /** No poll of the run finds the user silent for too long, and the user does not sign out. */
  ghost predicate Keeps(s: Server, rs: seq<Request>, c: Config, id: int)
    requires AllServable(s, rs, c)
    decreases |rs|
  {
    rs != [] ==>
      && !Expires(s, rs[0], c, id) && !Leaves(rs[0], id)
      && Keeps(Handle(s, rs[0], c).server, rs[1..], c, id)
  }

  /** A user who goes on polling and does not sign out stays signed in. */
  lemma {:induction false} ActiveStays(s: Server, rs: seq<Request>, c: Config, id: int)
    requires AllServable(s, rs, c) && id in s.names && Keeps(s, rs, c, id)
    ensures id in Served(s, rs, c).names
    decreases |rs|
  {
    if rs != [] {
      NameAfter(s, rs[0], c, id);
      ActiveStays(Handle(s, rs[0], c).server, rs[1..], c, id);
    }
  }
}
