/**
 * The chat server with its ring: two arrays of 128 slots addressed by serial. It is proved to
 * answer every request as ChatService does with the whole log.
 */
module ChatServer {
  import opened Modular
  import opened Sets
  import opened ChatLog
  import opened ChatService

  class Server {
    const timeout: int
    const maxMessagesPerRequest: int
    var userSerial: nat
    var nameMap: Names
    var clientPings: map<int, int>
    var messageSerial: nat
    var paths: array<Path>
    var messages: array<Body>
    /** The messages passed to lo_message_free, and all messages ever queued. */
    var freed: seq<Body>
    ghost var log: seq<Entry>

    ghost predicate Valid()
      reads this, paths, messages
    {
      && paths.Length == RING_SIZE && messages.Length == RING_SIZE
      && maxMessagesPerRequest <= RING_SIZE
      && messageSerial == |log|
      && forall k: nat | messageSerial - RING_SIZE <= k < messageSerial ::
           log[k] == Entry(paths[k % RING_SIZE], messages[k % RING_SIZE])
    }

    ghost function Config(): ChatService.Config
      reads this
    {
      ChatService.Config(maxMessagesPerRequest, timeout)
    }

    ghost function State(): ChatService.Server
      reads this
    {
      ChatService.Server(userSerial, log, nameMap, clientPings, freed)
    }

    constructor (timeout: int, maxMessagesPerRequest: int)
      requires maxMessagesPerRequest <= RING_SIZE
      ensures Valid() && fresh(paths) && fresh(messages)
      ensures State() == Start() && Config() == ChatService.Config(maxMessagesPerRequest, timeout)
    {
      this.timeout, this.maxMessagesPerRequest := timeout, maxMessagesPerRequest;
      userSerial, messageSerial, nameMap, clientPings := 0, 0, map[], map[];
      freed, log := [], [];
      paths := new Path[RING_SIZE](_ => ChangeClient);
      messages := new Body[RING_SIZE](_ => ChatBody(0, []));
    }

    method QueueMessage(path: Path, message: Body)
      requires Valid()
      modifies this`messageSerial, this`freed, this`log, paths, messages
      ensures Valid() && State() == Queue(old(State()), path, message)
    {
      var index := messageSerial % RING_SIZE;
      if messageSerial > RING_SIZE {
        OneRound(messageSerial - RING_SIZE, RING_SIZE);
        freed := freed + [messages[index]];
      }
      paths[index] := path;
      messages[index] := message;
      forall k: nat | messageSerial - RING_SIZE < k < messageSerial ensures k % RING_SIZE != index {
        SlotsDiffer(k, messageSerial, RING_SIZE);
      }
      log := log + [Entry(path, message)];
      messageSerial := messageSerial + 1;
    }

    method QueueChange(change: Change, id: int, name: string)
      requires Valid()
      modifies this`messageSerial, this`freed, this`log, paths, messages
      ensures Valid() && State() == ChatService.QueueChange(old(State()), change, id, name)
    {
      QueueMessage(ChangeClient, ChangeBody(messageSerial, change, id, name));
    }

    /** The send loop over the ring. */
    method SendMessages(messageID: int) returns (replies: seq<Reply>)
      requires Valid() && ReplyAfter(messageSerial, messageID, maxMessagesPerRequest) >= -1
      ensures var from := ReplyAfter(messageSerial, messageID, maxMessagesPerRequest) + 1;
        replies == if from <= messageSerial then Replies(log[from..]) else []
    {
      var start := messageID;
      if messageSerial - messageID > maxMessagesPerRequest {
        start := Max(0, messageSerial - maxMessagesPerRequest - 1);
      }
      replies := [];
      var i := start + 1;
      while i < messageSerial
        invariant start + 1 <= i
        invariant start + 1 <= messageSerial ==> i <= messageSerial && replies == Replies(log[start + 1..i])
        invariant start + 1 > messageSerial ==> replies == []
      {
        var index := i % RING_SIZE;
        replies := replies + [Queued(Entry(paths[index], messages[index]))];
        i := i + 1;
      }
    }

    /** The erase-while-iterating loop; `order` is the order in which it visited the pings. */
    method SweepStale(cutTime: int) returns (ghost order: seq<int>)
      requires Valid()
      modifies this, paths, messages
      ensures Valid() && paths == old(paths) && messages == old(messages)
      ensures Distinct(order) && forall id :: id in order <==> id in old(clientPings)
      ensures State() == Sweep(old(State()), order, cutTime)
    {
      ghost var s := State();
      order := [];
      var left: set<int> := clientPings.Keys;
      while left != {}
        invariant Valid() && paths == old(paths) && messages == old(messages)
        invariant Distinct(order) && forall id :: id in s.pings <==> id in left || id in order
        invariant forall id :: !(id in left && id in order)
        invariant State() == Sweep(s, order, cutTime)
        decreases left
      {
        NonEmptyInts(left);
        var i :| i in left;
        ghost var t := State();
        if clientPings[i] <= cutTime {
          if i in nameMap {
            QueueChange(Timeout, i, nameMap[i]);
            nameMap := nameMap - {i};
          }
          clientPings := clientPings - {i};
        }
        left := left - {i};
        assert (order + [i])[..|order + [i]| - 1] == order;
        assert State() == Visit(t, i, cutTime);
        order := order + [i];
      }
    }

    method AnswerPoll(userID: int, messageID: int, now: int) returns (replies: seq<Reply>, ghost order: seq<int>)
      requires Valid() && ReplyAfter(messageSerial, messageID, maxMessagesPerRequest) >= -1
      modifies this, paths, messages
      ensures Valid() && paths == old(paths) && messages == old(messages)
      ensures Distinct(order) && forall id :: id in order <==> id in old(clientPings) || id == userID
      ensures Poll(old(State()), userID, messageID, now, order, Config()) == Result(State(), replies)
    {
      replies := SendMessages(messageID);
      clientPings := clientPings[userID := now];
      order := SweepStale(now - timeout);
    }

    method HandleMessage(command: Command, args: seq<Arg>, now: int)
      returns (replies: seq<Reply>, ghost order: seq<int>)
      requires Valid()
      requires command == GetMessages && |args| == 2 && args[0].IntArg? && args[1].IntArg? ==>
        ReplyAfter(messageSerial, args[1].i, maxMessagesPerRequest) >= -1
      modifies this, paths, messages
      ensures Valid() && paths == old(paths) && messages == old(messages)
      ensures var r := Request(command, args, now, order);
        Servable(old(State()), r, Config()) && Handle(old(State()), r, Config()) == Result(State(), replies)
    {
      replies, order := [], [];
      match command
      case SignIn =>
        if |args| != 1 || !args[0].StrArg? { return; }
        userSerial := userSerial + 1;
        nameMap := nameMap[userSerial := args[0].s];
        replies := [SignInComplete(userSerial)];
        QueueChange(Add, userSerial, args[0].s);
      case GetAllClients =>
        replies := [AllClients(nameMap)];
      case GetMessages =>
        if |args| != 2 || !args[0].IntArg? || !args[1].IntArg? { return; }
        replies, order := AnswerPoll(args[0].i, args[1].i, now);
      case SendMessage =>
        for i := 0 to |args|
          invariant forall j | 0 <= j < i :: !args[j].OtherArg?
        {
          if args[i].OtherArg? { return; }
        }
        QueueMessage(Receive, ChatBody(messageSerial, args));
      case ChangeName =>
        if |args| != 2 || !args[0].IntArg? || !args[1].StrArg? { return; }
        nameMap := nameMap[args[0].i := args[1].s];
        QueueChange(Rename, args[0].i, args[1].s);
      case SignOut =>
        if |args| != 1 || !args[0].IntArg? { return; }
        if args[0].i !in nameMap { return; }
        QueueChange(Remove, args[0].i, nameMap[args[0].i]);
        nameMap := nameMap - {args[0].i};
      case NotFound =>
    }
  }
}
