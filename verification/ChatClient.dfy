/** The chat client: a cursor into the server's messages and a replica of its map of names. */
module ChatClient {
  import opened Options
  import opened ChatLog
  import opened ChatService

  /** A call of onUserChanged. */
  datatype Notice = Notice(change: Change, id: int, name: string, oldName: Option<string>)

  datatype Client = Client(
    userId: Option<int>,
    messageSerial: int,
    nameMap: Names,
    notices: seq<Notice>,
    shown: seq<Body>)

  function NewClient(): Client {
    Client(None, 0, map[], [], [])
  }

  function Lookup(names: Names, id: int): Option<string> {
    if id in names then Some(names[id]) else None
  }

  /** The announcement a change makes, if any. */
  function Announce(c: Client, change: Change, id: int, name: string): seq<Notice> {
    match change
    case Add => if c.userId == Some(id) then [] else [Notice(Add, id, name, None)]
    case Remove => if id in c.nameMap then [Notice(Remove, id, name, None)] else []
    case Rename => [Notice(Rename, id, name, Lookup(c.nameMap, id))]
    case Timeout => [Notice(Timeout, id, name, None)]
  }

  function ArgAt(args: seq<Arg>, i: nat): Option<Arg> {
    if i < |args| then Some(args[i]) else None
  }

  /** The message is a broadcast, an echo of our own, or names us among its recipients. */
  predicate Addressed(c: Client, args: seq<Arg>) {
    var me := if c.userId.Some? then Some(IntArg(c.userId.value)) else None;
    || ArgAt(args, 3) == Some(IntArg(0))
    || ArgAt(args, 0) == me
    || (me.Some? && |args| > 3 && me.value in args[3..])
  }

  /** What a client makes of one message from the server. */
  function OnReply(c: Client, r: Reply): Client {
    match r
    case SignInComplete(id) => c.(userId := Some(id))
    case AllClients(names) => c.(nameMap := names)
    case Queued(e) =>
      if e.body.serial <= c.messageSerial then c else
        match e.body
        case ChangeBody(serial, change, id, name) =>
          c.(messageSerial := serial, nameMap := Effect(c.nameMap, e.body),
             notices := c.notices + Announce(c, change, id, name))
        case ChatBody(serial, args) =>
          c.(messageSerial := serial, shown := if Addressed(c, args) then c.shown + [e.body] else c.shown)
  }

  class SCLOrkChatClient {
    var userId: Option<int>
    var messageSerial: int
    var nameMap: Names
    var notices: seq<Notice>
    var shown: seq<Body>

    ghost function State(): Client
      reads this
    {
      Client(userId, messageSerial, nameMap, notices, shown)
    }

    constructor ()
      ensures State() == NewClient()
    {
      userId, messageSerial, nameMap, notices, shown := None, 0, map[], [], [];
    }

    method SignInCompleteFunc(id: int)
      modifies this
      ensures State() == OnReply(old(State()), SignInComplete(id))
    {
      userId := Some(id);
    }

    method SetAllClientsFunc(names: Names)
      modifies this
      ensures State() == OnReply(old(State()), AllClients(names))
    {
      nameMap := map[];
      nameMap := nameMap + names;
    }

    method ChangeClientFunc(path: Path, serial: int, change: Change, id: int, name: string)
      modifies this
      ensures State() == OnReply(old(State()), Queued(Entry(path, ChangeBody(serial, change, id, name))))
    {
      if serial > messageSerial {
        messageSerial := serial;
        var changeMade := true;
        var oldName := None;
        match change {
        case Add =>
          nameMap := nameMap[id := name];
          if userId == Some(id) { changeMade := false; }
        case Remove =>
          if id in nameMap {
            nameMap := nameMap - {id};
          } else {
            assert nameMap - {id} == nameMap;
            changeMade := false;
          }
        case Rename =>
          oldName := Lookup(nameMap, id);
          nameMap := nameMap[id := name];
        case Timeout =>
          nameMap := nameMap - {id};
        }
        if changeMade {
          notices := notices + [Notice(change, id, name, oldName)];
        }
      }
    }

    method ChatReceiveFunc(path: Path, serial: int, args: seq<Arg>)
      modifies this
      ensures State() == OnReply(old(State()), Queued(Entry(path, ChatBody(serial, args))))
    {
      if serial > messageSerial {
        var me := if userId.Some? then Some(IntArg(userId.value)) else None;
        var recipients := if |args| > 3 then args[3..] else [];
        var isEcho := ArgAt(args, 0) == me;
        messageSerial := serial;
        if ArgAt(recipients, 0) == Some(IntArg(0)) || isEcho || (me.Some? && me.value in recipients) {
          shown := shown + [ChatBody(serial, args)];
        }
      }
    }
  }
}
