/** What a client is shown and told: who hears a chat message, and which changes are announced. */
module ChatHearing {
  import opened Options
  import opened ChatLog
  import opened ChatService
  import opened ChatClient
  import opened ChatReplica
  import opened ChatHistory

  /** Sent to everyone: the first recipient is number 0. */
  predicate ToEveryone(args: seq<Arg>) {
    |args| > 3 && args[3] == IntArg(0)
  }

  /** The user is the sender, or is among the recipients. */
  predicate Concerns(args: seq<Arg>, id: int) {
    (|args| > 0 && args[0] == IntArg(id)) || exists i :: 3 <= i < |args| && args[i] == IntArg(id)
  }

  /** Shown are messages to everyone, and those that the user sent or is to receive. */
  predicate Hears(userId: Option<int>, args: seq<Arg>) {
    ToEveryone(args) || match userId case Some(id) => Concerns(args, id) case None => args == []
  }

  /** A chat message past the cursor is shown, as it is, to those that it is for, and changes no name. */
  lemma ShownIff(c: Client, e: Entry)
    requires e.body.ChatBody? && e.body.serial > c.messageSerial
    ensures OnReply(c, Queued(e)) ==
      c.(messageSerial := e.body.serial, shown := if Hears(c.userId, e.body.args) then c.shown + [e.body] else c.shown)
  {
    var args := e.body.args;
    if c.userId.Some? && |args| > 3 {
      assert IntArg(c.userId.value) in args[3..] <==> exists i ::
        3 <= i < |args| && args[i] == IntArg(c.userId.value) by {
        if i :| 3 <= i < |args| && args[i] == IntArg(c.userId.value) { assert args[3..][i - 3] == args[i]; }
      }
    }
  }

  /**
   * A change past the cursor is announced with what was known of the user, except one's own sign-in
   * and the leaving of a user who is not known.
   */
  lemma AnnouncedIff(c: Client, e: Entry)
    requires e.body.ChangeBody? && e.body.serial > c.messageSerial
    ensures var b, c' := e.body, OnReply(c, Queued(e));
      var silent := (b.change == Add && c.userId == Some(b.id)) || (b.change == Remove && b.id !in c.nameMap);
      var oldName := if b.change == Rename && b.id in c.nameMap then Some(c.nameMap[b.id]) else None;
      && c'.notices == c.notices + (if silent then [] else [Notice(b.change, b.id, b.name, oldName)])
      && c'.shown == c.shown && c'.userId == c.userId
  {}

  /** Of messages that were taken before nothing is shown or announced again. */
  lemma OldIsIgnored(c: Client, e: Entry)
    requires e.body.serial <= c.messageSerial
    ensures OnReply(c, Queued(e)) == c
  {}

  /** The chat messages of a log that a user is shown. */
  function Heard(userId: Option<int>, log: seq<Entry>): seq<Body> {
    if log == [] then [] else
      var last := log[|log| - 1].body;
      Heard(userId, log[..|log| - 1]) + if last.ChatBody? && Hears(userId, last.args) then [last] else []
  }

  lemma HeardNext(userId: Option<int>, log: seq<Entry>, from: nat, k: nat)
    requires from <= k < |log|
    ensures Heard(userId, log[from..k + 1]) == Heard(userId, log[from..k]) +
      if log[k].body.ChatBody? && Hears(userId, log[k].body.args) then [log[k].body] else []
  {
    SliceNext(log, from, k);
  }

  lemma ShowsOne(c: Client, e: Entry)
    requires e.body.serial > c.messageSerial
    ensures var c' := OnReply(c, Queued(e));
      && c'.shown == c.shown + (if e.body.ChatBody? && Hears(c.userId, e.body.args) then [e.body] else [])
      && c'.userId == c.userId
  {
    if e.body.ChatBody? { ShownIff(c, e); } else { AnnouncedIff(c, e); }
  }

  /** A client that takes messages `from` to `to - 1` is shown exactly those that are for its user, once each. */
  lemma {:induction false} TakesShows(c: Client, log: seq<Entry>, from: nat, to: nat)
    requires c.messageSerial < from <= to <= |log| && forall i | 0 <= i < |log| :: log[i].Proper(i)
    ensures Takes(c, log, from, to).shown == c.shown + Heard(c.userId, log[from..to])
    ensures Takes(c, log, from, to).userId == c.userId
  {
    if from < to {
      var b := Takes(c, log, from, to - 1);
      TakesShows(c, log, from, to - 1);
      TakesReplays(c, log, from, to - 1);
      assert log[to - 1].Proper(to - 1);
      ShowsOne(b, log[to - 1]);
      HeardNext(c.userId, log, from, to - 1);
    }
  }

  /**
   * From sender to receiver: a client that takes chat message k of a server that has served the
   * requests `rs` is shown, if it is for its user, the very arguments of one of the chat requests,
   * namely of the one that has as many others before it.
   */
  lemma HeardAsSaid(s: Server, rs: seq<Request>, cfg: Config, c: Client, k: nat)
    requires ChatService.Inv(s) && Chats(s.log) == [] && AllServable(s, rs, cfg)
    requires k < |Served(s, rs, cfg).log| && Served(s, rs, cfg).log[k].body.ChatBody? && c.messageSerial < k
    ensures var log := Served(s, rs, cfg).log;
      var m := |Chats(log[..k])|;
      && m < |Said(rs)|
      && OnReply(c, Queued(log[k])).shown ==
           c.shown + if Hears(c.userId, Said(rs)[m]) then [ChatBody(k, Said(rs)[m])] else []
  {
    var log := Served(s, rs, cfg).log;
    LogExplainsState(s, rs, cfg);
    assert log[k].Proper(k);
    ChatsAreSaid(s, rs, cfg);
    ChatAt(log, k);
    ShownIff(c, log[k]);
  }
}
