/** The queued messages of the chat server and what replaying them does to a map of names. */
module ChatLog {
  datatype Arg = IntArg(i: int) | StrArg(s: string) | OtherArg

  datatype Change = Add | Remove | Rename | Timeout

  datatype Path = ChangeClient | Receive

  /** An OSC message waiting in the server; `serial` is its first argument. */
  datatype Body =
    | ChangeBody(serial: int, change: Change, id: int, name: string)
    | ChatBody(serial: int, args: seq<Arg>)

  datatype Entry = Entry(path: Path, body: Body) {
    predicate Proper(serial: nat) {
      body.serial == serial && (path == ChangeClient <==> body.ChangeBody?)
    }

    predicate Changes(id: int) {
      body.ChangeBody? && body.id == id
    }
  }

  type Names = map<int, string>

  function Effect(names: Names, b: Body): Names {
    match b
    case ChangeBody(_, Add, id, name) => names[id := name]
    case ChangeBody(_, Rename, id, name) => names[id := name]
    case ChangeBody(_, _, id, _) => names - {id}
    case ChatBody(_, _) => names
  }

  function Replay(names: Names, log: seq<Entry>): Names {
    if log == [] then names else Effect(Replay(names, log[..|log| - 1]), log[|log| - 1].body)
  }

  predicate Touches(log: seq<Entry>, id: int) {
    exists i | 0 <= i < |log| :: log[i].Changes(id)
  }

  ghost predicate Agree(a: Names, b: Names, id: int) {
    (id in a <==> id in b) && (id in a ==> a[id] == b[id])
  }

  /** The last change to a name decides it: what a log touches does not depend on where it started. */
  lemma {:induction false} LastChangeDecides(a: Names, b: Names, log: seq<Entry>, id: int)
    requires Agree(a, b, id) || Touches(log, id)
    ensures Agree(Replay(a, log), Replay(b, log), id)
  {
    if log != [] {
      var before := log[..|log| - 1];
      if !log[|log| - 1].Changes(id) {
        assert Touches(log, id) ==> Touches(before, id) by {
          if i: nat :| i < |log| && log[i].Changes(id) {
            assert before[i] == log[i];
          }
        }
        LastChangeDecides(a, b, before, id);
      }
    }
  }

  lemma {:induction false} UntouchedStays(a: Names, log: seq<Entry>, id: int)
    requires !Touches(log, id)
    ensures Agree(Replay(a, log), a, id)
  {
    if log != [] {
      var before := log[..|log| - 1];
      assert !Touches(before, id);
      assert !log[|log| - 1].Changes(id);
      UntouchedStays(a, before, id);
    }
  }

  lemma {:induction false} ReplayConcat(names: Names, a: seq<Entry>, b: seq<Entry>)
    ensures Replay(names, a + b) == Replay(Replay(names, a), b)
    decreases |b|
  {
    if b == [] {
      assert a + b == a;
    } else {
      assert (a + b)[..|a + b| - 1] == a + b[..|b| - 1];
      ReplayConcat(names, a, b[..|b| - 1]);
    }
  }

  /** Replaying any suffix of a log over a map that already includes it changes nothing. */
  lemma SuffixAgain(names: Names, log: seq<Entry>, j: nat)
    requires j <= |log|
    ensures Replay(Replay(names, log), log[j..]) == Replay(names, log)
  {
    var start, all, suffix := Replay(names, log[..j]), Replay(names, log), log[j..];
    assert log == log[..j] + suffix;
    ReplayConcat(names, log[..j], suffix);
    forall id ensures Agree(Replay(all, suffix), all, id) {
      if Touches(suffix, id) {
        LastChangeDecides(all, start, suffix, id);
      } else {
        UntouchedStays(all, suffix, id);
      }
    }
    SameNames(Replay(all, suffix), all);
  }

  /** Replays of one log over two maps agree exactly where the log or the maps make them agree. */
  lemma ReplaysAgreeIff(a: Names, b: Names, log: seq<Entry>)
    ensures Replay(a, log) == Replay(b, log) <==> forall id :: Touches(log, id) || Agree(a, b, id)
  {
    if forall id :: Touches(log, id) || Agree(a, b, id) {
      forall id ensures Agree(Replay(a, log), Replay(b, log), id) { LastChangeDecides(a, b, log, id); }
      SameNames(Replay(a, log), Replay(b, log));
    } else {
      var id :| !Touches(log, id) && !Agree(a, b, id);
      UntouchedStays(a, log, id);
      UntouchedStays(b, log, id);
    }
  }

  lemma SameNames(a: Names, b: Names)
    requires forall id :: Agree(a, b, id)
    ensures a == b
  {
    forall id ensures (id in a <==> id in b) && (id in a ==> a[id] == b[id]) {
      assert Agree(a, b, id);
    }
  }
}
