/** The clock server: a cohort for every clock name, and the messages that change them. */
module ClockServer {
  import opened Sets
  import opened ClockState
  import opened ClockGrooming

  type Cohorts = map<string, Cohort>

  /** A message to the server; `now` is the one reading of the clock while it is handled. */
  datatype Request =
    | ClockGetAll(now: real)
    | ClockCreate(state: State, now: real)
    | ClockChange(state: State, now: real)

  /** A /clockUpdate, to every wire or to the one that asked. */
  datatype Update = ToAll(state: State) | ToSender(state: State)

  function Handle(cs: Cohorts, r: Request): Cohorts {
    match r
    case ClockGetAll(now) => map n | n in cs :: Groom(cs[n], now)
    case ClockCreate(s, now) =>
      cs[s.cohortName := if s.cohortName in cs then Groom(cs[s.cohortName], now) else Cohort(s, [])]
    case ClockChange(s, now) => if s.cohortName in cs then cs[s.cohortName := Change(cs[s.cohortName], s, now)] else cs
  }

  function HandleAll(cs: Cohorts, rs: seq<Request>): Cohorts {
    if rs == [] then cs else Handle(HandleAll(cs, rs[..|rs| - 1]), rs[|rs| - 1])
  }

  /** In every state the server can reach the queues are ordered and hold nothing from before the current state. */
  lemma {:induction false} ReachableInv(rs: seq<Request>)
    ensures forall n | n in HandleAll(map[], rs) :: Inv(HandleAll(map[], rs)[n])
  {
    if rs != [] {
      ReachableInv(rs[..|rs| - 1]);
      HandleInv(HandleAll(map[], rs[..|rs| - 1]), rs[|rs| - 1]);
    }
  }

  lemma HandleInv(cs: Cohorts, r: Request)
    requires forall n | n in cs :: Inv(cs[n])
    ensures forall n | n in Handle(cs, r) :: Inv(Handle(cs, r)[n])
    ensures forall n | n in Handle(cs, r) && Touches(cs, r, n) :: Groomed(Handle(cs, r)[n], r.now)
    ensures forall n | n in cs && !Touches(cs, r, n) :: n in Handle(cs, r) && Handle(cs, r)[n] == cs[n]
  {
    match r
    case ClockGetAll(now) =>
      forall n | n in cs ensures Inv(Groom(cs[n], now)) && Groomed(Groom(cs[n], now), now) { GroomInv(cs[n], now); }
    case ClockCreate(s, now) =>
      if s.cohortName in cs { GroomInv(cs[s.cohortName], now); }
    case ClockChange(s, now) =>
      if s.cohortName in cs { ChangeInv(cs[s.cohortName], s, now); }
  }

  /** The cohorts that a request grooms. */
  predicate Touches(cs: Cohorts, r: Request, n: string) {
    n in cs && (r.ClockGetAll? || r.state.cohortName == n)
  }

  function ToSenders(states: seq<State>): (out: seq<Update>)
    ensures |out| == |states| && forall i | 0 <= i < |out| :: out[i] == ToSender(states[i])
  {
    seq(|states|, i requires 0 <= i < |states| => ToSender(states[i]))
  }

  /** What one wire is sent about a cohort: the current state first, and then what is queued, in some order. */
  predicate Tells(out: seq<Update>, c: Cohort) {
    out != [] && out[0] == ToSender(c.current) && multiset(out[1..]) == multiset(ToSenders(c.queue))
  }

  lemma SendOne(rest: seq<State>, i: nat)
    requires i < |rest|
    ensures multiset(ToSenders(rest)) == multiset(ToSenders(rest[..i] + rest[i + 1..])) + multiset{ToSender(rest[i])}
  {
    var front, back := ToSenders(rest[..i]), ToSenders(rest[i + 1..]);
    assert ToSenders(rest) == front + [ToSender(rest[i])] + back;
    assert ToSenders(rest[..i] + rest[i + 1..]) == front + back;
  }

  class CohortState {
    var current: State
    var stateQueue: seq<State>
    /** The name it is registered under. */
    ghost const key: string

    constructor (initial: State)
      ensures View() == Cohort(initial, []) && key == initial.cohortName
    {
      current, stateQueue, key := initial, [], initial.cohortName;
    }

    ghost function View(): Cohort
      reads this
    {
      Cohort(current, stateQueue)
    }

    /** prGroomState */
    method GroomState(now: real)
      modifies this
      ensures View() == Groom(old(View()), now)
    {
      while stateQueue != [] && stateQueue[0].applyAtBeat <= current.Secs2Beats(now, 0.0)
        invariant Groom(View(), now) == Groom(old(View()), now)
        decreases |stateQueue|
      {
        current, stateQueue := stateQueue[0], stateQueue[1..];
      }
    }

    method ChangeState(newState: State, now: real)
      modifies this
      ensures View() == Change(old(View()), newState, now)
    {
      if newState.applyAtBeat <= current.applyAtBeat {
        current := newState;
      } else {
        stateQueue := Insert(stateQueue, newState);
      }
      GroomState(now);
    }

    /** prSendState: the current state, and then what is queued, as it lies in the heap. */
    method SendState() returns (out: seq<Update>)
      ensures Tells(out, View())
    {
      var rest, sent := stateQueue, [];
      while rest != []
        invariant multiset(sent) + multiset(ToSenders(rest)) == multiset(ToSenders(stateQueue))
        decreases |rest|
      {
        var i :| 0 <= i < |rest|;
        SendOne(rest, i);
        sent, rest := sent + [ToSender(rest[i])], rest[..i] + rest[i + 1..];
      }
      out := [ToSender(current)] + sent;
      assert out[1..] == sent;
    }

    method GroomAndSend(now: real) returns (out: seq<Update>)
      modifies this
      ensures View() == Groom(old(View()), now) && Tells(out, View())
    {
      GroomState(now);
      out := SendState();
    }
  }

  class SCLOrkClockServer {
    var cohortStateMap: map<string, CohortState>

    constructor ()
      ensures View() == map[] && Valid()
    {
      cohortStateMap := map[];
    }

    ghost predicate Valid()
      reads this
    {
      forall n | n in cohortStateMap :: cohortStateMap[n].key == n
    }

    ghost function View(): Cohorts
      reads this, cohortStateMap.Values
    {
      map n | n in cohortStateMap :: cohortStateMap[n].View()
    }

    ghost predicate GroomedSoFar(was: Cohorts, rest: set<string>, now: real)
      reads this, cohortStateMap.Values
    {
      was.Keys == cohortStateMap.Keys
      && forall n | n in was :: cohortStateMap[n].View() == if n in rest then was[n] else Groom(was[n], now)
    }

    ghost predicate ToldSoFar(out: map<string, seq<Update>>, was: Cohorts, rest: set<string>, now: real) {
      out.Keys == was.Keys - rest && forall n | n in out :: Tells(out[n], Groom(was[n], now))
    }

    method GroomNamed(n: string, now: real, ghost was: Cohorts, ghost rest: set<string>) returns (out: seq<Update>)
      requires Valid() && GroomedSoFar(was, rest, now) && n in rest && n in was
      modifies cohortStateMap[n]
      ensures GroomedSoFar(was, rest - {n}, now) && Tells(out, Groom(was[n], now))
    {
      out := cohortStateMap[n].GroomAndSend(now);
    }

    method SendNext(n: string, now: real, ghost was: Cohorts, ghost rest: set<string>, out: map<string, seq<Update>>)
      returns (out': map<string, seq<Update>>)
      requires Valid() && n in rest && n in was && GroomedSoFar(was, rest, now) && ToldSoFar(out, was, rest, now)
      modifies cohortStateMap[n]
      ensures GroomedSoFar(was, rest - {n}, now) && ToldSoFar(out', was, rest - {n}, now)
    {
      var sent := GroomNamed(n, now, was, rest);
      out' := out[n := sent];
    }

    /** The loop over all cohorts, in whatever order; what is sent is listed by cohort. */
    method SendEverything(now: real, ghost was: Cohorts) returns (out: map<string, seq<Update>>)
      requires Valid() && GroomedSoFar(was, was.Keys, now)
      modifies cohortStateMap.Values
      ensures Valid() && cohortStateMap == old(cohortStateMap) && GroomedSoFar(was, {}, now)
      ensures ToldSoFar(out, was, {}, now)
    {
      out := map[];
      var rest := cohortStateMap.Keys;
      while rest != {}
        invariant rest <= was.Keys && cohortStateMap == old(cohortStateMap) && GroomedSoFar(was, rest, now)
        invariant ToldSoFar(out, was, rest, now)
        decreases |rest|
      {
        NonEmpty(rest);
        var n :| n in rest;
        out := SendNext(n, now, was, rest, out);
        rest := rest - {n};
      }
    }

    method OnClockGetAll(now: real) returns (out: map<string, seq<Update>>)
      requires Valid()
      modifies cohortStateMap.Values
      ensures Valid() && cohortStateMap == old(cohortStateMap) && View() == Handle(old(View()), ClockGetAll(now))
      ensures out.Keys == View().Keys && forall n | n in out :: Tells(out[n], View()[n])
    {
      out := SendEverything(now, View());
    }

    method OnClockCreate(initial: State, now: real) returns (out: seq<Update>)
      requires Valid()
      modifies this, cohortStateMap.Values
      ensures Valid() && View() == Handle(old(View()), ClockCreate(initial, now))
      ensures initial.cohortName !in old(View()) ==> out == [ToAll(initial)]
      ensures initial.cohortName in old(View()) ==> Tells(out, View()[initial.cohortName])
    {
      if initial.cohortName !in cohortStateMap {
        var cohortState := new CohortState(initial);
        cohortStateMap := cohortStateMap[initial.cohortName := cohortState];
        out := [ToAll(initial)];
      } else {
        var cohortState := cohortStateMap[initial.cohortName];
        out := cohortState.GroomAndSend(now);
      }
    }

    method OnClockChange(newState: State, now: real) returns (out: seq<Update>)
      requires Valid()
      modifies cohortStateMap.Values
      ensures Valid() && cohortStateMap == old(cohortStateMap)
        && View() == Handle(old(View()), ClockChange(newState, now))
      ensures out == if newState.cohortName in old(View()) then [ToAll(newState)] else []
    {
      out := [];
      if newState.cohortName in cohortStateMap {
        out := [ToAll(newState)];
        cohortStateMap[newState.cohortName].ChangeState(newState, now);
      }
    }
  }
}
