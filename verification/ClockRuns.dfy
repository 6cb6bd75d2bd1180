/**
 * The clock server over any requests: asking for clocks and creating those that exist leaves them
 * running, and a clock plays its timeline whatever else is asked of the server.
 */
module ClockRuns {
  import opened ClockState
  import opened ClockGrooming
  import opened ClockTimeline
  import opened ClockServer

  /** The request asks for the clock, or wants to create it although it exists; whatever state it carries. */
  predicate Asks(cs: Cohorts, r: Request, n: string) {
    n in cs && (r.ClockGetAll? || (r.ClockCreate? && r.state.cohortName == n))
  }

  /** Such a request only makes due changes current: one of the states becomes current, with those behind it queued. */
  lemma AskedKeepsRunning(cs: Cohorts, r: Request, n: string) returns (k: nat)
    requires Asks(cs, r, n)
    ensures n in Handle(cs, r) && k <= |cs[n].queue|
    ensures Handle(cs, r)[n] == Cohort(([cs[n].current] + cs[n].queue)[k], cs[n].queue[k..])
    ensures Inv(cs[n]) ==> Groomed(Handle(cs, r)[n], r.now)
  {
    k := GroomDropsFront(cs[n], r.now);
    if Inv(cs[n]) {
      GroomInv(cs[n], r.now);
    }
  }

  /** With nothing running backwards the clock is at any later time where it would be without the request. */
  lemma AskedChangesNothing(cs: Cohorts, r: Request, n: string, later: real)
    requires Asks(cs, r, n) && Forward(cs[n]) && r.now <= later
    ensures Groom(Handle(cs, r)[n], later) == Groom(cs[n], later)
  {
    GroomComposes(cs[n], r.now, later);
  }

  /** A clock that is not there yet starts with the state that it is created with. */
  lemma CreatedAsAsked(cs: Cohorts, s: State, now: real)
    requires s.cohortName !in cs
    ensures Handle(cs, ClockCreate(s, now)).Keys == cs.Keys + {s.cohortName}
    ensures Handle(cs, ClockCreate(s, now))[s.cohortName] == Cohort(s, [])
  {}

  /** A change takes the place of the current state or is queued; one for a clock that is not there does nothing. */
  lemma ChangedAsAsked(cs: Cohorts, s: State, now: real) returns (all: seq<State>, k: nat)
    ensures s.cohortName !in cs ==> Handle(cs, ClockChange(s, now)) == cs
    ensures s.cohortName in cs ==>
      var c := cs[s.cohortName];
      && Handle(cs, ClockChange(s, now)).Keys == cs.Keys
      && k < |all| && Handle(cs, ClockChange(s, now))[s.cohortName] == Cohort(all[k], all[k + 1..])
      && if s.applyAtBeat <= c.current.applyAtBeat then all == [s] + c.queue
         else all[0] == c.current && multiset(all[1..]) == multiset(c.queue) + multiset{s}
  {
    all, k := [], 0;
    if s.cohortName in cs {
      all, k := ChangeTakes(cs[s.cohortName], s, now);
    }
  }

  /** No request touches a clock of another name, and asking for clocks makes none. */
  lemma OthersUntouched(cs: Cohorts, r: Request, n: string)
    requires !r.ClockGetAll? && r.state.cohortName != n
    ensures n in Handle(cs, r) <==> n in cs
    ensures n in cs ==> Handle(cs, r)[n] == cs[n]
  {}

  lemma AskingMakesNone(cs: Cohorts, now: real)
    ensures Handle(cs, ClockGetAll(now)).Keys == cs.Keys
  {}

  /** The changes that the requests make to a clock. */
  function ChangesTo(rs: seq<Request>, n: string): seq<State> {
    if rs == [] then [] else
      var last := rs[|rs| - 1];
      ChangesTo(rs[..|rs| - 1], n) + if last.ClockChange? && last.state.cohortName == n then [last.state] else []
  }

  predicate TimesRise(rs: seq<Request>) {
    |rs| >= 2 ==> rs[|rs| - 2].now <= rs[|rs| - 1].now && TimesRise(rs[..|rs| - 1])
  }

  /** The latest time that was read. */
  function LastTime(rs: seq<Request>, otherwise: real): real {
    if rs == [] then otherwise else rs[|rs| - 1].now
  }

  lemma ChainFront(s: State, changes: seq<State>, last: State)
    requires Chain([s] + (changes + [last]))
    ensures Chain([s] + changes)
  {
    var all := [s] + (changes + [last]);
    ChainPrefix(all, |all| - 1);
    assert all[..|all| - 1] == [s] + changes;
  }

  /** After any requests a clock is where its timeline, groomed at some time not later than now, is. */
  lemma {:induction false} ClockIs(cs: Cohorts, rs: seq<Request>, n: string, s: State, start: real) returns (t: real)
    requires n in cs && cs[n] == Cohort(s, []) && TimesRise(rs) && Chain([s] + ChangesTo(rs, n))
    requires forall i | 0 <= i < |rs| :: start <= rs[i].now
    ensures n in HandleAll(cs, rs) && HandleAll(cs, rs)[n] == Groom(Line([s] + ChangesTo(rs, n)), t)
    ensures t <= LastTime(rs, start)
    decreases |rs|
  {
    if rs == [] {
      t := start;
      assert [s] + [] == [s];
    } else {
      var before, last := rs[..|rs| - 1], rs[|rs| - 1];
      var changes := ChangesTo(before, n);
      if last.ClockChange? && last.state.cohortName == n {
        ChainFront(s, changes, last.state);
        assert [s] + changes + [last.state] == [s] + (changes + [last.state]);
      } else {
        assert changes + [] == changes;
      }
      t := ClockIs(cs, before, n, s, start);
      t := ClockStep(HandleAll(cs, before), last, n, [s] + changes, t);
    }
  }

  lemma ClockStep(cs: Cohorts, r: Request, n: string, ss: seq<State>, t: real) returns (u: real)
    requires n in cs && Chain(ss) && cs[n] == Groom(Line(ss), t) && t <= r.now
    requires r.ClockChange? && r.state.cohortName == n ==> Chain(ss + [r.state])
    ensures n in Handle(cs, r) && u <= r.now
    ensures Handle(cs, r)[n] == Groom(Line(if r.ClockChange? && r.state.cohortName == n then ss + [r.state] else ss), u)
  {
    if r.ClockChange? && r.state.cohortName == n {
      ChainGrows(ss, r.state, t, r.now);
      u := r.now;
    } else if Asks(cs, r, n) {
      ChainForward(ss);
      GroomComposes(Line(ss), t, r.now);
      u := r.now;
    } else {
      u := t;
    }
  }

  /**
   * The server plays a clock's timeline whatever is asked of it in between: other clocks may be
   * created and changed, this one asked for and created again with any state, as often as one likes.
   */
  lemma ServerPlaysOn(cs: Cohorts, rs: seq<Request>, n: string, s: State, start: real, now: real)
    requires n in cs && cs[n] == Cohort(s, []) && TimesRise(rs) && Chain([s] + ChangesTo(rs, n))
    requires (forall i | 0 <= i < |rs| :: start <= rs[i].now) && LastTime(rs, start) <= now
    ensures n in HandleAll(cs, rs)
    ensures Groom(HandleAll(cs, rs)[n], now).current.Secs2Beats(now, 0.0) == BeatAt([s] + ChangesTo(rs, n), now)
  {
    var t := ClockIs(cs, rs, n, s, start);
    ChainForward([s] + ChangesTo(rs, n));
    GroomComposes(Line([s] + ChangesTo(rs, n)), t, now);
  }
}
