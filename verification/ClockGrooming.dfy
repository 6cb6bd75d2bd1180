/** A clock's current state and its queue of changes to come. */
module ClockGrooming {
  import opened ClockState

  /** The queue is what the priority queue hands out: by beat, and among equal beats first come, first out. */
  datatype Cohort = Cohort(current: State, queue: seq<State>)

  /** Remove the changes whose beat has been reached from the queue; the last of them is the current state. */
  function Groom(c: Cohort, now: real): Cohort
    decreases |c.queue|
  {
    if c.queue != [] && c.queue[0].applyAtBeat <= c.current.Secs2Beats(now, 0.0) then
      Groom(Cohort(c.queue[0], c.queue[1..]), now)
    else
      c
  }

  function Insert(queue: seq<State>, s: State): seq<State> {
    if queue == [] || s.applyAtBeat < queue[0].applyAtBeat then [s] + queue
    else [queue[0]] + Insert(queue[1..], s)
  }

  /** A change: at or before the current state's beat it replaces that, otherwise it is queued. */
  function Change(c: Cohort, s: State, now: real): Cohort {
    Groom(if s.applyAtBeat <= c.current.applyAtBeat then c.(current := s) else c.(queue := Insert(c.queue, s)), now)
  }

  predicate Ordered(queue: seq<State>) {
    forall i, j | 0 <= i < j < |queue| :: queue[i].applyAtBeat <= queue[j].applyAtBeat
  }

  /** The queue is ordered, and nothing in it is for a beat before the current state's. */
  predicate Inv(c: Cohort) {
    Ordered(c.queue) && NotBefore(c.queue, c.current.applyAtBeat)
  }

  /** Nothing in the queue is due. */
  predicate Groomed(c: Cohort, now: real) {
    forall i | 0 <= i < |c.queue| :: c.current.Secs2Beats(now, 0.0) < c.queue[i].applyAtBeat
  }

  predicate NoneBackward(queue: seq<State>) {
    forall i | 0 <= i < |queue| :: queue[i].tempo >= 0.0
  }

  predicate Forward(c: Cohort) {
    c.current.tempo >= 0.0 && NoneBackward(c.queue)
  }

  predicate NotBefore(queue: seq<State>, beat: real) {
    forall i | 0 <= i < |queue| :: beat <= queue[i].applyAtBeat
  }

  lemma {:induction false} InsertNotBefore(queue: seq<State>, s: State, beat: real)
    requires NotBefore(queue, beat) && beat <= s.applyAtBeat
    ensures NotBefore(Insert(queue, s), beat)
    decreases |queue|
  {
    if queue != [] && queue[0].applyAtBeat <= s.applyAtBeat {
      InsertNotBefore(queue[1..], s, beat);
    }
  }

  lemma PutFirst(s: State, rest: seq<State>)
    requires Ordered(rest) && NotBefore(rest, s.applyAtBeat)
    ensures Ordered([s] + rest)
  {}

  lemma {:induction false} InsertOrdered(queue: seq<State>, s: State)
    requires Ordered(queue)
    ensures Ordered(Insert(queue, s))
    decreases |queue|
  {
    if queue == [] || s.applyAtBeat < queue[0].applyAtBeat {
      PutFirst(s, queue);
    } else {
      InsertOrdered(queue[1..], s);
      InsertNotBefore(queue[1..], s, queue[0].applyAtBeat);
      PutFirst(queue[0], Insert(queue[1..], s));
    }
  }

  /** Nothing is lost and nothing invented. */
  lemma {:induction false} InsertKeeps(queue: seq<State>, s: State)
    ensures multiset(Insert(queue, s)) == multiset(queue) + multiset{s}
    decreases |queue|
  {
    if queue == [] || s.applyAtBeat < queue[0].applyAtBeat {
      assert multiset([s] + queue) == multiset{s} + multiset(queue);
    } else {
      InsertKeeps(queue[1..], s);
      assert queue == [queue[0]] + queue[1..];
    }
  }

  lemma Popped(c: Cohort)
    requires Inv(c) && c.queue != []
    ensures Inv(Cohort(c.queue[0], c.queue[1..]))
  {}

  lemma NothingDue(c: Cohort, now: real)
    requires Inv(c) && (c.queue != [] ==> c.current.Secs2Beats(now, 0.0) < c.queue[0].applyAtBeat)
    ensures Groomed(c, now)
  {}

  /** Grooming keeps the order and leaves nothing that is due. */
  lemma {:induction false} GroomInv(c: Cohort, now: real)
    requires Inv(c)
    ensures Inv(Groom(c, now)) && Groomed(Groom(c, now), now)
    decreases |c.queue|
  {
    if c.queue != [] && c.queue[0].applyAtBeat <= c.current.Secs2Beats(now, 0.0) {
      Popped(c);
      GroomInv(Cohort(c.queue[0], c.queue[1..]), now);
    } else {
      NothingDue(c, now);
    }
  }

  /** The new current state is the old one or one from the queue, and what comes after it stays queued. */
  lemma {:induction false} GroomDropsFront(c: Cohort, now: real) returns (k: nat)
    ensures k <= |c.queue| && Groom(c, now) == Cohort(([c.current] + c.queue)[k], c.queue[k..])
    decreases |c.queue|
  {
    if c.queue != [] && c.queue[0].applyAtBeat <= c.current.Secs2Beats(now, 0.0) {
      k := GroomDropsFront(Cohort(c.queue[0], c.queue[1..]), now);
      assert c.queue[1..][k..] == c.queue[k + 1..];
      k := k + 1;
    } else {
      k := 0;
    }
  }

  lemma ChangeInv(c: Cohort, s: State, now: real)
    requires Inv(c)
    ensures Inv(Change(c, s, now)) && Groomed(Change(c, s, now), now)
  {
    if s.applyAtBeat <= c.current.applyAtBeat {
      GroomInv(c.(current := s), now);
    } else {
      InsertOrdered(c.queue, s);
      InsertNotBefore(c.queue, s, c.current.applyAtBeat);
      GroomInv(c.(queue := Insert(c.queue, s)), now);
    }
  }

  /** A queued change comes after those of its beat and before those of later ones; the others keep their order. */
  lemma {:induction false} InsertPlace(queue: seq<State>, s: State) returns (k: nat)
    requires Ordered(queue)
    ensures k <= |queue| && Insert(queue, s) == queue[..k] + [s] + queue[k..]
    ensures (forall i | 0 <= i < k :: queue[i].applyAtBeat <= s.applyAtBeat)
      && NotBeforeStrict(queue[k..], s.applyAtBeat)
    decreases |queue|
  {
    k := 0;
    if queue != [] && queue[0].applyAtBeat <= s.applyAtBeat {
      k := InsertPlace(queue[1..], s);
      assert queue[..k + 1] == [queue[0]] + queue[1..][..k] && queue[1..][k..] == queue[k + 1..];
      k := k + 1;
    }
  }

  predicate NotBeforeStrict(queue: seq<State>, beat: real) {
    forall i | 0 <= i < |queue| :: beat < queue[i].applyAtBeat
  }

  /**
   * What a change does: for a beat that is not past the current state's it takes the place of that
   * state, and otherwise it is queued; nothing else is lost but what is due before what becomes current.
   */
  lemma ChangeTakes(c: Cohort, s: State, now: real) returns (all: seq<State>, k: nat)
    ensures all != [] && k < |all| && Change(c, s, now) == Cohort(all[k], all[k + 1..])
    ensures if s.applyAtBeat <= c.current.applyAtBeat then all == [s] + c.queue
      else all[0] == c.current && multiset(all[1..]) == multiset(c.queue) + multiset{s}
  {
    var d := if s.applyAtBeat <= c.current.applyAtBeat then c.(current := s) else c.(queue := Insert(c.queue, s));
    all := [d.current] + d.queue;
    k := GroomDropsFront(d, now);
    assert all[1..] == d.queue && all[k + 1..] == d.queue[k..];
    InsertKeeps(c.queue, s);
  }

  // ---- Grooming composes ----

  lemma LaterIsFurther(s: State, t: real, u: real)
    requires s.tempo >= 0.0 && t <= u
    ensures s.Secs2Beats(t, 0.0) <= s.Secs2Beats(u, 0.0)
  {
    if s.tempo > 0.0 {
      Scale(s.tempo, t - s.applyAtTime, u - s.applyAtTime);
    }
  }

  /** Grooming now and again later is grooming once, later. */
  lemma {:induction false} GroomComposes(c: Cohort, t: real, u: real)
    requires Forward(c) && t <= u
    ensures Groom(Groom(c, t), u) == Groom(c, u)
    decreases |c.queue|
  {
    if c.queue != [] && c.queue[0].applyAtBeat <= c.current.Secs2Beats(t, 0.0) {
      LaterIsFurther(c.current, t, u);
      GroomComposes(Cohort(c.queue[0], c.queue[1..]), t, u);
    }
  }

  ghost predicate Composes(c: Cohort) {
    forall t, u | t <= u :: Groom(Groom(c, t), u) == Groom(c, u)
  }

  /** It is not when the current state runs backwards: it leaves beats that it had reached. */
  lemma BackwardDoesNotCompose(c: Cohort) returns (t: real, u: real)
    requires c.queue != [] && c.current.tempo < 0.0
    ensures t <= u && Groom(Groom(c, t), u) != Groom(c, u)
  {
    var beat := c.queue[0].applyAtBeat;
    t, u := c.current.Beats2Secs(beat, 0.0), c.current.Beats2Secs(beat - 1.0, 0.0);
    RoundTrips(c.current, beat, 0.0);
    RoundTrips(c.current, beat - 1.0, 0.0);
    BackInTime(c.current, beat);
    Shorter(c, t, u);
  }

  lemma BackInTime(s: State, beat: real)
    requires s.tempo < 0.0
    ensures s.Beats2Secs(beat, 0.0) <= s.Beats2Secs(beat - 1.0, 0.0)
  {
    var x, y := (beat - s.applyAtBeat) / s.tempo, (beat - 1.0 - s.applyAtBeat) / s.tempo;
    Cancel(beat - s.applyAtBeat, s.tempo);
    Cancel(beat - 1.0 - s.applyAtBeat, s.tempo);
    Scale(-s.tempo, x, y);
  }

  lemma {:induction false} GroomShortens(c: Cohort, t: real)
    ensures |Groom(c, t).queue| <= |c.queue|
    decreases |c.queue|
  {
    if c.queue != [] && c.queue[0].applyAtBeat <= c.current.Secs2Beats(t, 0.0) {
      GroomShortens(Cohort(c.queue[0], c.queue[1..]), t);
    }
  }

  lemma Shorter(c: Cohort, t: real, u: real)
    requires c.queue != [] && c.current.Secs2Beats(u, 0.0) < c.queue[0].applyAtBeat <= c.current.Secs2Beats(t, 0.0)
    ensures Groom(Groom(c, t), u) != Groom(c, u)
  {
    var d := Cohort(c.queue[0], c.queue[1..]);
    GroomShortens(d, t);
    GroomShortens(Groom(d, t), u);
  }

  /** When no state in the queue runs backwards, the current one decides. */
  lemma ComposesIff(c: Cohort)
    requires NoneBackward(c.queue)
    ensures Composes(c) <==> c.queue == [] || c.current.tempo >= 0.0
  {
    if c.queue != [] && c.current.tempo < 0.0 {
      var t, u := BackwardDoesNotCompose(c);
    } else {
      forall t, u | t <= u ensures Groom(Groom(c, t), u) == Groom(c, u) {
        if c.queue != [] {
          GroomComposes(c, t, u);
        }
      }
    }
  }

  lemma InsertAtEnd(queue: seq<State>, s: State)
    requires forall i | 0 <= i < |queue| :: queue[i].applyAtBeat <= s.applyAtBeat
    ensures Insert(queue, s) == queue + [s]
    decreases |queue|
  {
    if queue != [] {
      InsertAtEnd(queue[1..], s);
      assert queue == [queue[0]] + queue[1..];
    }
  }

  /** A change that comes after a groom ends up as if it had been queued before it. */
  lemma {:induction false} GroomThenQueue(c: Cohort, s: State, t: real, u: real)
    requires Forward(c) && t <= u
    ensures var d := Groom(c, t);
      Groom(d.(queue := d.queue + [s]), u) == Groom(c.(queue := c.queue + [s]), u)
    decreases |c.queue|
  {
    if c.queue != [] && c.queue[0].applyAtBeat <= c.current.Secs2Beats(t, 0.0) {
      LaterIsFurther(c.current, t, u);
      GroomThenQueue(Cohort(c.queue[0], c.queue[1..]), s, t, u);
      assert (c.queue + [s])[1..] == c.queue[1..] + [s];
    }
  }
}
