/** Tempo changes made one after the other: beats as a function of time over the whole of them. */
module ClockTimeline {
  import opened ClockState
  import opened ClockGrooming

  /** `s'` is the change of tempo that `s` makes at some later beat. */
  predicate Link(s: State, s': State) {
    s.tempo > 0.0 && s'.tempo > 0.0 && s.applyAtBeat < s'.applyAtBeat
      && s' == s.SetTempoAtBeat(s'.tempo, s'.applyAtBeat)
  }

  predicate Chain(ss: seq<State>) {
    ss != [] && ss[0].tempo > 0.0 && forall i | 0 <= i < |ss| - 1 :: Link(ss[i], ss[i + 1])
  }

  /** A cohort whose first state is current and whose changes are all still to come. */
  function Line(ss: seq<State>): Cohort
    requires ss != []
  {
    Cohort(ss[0], ss[1..])
  }

  function BeatAt(ss: seq<State>, t: real): real
    requires ss != []
  {
    Groom(Line(ss), t).current.Secs2Beats(t, 0.0)
  }

  lemma ChainTail(ss: seq<State>)
    requires Chain(ss) && |ss| > 1
    ensures Link(ss[0], ss[1]) && Chain(ss[1..]) && Line(ss[1..]) == Cohort(ss[1], ss[2..])
  {
    assert Link(ss[0], ss[1]);
    forall i | 0 <= i < |ss[1..]| - 1 ensures Link(ss[1..][i], ss[1..][i + 1]) {
      assert Link(ss[i + 1], ss[i + 2]);
    }
  }

  lemma GroomFirst(ss: seq<State>, t: real)
    requires Chain(ss) && |ss| > 1
    ensures Groom(Line(ss), t) == if ss[1].applyAtTime <= t then Groom(Line(ss[1..]), t) else Line(ss)
  {
    ChainTail(ss);
    ReachedWhenTime(ss[0], ss[1].applyAtBeat, t);
    assert ss[1..][1..] == ss[2..];
  }

  lemma LinkTimes(s: State, s': State)
    requires Link(s, s')
    ensures s.applyAtTime < s'.applyAtTime
    ensures s'.Secs2Beats(s'.applyAtTime, 0.0) == s.Secs2Beats(s'.applyAtTime, 0.0) == s'.applyAtBeat
  {
    ChangeIsContinuous(s, s'.tempo, s'.applyAtBeat);
    var x := (s'.applyAtBeat - s.applyAtBeat) / s.tempo;
    Cancel(s'.applyAtBeat - s.applyAtBeat, s.tempo);
    Scale(s.tempo, x, 0.0);
  }

  /** The state that is current at `t` is the one whose time has come while the next one's has not. */
  lemma {:induction false} CurrentByTime(ss: seq<State>, t: real) returns (k: nat)
    requires Chain(ss)
    ensures k < |ss| && Groom(Line(ss), t) == Cohort(ss[k], ss[k + 1..])
    ensures k == 0 || ss[k].applyAtTime <= t
    ensures k + 1 < |ss| ==> t < ss[k + 1].applyAtTime
    decreases |ss|
  {
    k := 0;
    if |ss| > 1 {
      GroomFirst(ss, t);
      if ss[1].applyAtTime <= t {
        ChainTail(ss);
        k := CurrentByTime(ss[1..], t);
        assert ss[1..][k + 1..] == ss[k + 2..];
        k := k + 1;
      }
    }
  }

  // ---- Continuous and strictly increasing ----

  predicate TempoBetween(ss: seq<State>, low: real, high: real) {
    0.0 < low <= high && forall i | 0 <= i < |ss| :: low <= ss[i].tempo <= high
  }

  lemma TailBetween(ss: seq<State>, low: real, high: real)
    requires TempoBetween(ss, low, high) && |ss| > 1
    ensures TempoBetween(ss[1..], low, high)
  {}

  lemma AlongOneState(s: State, t: real, u: real, low: real, high: real)
    requires t <= u && low <= s.tempo <= high
    ensures low * (u - t) <= s.Secs2Beats(u, 0.0) - s.Secs2Beats(t, 0.0) <= high * (u - t)
  {
    var d := u - t;
    assert s.Secs2Beats(u, 0.0) - s.Secs2Beats(t, 0.0) == s.tempo * d;
    assert (s.tempo - low) * d >= 0.0 && (high - s.tempo) * d >= 0.0;
  }

  lemma AtTheSeam(ss: seq<State>)
    requires Chain(ss) && |ss| > 1
    ensures BeatAt(ss[1..], ss[1].applyAtTime) == ss[0].Secs2Beats(ss[1].applyAtTime, 0.0)
  {
    ChainTail(ss);
    LinkTimes(ss[0], ss[1]);
    if |ss| > 2 {
      ChainTail(ss[1..]);
      LinkTimes(ss[1], ss[2]);
      GroomFirst(ss[1..], ss[1].applyAtTime);
    }
  }

  /**
   * The continuous timeline: between any two times the beat advances at least as fast as the slowest
   * tempo and at most as fast as the fastest, across all changes in between.
   */
  lemma {:induction false} BeatsAdvance(ss: seq<State>, t: real, u: real, low: real, high: real)
    requires Chain(ss) && TempoBetween(ss, low, high) && t <= u
    ensures low * (u - t) <= BeatAt(ss, u) - BeatAt(ss, t) <= high * (u - t)
    decreases |ss|
  {
    if |ss| == 1 {
      AlongOneState(ss[0], t, u, low, high);
    } else {
      GroomFirst(ss, t);
      GroomFirst(ss, u);
      ChainTail(ss);
      TailBetween(ss, low, high);
      var seam := ss[1].applyAtTime;
      if u < seam {
        AlongOneState(ss[0], t, u, low, high);
      } else if seam <= t {
        BeatsAdvance(ss[1..], t, u, low, high);
      } else {
        AlongOneState(ss[0], t, seam, low, high);
        AtTheSeam(ss);
        BeatsAdvance(ss[1..], seam, u, low, high);
        assert low * (u - t) == low * (u - seam) + low * (seam - t);
        assert high * (u - t) == high * (u - seam) + high * (seam - t);
      }
    }
  }

  lemma {:induction false} TempoBounds(ss: seq<State>) returns (low: real, high: real)
    requires Chain(ss)
    ensures TempoBetween(ss, low, high)
    decreases |ss|
  {
    low, high := ss[0].tempo, ss[0].tempo;
    if |ss| > 1 {
      ChainTail(ss);
      low, high := TempoBounds(ss[1..]);
      low := if ss[0].tempo < low then ss[0].tempo else low;
      high := if ss[0].tempo > high then ss[0].tempo else high;
      forall i | 0 <= i < |ss| ensures low <= ss[i].tempo <= high {
        assert i > 0 ==> ss[i] == ss[1..][i - 1];
      }
    }
  }

  /** What rates between `low` and `high` make of a span of time of at most `delta`. */
  lemma Rates(x: real, y: real, low: real, high: real, d: real, delta: real)
    requires 0.0 < low <= high && 0.0 <= d <= delta && low * d <= y - x <= high * d
    ensures 0.0 <= y - x <= high * delta && (d > 0.0 ==> x < y)
  {
    Scale(high, d, delta);
    assert low * d >= 0.0;
    assert d > 0.0 ==> low * d > 0.0;
  }

  lemma StrictlyIncreasing(ss: seq<State>, t: real, u: real)
    requires Chain(ss) && t < u
    ensures BeatAt(ss, t) < BeatAt(ss, u)
  {
    var low, high := TempoBounds(ss);
    BeatsAdvance(ss, t, u, low, high);
    Rates(BeatAt(ss, t), BeatAt(ss, u), low, high, u - t, u - t);
  }

  predicate Near(x: real, y: real, distance: real) {
    -distance <= x - y <= distance
  }

  lemma NearLater(ss: seq<State>, t: real, u: real, low: real, high: real, delta: real)
    requires Chain(ss) && TempoBetween(ss, low, high) && t <= u <= t + delta
    ensures 0.0 <= BeatAt(ss, u) - BeatAt(ss, t) <= high * delta
  {
    BeatsAdvance(ss, t, u, low, high);
    Rates(BeatAt(ss, t), BeatAt(ss, u), low, high, u - t, delta);
  }

  lemma Fraction(x: real, y: real) returns (z: real)
    requires x > 0.0 && y > 0.0
    ensures z > 0.0 && y * z == x
  {
    z := x / y;
    Cancel(x, y);
    Scale(y, z, 0.0);
  }

  /** Uniform continuity over all of time. */
  lemma Continuous(ss: seq<State>, epsilon: real) returns (delta: real)
    requires Chain(ss) && epsilon > 0.0
    ensures delta > 0.0 && forall t, u | Near(t, u, delta) :: Near(BeatAt(ss, t), BeatAt(ss, u), epsilon)
  {
    var low, high := TempoBounds(ss);
    delta := Fraction(epsilon, high);
    forall t, u | Near(t, u, delta) ensures Near(BeatAt(ss, t), BeatAt(ss, u), epsilon) {
      if t <= u {
        NearLater(ss, t, u, low, high, delta);
      } else {
        NearLater(ss, u, t, low, high, delta);
      }
    }
  }

  // ---- The server plays the timeline ----

  /** The server's cohort after the given changes arrived at the given times. */
  function Play(s: State, changes: seq<State>, times: seq<real>): Cohort
    requires |changes| == |times|
  {
    if changes == [] then Cohort(s, []) else
      var n := |changes| - 1;
      Change(Play(s, changes[..n], times[..n]), changes[n], times[n])
  }

  predicate InOrder(times: seq<real>) {
    forall i, j | 0 <= i < j < |times| :: times[i] <= times[j]
  }

  lemma {:induction false} LaterBeats(ss: seq<State>, i: nat, j: nat)
    requires Chain(ss) && i <= j < |ss|
    ensures ss[i].applyAtBeat <= ss[j].applyAtBeat && (i < j ==> ss[i].applyAtBeat < ss[j].applyAtBeat)
  {
    if i < j {
      LaterBeats(ss, i, j - 1);
      assert Link(ss[j - 1], ss[j - 1 + 1]);
    }
  }

  lemma ChainPrefix(ss: seq<State>, n: nat)
    requires Chain(ss) && 0 < n <= |ss|
    ensures Chain(ss[..n])
  {
    forall i | 0 <= i < n - 1 ensures Link(ss[..n][i], ss[..n][i + 1]) {
      assert Link(ss[i], ss[i + 1]);
    }
  }

  lemma ChainForward(ss: seq<State>)
    requires Chain(ss)
    ensures Forward(Line(ss))
  {
    forall i | 0 <= i < |ss| ensures ss[i].tempo > 0.0 {
      assert i > 0 ==> Link(ss[i - 1], ss[i - 1 + 1]);
    }
  }

  /** A change made from the last of the chain goes to the end of the queue, whatever was groomed before. */
  lemma ChainGrows(ss: seq<State>, s: State, t: real, u: real)
    requires Chain(ss + [s]) && ss != [] && t <= u
    ensures Change(Groom(Line(ss), t), s, u) == Groom(Line(ss + [s]), u)
  {
    var more := ss + [s];
    ChainPrefix(more, |ss|);
    assert more[..|ss|] == ss;
    var k := CurrentByTime(ss, t);
    LaterBeats(more, k, |ss|);
    forall i | k < i < |ss| ensures ss[i].applyAtBeat <= s.applyAtBeat {
      LaterBeats(more, i, |ss|);
    }
    InsertAtEnd(ss[k + 1..], s);
    ChainForward(ss);
    GroomThenQueue(Line(ss), s, t, u);
    assert Line(more) == Cohort(ss[0], ss[1..] + [s]);
  }

  lemma {:induction false} PlayIs(ss: seq<State>, times: seq<real>)
    requires Chain(ss) && |times| == |ss| - 1 && InOrder(times)
    ensures Play(ss[0], ss[1..], times) == if times == [] then Line(ss) else Groom(Line(ss), times[|times| - 1])
    decreases |ss|
  {
    var n := |ss| - 1;
    if n > 0 {
      var before, u := ss[..n], times[n - 1];
      ChainPrefix(ss, n);
      PlayIs(before, times[..n - 1]);
      assert ss == before + [ss[n]];
      assert ss[1..][..n - 1] == before[1..];
      ChainGrows(before, ss[n], if n == 1 then u else times[n - 2], u);
    }
  }

  /**
   * When every change was made from the one before it, at a later beat, the server's current state is
   * at any later time the one of the timeline, at whatever times the changes arrived.
   */
  lemma ServerPlaysTimeline(ss: seq<State>, times: seq<real>, now: real)
    requires Chain(ss) && |times| == |ss| - 1 && InOrder(times) && forall i | 0 <= i < |times| :: times[i] <= now
    ensures Groom(Play(ss[0], ss[1..], times), now) == Groom(Line(ss), now)
    ensures Groom(Play(ss[0], ss[1..], times), now).current.Secs2Beats(now, 0.0) == BeatAt(ss, now)
  {
    PlayIs(ss, times);
    if times != [] {
      ChainForward(ss);
      GroomComposes(Line(ss), times[|times| - 1], now);
    }
  }
}
