/** A stretch of constant tempo: the map between beats and server time that holds from some beat on. */
module ClockState {
  /** Truncation towards zero. */
  function Trunc(x: real): int {
    if x >= 0.0 then x.Floor else -(-x).Floor
  }

  /** `timeDiff` is how far the local clock is ahead of the server's. */
  datatype State = State(
    cohortName: string,
    applyAtBeat: real,
    applyAtTime: real,
    tempo: real,
    beatsPerBar: real,
    baseBar: real,
    baseBarBeat: real)
  {
    function Beats2Secs(beats: real, timeDiff: real): real
      requires tempo != 0.0
    {
      applyAtTime + (beats - applyAtBeat) / tempo + timeDiff
    }

    function Secs2Beats(secs: real, timeDiff: real): real {
      applyAtBeat + tempo * ((secs - timeDiff) - applyAtTime)
    }

    function SetTempoAtBeat(newTempo: real, beats: real): State
      requires tempo != 0.0
    {
      State(cohortName, beats, Beats2Secs(beats, 0.0), newTempo, beatsPerBar, baseBar, baseBarBeat)
    }

    function Beats2Bars(beats: real): int
      requires beatsPerBar != 0.0
    {
      Trunc(baseBar + (beats - baseBarBeat) / beatsPerBar)
    }

    function Bars2Beats(bars: real): real {
      baseBarBeat + (bars - baseBar) * beatsPerBar
    }
  }

  lemma Cancel(x: real, y: real)
    requires y != 0.0
    ensures y * (x / y) == x && (y * x) / y == x
  {}

  /** Beats and seconds are each other's inverses, on every clock and at every time difference. */
  lemma RoundTrips(s: State, x: real, timeDiff: real)
    requires s.tempo != 0.0
    ensures s.Secs2Beats(s.Beats2Secs(x, timeDiff), timeDiff) == x
    ensures s.Beats2Secs(s.Secs2Beats(x, timeDiff), timeDiff) == x
  {
    Cancel(x - s.applyAtBeat, s.tempo);
    Cancel(x - timeDiff - s.applyAtTime, s.tempo);
  }

  /** A whole number of bars comes back from beats. */
  lemma BarsRoundTrip(s: State, bars: int)
    requires s.beatsPerBar != 0.0
    ensures s.Beats2Bars(s.Bars2Beats(bars as real)) == bars
  {
    var x := bars as real - s.baseBar;
    Cancel(x, s.beatsPerBar);
    assert s.Bars2Beats(bars as real) - s.baseBarBeat == s.beatsPerBar * x;
  }

  /**
   * A tempo change is continuous: at its beat the old and the new state agree on time and beat; bars
   * stay where they are.
   */
  lemma ChangeIsContinuous(s: State, newTempo: real, beats: real)
    requires s.tempo != 0.0 && newTempo != 0.0
    ensures var s' := s.SetTempoAtBeat(newTempo, beats);
      && s'.Beats2Secs(beats, 0.0) == s.Beats2Secs(beats, 0.0) == s'.applyAtTime
      && s'.Secs2Beats(s'.applyAtTime, 0.0) == s.Secs2Beats(s'.applyAtTime, 0.0) == beats
      && s'.tempo == newTempo && s'.cohortName == s.cohortName
      && forall bars :: s'.Bars2Beats(bars) == s.Bars2Beats(bars)
  {
    RoundTrips(s, beats, 0.0);
    var s' := s.SetTempoAtBeat(newTempo, beats);
    Cancel(0.0, newTempo);
    assert s'.Secs2Beats(s'.applyAtTime, 0.0) == beats + newTempo * 0.0;
  }

  /** With a positive tempo a beat has been reached exactly when its time has come. */
  lemma ReachedWhenTime(s: State, beat: real, now: real)
    requires s.tempo > 0.0
    ensures beat <= s.Secs2Beats(now, 0.0) <==> s.Beats2Secs(beat, 0.0) <= now
  {
    var x, y := now - s.applyAtTime, (beat - s.applyAtBeat) / s.tempo;
    Cancel(beat - s.applyAtBeat, s.tempo);
    Scale(s.tempo, y, x);
  }

  /** A local clock that is ahead reads later by as much, for the same beat. */
  lemma LocalTime(s: State, beat: real, time: real, timeDiff: real)
    requires s.tempo != 0.0
    ensures s.Beats2Secs(beat, timeDiff) == s.Beats2Secs(beat, 0.0) + timeDiff
    ensures s.Secs2Beats(time + timeDiff, timeDiff) == s.Secs2Beats(time, 0.0)
  {}

  /** A state begins at its beat and time, and goes on at its tempo. */
  lemma RunsAtTempo(s: State, d: real)
    ensures s.Secs2Beats(s.applyAtTime + d, 0.0) == s.applyAtBeat + s.tempo * d
  {}

  /** Bars are counted from the base, and each has its beats. */
  lemma BarsHaveBeats(s: State, bars: real)
    ensures s.Bars2Beats(s.baseBar) == s.baseBarBeat
    ensures s.Bars2Beats(bars + 1.0) == s.Bars2Beats(bars) + s.beatsPerBar
  {
    assert (bars + 1.0 - s.baseBar) * s.beatsPerBar == (bars - s.baseBar) * s.beatsPerBar + s.beatsPerBar;
  }

  /** Truncation goes towards zero, by less than one. */
  lemma TruncTowardsZero(x: real)
    ensures x >= 0.0 ==> Trunc(x) as real <= x < Trunc(x) as real + 1.0
    ensures x <= 0.0 ==> Trunc(x) as real - 1.0 < x <= Trunc(x) as real
  {}

  /** A beat is in the bar that has begun, or before the first bar in the one that has not ended. */
  lemma BarOfBeat(s: State, beats: real, bar: int)
    requires s.beatsPerBar > 0.0
    requires if bar > 0 || (bar == 0 && s.Bars2Beats(0.0) <= beats)
      then s.Bars2Beats(bar as real) <= beats < s.Bars2Beats(bar as real + 1.0)
      else s.Bars2Beats(bar as real - 1.0) < beats <= s.Bars2Beats(bar as real)
    ensures s.Beats2Bars(beats) == bar
  {
    var x := (beats - s.baseBarBeat) / s.beatsPerBar;
    Cancel(beats - s.baseBarBeat, s.beatsPerBar);
    BarsInOrder(s, bar as real, beats, x);
    BarsInOrder(s, bar as real + 1.0, beats, x);
    BarsInOrder(s, bar as real - 1.0, beats, x);
    BarsInOrder(s, 0.0, beats, x);
    TruncTowardsZero(s.baseBar + x);
    var n := Trunc(s.baseBar + x);
    if bar > 0 || (bar == 0 && s.Bars2Beats(0.0) <= beats) {
      assert bar as real <= s.baseBar + x < bar as real + 1.0;
      SameInt(n as real, bar as real, n, bar);
    } else {
      assert bar as real - 1.0 < s.baseBar + x <= bar as real;
      SameInt(n as real, bar as real, n, bar);
    }
  }

  lemma SameInt(x: real, y: real, n: int, m: int)
    requires x == n as real && y == m as real && x - 1.0 < y < x + 1.0
    ensures n == m
  {}

  lemma BarsInOrder(s: State, bars: real, beats: real, x: real)
    requires s.beatsPerBar > 0.0 && beats == s.baseBarBeat + s.beatsPerBar * x
    ensures s.Bars2Beats(bars) <= beats <==> bars <= s.baseBar + x
    ensures s.Bars2Beats(bars) < beats <==> bars < s.baseBar + x
  {
    var d := bars - s.baseBar;
    assert d * s.beatsPerBar == s.beatsPerBar * d;
    Scale(s.beatsPerBar, d, x);
    Scale(s.beatsPerBar, x, d);
  }

  lemma Scale(k: real, x: real, y: real)
    requires k > 0.0
    ensures k * x <= k * y <==> x <= y
  {
    if x <= y {
      assert k * (y - x) >= 0.0;
    } else {
      assert k * (x - y) > 0.0;
    }
  }
}
