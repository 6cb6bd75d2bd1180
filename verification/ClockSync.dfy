/** How far the local clock is ahead of the server's, estimated from the latest replies. */
module ClockSync {
  import opened Options

  const HISTORY_SIZE: nat := 60

  /** What one reply tells: the difference of the clocks on arrival, and the time since the request. */
  datatype Sample = Sample(diff: real, trip: real)

  function SumDiffs(h: seq<Sample>): real {
    if h == [] then 0.0 else SumDiffs(h[..|h| - 1]) + h[|h| - 1].diff
  }

  function SumTrips(h: seq<Sample>): real {
    if h == [] then 0.0 else SumTrips(h[..|h| - 1]) + h[|h| - 1].trip
  }

  /** The latest samples, as many as are kept. */
  function Window(h: seq<Sample>): (w: seq<Sample>)
    ensures |w| == if |h| <= HISTORY_SIZE then |h| else HISTORY_SIZE
  {
    if |h| <= HISTORY_SIZE then h else h[|h| - HISTORY_SIZE..]
  }

  /** The mean difference less half of the mean round trip, computed from scratch. */
  function Estimate(w: seq<Sample>): real {
    if w == [] then 0.0 else SumDiffs(w) / |w| as real - SumTrips(w) / (2.0 * |w| as real)
  }

  lemma {:induction false} SumFirst(h: seq<Sample>)
    requires h != []
    ensures SumDiffs(h) == h[0].diff + SumDiffs(h[1..]) && SumTrips(h) == h[0].trip + SumTrips(h[1..])
  {
    if |h| > 1 {
      SumFirst(h[..|h| - 1]);
      assert h[..|h| - 1][1..] == h[1..][..|h| - 2];
    }
  }

  lemma SumMore(h: seq<Sample>, s: Sample)
    ensures SumDiffs(h + [s]) == SumDiffs(h) + s.diff && SumTrips(h + [s]) == SumTrips(h) + s.trip
  {
    assert (h + [s])[..|h|] == h;
  }

  /** A new sample comes in, and in a full window the oldest goes out. */
  lemma WindowSlides(h: seq<Sample>, s: Sample)
    ensures Window(h + [s]) == (if |h| < HISTORY_SIZE then Window(h) else Window(h)[1..]) + [s]
    ensures |h| >= HISTORY_SIZE ==> Window(h)[0] == h[|h| - HISTORY_SIZE]
  {}

  lemma SumsSlide(h: seq<Sample>, s: Sample)
    ensures var out := if |h| < HISTORY_SIZE then Sample(0.0, 0.0) else h[|h| - HISTORY_SIZE];
      && SumDiffs(Window(h + [s])) == SumDiffs(Window(h)) - out.diff + s.diff
      && SumTrips(Window(h + [s])) == SumTrips(Window(h)) - out.trip + s.trip
  {
    WindowSlides(h, s);
    if |h| < HISTORY_SIZE {
      SumMore(Window(h), s);
    } else {
      SumFirst(Window(h));
      SumMore(Window(h)[1..], s);
    }
  }

  /** The estimate is the mean over the samples: each counts with its difference less half of its round trip. */
  lemma EstimateIsMean(w: seq<Sample>, s: Sample)
    ensures Estimate([]) == 0.0
    ensures (|w| + 1) as real * Estimate(w + [s]) == |w| as real * Estimate(w) + s.diff - s.trip / 2.0
  {
    SumMore(w, s);
    TimesEstimate(w);
    TimesEstimate(w + [s]);
  }

  lemma TimesEstimate(w: seq<Sample>)
    ensures |w| as real * Estimate(w) == SumDiffs(w) - SumTrips(w) / 2.0
  {
    if w != [] {
      var n, x, y := |w| as real, SumDiffs(w) / |w| as real, SumTrips(w) / (2.0 * |w| as real);
      assert n * x == SumDiffs(w);
      assert (2.0 * n) * y == SumTrips(w);
      assert n * (x - y) == n * x - n * y;
    }
  }

  lemma {:induction false} SumsOfSymmetric(w: seq<Sample>, offset: real)
    requires forall i | 0 <= i < |w| :: w[i].diff == offset + w[i].trip / 2.0
    ensures SumDiffs(w) == |w| as real * offset + SumTrips(w) / 2.0
  {
    if w != [] {
      SumsOfSymmetric(w[..|w| - 1], offset);
    }
  }

  /** When requests and replies take equally long, the estimate is exact, however much the delays vary. */
  lemma ExactWhenSymmetric(w: seq<Sample>, offset: real)
    requires w != [] && forall i | 0 <= i < |w| :: w[i].diff == offset + w[i].trip / 2.0
    ensures Estimate(w) == offset
  {
    SumsOfSymmetric(w, offset);
    var n, trips := |w| as real, SumTrips(w);
    Halves(n, offset, trips);
  }

  lemma Halves(n: real, offset: real, trips: real)
    requires n > 0.0
    ensures (n * offset + trips / 2.0) / n - trips / (2.0 * n) == offset
  {
    var x := (n * offset + trips / 2.0) / n;
    var y := trips / (2.0 * n);
    assert n * x == n * offset + trips / 2.0;
    assert (2.0 * n) * y == trips;
    assert n * (x - y) == n * offset;
  }

  class Sync {
    const timeDiffs: array<Option<real>>
    const roundTripTimes: array<real>
    var timeDiffSum: real
    var roundTripTimeSum: real
    var sumIndex: nat
    var timeDiff: real
    var requestLastSent: real
    /** All samples so far. */
    ghost var history: seq<Sample>

    ghost predicate Valid()
      reads this, timeDiffs, roundTripTimes
    {
      && Slots() && timeDiff == Estimate(Window(history))
      && timeDiffSum == SumDiffs(Window(history)) && roundTripTimeSum == SumTrips(Window(history))
    }

    ghost predicate Slots()
      reads this`sumIndex, this`history, timeDiffs, roundTripTimes
    {
      && timeDiffs.Length == HISTORY_SIZE == roundTripTimes.Length && sumIndex == |history| % HISTORY_SIZE
      && forall i | 0 <= i < HISTORY_SIZE :: Slot(i)
    }

    /** Slot `i` holds the sample of the window whose number leaves `i`, or nothing yet. */
    ghost predicate Slot(i: nat)
      requires i < HISTORY_SIZE == timeDiffs.Length == roundTripTimes.Length
      reads this`history, timeDiffs, roundTripTimes
    {
      var k := Holds(|history|, i);
      if k < 0 then timeDiffs[i] == None
      else k < |history| && timeDiffs[i] == Some(history[k].diff) && roundTripTimes[i] == history[k].trip
    }

    constructor (now: real)
      ensures Valid() && history == [] && requestLastSent == now
      ensures fresh(timeDiffs) && fresh(roundTripTimes)
    {
      timeDiffs := new Option<real>[HISTORY_SIZE](i => None);
      roundTripTimes := new real[HISTORY_SIZE](i => 0.0);
      timeDiffSum, roundTripTimeSum, sumIndex, timeDiff, requestLastSent := 0.0, 0.0, 0, 0.0, now;
      history := [];
    }

    method SendRequest(now: real)
      requires Valid()
      modifies this`requestLastSent
      ensures Valid() && requestLastSent == now
    {
      requestLastSent := now;
    }

    /** A reply: `timeDiff` is afterwards what the latest samples say, this one among them. */
    method OnSyncSet(serverTime: real, currentTime: real)
      requires Valid()
      modifies this`timeDiffSum, this`roundTripTimeSum, this`sumIndex, this`timeDiff, this`history, timeDiffs,
        roundTripTimes
      ensures Valid() && history == old(history) + [Sample(currentTime - serverTime, currentTime - requestLastSent)]
      ensures timeDiff == Estimate(Window(history))
    {
      var diff, roundTripTime := currentTime - serverTime, currentTime - requestLastSent;
      ghost var s := Sample(diff, roundTripTime);
      SumsSlide(history, s);
      var n := TakeOldestOut(s);
      Record(diff, roundTripTime);
      timeDiffSum := timeDiffSum + diff;
      roundTripTimeSum := roundTripTimeSum + roundTripTime;
      timeDiff := timeDiffSum / n as real - roundTripTimeSum / (2.0 * n as real);
    }

    /** When the slot is taken, its sample leaves the sums; `n` is the number of samples there will be. */
    method TakeOldestOut(ghost s: Sample) returns (n: nat)
      requires Slots()
      modifies this`timeDiffSum, this`roundTripTimeSum
      ensures n == |Window(history + [s])|
      ensures var out := if |history| < HISTORY_SIZE then Sample(0.0, 0.0) else history[|history| - HISTORY_SIZE];
        timeDiffSum == old(timeDiffSum) - out.diff && roundTripTimeSum == old(roundTripTimeSum) - out.trip
    {
      HoldsNext(|history|);
      assert Slot(sumIndex);
      if timeDiffs[sumIndex].Some? {
        timeDiffSum := timeDiffSum - timeDiffs[sumIndex].value;
        roundTripTimeSum := roundTripTimeSum - roundTripTimes[sumIndex];
        n := HISTORY_SIZE;
      } else {
        n := sumIndex + 1;
      }
    }

    method Record(diff: real, roundTripTime: real)
      requires Slots()
      modifies this`sumIndex, this`history, timeDiffs, roundTripTimes
      ensures Slots() && history == old(history) + [Sample(diff, roundTripTime)]
    {
      HoldsNext(|history|);
      timeDiffs[sumIndex] := Some(diff);
      roundTripTimes[sumIndex] := roundTripTime;
      sumIndex := (sumIndex + 1) % HISTORY_SIZE;
      history := history + [Sample(diff, roundTripTime)];
      forall i | 0 <= i < HISTORY_SIZE ensures Slot(i) {
        if i != old(sumIndex) { assert old(Slot(i)); }
      }
    }
  }

  /** The number of the sample in slot `i` after `count` samples; negative if there was none. */
  function Holds(count: nat, i: nat): int
    requires i < HISTORY_SIZE
  {
    count - 1 - (count - 1 - i) % HISTORY_SIZE
  }

  /** The next sample takes the slot of the one that leaves the window; the other slots keep theirs. */
  lemma HoldsNext(count: nat)
    ensures var j := count % HISTORY_SIZE;
      && Holds(count, j) == count - HISTORY_SIZE && Holds(count + 1, j) == count
      && (forall i | 0 <= i < HISTORY_SIZE && i != j :: Holds(count + 1, i) == Holds(count, i))
      && (count < HISTORY_SIZE ==> j == count)
  {
    forall i | 0 <= i < HISTORY_SIZE && i != count % HISTORY_SIZE ensures Holds(count + 1, i) == Holds(count, i) {
      HoldsOther(count, i);
    }
  }

  lemma HoldsOther(count: nat, i: nat)
    requires i < HISTORY_SIZE && i != count % HISTORY_SIZE
    ensures Holds(count + 1, i) == Holds(count, i)
  {
    var y := count - 1 - i;
    assert (y + 1) % HISTORY_SIZE == if y % HISTORY_SIZE == HISTORY_SIZE - 1 then 0 else y % HISTORY_SIZE + 1;
  }
}
