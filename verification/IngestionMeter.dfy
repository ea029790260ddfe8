/** The fixed-size ring of per-second counters behind the ingestion rate. */
module IngestionMeter {
  const WINDOW := 60

  datatype Sample = Sample(timestamp: int, tests: nat)

  datatype Snapshot = Snapshot(total: nat, testsPerSecond: real, windowSeconds: int, samples: seq<Sample>)

  datatype Bucket = Bucket(second: int, count: nat)

  // ---- the unbounded counters the ring stands for ------------------------------------

  /** How often `second` was observed. */
  function Count(obs: seq<int>, second: int): nat
    decreases |obs|
  {
    if obs == [] then 0 else Count(obs[..|obs| - 1], second) + if obs[|obs| - 1] == second then 1 else 0
  }

  /** How many observations fall in `lo .. hi` (exclusive). */
  function CountIn(obs: seq<int>, lo: int, hi: int): nat
    decreases |obs|
  {
    if obs == [] then 0 else CountIn(obs[..|obs| - 1], lo, hi) + if lo <= obs[|obs| - 1] < hi then 1 else 0
  }

  /** No observation lags 60 seconds or more behind the newest one before it. */
  ghost predicate Timely(obs: seq<int>) {
    forall i, j :: 0 <= i < j < |obs| ==> obs[j] > obs[i] - WINDOW
  }

  /** Go's remainder, which has the sign of the dividend. */
  function GoMod(a: int, n: nat): (r: int)
    requires n > 0
    ensures a >= 0 ==> 0 <= r < n
    ensures a < 0 ==> 0 - n < r <= 0
  {
    if a >= 0 then a % n else -((-a) % n)
  }

  function Slot(second: int): (idx: nat)
    ensures idx < WINDOW
  {
    var idx := GoMod(second, WINDOW);
    if idx < 0 then idx + WINDOW else idx
  }

  /** Two seconds share a slot exactly when they are a whole number of windows apart. */
  lemma SlotIsResidue(a: int)
    ensures Slot(a) == a % WINDOW
  {
    if a < 0 {
      var q, r := (-a) / WINDOW, (-a) % WINDOW;
      assert -a == q * WINDOW + r;
      if r == 0 {
        assert a == (-q) * WINDOW;
      } else {
        assert a == (-q - 1) * WINDOW + (WINDOW - r);
      }
    }
  }

  lemma SharedSlotIsFarApart(a: int, b: int)
    requires Slot(a) == Slot(b)
    ensures a == b || a >= b + WINDOW || b >= a + WINDOW
  {
    SlotIsResidue(a);
    SlotIsResidue(b);
    assert a - b == (a / WINDOW - b / WINDOW) * WINDOW;
  }

  // ---- the ring after a history ------------------------------------------------------------

  function Observed(b: Bucket, second: int): Bucket {
    if b.second != second then Bucket(second, 1) else b.(count := b.count + 1)
  }

  function Blank(n: nat): (r: seq<Bucket>)
    ensures |r| == n && forall i :: 0 <= i < n ==> r[i] == Bucket(0, 0)
  {
    if n == 0 then [] else Blank(n - 1) + [Bucket(0, 0)]
  }

  /** Count one observation in its slot. */
  function Hit(ring: seq<Bucket>, second: int): (r: seq<Bucket>)
    requires |ring| == WINDOW
    ensures |r| == WINDOW
  {
    ring[Slot(second) := Observed(ring[Slot(second)], second)]
  }

  function Ring(obs: seq<int>): (r: seq<Bucket>)
    ensures |r| == WINDOW
    decreases |obs|
  {
    if obs == [] then Blank(WINDOW)
    else Hit(Ring(obs[..|obs| - 1]), obs[|obs| - 1])
  }

  function CountAt(ring: seq<Bucket>, second: int): nat
    requires |ring| == WINDOW
  {
    var b := ring[Slot(second)];
    if b.second != second then 0 else b.count
  }

  /** `second` was observed, and later a different second that shares its slot. */
  ghost predicate Overwritten(obs: seq<int>, second: int) {
    exists i, j :: 0 <= i < j < |obs| && obs[i] == second && obs[j] != second && Slot(obs[j]) == Slot(second)
  }

  lemma {:induction false} CountPositive(obs: seq<int>, second: int)
    ensures Count(obs, second) > 0 <==> second in obs
    decreases |obs|
  {
    if obs != [] {
      var front := obs[..|obs| - 1];
      CountPositive(front, second);
      assert obs == front + [obs[|obs| - 1]];
    }
  }

  lemma OverwrittenNext(obs: seq<int>, s: int, second: int)
    ensures Overwritten(obs + [s], second) <==>
      Overwritten(obs, second) || (second in obs && s != second && Slot(s) == Slot(second))
  {
    var more := obs + [s];
    assert forall i :: 0 <= i < |obs| ==> more[i] == obs[i];
    if Overwritten(obs, second) {
      var i, j :| 0 <= i < j < |obs| && obs[i] == second && obs[j] != second && Slot(obs[j]) == Slot(second);
      assert more[i] == second && more[j] != second;
    }
    if second in obs && s != second && Slot(s) == Slot(second) {
      var i :| 0 <= i < |obs| && obs[i] == second;
      assert more[i] == second && more[|obs|] == s;
    }
    if Overwritten(more, second) && !Overwritten(obs, second) {
      var i, j :| 0 <= i < j < |more| && more[i] == second && more[j] != second && Slot(more[j]) == Slot(second);
      assert obs[i] == second;
    }
  }

  /** The ring shows the true count of a second exactly when it was never overwritten. */
  lemma {:induction false} RingIsExactUnlessOverwritten(obs: seq<int>, second: int)
    ensures CountAt(Ring(obs), second) == Count(obs, second) <==> !Overwritten(obs, second)
    decreases |obs|
  {
    if obs != [] {
      var n := |obs| - 1;
      var front, s := obs[..n], obs[n];
      RingIsExactUnlessOverwritten(front, second);
      CountPositive(front, second);
      OverwrittenNext(front, s, second);
      assert obs == front + [s];
      assert Ring(obs) == Hit(Ring(front), s);
    }
  }

  /** That does happen: when the clock steps back a minute, the second observed before the step is lost. */
  lemma ClockStepLosesCount()
    ensures Count([100, 40], 100) == 1 && CountAt(Ring([100, 40]), 100) == 0
  {
    assert [100, 40][..1] == [100] && [100][..0] == [];
    SlotIsResidue(100);
    SlotIsResidue(40);
  }

  /** Within the last minute the ring shows the true count of every second, if no observation lags too far. */
  lemma RingIsExact(obs: seq<int>, now: int, second: int)
    requires Timely(obs) && forall i :: 0 <= i < |obs| ==> obs[i] <= now
    requires now - WINDOW < second <= now
    ensures CountAt(Ring(obs), second) == Count(obs, second)
  {
    RingIsExactUnlessOverwritten(obs, second);
    forall i, j | 0 <= i < j < |obs| && obs[i] == second && Slot(obs[j]) == Slot(second)
      ensures obs[j] == second
    {
      SharedSlotIsFarApart(obs[j], second);
    }
  }

  // ---- the rate -----------------------------------------------------------------------------------

  /** The first second the rate may look back to, after a history of observations. */
  function Started(started: int, obs: seq<int>): int
    decreases |obs|
  {
    if obs == [] then started
    else
      var before, s := Started(started, obs[..|obs| - 1]), obs[|obs| - 1];
      if before == 0 || s < before then s else before
  }

  lemma {:induction false} StartedIsEarliest(started: int, obs: seq<int>)
    requires started > 0 && forall i :: 0 <= i < |obs| ==> obs[i] > 0
    ensures 0 < Started(started, obs) <= started
    ensures forall i :: 0 <= i < |obs| ==> Started(started, obs) <= obs[i]
    ensures Started(started, obs) == started || Started(started, obs) in obs
    decreases |obs|
  {
    if obs != [] {
      var front := obs[..|obs| - 1];
      StartedIsEarliest(started, front);
      assert forall i :: 0 <= i < |front| ==> obs[i] == front[i];
    }
  }

  /** Sum of the true counts of `lo .. hi` (exclusive). */
  function SumCounts(obs: seq<int>, lo: int, hi: int): nat
    decreases hi - lo
  {
    if lo >= hi then 0 else SumCounts(obs, lo, hi - 1) + Count(obs, hi - 1)
  }

  lemma {:induction false} SumCountsStep(obs: seq<int>, lo: int, hi: int)
    requires obs != []
    decreases hi - lo
    ensures SumCounts(obs, lo, hi) == SumCounts(obs[..|obs| - 1], lo, hi) + (if lo <= obs[|obs| - 1] < hi then 1 else 0)
  {
    if lo < hi {
      SumCountsStep(obs, lo, hi - 1);
    }
  }

  lemma {:induction false} SumOverNothing(lo: int, hi: int)
    ensures SumCounts([], lo, hi) == 0
    decreases hi - lo
  {
    if lo < hi {
      SumOverNothing(lo, hi - 1);
    }
  }

  /** Adding up per-second counts counts the observations in the range. */
  lemma {:induction false} SumCountsIsCountIn(obs: seq<int>, lo: int, hi: int)
    ensures SumCounts(obs, lo, hi) == CountIn(obs, lo, hi)
    decreases |obs|
  {
    if obs == [] {
      SumOverNothing(lo, hi);
    } else {
      SumCountsStep(obs, lo, hi);
      SumCountsIsCountIn(obs[..|obs| - 1], lo, hi);
    }
  }

  /** Seconds before the first observation add nothing. */
  lemma {:induction false} CountInFromStart(obs: seq<int>, lo: int, started: int, hi: int)
    requires forall i :: 0 <= i < |obs| ==> started <= obs[i]
    ensures CountIn(obs, lo, hi) == CountIn(obs, if lo < started then started else lo, hi)
    decreases |obs|
  {
    if obs != [] {
      CountInFromStart(obs[..|obs| - 1], lo, started, hi);
    }
  }

  // ---- the meter -------------------------------------------------------------------------------------

  class Meter {
    var started: int
    var total: nat
    var buckets: array<Bucket>
    ghost const createdAt: int
    ghost var observations: seq<int>

    ghost predicate Valid()
      reads this, buckets
    {
      && buckets.Length == WINDOW
      && buckets[..] == Ring(observations)
      && total == |observations|
      && started == Started(createdAt, observations)
    }

    constructor (now: int)
      ensures Valid() && fresh(buckets) && observations == [] && createdAt == now
    {
      started, total, createdAt, observations := now, 0, now, [];
      buckets := new Bucket[WINDOW](_ => Bucket(0, 0));
      new;
      assert buckets[..] == Blank(WINDOW);
    }

    method ObserveAt(second: int)
      requires Valid()
      modifies this, buckets
      ensures Valid() && buckets == old(buckets)
      ensures observations == old(observations) + [second]
    {
      if started == 0 || second < started {
        started := second;
      }
      var idx := GoMod(second, WINDOW);
      if idx < 0 {
        idx := idx + WINDOW;
      }
      assert idx == Slot(second);
      var b := buckets[idx];
      if b.second != second {
        b := Bucket(second, 0);
      }
      buckets[idx] := b.(count := b.count + 1);
      total := total + 1;
      assert (observations + [second])[..|observations|] == observations;
      observations := observations + [second];
    }

    method CountOf(second: int) returns (count: nat)
      requires Valid()
      ensures count == CountAt(Ring(observations), second)
    {
      var idx := GoMod(second, WINDOW);
      if idx < 0 {
        idx := idx + WINDOW;
      }
      assert idx == Slot(second);
      var b := buckets[..][idx];
      if b.second != second {
        return 0;
      }
      return b.count;
    }

    /** What the ring shows for each second of the last minute, oldest first. */
    ghost predicate ShowsMinute(now: int, samples: seq<Sample>)
      reads this
    {
      && |samples| == WINDOW
      && forall i :: 0 <= i < WINDOW ==>
           samples[i] == Sample(now - WINDOW + 1 + i, CountAt(Ring(observations), now - WINDOW + 1 + i))
    }

    method SampleMinute(now: int) returns (samples: seq<Sample>)
      requires Valid()
      ensures ShowsMinute(now, samples)
    {
      samples := [];
      var second := now - WINDOW + 1;
      while second <= now
        invariant now - WINDOW + 1 <= second <= now + 1 && |samples| == second - (now - WINDOW + 1)
        invariant forall i :: 0 <= i < |samples| ==>
          samples[i] == Sample(now - WINDOW + 1 + i, CountAt(Ring(observations), now - WINDOW + 1 + i))
      {
        var count := CountOf(second);
        samples := samples + [Sample(second, count)];
        second := second + 1;
      }
    }

    method RateOver(first: int, now: int) returns (rateTotal: nat, rateSeconds: nat)
      requires Valid() && now - 5 <= first
      ensures rateSeconds == if first < now then now - first else 0
      ensures InTime(now) ==> rateTotal == SumCounts(observations, first, now)
    {
      rateTotal, rateSeconds := 0, 0;
      var second := first;
      while second < now
        invariant first <= second && (second <= now || second == first)
        invariant rateSeconds == second - first
        invariant InTime(now) ==> rateTotal == SumCounts(observations, first, second)
      {
        var count := CountOf(second);
        if InTime(now) {
          RingIsExact(observations, now, second);
        }
        rateTotal := rateTotal + count;
        rateSeconds := rateSeconds + 1;
        second := second + 1;
      }
    }

    /** No observation lagged a whole window, and none is later than `now`. */
    ghost predicate InTime(now: int)
      reads this
    {
      Timely(observations) && forall i :: 0 <= i < |observations| ==> observations[i] <= now
    }

    /**
     The last minute, second by second, and the average over up to five completed seconds. Both
     are exact as long as no observation lagged a whole window and the clock does not run back.
     */
    method SnapshotAt(now: int) returns (s: Snapshot)
      requires Valid()
      ensures s.total == |observations| && s.windowSeconds == 60 && ShowsMinute(now, s.samples)
      ensures |s.samples| == 60 && forall i :: 0 <= i < 60 ==> s.samples[i].timestamp == now - 59 + i
      ensures InTime(now) ==>
        forall i :: 0 <= i < WINDOW ==> s.samples[i].tests == Count(observations, s.samples[i].timestamp)
      ensures InTime(now) && createdAt > 0 && (forall i :: 0 <= i < |observations| ==> 0 < observations[i]) ==>
        var width := now - (if now - 5 < started then started else now - 5);
        s.testsPerSecond == if width > 0 then CountIn(observations, now - 5, now) as real / width as real else 0.0
    {
      var samples := SampleMinute(now);
      var firstRateSecond := now - 5;
      if firstRateSecond < started {
        firstRateSecond := started;
      }
      var rateTotal, rateSeconds := RateOver(firstRateSecond, now);
      var rate := 0.0;
      if rateSeconds > 0 {
        rate := rateTotal as real / rateSeconds as real;
      }
      s := Snapshot(total, rate, WINDOW, samples);
      SnapshotIsExact(now, samples, firstRateSecond);
    }

    lemma SnapshotIsExact(now: int, samples: seq<Sample>, first: int)
      requires Valid() && ShowsMinute(now, samples)
      requires first == if now - 5 < started then started else now - 5
      ensures InTime(now) ==>
        forall i :: 0 <= i < WINDOW ==> samples[i].tests == Count(observations, samples[i].timestamp)
      ensures InTime(now) && createdAt > 0 && (forall i :: 0 <= i < |observations| ==> 0 < observations[i]) ==>
        SumCounts(observations, first, now) == CountIn(observations, now - 5, now)
    {
      if InTime(now) {
        forall i | 0 <= i < WINDOW
          ensures samples[i].tests == Count(observations, samples[i].timestamp)
        {
          RingIsExact(observations, now, samples[i].timestamp);
        }
        if createdAt > 0 && forall i :: 0 <= i < |observations| ==> 0 < observations[i] {
          StartedIsEarliest(createdAt, observations);
          SumCountsIsCountIn(observations, first, now);
          CountInFromStart(observations, now - 5, started, now);
        }
      }
    }
  }
}
