/** The history of device telemetry: the latest samples, oldest first, and queries over a trailing
    window of time that scan backwards and stop early. Temperatures are exact reals. */
module TelemetryStore {
  import opened Clock

  const MAX_SAMPLES: nat := 360000

  /** Times are readings of the 32-bit clock, temperatures tenths of a degree. */
  datatype Sample = Sample(t: nat, temp: int, rpm: nat, grams: int, flags: nat)

  const NO_SAMPLE := Sample(0, 0, 0, 0, 0)

  function Celsius(temp: int): real {
    (temp as real) / 10.0
  }

  // ---- Retention ----

  function Last<T>(all: seq<T>, n: nat): (kept: seq<T>)
    ensures |kept| <= n
  {
    if |all| <= n then all else all[|all| - n..]
  }

  /** What appending a sample leaves. */
  function Keep(kept: seq<Sample>, sample: Sample): seq<Sample> {
    var all := kept + [sample];
    if |all| > MAX_SAMPLES then all[1..] else all
  }

  function History(all: seq<Sample>): seq<Sample> {
    if all == [] then [] else Keep(History(all[..|all| - 1]), all[|all| - 1])
  }

  /** However many samples were appended, the store holds the latest of them. */
  lemma {:induction false} HistoryIsTheLast(all: seq<Sample>)
    ensures History(all) == Last(all, MAX_SAMPLES)
  {
    if all != [] {
      HistoryIsTheLast(all[..|all| - 1]);
    }
  }

  // ---- Windows ----

  /** What a backward scan visits: the longest run of latest samples no older than the window. */
  function Scanned(samples: seq<Sample>, newest: nat, window: nat): seq<Sample> {
    if samples == [] || Elapsed(newest, samples[|samples| - 1].t) > window then []
    else Scanned(samples[..|samples| - 1], newest, window) + [samples[|samples| - 1]]
  }

  /** The simple definition: all samples taken at most window milliseconds before the newest. */
  function Within(samples: seq<Sample>, taken: seq<nat>, now: nat, window: nat): seq<Sample>
    requires |taken| == |samples| && forall i :: 0 <= i < |taken| ==> taken[i] <= now
  {
    if samples == [] then []
    else
      var n := |samples| - 1;
      Within(samples[..n], taken[..n], now, window) + if now - taken[n] <= window then [samples[n]] else []
  }

  /** The true times of the samples: in order, and spanning less than one wrap of the clock. */
  predicate Taken(samples: seq<Sample>, taken: seq<nat>, now: nat) {
    && |taken| == |samples|
    && (forall i :: 0 <= i < |taken| ==> samples[i].t == Ms(taken[i]))
    && (forall i, j :: 0 <= i <= j < |taken| ==> taken[i] <= taken[j])
    && (forall i :: 0 <= i < |taken| ==> taken[i] <= now < taken[i] + WRAP)
  }

  lemma {:induction false} AllTooOld(samples: seq<Sample>, taken: seq<nat>, now: nat, window: nat)
    requires |taken| == |samples| && forall i :: 0 <= i < |taken| ==> taken[i] + window < now
    ensures Within(samples, taken, now, window) == []
  {
    if samples != [] {
      AllTooOld(samples[..|samples| - 1], taken[..|samples| - 1], now, window);
    }
  }

  /** Stopping at the first sample that is too old loses none, across the wrap of the clock too. */
  lemma {:induction false} ScanFindsTheWindow(samples: seq<Sample>, taken: seq<nat>, now: nat, window: nat)
    requires Taken(samples, taken, now)
    ensures Scanned(samples, Ms(now), window) == Within(samples, taken, now, window)
  {
    hide Elapsed, Ms;
    if samples != [] {
      var n := |samples| - 1;
      ElapsedExact(now, taken[n]);
      if now - taken[n] > window {
        AllTooOld(samples, taken, now, window);
      } else {
        ScanFindsTheWindow(samples[..n], taken[..n], now, window);
      }
    }
  }

  /** Exactly the samples within the window are scanned. */
  lemma {:induction false} WithinExactly(samples: seq<Sample>, taken: seq<nat>, now: nat, window: nat, x: Sample)
    requires |taken| == |samples| && forall i :: 0 <= i < |taken| ==> taken[i] <= now
    ensures x in Within(samples, taken, now, window) <==>
            exists i :: 0 <= i < |samples| && samples[i] == x && now - taken[i] <= window
  {
    if samples != [] {
      var n := |samples| - 1;
      WithinExactly(samples[..n], taken[..n], now, window, x);
      if i :| 0 <= i < |samples| && samples[i] == x && now - taken[i] <= window && i < n {
        assert samples[..n][i] == x && taken[..n][i] == taken[i];
      }
    }
  }

  /** After any run of appended samples, a query ending at the newest one scans exactly the
      retained samples within its window. */
  lemma WindowOverHistory(all: seq<Sample>, taken: seq<nat>, window: nat)
    requires all != [] && |taken| == |all|
    requires Taken(Last(all, MAX_SAMPLES), Last(taken, MAX_SAMPLES), taken[|taken| - 1])
    ensures var now := taken[|taken| - 1];
            Scanned(History(all), Ms(now), window) == Within(Last(all, MAX_SAMPLES), Last(taken, MAX_SAMPLES), now, window)
  {
    HistoryIsTheLast(all);
    ScanFindsTheWindow(Last(all, MAX_SAMPLES), Last(taken, MAX_SAMPLES), taken[|taken| - 1], window);
  }

  lemma LastSampleTime(all: seq<Sample>, taken: seq<nat>)
    requires all != [] && |taken| == |all|
    requires Taken(Last(all, MAX_SAMPLES), Last(taken, MAX_SAMPLES), taken[|taken| - 1])
    ensures all[|all| - 1].t == Ms(taken[|taken| - 1])
  {
    var kept, times := Last(all, MAX_SAMPLES), Last(taken, MAX_SAMPLES);
    assert kept[|kept| - 1] == all[|all| - 1] && times[|times| - 1] == taken[|taken| - 1];
    assert kept[|kept| - 1].t == Ms(times[|times| - 1]);
  }

  // ---- Mean and maximum ----

  function Total(samples: seq<Sample>): real {
    if samples == [] then 0.0 else Total(samples[..|samples| - 1]) + Celsius(samples[|samples| - 1].temp)
  }

  lemma {:induction false} TotalFromTheFront(samples: seq<Sample>)
    requires samples != []
    ensures Total(samples) == Celsius(samples[0].temp) + Total(samples[1..])
  {
    hide Celsius;
    var n := |samples| - 1;
    if n > 0 {
      TotalFromTheFront(samples[..n]);
      assert samples[1..][..n - 1] == samples[..n][1..];
    } else {
      assert samples[..0] == [];
    }
  }

  function Mean(samples: seq<Sample>): real {
    if samples == [] then 0.0 else Total(samples) / (|samples| as real)
  }

  /** The mean of one sample is its temperature, and samples count alike: this determines it. */
  lemma MeanIsFair(x: Sample, a: seq<Sample>, b: seq<Sample>)
    ensures Mean([x]) == x.temp as real / 10.0
    ensures Mean(a + b) * (|a + b| as real) == Mean(a) * (|a| as real) + Mean(b) * (|b| as real)
  {
    OneSample(x);
    hide Mean;
    TotalOfBoth(a, b);
    MeanTimesCount(a);
    MeanTimesCount(b);
    MeanTimesCount(a + b);
  }

  lemma OneSample(x: Sample)
    ensures Mean([x]) == x.temp as real / 10.0
  {
    assert [x][..0] == [];
    assert Total([x]) == Celsius(x.temp);
    assert |[x]| as real == 1.0;
  }

  lemma MeanTimesCount(s: seq<Sample>)
    ensures Mean(s) * (|s| as real) == Total(s)
  {
    hide Celsius;
  }

  lemma {:induction false} TotalOfBoth(a: seq<Sample>, b: seq<Sample>)
    ensures Total(a + b) == Total(a) + Total(b)
  {
    hide Celsius;
    if b == [] {
      assert a + b == a;
    } else {
      assert (a + b)[..|a + b| - 1] == a + b[..|b| - 1];
      TotalOfBoth(a, b[..|b| - 1]);
    }
  }

  const COLDEST: real := -1000.0

  /** The highest temperature, readings below -1000 degrees not counted. */
  predicate IsHottest(r: real, samples: seq<Sample>) {
    && r >= COLDEST
    && (forall x :: x in samples ==> Celsius(x.temp) <= r)
    && (r == COLDEST || exists x :: x in samples && Celsius(x.temp) == r)
  }

  /** The display's warning: some reading of the window is above 60 degrees. */
  lemma HotBowlExactly(r: real, samples: seq<Sample>)
    requires IsHottest(r, samples)
    ensures r > 60.0 <==> exists x :: x in samples && x.temp > 600
  {
    if x :| x in samples && x.temp > 600 {
      assert Celsius(x.temp) <= r;
    }
  }

  lemma NothingScanned(newest: nat, window: nat)
    ensures Scanned([], newest, window) == [] && Mean([]) == 0.0
  {
  }

  lemma ScannedSuffix(samples: seq<Sample>, newest: nat, window: nat, i: nat)
    requires i <= |samples| && forall k :: i <= k < |samples| ==> Elapsed(newest, samples[k].t) <= window
    requires i == 0 || Elapsed(newest, samples[i - 1].t) > window
    ensures Scanned(samples, newest, window) == samples[i..]
  {
    if i < |samples| {
      var n := |samples| - 1;
      ScannedSuffix(samples[..n], newest, window, i);
      assert samples[i..] == samples[..n][i..] + [samples[n]];
    }
  }

  // ---- The store object ----

  class TelemetryStore {
    var samples: seq<Sample>

    constructor ()
      ensures samples == History([])
    {
      samples := [];
    }

    method Append(sample: Sample)
      modifies this
      ensures samples == Keep(old(samples), sample) && Latest() == sample
    {
      samples := samples + [sample];
      if |samples| > MAX_SAMPLES {
        samples := samples[1..];
      }
    }

    function Latest(): (s: Sample)
      reads this
    {
      if samples == [] then NO_SAMPLE else samples[|samples| - 1]
    }

    /** After any run of appends the latest sample is the one appended last, and a query, which goes back
        from that one's reading of the clock, scans exactly the retained samples taken within the window
        before it. */
    lemma QueriesEndAtTheLatest(all: seq<Sample>, taken: seq<nat>, window: nat)
      requires samples == History(all) && all != [] && |taken| == |all|
      requires Taken(Last(all, MAX_SAMPLES), Last(taken, MAX_SAMPLES), taken[|taken| - 1])
      ensures Latest() == all[|all| - 1]
      ensures Scanned(samples, Latest().t, window) ==
              Within(Last(all, MAX_SAMPLES), Last(taken, MAX_SAMPLES), taken[|taken| - 1], window)
    {
      hide Scanned, Within, Ms;
      HistoryIsTheLast(all);
      LastSampleTime(all, taken);
      WindowOverHistory(all, taken, window);
    }

    method AverageTempC(window: nat) returns (mean: real)
      ensures mean == Mean(Scanned(samples, Latest().t, window))
    {
      if samples == [] {
        return 0.0;
      }
      var newest := samples[|samples| - 1].t;
      var sum: real, count: nat := 0.0, 0;
      var i: nat := |samples|;
      while i > 0 && Elapsed(newest, samples[i - 1].t) <= window
        invariant i <= |samples| && count == |samples| - i
        invariant forall k :: i <= k < |samples| ==> Elapsed(newest, samples[k].t) <= window
        invariant sum == Total(samples[i..])
      {
        i := i - 1;
        TotalFromTheFront(samples[i..]);
        assert samples[i..][1..] == samples[i + 1..];
        sum := sum + Celsius(samples[i].temp);
        count := count + 1;
      }
      ScannedSuffix(samples, newest, window, i);
      mean := if count > 0 then sum / (count as real) else 0.0;
    }

    method MaxTempC(window: nat) returns (hottest: real)
      ensures samples == [] ==> hottest == 0.0
      ensures samples != [] ==> IsHottest(hottest, Scanned(samples, Latest().t, window))
    {
      if samples == [] {
        return 0.0;
      }
      var newest := samples[|samples| - 1].t;
      hottest := COLDEST;
      var i: nat := |samples|;
      while i > 0 && Elapsed(newest, samples[i - 1].t) <= window
        invariant i <= |samples|
        invariant forall k :: i <= k < |samples| ==> Elapsed(newest, samples[k].t) <= window
        invariant IsHottest(hottest, samples[i..])
      {
        i := i - 1;
        assert samples[i..] == [samples[i]] + samples[i + 1..];
        var c := Celsius(samples[i].temp);
        if c > hottest {
          hottest := c;
        }
      }
      ScannedSuffix(samples, newest, window, i);
    }
  }
}
