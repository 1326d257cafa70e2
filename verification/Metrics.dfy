/** The multi-resolution metrics store: a capped raw tier, and coarser tiers fed by the means of full
    windows.  Floating point is modelled by reals. */
module Metrics {

  /** Deltas per window, summed when rolled up. */
  datatype Counters = Counters(tokIn: int, tokOut: int, tokCached: int, promptMs: real, predictMs: real,
                               observe: int, actuate: int, bash: int, speak: int)

  datatype Gauges = Gauges(load1: real, gpuUtil: real, gpuMemMb: real, memUsedMb: int, memTotalMb: int)

  datatype Sample = Sample(ts: int, cores: seq<real>, procCpu: seq<real>, procMemMb: seq<int>,
                           gauges: Gauges, counters: Counters)

  const ZERO_COUNTERS := Counters(0, 0, 0, 0.0, 0.0, 0, 0, 0, 0)
  const ZERO_GAUGES := Gauges(0.0, 0.0, 0.0, 0, 0)

  function PlusCounters(a: Counters, b: Counters): Counters {
    Counters(a.tokIn + b.tokIn, a.tokOut + b.tokOut, a.tokCached + b.tokCached, a.promptMs + b.promptMs,
             a.predictMs + b.predictMs, a.observe + b.observe, a.actuate + b.actuate, a.bash + b.bash, a.speak + b.speak)
  }

  function PlusGauges(a: Gauges, b: Gauges): Gauges {
    Gauges(a.load1 + b.load1, a.gpuUtil + b.gpuUtil, a.gpuMemMb + b.gpuMemMb, a.memUsedMb + b.memUsedMb,
           a.memTotalMb + b.memTotalMb)
  }

  function TotalCounters(samples: seq<Sample>): Counters {
    if samples == [] then ZERO_COUNTERS
    else PlusCounters(TotalCounters(samples[..|samples| - 1]), samples[|samples| - 1].counters)
  }

  function TotalGauges(samples: seq<Sample>): Gauges {
    if samples == [] then ZERO_GAUGES
    else PlusGauges(TotalGauges(samples[..|samples| - 1]), samples[|samples| - 1].gauges)
  }

  /** Go's integer division, which truncates toward zero. */
  function Truncated(a: int, n: nat): int
    requires n > 0
  {
    if a >= 0 then a / n else -((-a) / n)
  }

  function DivideGauges(g: Gauges, n: nat): Gauges
    requires n > 0
  {
    Gauges(g.load1 / n as real, g.gpuUtil / n as real, g.gpuMemMb / n as real, Truncated(g.memUsedMb, n), Truncated(g.memTotalMb, n))
  }

  function Width<T>(vectors: seq<seq<T>>): (w: nat)
    ensures forall i | 0 <= i < |vectors| :: |vectors[i]| <= w
    ensures w > 0 ==> exists i :: 0 <= i < |vectors| && |vectors[i]| == w
  {
    if vectors == [] then 0
    else
      var rest := Width(vectors[..|vectors| - 1]);
      var last := vectors[|vectors| - 1];
      if |last| > rest then assert |vectors[|vectors| - 1]| == |last|; |last|
      else
        assert rest > 0 ==> exists i :: 0 <= i < |vectors| - 1 && |vectors[..|vectors| - 1][i]| == rest && |vectors[i]| == rest;
        rest
  }

  /** The sum of one position over all vectors, a missing entry counting as zero. */
  function ColumnSum(vectors: seq<seq<real>>, i: nat): real {
    if vectors == [] then 0.0
    else
      var last := vectors[|vectors| - 1];
      ColumnSum(vectors[..|vectors| - 1], i) + (if i < |last| then last[i] else 0.0)
  }

  function IntColumnSum(vectors: seq<seq<int>>, i: nat): int {
    if vectors == [] then 0
    else
      var last := vectors[|vectors| - 1];
      IntColumnSum(vectors[..|vectors| - 1], i) + (if i < |last| then last[i] else 0)
  }

  function Averages(vectors: seq<seq<real>>, n: nat): seq<real>
    requires n > 0
  {
    seq(Width(vectors), i requires 0 <= i < Width(vectors) => ColumnSum(vectors, i) / n as real)
  }

  function IntAverages(vectors: seq<seq<int>>, n: nat): seq<int>
    requires n > 0
  {
    seq(Width(vectors), i requires 0 <= i < Width(vectors) => Truncated(IntColumnSum(vectors, i), n))
  }

  function Cores(samples: seq<Sample>): seq<seq<real>> { seq(|samples|, i requires 0 <= i < |samples| => samples[i].cores) }

  function Procs(samples: seq<Sample>): seq<seq<real>> { seq(|samples|, i requires 0 <= i < |samples| => samples[i].procCpu) }

  function Mems(samples: seq<Sample>): seq<seq<int>> { seq(|samples|, i requires 0 <= i < |samples| => samples[i].procMemMb) }

  /** The last sample's time, the averages of the gauges, the sums of the counters. */
  function MeanOf(samples: seq<Sample>): Sample
    requires samples != []
  {
    var n := |samples|;
    Sample(samples[n - 1].ts, Averages(Cores(samples), n), Averages(Procs(samples), n), IntAverages(Mems(samples), n),
           DivideGauges(TotalGauges(samples), n), TotalCounters(samples))
  }

  /** The loops of `mean` over one slice field: sums in place, then a division. */
  method AverageColumns(vectors: seq<seq<real>>) returns (averages: seq<real>)
    requires vectors != []
    ensures averages == Averages(vectors, |vectors|)
  {
    var width := Width(vectors);
    var sums := new real[width](_ => 0.0);
    for j := 0 to |vectors|
      invariant forall i | 0 <= i < width :: sums[i] == ColumnSum(vectors[..j], i)
    {
      assert vectors[..j + 1][..j] == vectors[..j];
      var v := vectors[j];
      for i := 0 to |v|
        invariant forall k | 0 <= k < i :: sums[k] == ColumnSum(vectors[..j + 1], k)
        invariant forall k | i <= k < width :: sums[k] == ColumnSum(vectors[..j], k)
      {
        sums[i] := sums[i] + v[i];
      }
    }
    assert vectors[..|vectors|] == vectors;
    for i := 0 to width
      invariant forall k | 0 <= k < i :: sums[k] == ColumnSum(vectors, k) / |vectors| as real
      invariant forall k | i <= k < width :: sums[k] == ColumnSum(vectors, k)
    {
      sums[i] := sums[i] / |vectors| as real;
    }
    averages := sums[..];
  }

  method AverageIntColumns(vectors: seq<seq<int>>) returns (averages: seq<int>)
    requires vectors != []
    ensures averages == IntAverages(vectors, |vectors|)
  {
    hide Truncated;
    var width := Width(vectors);
    var sums := new int[width](_ => 0);
    for j := 0 to |vectors|
      invariant forall i | 0 <= i < width :: sums[i] == IntColumnSum(vectors[..j], i)
    {
      assert vectors[..j + 1][..j] == vectors[..j];
      var v := vectors[j];
      for i := 0 to |v|
        invariant forall k | 0 <= k < i :: sums[k] == IntColumnSum(vectors[..j + 1], k)
        invariant forall k | i <= k < width :: sums[k] == IntColumnSum(vectors[..j], k)
      {
        sums[i] := sums[i] + v[i];
      }
    }
    assert vectors[..|vectors|] == vectors;
    for i := 0 to width
      invariant forall k | 0 <= k < i :: sums[k] == Truncated(IntColumnSum(vectors, k), |vectors|)
      invariant forall k | i <= k < width :: sums[k] == IntColumnSum(vectors, k)
    {
      sums[i] := Truncated(sums[i], |vectors|);
    }
    averages := sums[..];
  }

  /** `mean`. */
  method Mean(samples: seq<Sample>) returns (result: Sample)
    requires samples != []
    ensures result == MeanOf(samples)
  {
    hide Averages, IntAverages;
    var n := |samples|;
    var cores := AverageColumns(Cores(samples));
    var procs := AverageColumns(Procs(samples));
    var mems := AverageIntColumns(Mems(samples));
    var gauges, counters := ZERO_GAUGES, ZERO_COUNTERS;
    for i := 0 to n
      invariant gauges == TotalGauges(samples[..i]) && counters == TotalCounters(samples[..i])
    {
      assert samples[..i + 1][..i] == samples[..i];
      gauges := PlusGauges(gauges, samples[i].gauges);
      counters := PlusCounters(counters, samples[i].counters);
    }
    assert samples[..n] == samples;
    result := Sample(samples[n - 1].ts, cores, procs, mems, DivideGauges(gauges, n), counters);
  }

  // ---- Tiers ----

  const RETENTION: seq<nat> := [1800, 1440, 2016, 2880]
  const WINDOW: seq<nat> := [1, 15, 150, 450]

  function Last<T>(s: seq<T>, n: nat): seq<T> { if |s| <= n then s else s[|s| - n..] }

  /** The means of the consecutive full windows of the stream. */
  function Windows(raw: seq<Sample>, w: nat): seq<Sample>
    requires w > 0
  {
    if |raw| < w then [] else [MeanOf(raw[..w])] + Windows(raw[w..], w)
  }

  /** What no full window covers yet. */
  function Leftover(raw: seq<Sample>, w: nat): (r: seq<Sample>)
    requires w > 0
    ensures |r| < w
  {
    if |raw| < w then raw else Leftover(raw[w..], w)
  }

  /** The k-th window is the k-th stretch of `w` samples, and what is left follows the last one. */
  lemma {:induction false} WindowAt(raw: seq<Sample>, w: nat, k: nat)
    requires w > 0 && k < |Windows(raw, w)|
    ensures k * w + w <= |raw| && Windows(raw, w)[k] == MeanOf(raw[k * w..k * w + w])
    ensures |Windows(raw, w)| * w + |Leftover(raw, w)| == |raw|
    ensures Leftover(raw, w) == raw[|raw| - |Leftover(raw, w)|..]
  {
    hide MeanOf;
    WindowCount(raw, w);
    if k > 0 {
      WindowAt(raw[w..], w, k - 1);
      assert (k - 1) * w + w == k * w;
      assert raw[w..][(k - 1) * w..(k - 1) * w + w] == raw[k * w..k * w + w];
    }
  }

  lemma {:induction false} WindowCount(raw: seq<Sample>, w: nat)
    requires w > 0
    ensures |Windows(raw, w)| * w + |Leftover(raw, w)| == |raw|
    ensures |Leftover(raw, w)| <= |raw| && Leftover(raw, w) == raw[|raw| - |Leftover(raw, w)|..]
  {
    hide MeanOf;
    if |raw| >= w {
      WindowCount(raw[w..], w);
      var n := |Windows(raw[w..], w)|;
      assert (n + 1) * w == n * w + w;
    }
  }

  lemma {:induction false} OneMore(raw: seq<Sample>, sm: Sample, w: nat)
    requires w > 0
    ensures var pending := Leftover(raw, w) + [sm];
            if |pending| < w then Leftover(raw + [sm], w) == pending && Windows(raw + [sm], w) == Windows(raw, w)
            else Leftover(raw + [sm], w) == [] && Windows(raw + [sm], w) == Windows(raw, w) + [MeanOf(pending)]
  {
    hide MeanOf;
    var all := raw + [sm];
    if |raw| >= w {
      assert all[..w] == raw[..w] && all[w..] == raw[w..] + [sm];
      OneMore(raw[w..], sm, w);
      if |Leftover(raw, w)| + 1 == w {
        assert Windows(all, w) == ([MeanOf(raw[..w])] + Windows(raw[w..], w)) + [MeanOf(Leftover(raw, w) + [sm])];
      }
    } else if |raw| + 1 == w {
      assert all[..w] == all && all[w..] == [];
    }
  }

  lemma LastAppends<T>(s: seq<T>, x: T, n: nat)
    requires n > 0
    ensures Last(Last(s, n) + [x], n) == Last(s + [x], n)
  {
  }

  lemma {:induction false} TotalConcat(a: seq<Sample>, b: seq<Sample>)
    ensures TotalCounters(a + b) == PlusCounters(TotalCounters(a), TotalCounters(b))
    decreases |b|
  {
    if b == [] {
      assert a + b == a;
    } else {
      assert (a + b)[..|a + b| - 1] == a + b[..|b| - 1];
      TotalConcat(a, b[..|b| - 1]);
    }
  }

  /** The counters of a tier's samples, counting trimmed ones, and of what is pending add up to those
      of the raw stream. */
  lemma {:induction false} CountersAreConserved(raw: seq<Sample>, w: nat)
    requires w > 0
    ensures PlusCounters(TotalCounters(Windows(raw, w)), TotalCounters(Leftover(raw, w))) == TotalCounters(raw)
  {
    if |raw| < w {
      NoWindow(raw, w);
    } else {
      hide TotalCounters, MeanOf, PlusCounters, Windows, Leftover;
      CountersAreConserved(raw[w..], w);
      WindowStep(raw, w);
    }
  }

  lemma WindowStep(raw: seq<Sample>, w: nat)
    requires 0 < w <= |raw|
    requires PlusCounters(TotalCounters(Windows(raw[w..], w)), TotalCounters(Leftover(raw[w..], w))) == TotalCounters(raw[w..])
    ensures PlusCounters(TotalCounters(Windows(raw, w)), TotalCounters(Leftover(raw, w))) == TotalCounters(raw)
  {
    hide TotalCounters, MeanOf, PlusCounters, Windows, Leftover;
    var first, rest := [MeanOf(raw[..w])], raw[w..];
    assert raw == raw[..w] + rest;
    TotalConcat(raw[..w], rest);
    TotalConcat(first, Windows(rest, w));
    OneWindow(raw[..w]);
    FirstWindow(raw, w);
    PlusAssociates(TotalCounters(first), TotalCounters(Windows(rest, w)), TotalCounters(Leftover(rest, w)));
  }

  lemma FirstWindow(raw: seq<Sample>, w: nat)
    requires 0 < w <= |raw|
    ensures Windows(raw, w) == [MeanOf(raw[..w])] + Windows(raw[w..], w) && Leftover(raw, w) == Leftover(raw[w..], w)
  {
    hide MeanOf;
  }

  lemma PlusAssociates(a: Counters, b: Counters, c: Counters)
    ensures PlusCounters(PlusCounters(a, b), c) == PlusCounters(a, PlusCounters(b, c))
  {
  }

  lemma NoWindow(raw: seq<Sample>, w: nat)
    requires |raw| < w
    ensures PlusCounters(TotalCounters(Windows(raw, w)), TotalCounters(Leftover(raw, w))) == TotalCounters(raw)
  {
    assert Windows(raw, w) == [];
  }

  lemma OneWindow(window: seq<Sample>)
    requires window != []
    ensures TotalCounters([MeanOf(window)]) == TotalCounters(window)
  {
    assert [MeanOf(window)][..0] == [];
    assert MeanOf(window).counters == TotalCounters(window);
  }

  datatype Tier = Tier(samples: seq<Sample>, pending: seq<Sample>)

  /** `appendCapped`. */
  method AppendCapped(samples: seq<Sample>, sm: Sample, cap: nat) returns (r: seq<Sample>)
    ensures r == Last(samples + [sm], cap)
  {
    r := samples + [sm];
    if |r| > cap { r := r[|r| - cap..]; }
  }

  lemma LastIsTrimmed<T>(s: seq<T>, n: nat)
    ensures Last(s, n) == if |s| > n then s[|s| - n..] else s
    ensures |Last(s, n)| <= n && Last(Last(s, n) + [], n) == Last(s, n)
  {
    assert Last(s, n) + [] == Last(s, n);
  }

  lemma CappedLoads(files: seq<seq<Sample>>)
    requires |files| == 4
    ensures forall i | 0 <= i < 4 :: |Last(files[i], RETENTION[i])| <= RETENTION[i]
    ensures forall i | 0 <= i < 4 :: Last(Last(files[i], RETENTION[i]) + [], RETENTION[i]) == Last(files[i], RETENTION[i])
    ensures forall i | 0 <= i < 4 :: Windows([], WINDOW[i]) == [] && Leftover([], WINDOW[i]) == []
  {
    forall i | 0 <= i < 4 ensures |Last(files[i], RETENTION[i])| <= RETENTION[i]
      && Last(Last(files[i], RETENTION[i]) + [], RETENTION[i]) == Last(files[i], RETENTION[i]) { LastIsTrimmed(files[i], RETENTION[i]); }
  }

  class Store {
    const tiers: array<Tier>
    ghost var loaded: seq<seq<Sample>>
    ghost var raw: seq<Sample>

    /** Each tier holds the last of what was loaded and then rolled up. */
    ghost predicate TierIs(i: nat)
      requires i < 4
      reads this, tiers
    {
      && i < tiers.Length && i < |loaded| && |loaded[i]| <= RETENTION[i]
      && tiers[i].samples == Last(loaded[i] + (if i == 0 then raw else Windows(raw, WINDOW[i])), RETENTION[i])
      && tiers[i].pending == (if i == 0 then [] else Leftover(raw, WINDOW[i]))
    }

    ghost predicate Valid()
      reads this, tiers
    {
      tiers.Length == 4 && |loaded| == 4 && TierIs(0) && TierIs(1) && TierIs(2) && TierIs(3)
    }

    /** An empty store. */
    constructor ()
      ensures Valid() && fresh(tiers) && raw == [] && loaded == [[], [], [], []]
    {
      tiers := new Tier[4](_ => Tier([], []));
      loaded, raw := [[], [], [], []], [];
    }

    /** `Load`: a missing or corrupt file gives no samples; at most the retention is kept. */
    method Load(files: seq<seq<Sample>>)
      requires Valid() && raw == [] && |files| == 4
      modifies this, tiers
      ensures Valid() && raw == []
      ensures forall i | 0 <= i < 4 :: loaded[i] == Last(files[i], RETENTION[i]) && tiers[i].samples == loaded[i]
    {
      hide Windows, Leftover, Last;
      CappedLoads(files);
      for i := 0 to 4
        invariant loaded == old(loaded) && raw == []
        invariant forall k | 0 <= k < i :: tiers[k] == Tier(Last(files[k], RETENTION[k]), [])
        invariant forall k | i <= k < 4 :: tiers[k].pending == []
      {
        LastIsTrimmed(files[i], RETENTION[i]);
        tiers[i] := tiers[i].(samples := if |files[i]| > RETENTION[i] then files[i][|files[i]| - RETENTION[i]..] else files[i]);
      }
      loaded := [Last(files[0], 1800), Last(files[1], 1440), Last(files[2], 2016), Last(files[3], 2880)];
      assert TierIs(0) && TierIs(1) && TierIs(2) && TierIs(3);
    }

    /** One coarser tier takes a raw sample. */
    method Feed(i: nat, sm: Sample)
      requires 1 <= i < 4 && tiers.Length == 4 && TierIs(i)
      modifies tiers
      ensures forall k | 0 <= k < 4 && k != i :: tiers[k] == old(tiers[k])
      ensures tiers[i].samples == Last(loaded[i] + Windows(raw + [sm], WINDOW[i]), RETENTION[i])
      ensures tiers[i].pending == Leftover(raw + [sm], WINDOW[i])
    {
      hide Windows, Leftover, MeanOf;
      var w, r := WINDOW[i], RETENTION[i];
      ghost var all := loaded[i] + Windows(raw, w);
      OneMore(raw, sm, w);
      var pending := tiers[i].pending + [sm];
      tiers[i] := tiers[i].(pending := pending);
      if |pending| >= w {
        assert pending[..w] == pending && pending[w..] == [];
        var m := Mean(pending[..w]);
        LastAppends(all, m, r);
        assert loaded[i] + (Windows(raw, w) + [m]) == all + [m];
        var samples := AppendCapped(tiers[i].samples, m, r);
        tiers[i] := Tier(samples, pending[w..]);
      }
    }

    /** `Add`. */
    method Add(sm: Sample)
      requires Valid()
      modifies this, tiers
      ensures Valid() && raw == old(raw) + [sm] && loaded == old(loaded)
      ensures tiers[0].samples == Last(loaded[0] + raw, 1800)
      ensures tiers[1].samples == Last(loaded[1] + Windows(raw, 15), 1440)
      ensures tiers[2].samples == Last(loaded[2] + Windows(raw, 150), 2016)
      ensures tiers[3].samples == Last(loaded[3] + Windows(raw, 450), 2880)
    {
      hide Windows, Leftover, Last;
      LastAppends(loaded[0] + raw, sm, RETENTION[0]);
      assert loaded[0] + raw + [sm] == loaded[0] + (raw + [sm]);
      var first := AppendCapped(tiers[0].samples, sm, RETENTION[0]);
      tiers[0] := tiers[0].(samples := first);
      for i := 1 to 4
        invariant raw == old(raw) && loaded == old(loaded) && tiers[0] == Tier(first, [])
        invariant forall k | i <= k < 4 :: tiers[k] == old(tiers[k])
        invariant forall k | 1 <= k < i :: tiers[k].samples == Last(loaded[k] + Windows(raw + [sm], WINDOW[k]), RETENTION[k])
        invariant forall k | 1 <= k < i :: tiers[k].pending == Leftover(raw + [sm], WINDOW[k])
      {
        assert old(TierIs(i));
        Feed(i, sm);
      }
      raw := raw + [sm];
    }

    /** `Query`: the samples from the first that is not older than the cutoff. */
    method Query(tier: nat, cutoff: int) returns (result: seq<Sample>)
      requires tier < tiers.Length
      ensures |result| <= |tiers[tier].samples| && result == tiers[tier].samples[|tiers[tier].samples| - |result|..]
      ensures result != [] ==> result[0].ts >= cutoff
      ensures forall i | 0 <= i < |tiers[tier].samples| - |result| :: tiers[tier].samples[i].ts < cutoff
    {
      hide Store.TierIs, Store.Valid;
      var source, first := tiers[tier].samples, 0;
      while first < |source| && source[first].ts < cutoff
        invariant first <= |source| && forall i | 0 <= i < first :: source[i].ts < cutoff
      {
        first := first + 1;
      }
      result := source[first..];
    }
  }
}
