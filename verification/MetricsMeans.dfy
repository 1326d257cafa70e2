/** What a mean is. */
module MetricsMeans {
  import opened Metrics

  function SumReal(samples: seq<Sample>, f: Sample -> real): real {
    if samples == [] then 0.0 else SumReal(samples[..|samples| - 1], f) + f(samples[|samples| - 1])
  }

  function SumInt(samples: seq<Sample>, f: Sample -> int): int {
    if samples == [] then 0 else SumInt(samples[..|samples| - 1], f) + f(samples[|samples| - 1])
  }

  /** One entry of a vector, a missing one counting as zero. */
  function At(v: seq<real>, k: nat): real { if k < |v| then v[k] else 0.0 }

  function IntAt(v: seq<int>, k: nat): int { if k < |v| then v[k] else 0 }

  function Core(k: nat): Sample -> real { (s: Sample) => At(s.cores, k) }

  function Proc(k: nat): Sample -> real { (s: Sample) => At(s.procCpu, k) }

  function Mem(k: nat): Sample -> int { (s: Sample) => IntAt(s.procMemMb, k) }

  /** `q` is the quotient of `total` by `n`, cut off toward zero. */
  predicate IsQuotient(q: int, total: int, n: nat) {
    if total >= 0 then n * q <= total < n * q + n else n * q - n < total <= n * q
  }

  lemma QuotientIs(total: int, n: nat)
    requires n > 0
    ensures IsQuotient(Truncated(total, n), total, n)
  {
  }

  lemma Divided(x: real, n: nat)
    requires n > 0
    ensures x / n as real * n as real == x
  {
  }

  /** The gauges of an aggregate are averages, each over that gauge of the samples. */
  predicate GaugesAverage(m: Sample, samples: seq<Sample>) {
    var n := |samples|;
    && m.gauges.load1 * n as real == SumReal(samples, (s: Sample) => s.gauges.load1)
    && m.gauges.gpuUtil * n as real == SumReal(samples, (s: Sample) => s.gauges.gpuUtil)
    && m.gauges.gpuMemMb * n as real == SumReal(samples, (s: Sample) => s.gauges.gpuMemMb)
    && IsQuotient(m.gauges.memUsedMb, SumInt(samples, (s: Sample) => s.gauges.memUsedMb), n)
    && IsQuotient(m.gauges.memTotalMb, SumInt(samples, (s: Sample) => s.gauges.memTotalMb), n)
  }

  /** The counters are sums, each over that counter of the samples. */
  predicate CountersAdd(m: Sample, samples: seq<Sample>) {
    && m.counters.tokIn == SumInt(samples, (s: Sample) => s.counters.tokIn)
    && m.counters.tokOut == SumInt(samples, (s: Sample) => s.counters.tokOut)
    && m.counters.tokCached == SumInt(samples, (s: Sample) => s.counters.tokCached)
    && m.counters.promptMs == SumReal(samples, (s: Sample) => s.counters.promptMs)
    && m.counters.predictMs == SumReal(samples, (s: Sample) => s.counters.predictMs)
    && m.counters.observe == SumInt(samples, (s: Sample) => s.counters.observe)
    && m.counters.actuate == SumInt(samples, (s: Sample) => s.counters.actuate)
    && m.counters.bash == SumInt(samples, (s: Sample) => s.counters.bash)
    && m.counters.speak == SumInt(samples, (s: Sample) => s.counters.speak)
  }

  /** The longest of the vectors gives the length. */
  ghost predicate Longest(width: nat, samples: seq<Sample>, length: Sample -> nat) {
    && (forall s <- samples :: length(s) <= width)
    && (width == 0 || exists s <- samples :: length(s) == width)
  }

  /** The cores are as many as in the longest, and averages position by position. */
  ghost predicate CoresAverage(r: seq<real>, samples: seq<Sample>) {
    && Longest(|r|, samples, (s: Sample) => |s.cores|)
    && forall k | 0 <= k < |r| :: r[k] * |samples| as real == SumReal(samples, Core(k))
  }

  /** So is the processor use of the processes, */
  ghost predicate ProcsAverage(r: seq<real>, samples: seq<Sample>) {
    && Longest(|r|, samples, (s: Sample) => |s.procCpu|)
    && forall k | 0 <= k < |r| :: r[k] * |samples| as real == SumReal(samples, Proc(k))
  }

  /** and their memory, cut off to whole numbers. */
  ghost predicate MemsAverage(r: seq<int>, samples: seq<Sample>) {
    && Longest(|r|, samples, (s: Sample) => |s.procMemMb|)
    && forall k | 0 <= k < |r| :: IsQuotient(r[k], SumInt(samples, Mem(k)), |samples|)
  }

  lemma {:induction false} GaugeSums(samples: seq<Sample>)
    ensures var g := TotalGauges(samples);
            && g.load1 == SumReal(samples, (s: Sample) => s.gauges.load1)
            && g.gpuUtil == SumReal(samples, (s: Sample) => s.gauges.gpuUtil)
            && g.gpuMemMb == SumReal(samples, (s: Sample) => s.gauges.gpuMemMb)
            && g.memUsedMb == SumInt(samples, (s: Sample) => s.gauges.memUsedMb)
            && g.memTotalMb == SumInt(samples, (s: Sample) => s.gauges.memTotalMb)
  {
    if samples != [] { GaugeSums(samples[..|samples| - 1]); }
  }

  lemma {:induction false} CounterSums(m: Sample, samples: seq<Sample>)
    requires m.counters == TotalCounters(samples)
    ensures CountersAdd(m, samples)
    decreases |samples|
  {
    if samples != [] {
      var before := m.(counters := TotalCounters(samples[..|samples| - 1]));
      CounterSums(before, samples[..|samples| - 1]);
    }
  }

  lemma {:induction false} CoreSums(samples: seq<Sample>, k: nat)
    ensures ColumnSum(Cores(samples), k) == SumReal(samples, Core(k))
  {
    if samples != [] {
      CoreSums(samples[..|samples| - 1], k);
      assert Cores(samples)[..|samples| - 1] == Cores(samples[..|samples| - 1]);
    }
  }

  lemma {:induction false} ProcSums(samples: seq<Sample>, k: nat)
    ensures ColumnSum(Procs(samples), k) == SumReal(samples, Proc(k))
  {
    if samples != [] {
      ProcSums(samples[..|samples| - 1], k);
      assert Procs(samples)[..|samples| - 1] == Procs(samples[..|samples| - 1]);
    }
  }

  lemma {:induction false} MemSums(samples: seq<Sample>, k: nat)
    ensures IntColumnSum(Mems(samples), k) == SumInt(samples, Mem(k))
  {
    if samples != [] {
      MemSums(samples[..|samples| - 1], k);
      assert Mems(samples)[..|samples| - 1] == Mems(samples[..|samples| - 1]);
    }
  }

  lemma WidthIsLongest<T>(vectors: seq<seq<T>>, samples: seq<Sample>, length: Sample -> nat)
    requires |vectors| == |samples| && forall i | 0 <= i < |samples| :: |vectors[i]| == length(samples[i])
    ensures Longest(Width(vectors), samples, length)
  {
    if Width(vectors) > 0 {
      var i :| 0 <= i < |vectors| && |vectors[i]| == Width(vectors);
      assert samples[i] in samples;
    }
  }

  /** Every field of an aggregate stands for that same field of the samples, and its time is the last. */
  lemma MeanIs(samples: seq<Sample>)
    requires samples != []
    ensures var m := MeanOf(samples);
            && m.ts == samples[|samples| - 1].ts
            && CoresAverage(m.cores, samples) && ProcsAverage(m.procCpu, samples) && MemsAverage(m.procMemMb, samples)
            && GaugesAverage(m, samples) && CountersAdd(m, samples)
  {
    var m := MeanOf(samples);
    CounterSums(m, samples);
    GaugesAre(m, samples);
    CoresAre(samples);
    ProcsAre(samples);
    MemsAre(samples);
    hide Averages, IntAverages, CoresAverage, ProcsAverage, MemsAverage, GaugesAverage, CountersAdd;
  }

  lemma GaugesAre(m: Sample, samples: seq<Sample>)
    requires samples != [] && m.gauges == DivideGauges(TotalGauges(samples), |samples|)
    ensures GaugesAverage(m, samples)
  {
    var g, n := TotalGauges(samples), |samples|;
    GaugeSums(samples);
    Divided(g.load1, n);
    Divided(g.gpuUtil, n);
    Divided(g.gpuMemMb, n);
    QuotientIs(g.memUsedMb, n);
    QuotientIs(g.memTotalMb, n);
    hide TotalGauges, Truncated, IsQuotient, SumReal, SumInt;
  }

  lemma CoresAre(samples: seq<Sample>)
    requires samples != []
    ensures CoresAverage(Averages(Cores(samples), |samples|), samples)
  {
    hide SumReal, ColumnSum, Width, Core, Longest;
    WidthIsLongest(Cores(samples), samples, (s: Sample) => |s.cores|);
    var r := Averages(Cores(samples), |samples|);
    forall k | 0 <= k < |r| ensures r[k] * |samples| as real == SumReal(samples, Core(k)) {
      CoreSums(samples, k);
      Divided(ColumnSum(Cores(samples), k), |samples|);
    }
  }

  lemma ProcsAre(samples: seq<Sample>)
    requires samples != []
    ensures ProcsAverage(Averages(Procs(samples), |samples|), samples)
  {
    hide SumReal, ColumnSum, Width, Proc, Longest;
    WidthIsLongest(Procs(samples), samples, (s: Sample) => |s.procCpu|);
    var r := Averages(Procs(samples), |samples|);
    forall k | 0 <= k < |r| ensures r[k] * |samples| as real == SumReal(samples, Proc(k)) {
      ProcSums(samples, k);
      Divided(ColumnSum(Procs(samples), k), |samples|);
    }
  }

  lemma MemsAre(samples: seq<Sample>)
    requires samples != []
    ensures MemsAverage(IntAverages(Mems(samples), |samples|), samples)
  {
    hide SumInt, IntColumnSum, Width, Mem, Truncated, IsQuotient, Longest;
    WidthIsLongest(Mems(samples), samples, (s: Sample) => |s.procMemMb|);
    var r := IntAverages(Mems(samples), |samples|);
    forall k | 0 <= k < |r| ensures IsQuotient(r[k], SumInt(samples, Mem(k)), |samples|) {
      MemSums(samples, k);
      QuotientIs(IntColumnSum(Mems(samples), k), |samples|);
    }
  }
}
