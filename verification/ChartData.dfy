/** Merging adjacent samples so that a chart draws a bounded number of bars.  A sample is a map from
    field names to numbers or lists of numbers; floating point is modelled by reals. */
module ChartData {

  datatype Field = Num(n: real) | Vec(v: seq<real>)

  datatype Sample = Sample(ts: int, fields: map<string, Field>)

  function Keys(group: seq<Sample>): set<string> {
    if group == [] then {} else Keys(group[..|group| - 1]) + group[|group| - 1].fields.Keys
  }

  /** A missing number counts as zero. */
  function NumberOf(s: Sample, key: string): real {
    if key in s.fields && s.fields[key].Num? then s.fields[key].n else 0.0
  }

  function ListOf(s: Sample, key: string): seq<real> {
    if key in s.fields && s.fields[key].Vec? then s.fields[key].v else []
  }

  function Total(group: seq<Sample>, key: string): real {
    if group == [] then 0.0 else Total(group[..|group| - 1], key) + NumberOf(group[|group| - 1], key)
  }

  function Width(group: seq<Sample>, key: string): nat {
    if group == [] then 0
    else
      var (w, last) := (Width(group[..|group| - 1], key), |ListOf(group[|group| - 1], key)|);
      if last > w then last else w
  }

  function ColumnTotal(group: seq<Sample>, key: string, i: nat): real {
    if group == [] then 0.0
    else
      var last := ListOf(group[|group| - 1], key);
      ColumnTotal(group[..|group| - 1], key, i) + (if i < |last| then last[i] else 0.0)
  }

  /** Whether the first sample that has the field has a list. */
  function IsList(group: seq<Sample>, key: string): bool {
    group != [] && (if key in group[0].fields then group[0].fields[key].Vec? else IsList(group[1..], key))
  }

  function MergedField(group: seq<Sample>, key: string, sums: set<string>): Field
    requires group != []
  {
    if IsList(group, key) then
      Vec(seq(Width(group, key), i requires 0 <= i < Width(group, key) => ColumnTotal(group, key, i) / |group| as real))
    else Num(if key in sums then Total(group, key) else Total(group, key) / |group| as real)
  }

  function Merged(group: seq<Sample>, sums: set<string>): Sample
    requires group != []
  {
    Sample(group[0].ts, map key | key in Keys(group) :: MergedField(group, key, sums))
  }

  /** The groups of `k` adjacent samples, the last one perhaps shorter. */
  function Bars(samples: seq<Sample>, k: nat, sums: set<string>): seq<Sample>
    requires k > 0
  {
    if samples == [] then []
    else if |samples| <= k then [Merged(samples, sums)]
    else [Merged(samples[..k], sums)] + Bars(samples[k..], k, sums)
  }

  function CeilDiv(a: nat, b: nat): nat
    requires b > 0
  {
    (a + b - 1) / b
  }

  // ---- As the program runs it ----

  lemma WidthBounds(group: seq<Sample>, key: string, j: nat)
    requires j < |group|
    ensures |ListOf(group[j], key)| <= Width(group, key)
  {
    if j < |group| - 1 { WidthBounds(group[..|group| - 1], key, j); }
  }

  method MergeLists(group: seq<Sample>, key: string) returns (field: Field)
    requires group != [] && IsList(group, key)
    ensures forall sums :: field == MergedField(group, key, sums)
  {
    hide IsList;
    var length := 0;
    for j := 0 to |group|
      invariant length == Width(group[..j], key)
    {
      assert group[..j + 1][..j] == group[..j];
      var n := |ListOf(group[j], key)|;
      length := if n > length then n else length;
    }
    assert group[..|group|] == group;
    var totals := SumLists(group, key, length);
    field := Vec(totals);
  }

  /** The sums of the lists, position by position, each divided by the size of the group. */
  method SumLists(group: seq<Sample>, key: string, length: nat) returns (averages: seq<real>)
    requires group != [] && length == Width(group, key)
    ensures averages == seq(length, i requires 0 <= i < length => ColumnTotal(group, key, i) / |group| as real)
  {
    hide ListOf;
    var totals := new real[length](_ => 0.0);
    for j := 0 to |group|
      invariant forall i | 0 <= i < length :: totals[i] == ColumnTotal(group[..j], key, i)
    {
      assert group[..j + 1][..j] == group[..j];
      WidthBounds(group, key, j);
      var values := ListOf(group[j], key);
      for i := 0 to |values|
        invariant forall k | 0 <= k < i :: totals[k] == ColumnTotal(group[..j + 1], key, k)
        invariant forall k | i <= k < length :: totals[k] == ColumnTotal(group[..j], key, k)
      {
        totals[i] := totals[i] + values[i];
      }
    }
    assert group[..|group|] == group;
    averages := seq(length, i requires 0 <= i < length reads totals => totals[i] / |group| as real);
  }

  method MergeNumbers(group: seq<Sample>, key: string, sums: set<string>) returns (field: Field)
    requires group != [] && !IsList(group, key)
    ensures field == MergedField(group, key, sums)
  {
    hide IsList;
    var total := 0.0;
    for j := 0 to |group|
      invariant total == Total(group[..j], key)
    {
      assert group[..j + 1][..j] == group[..j];
      total := total + NumberOf(group[j], key);
    }
    assert group[..|group|] == group;
    field := Num(if key in sums then total else total / |group| as real);
  }

  /** `mergeGroup`. */
  method MergeGroup(group: seq<Sample>, sums: set<string>) returns (out: Sample)
    requires group != []
    ensures out == Merged(group, sums)
  {
    hide MergedField, IsList;
    var keys: set<string> := {};
    for j := 0 to |group|
      invariant keys == Keys(group[..j])
    {
      assert group[..j + 1][..j] == group[..j];
      keys := keys + group[j].fields.Keys;
    }
    assert group[..|group|] == group;
    var fields: map<string, Field> := map[];
    var left := keys;
    while left != {}
      invariant left <= keys && fields.Keys == keys - left
      invariant forall key <- fields :: fields[key] == MergedField(group, key, sums)
      decreases |left|
    {
      var key :| key in left;
      var field;
      if IsList(group, key) { field := MergeLists(group, key); } else { field := MergeNumbers(group, key, sums); }
      fields := fields[key := field];
      left := left - {key};
    }
    out := Sample(group[0].ts, fields);
  }

  /** `downsample`. */
  method Downsample(samples: seq<Sample>, resSec: nat, maxBars: nat, sums: set<string>)
    returns (bars: seq<Sample>, resolution: nat)
    requires maxBars > 0
    ensures if |samples| <= maxBars then bars == samples && resolution == resSec
            else var k := CeilDiv(|samples|, maxBars); k > 0 && bars == Bars(samples, k, sums) && resolution == resSec * k
  {
    hide Merged;
    if |samples| <= maxBars { return samples, resSec; }
    var k := CeilDiv(|samples|, maxBars);
    bars := [];
    var start := 0;
    assert samples[0..] == samples;
    while start < |samples|
      invariant start <= |samples| && bars + Bars(samples[start..], k, sums) == Bars(samples, k, sums)
      decreases |samples| - start
    {
      var end := if start + k <= |samples| then start + k else |samples|;
      var group := samples[start..end];
      var bar := MergeGroup(group, sums);
      ghost var rest := samples[start..];
      assert if |rest| <= k then group == rest else group == rest[..k] && rest[k..] == samples[end..];
      assert Bars(rest, k, sums) == [bar] + Bars(samples[end..], k, sums);
      assert bars + ([bar] + Bars(samples[end..], k, sums)) == (bars + [bar]) + Bars(samples[end..], k, sums);
      bars := bars + [bar];
      start := end;
    }
    assert bars + [] == bars;
    resolution := resSec * k;
  }

  // ---- What a bar shows ----

  /** The sum over the group of the `i`-th entry of a list, or of a number. */
  function Sum(group: seq<Sample>, f: Sample -> real): real {
    if group == [] then 0.0 else f(group[0]) + Sum(group[1..], f)
  }

  function Number(key: string): Sample -> real {
    (s: Sample) => if key in s.fields && s.fields[key].Num? then s.fields[key].n else 0.0
  }

  function Entry(key: string, i: nat): Sample -> real {
    (s: Sample) => if key in s.fields && s.fields[key].Vec? && i < |s.fields[key].v| then s.fields[key].v[i] else 0.0
  }

  /** A counter shows its sum, any other number its average, and a list its averages position by position. */
  ghost predicate Shows(bar: Field, group: seq<Sample>, key: string, sums: set<string>) {
    match bar
    case Num(n) => n * (if key in sums then 1.0 else |group| as real) == Sum(group, Number(key))
    case Vec(v) =>
      && (forall s <- group :: key in s.fields && s.fields[key].Vec? ==> |s.fields[key].v| <= |v|)
      && forall i | 0 <= i < |v| :: v[i] * |group| as real == Sum(group, Entry(key, i))
  }

  lemma {:induction false} SumAppends(group: seq<Sample>, f: Sample -> real)
    requires group != []
    ensures Sum(group, f) == Sum(group[..|group| - 1], f) + f(group[|group| - 1])
  {
    if |group| > 1 {
      SumAppends(group[1..], f);
      assert group[1..][..|group| - 2] == group[..|group| - 1][1..];
    }
  }

  lemma {:induction false} TotalIsSum(group: seq<Sample>, key: string)
    ensures Total(group, key) == Sum(group, Number(key))
  {
    if group != [] {
      TotalIsSum(group[..|group| - 1], key);
      SumAppends(group, Number(key));
    }
  }

  lemma {:induction false} ColumnIsSum(group: seq<Sample>, key: string, i: nat)
    ensures ColumnTotal(group, key, i) == Sum(group, Entry(key, i))
  {
    if group != [] {
      ColumnIsSum(group[..|group| - 1], key, i);
      SumAppends(group, Entry(key, i));
    }
  }

  lemma {:induction false} KeysAre(group: seq<Sample>, key: string)
    ensures key in Keys(group) <==> exists s <- group :: key in s.fields
  {
    if group != [] {
      KeysAre(group[..|group| - 1], key);
      assert group == group[..|group| - 1] + [group[|group| - 1]];
    }
  }

  /** A bar has the time of its first sample and the fields of all; a field is a list if the first
      sample that has it has a list. */
  lemma BarIs(group: seq<Sample>, key: string, sums: set<string>)
    requires group != []
    ensures var bar := Merged(group, sums);
            && bar.ts == group[0].ts
            && (key in bar.fields <==> exists s <- group :: key in s.fields)
            && (key in bar.fields ==> Shows(bar.fields[key], group, key, sums))
            && (key in bar.fields ==>
                  (bar.fields[key].Vec? <==>
                     exists j | 0 <= j < |group| && key in group[j].fields && group[j].fields[key].Vec? ::
                       forall k | 0 <= k < j :: key !in group[k].fields))
  {
    hide MergedField, Keys, IsList, Shows;
    KeysAre(group, key);
    FieldIs(group, key, sums);
    ListIff(group, key);
  }

  lemma {:induction false} ListIff(group: seq<Sample>, key: string)
    ensures IsList(group, key) <==>
            exists j | 0 <= j < |group| && key in group[j].fields && group[j].fields[key].Vec? ::
              forall k | 0 <= k < j :: key !in group[k].fields
  {
    if group != [] && key !in group[0].fields {
      var rest := group[1..];
      ListIff(rest, key);
      assert forall k | 0 <= k < |rest| :: rest[k] == group[k + 1];
      if IsList(rest, key) {
        var j :| 0 <= j < |rest| && key in rest[j].fields && rest[j].fields[key].Vec?
          && forall k | 0 <= k < j :: key !in rest[k].fields;
        forall k | 0 <= k < j + 1 ensures key !in group[k].fields { assert k > 0 ==> group[k] == rest[k - 1]; }
        assert group[j + 1] == rest[j];
      }
      forall j | 0 <= j < |group| && key in group[j].fields && group[j].fields[key].Vec?
                 && forall k | 0 <= k < j :: key !in group[k].fields
        ensures IsList(rest, key)
      {
        assert rest[j - 1] == group[j];
      }
    }
  }

  lemma FieldIs(group: seq<Sample>, key: string, sums: set<string>)
    requires group != []
    ensures Shows(MergedField(group, key, sums), group, key, sums)
    ensures MergedField(group, key, sums).Vec? <==> IsList(group, key)
  {
    hide Total, ColumnTotal, Width, Sum, Number, Entry, IsList;
    TotalIsSum(group, key);
    DivideTimes(Total(group, key), |group| as real);
    forall i | 0 <= i < Width(group, key)
      ensures ColumnTotal(group, key, i) / |group| as real * |group| as real == Sum(group, Entry(key, i))
    {
      ColumnIsSum(group, key, i);
      DivideTimes(ColumnTotal(group, key, i), |group| as real);
    }
    forall s | s in group ensures key in s.fields && s.fields[key].Vec? ==> |s.fields[key].v| <= Width(group, key) {
      var j: nat :| j < |group| && group[j] == s;
      WidthBounds(group, key, j);
    }
  }

  // ---- What merging keeps ----

  lemma {:induction false} TotalConcat(a: seq<Sample>, b: seq<Sample>, key: string)
    ensures Total(a + b, key) == Total(a, key) + Total(b, key)
    decreases |b|
  {
    if b == [] {
      assert a + b == a;
    } else {
      assert (a + b)[..|a + b| - 1] == a + b[..|b| - 1];
      TotalConcat(a, b[..|b| - 1], key);
    }
  }

  lemma {:induction false} NoKeyNoTotal(group: seq<Sample>, key: string)
    requires key !in Keys(group)
    ensures Total(group, key) == 0.0
  {
    if group != [] { NoKeyNoTotal(group[..|group| - 1], key); }
  }

  predicate NeverList(samples: seq<Sample>, key: string) {
    forall i | 0 <= i < |samples| :: key in samples[i].fields ==> samples[i].fields[key].Num?
  }

  lemma {:induction false} NotAList(group: seq<Sample>, key: string)
    requires NeverList(group, key)
    ensures !IsList(group, key)
  {
    if group != [] { NotAList(group[1..], key); }
  }

  function Scale(group: seq<Sample>, key: string, sums: set<string>): real {
    if key in sums then 1.0 else |group| as real
  }

  lemma MergedNumber(group: seq<Sample>, key: string, sums: set<string>)
    requires group != [] && !IsList(group, key)
    ensures var f := MergedField(group, key, sums); f.Num? && f.n * Scale(group, key, sums) == Total(group, key)
  {
    hide IsList, Total;
    DivideTimes(Total(group, key), |group| as real);
  }

  lemma BarNumber(group: seq<Sample>, key: string, sums: set<string>)
    requires group != [] && MergedField(group, key, sums).Num?
    ensures NumberOf(Merged(group, sums), key) == if key in Keys(group) then MergedField(group, key, sums).n else 0.0
  {
    hide MergedField, Keys;
  }

  /** A bar carries the whole of a summed field, and the average of any other. */
  lemma BarKeepsTotal(group: seq<Sample>, key: string, sums: set<string>)
    requires group != [] && NeverList(group, key)
    ensures Total([Merged(group, sums)], key) * Scale(group, key, sums) == Total(group, key)
  {
    hide *;
    NotAList(group, key);
    OneTotal(Merged(group, sums), key);
    MergedNumber(group, key, sums);
    BarNumber(group, key, sums);
    if key !in Keys(group) { NoKeyNoTotal(group, key); }
  }

  lemma OneTotal(bar: Sample, key: string)
    ensures Total([bar], key) == NumberOf(bar, key)
  {
    assert [bar][..0] == [];
  }

  lemma DivideTimes(t: real, n: real)
    requires n > 0.0
    ensures t / n * n == t
  {
  }

  /** The counters of all bars together are the counters of all samples together. */
  lemma {:induction false} BarsKeepTotals(samples: seq<Sample>, k: nat, key: string, sums: set<string>)
    requires k > 0 && key in sums && NeverList(samples, key)
    ensures Total(Bars(samples, k, sums), key) == Total(samples, key)
  {
    hide Merged, Total;
    if samples == [] {
    } else if |samples| <= k {
      BarKeepsTotal(samples, key, sums);
    } else {
      BarKeepsTotal(samples[..k], key, sums);
      BarsKeepTotals(samples[k..], k, key, sums);
      TotalConcat([Merged(samples[..k], sums)], Bars(samples[k..], k, sums), key);
      TotalConcat(samples[..k], samples[k..], key);
      assert samples == samples[..k] + samples[k..];
    }
  }

  /** Every bar but the last covers exactly `k` samples. */
  lemma {:induction false} BarSpan(samples: seq<Sample>, k: nat, sums: set<string>)
    requires k > 0 && samples != []
    ensures |Bars(samples, k, sums)| > 0 && (|Bars(samples, k, sums)| - 1) * k < |samples| <= |Bars(samples, k, sums)| * k
  {
    hide Merged;
    if |samples| > k {
      BarSpan(samples[k..], k, sums);
      var m := |Bars(samples[k..], k, sums)|;
      assert (m + 1) * k == m * k + k && m * k == (m - 1) * k + k;
    }
  }

  lemma CeilCovers(n: nat, limit: nat)
    requires limit > 0
    ensures CeilDiv(n, limit) * limit >= n && (n > limit ==> CeilDiv(n, limit) > 1)
    ensures n > 0 ==> (CeilDiv(n, limit) - 1) * limit < n
  {
    var k := CeilDiv(n, limit);
    assert n + limit - 1 == k * limit + (n + limit - 1) % limit;
  }

  lemma Times(a: nat, b: nat, k: nat)
    ensures a >= b ==> a * k >= b * k
  {
  }

  /** As few samples to a bar as will do: at most the permitted number of bars, whose counters are those
      of the samples. */
  lemma DownsampleIsBounded(samples: seq<Sample>, maxBars: nat, key: string, sums: set<string>)
    requires maxBars > 0 && |samples| > maxBars
    ensures var k := CeilDiv(|samples|, maxBars);
            && k > 1 && (k - 1) * maxBars < |samples| && 0 < |Bars(samples, k, sums)| <= maxBars
            && (key in sums && NeverList(samples, key) ==> Total(Bars(samples, k, sums), key) == Total(samples, key))
  {
    var k := CeilDiv(|samples|, maxBars);
    CeilCovers(|samples|, maxBars);
    BarSpan(samples, k, sums);
    hide CeilDiv, Bars, Total;
    Times(|Bars(samples, k, sums)| - 1, maxBars, k);
    if key in sums && NeverList(samples, key) { BarsKeepTotals(samples, k, key, sums); }
  }
}
