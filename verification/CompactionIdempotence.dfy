/** Compacting twice. */
module CompactionIdempotence {
  // Live stubs stay paired with live observations, and compacting twice changes nothing more.

  import opened PromptMessages
  import opened PromptCompaction
  import opened CompactionProperties

  ghost predicate Shifted(a: seq<nat>, b: seq<nat>, d: int) {
    |a| == |b| && forall k | 0 <= k < |a| :: b[k] == a[k] + d
  }

  /** From `from` on, `r` is `ms` rewritten and moved by `d`. */
  ghost predicate Moved(ms: seq<Message>, r: seq<Message>, from: nat, d: int, selected: set<int>, live: set<nat>) {
    && from <= |ms| && from + d >= 0 && |r| == |ms| + d
    && forall i | from <= i < |ms| :: r[i + d] == Rewrite(ms[i], i in selected, i in live)
  }

  lemma CompactMoves(ms: seq<Message>, h: nat)
    requires h < |ms|
    ensures h <= KeepFrom(ms, h)
    ensures Moved(ms, Compact(ms, h), KeepFrom(ms, h), Shift(ms, h), Selected(ms, h), Live(ms, h))
  {
    hide Compact, KeepFrom, Shift, Selected, Live, Rewrite;
    Layout(ms, h);
  }

  lemma {:induction false} ShiftedStarts(
      ms: seq<Message>, r: seq<Message>, from: nat, d: int, selected: set<int>, live: set<nat>, i: nat)
    requires Moved(ms, r, from, d, selected, live) && from <= i <= |ms|
    ensures Shifted(Starts(ms, i), Starts(r, i + d), d)
    decreases |ms| - i
  {
    hide Rewrite;
    if i < |ms| {
      RewriteSound(ms[i], i in selected, i in live);
      ShiftedStarts(ms, r, from, d, selected, live, i + 1);
    }
  }

  /** The rounds of the compacted list are the retained ones, moved together. */
  lemma StartsAfter(ms: seq<Message>, h: nat)
    requires h < |ms|
    ensures Shifted(Starts(ms, KeepFrom(ms, h)), Starts(Compact(ms, h), h), Shift(ms, h))
    ensures KeepFrom(Compact(ms, h), h) == h
  {
    StartsShift(ms, h);
    KeepFromSound(ms, h);
  }

  lemma StartsShift(ms: seq<Message>, h: nat)
    requires h < |ms|
    ensures Shifted(Starts(ms, KeepFrom(ms, h)), Starts(Compact(ms, h), h), Shift(ms, h))
  {
    hide Compact, KeepFrom, Shift, Selected, Live, Retained, Carried, Shifted;
    CompactMoves(ms, h);
    var r, from, d := Compact(ms, h), KeepFrom(ms, h), Shift(ms, h);
    ShiftedStarts(ms, r, from, d, Selected(ms, h), Live(ms, h), from);
    NoStartBefore(ms, h);
  }

  lemma NoStartBefore(ms: seq<Message>, h: nat)
    requires h < |ms|
    ensures KeepFrom(ms, h) + Shift(ms, h) >= 0
    ensures Starts(Compact(ms, h), KeepFrom(ms, h) + Shift(ms, h)) == Starts(Compact(ms, h), h)
  {
    hide Compact, KeepFrom, Shift, Selected, Live, Retained, Carried;
    Layout(ms, h);
    var r, from, d := Compact(ms, h), KeepFrom(ms, h), Shift(ms, h);
    if from + d == h + 1 {
      CarriedIsPlain(ms, h);
      assert r[h..from + d][0] == r[h];
      assert !RoundStart(r[h]);
    }
  }

  // ---- Counting ----

  function Count(s: seq<nat>, keep: set<int>): nat {
    if s == [] then 0 else (if s[0] in keep then 1 else 0) + Count(s[1..], keep)
  }

  lemma {:induction false} StubCount(
      ms: seq<Message>, r: seq<Message>, from: nat, d: int, selected: set<int>, live: set<nat>, a: nat, b: nat)
    requires Moved(ms, r, from, d, selected, live) && from <= a <= b <= |ms|
    ensures |Indices(r, IsStub, a + d, b + d)| == Count(Indices(ms, IsStub, a, b), live)
    decreases b - a
  {
    hide Rewrite, IsStub, IsObservation;
    if a < b {
      StubCount(ms, r, from, d, selected, live, a + 1, b);
      RewriteSound(ms[a], a in selected, a in live);
      HeadCount(if IsStub(ms[a]) then [a] else [], Indices(ms, IsStub, a + 1, b), live);
    }
  }

  lemma {:induction false} ObservationCount(
      ms: seq<Message>, r: seq<Message>, from: nat, d: int, selected: set<int>, live: set<nat>, a: nat, b: nat)
    requires Moved(ms, r, from, d, selected, live) && from <= a <= b <= |ms|
    ensures |Indices(r, IsObservation, a + d, b + d)| == Count(Indices(ms, IsObservation, a, b), selected)
    decreases b - a
  {
    hide Rewrite, IsStub, IsObservation;
    if a < b {
      ObservationCount(ms, r, from, d, selected, live, a + 1, b);
      RewriteSound(ms[a], a in selected, a in live);
      HeadCount(if IsObservation(ms[a]) then [a] else [], Indices(ms, IsObservation, a + 1, b), selected);
    }
  }

  lemma HeadCount(head: seq<nat>, rest: seq<nat>, keep: set<int>)
    requires |head| <= 1
    ensures Count(head + rest, keep) == (if head != [] && head[0] in keep then 1 else 0) + Count(rest, keep)
  {
    if head == [] { assert head + rest == rest; } else { assert (head + rest)[1..] == rest; }
  }

  /** If the k-th stub is live exactly when the k-th observation is selected, then no more stubs are
      live than observations are selected. */
  lemma {:induction false} PairedCount(stubs: seq<nat>, observations: seq<nat>, live: set<int>, selected: set<int>)
    requires forall k | 0 <= k < |stubs| ::
               stubs[k] in live <==> k < |observations| && observations[k] in selected
    ensures Count(stubs, live) <= Count(observations, selected)
    decreases |stubs|
  {
    if stubs != [] {
      if observations == [] {
        assert stubs[0] !in live;
        PairedCount(stubs[1..], [], live, selected);
      } else {
        PairedCount(stubs[1..], observations[1..], live, selected);
      }
    }
  }

  // ---- Which round a live stub belongs to ----

  ghost predicate RoundsSound(ms: seq<Message>, starts: seq<nat>) {
    && SoundStarts(ms, starts)
    && forall k | 0 <= k < |starts| :: RoundEnd(ms, starts, k) <= |ms| && starts[k] < RoundEnd(ms, starts, k)
  }

  lemma RoundsOf(ms: seq<Message>, from: nat)
    ensures RoundsSound(ms, Starts(ms, from))
  {
    RetainedStarts(ms, from);
    var starts := Starts(ms, from);
    forall k | 0 <= k < |starts| ensures starts[k] < RoundEnd(ms, starts, k) {
      assert starts[k] in starts;
    }
  }

  lemma RoundMembers(ms: seq<Message>, starts: seq<nat>, j: nat, selected: set<int>)
    requires RoundsSound(ms, starts) && j < |starts|
    ensures forall i <- RoundActive(RoundStubs(ms, starts, j), RoundObservations(ms, starts, j), selected) ::
              starts[j] <= i < RoundEnd(ms, starts, j)
  {
    var stubs := RoundStubs(ms, starts, j);
    IndicesSound(ms, IsStub, starts[j], RoundEnd(ms, starts, j));
    forall k | 0 <= k < |stubs| ensures starts[j] <= stubs[k] < RoundEnd(ms, starts, j) { assert stubs[k] in stubs; }
  }

  lemma {:induction false} ActiveInRound(ms: seq<Message>, selected: set<int>, starts: seq<nat>, j0: nat, i: nat)
      returns (j: nat)
    requires RoundsSound(ms, starts) && i in ActiveStubs(ms, selected, starts, j0)
    ensures j0 <= j < |starts| && starts[j] <= i < RoundEnd(ms, starts, j)
    ensures i in RoundActive(RoundStubs(ms, starts, j), RoundObservations(ms, starts, j), selected)
    decreases |starts| - j0
  {
    hide RoundActive, RoundStubs, RoundObservations;
    if i in RoundActive(RoundStubs(ms, starts, j0), RoundObservations(ms, starts, j0), selected) {
      RoundMembers(ms, starts, j0, selected);
      j := j0;
    } else {
      j := ActiveInRound(ms, selected, starts, j0 + 1, i);
    }
  }

  lemma {:induction false} RoundActiveIsActive(ms: seq<Message>, selected: set<int>, starts: seq<nat>, j0: nat, j: nat, i: nat)
    requires RoundsSound(ms, starts) && j0 <= j < |starts|
    requires i in RoundActive(RoundStubs(ms, starts, j), RoundObservations(ms, starts, j), selected)
    ensures i in ActiveStubs(ms, selected, starts, j0)
    decreases j - j0
  {
    hide RoundActive, RoundStubs, RoundObservations;
    if j0 < j { RoundActiveIsActive(ms, selected, starts, j0 + 1, j, i); }
  }

  lemma DisjointRounds(ms: seq<Message>, starts: seq<nat>, j: nat, k: nat, i: nat)
    requires RoundsSound(ms, starts) && j < |starts| && k < |starts|
    requires starts[j] <= i < RoundEnd(ms, starts, j) && starts[k] <= i < RoundEnd(ms, starts, k)
    ensures j == k
  {
    if j < k {
      EarlierRoundEnds(ms, starts, j, k);
    } else if k < j {
      EarlierRoundEnds(ms, starts, k, j);
    }
  }

  lemma EarlierRoundEnds(ms: seq<Message>, starts: seq<nat>, j: nat, k: nat)
    requires Ascending(starts) && j < k < |starts|
    ensures RoundEnd(ms, starts, j) <= starts[k]
  {
  }

  /** A stub is live exactly when the observation it announces in its own round is selected. */
  lemma LiveMeansPaired(ms: seq<Message>, selected: set<int>, starts: seq<nat>, j: nat, k: nat)
    requires RoundsSound(ms, starts) && j < |starts| && k < |RoundStubs(ms, starts, j)|
    ensures RoundStubs(ms, starts, j)[k] in ActiveStubs(ms, selected, starts, 0)
            <==> k < |RoundObservations(ms, starts, j)| && RoundObservations(ms, starts, j)[k] in selected
  {
    var stubs, observations := RoundStubs(ms, starts, j), RoundObservations(ms, starts, j);
    var i := stubs[k];
    IndicesSound(ms, IsStub, starts[j], RoundEnd(ms, starts, j));
    assert i in stubs;
    if i in ActiveStubs(ms, selected, starts, 0) {
      var j' := ActiveInRound(ms, selected, starts, 0, i);
      DisjointRounds(ms, starts, j, j', i);
      var k': nat :| k' < |stubs| && k' < |observations| && observations[k'] in selected && stubs[k'] == i;
      assert k' == k;
    }
    if k < |observations| && observations[k] in selected {
      RoundActiveIsActive(ms, selected, starts, 0, j, i);
    }
  }

  // ---- After compaction ----

  /** In every round of the compacted list there are at least as many observations as live stubs, so
      each "use the following observation" has its own live observation in the same round. */
  lemma StubsArePaired(ms: seq<Message>, h: nat, j: nat)
    requires h < |ms| && j < |Starts(Compact(ms, h), h)|
    ensures var r := Compact(ms, h);
            var starts := Starts(r, h);
            && RoundsSound(r, starts)
            && |RoundStubs(r, starts, j)| <= |RoundObservations(r, starts, j)|
  {
    hide Compact, Shift, Live, Selected, KeepFrom, Starts, Rewrite, Moved, RoundsSound;
    var r, from, d := Compact(ms, h), KeepFrom(ms, h), Shift(ms, h);
    var starts := Starts(ms, from);
    RoundsOf(ms, from);
    RoundsOf(r, h);
    StartsAfter(ms, h);
    CompactMoves(ms, h);
    RoundsMove(ms, r, from, d, Selected(ms, h), Live(ms, h), starts, Starts(r, h), j);
    PairedRound(ms, h, j);
  }

  /** A round's stubs and observations after the move are the live and the selected ones. */
  lemma RoundsMove(ms: seq<Message>, r: seq<Message>, from: nat, d: int, selected: set<int>, live: set<nat>,
                   starts: seq<nat>, starts': seq<nat>, j: nat)
    requires Moved(ms, r, from, d, selected, live) && starts == Starts(ms, from)
    requires RoundsSound(ms, starts) && RoundsSound(r, starts') && Shifted(starts, starts', d) && j < |starts|
    ensures |RoundStubs(r, starts', j)| == Count(RoundStubs(ms, starts, j), live)
    ensures |RoundObservations(r, starts', j)| == Count(RoundObservations(ms, starts, j), selected)
  {
    hide *;
    var a, b := RoundPlace(ms, r, from, d, selected, live, starts, starts', j);
    StubCount(ms, r, from, d, selected, live, a, b);
    ObservationCount(ms, r, from, d, selected, live, a, b);
  }

  /** Where a round is before and after the move. */
  lemma RoundPlace(ms: seq<Message>, r: seq<Message>, from: nat, d: int, selected: set<int>, live: set<nat>,
                   starts: seq<nat>, starts': seq<nat>, j: nat) returns (a: nat, b: nat)
    requires Moved(ms, r, from, d, selected, live) && starts == Starts(ms, from)
    requires RoundsSound(ms, starts) && RoundsSound(r, starts') && Shifted(starts, starts', d) && j < |starts|
    ensures from <= a <= b <= |ms| && j < |starts'| && a + d >= 0
    ensures RoundEnd(ms, starts, j) <= |ms| && RoundEnd(r, starts', j) <= |r|
    ensures RoundStubs(ms, starts, j) == Indices(ms, IsStub, a, b)
    ensures RoundObservations(ms, starts, j) == Indices(ms, IsObservation, a, b)
    ensures b + d <= |r| && RoundStubs(r, starts', j) == Indices(r, IsStub, a + d, b + d)
    ensures RoundObservations(r, starts', j) == Indices(r, IsObservation, a + d, b + d)
  {
    hide *;
    MovedSize(ms, r, from, d, selected, live);
    RoundEndMoves(ms, r, starts, starts', d, j);
    RoundBounds(ms, starts, from, j);
    RoundIndicesAre(ms, starts, j);
    RoundIndicesAre(r, starts', j);
    a, b := starts[j], RoundEnd(ms, starts, j);
  }

  lemma RoundBounds(ms: seq<Message>, starts: seq<nat>, from: nat, j: nat)
    requires starts == Starts(ms, from) && RoundsSound(ms, starts) && j < |starts|
    ensures from <= starts[j] <= RoundEnd(ms, starts, j) <= |ms|
  {
    StartsSound(ms, from);
    hide Starts;
    assert starts[j] in starts;
  }

  lemma RoundIndicesAre(ms: seq<Message>, starts: seq<nat>, j: nat)
    requires j < |starts| && RoundEnd(ms, starts, j) <= |ms|
    ensures RoundStubs(ms, starts, j) == Indices(ms, IsStub, starts[j], RoundEnd(ms, starts, j))
    ensures RoundObservations(ms, starts, j) == Indices(ms, IsObservation, starts[j], RoundEnd(ms, starts, j))
  {
  }

  lemma MovedSize(ms: seq<Message>, r: seq<Message>, from: nat, d: int, selected: set<int>, live: set<nat>)
    requires Moved(ms, r, from, d, selected, live)
    ensures |r| == |ms| + d
  {
  }

  lemma RoundEndMoves(ms: seq<Message>, r: seq<Message>, starts: seq<nat>, starts': seq<nat>, d: int, j: nat)
    requires Shifted(starts, starts', d) && j < |starts| && |r| == |ms| + d
    ensures |starts'| == |starts| && starts'[j] == starts[j] + d && RoundEnd(r, starts', j) == RoundEnd(ms, starts, j) + d
  {
  }

  lemma PairedRound(ms: seq<Message>, h: nat, j: nat)
    requires h < |ms| && j < |Starts(ms, KeepFrom(ms, h))|
    requires RoundsSound(ms, Starts(ms, KeepFrom(ms, h)))
    ensures var starts := Starts(ms, KeepFrom(ms, h));
            Count(RoundStubs(ms, starts, j), Live(ms, h)) <= Count(RoundObservations(ms, starts, j), Selected(ms, h))
  {
    hide KeepFrom, Starts, Selected, RoundStubs, RoundObservations, ActiveStubs;
    var starts := Starts(ms, KeepFrom(ms, h));
    var stubs, observations := RoundStubs(ms, starts, j), RoundObservations(ms, starts, j);
    forall k | 0 <= k < |stubs|
      ensures stubs[k] in Live(ms, h) <==> k < |observations| && observations[k] in Selected(ms, h)
    {
      LiveMeansPaired(ms, Selected(ms, h), starts, j, k);
    }
    PairedCount(stubs, observations, Live(ms, h), Selected(ms, h));
  }

  lemma SelectedAfter(ms: seq<Message>, h: nat)
    requires h < |ms|
    ensures LastFull(Compact(ms, h), h, |Compact(ms, h)|) == FullAfter(ms, h)
    ensures LastUnchanged(Compact(ms, h), h, |Compact(ms, h)|) == UnchangedAfter(ms, h)
  {
    hide Compact, Carried, Retained, Live, Rewrite;
    var r := Compact(ms, h);
    Layout(ms, h);
    LastFullIsKept(ms, h);
    AfterOrder(ms, h);
    LastUnchangedSound(ms, h, |ms|);
    forall k | h <= k < |r|
      ensures IsFull(r[k]) ==> k == FullAfter(ms, h)
      ensures IsUnchanged(r[k]) <==> k == UnchangedAfter(ms, h)
      ensures k == FullAfter(ms, h) ==> IsFull(r[k])
    {
      ObservationsAfter(ms, h, k);
    }
    LastUnique(r, h, |r|, FullAfter(ms, h), UnchangedAfter(ms, h));
  }

  /** Every stub left in the compacted list is live there too. */
  lemma StubsStayLive(ms: seq<Message>, h: nat, i: nat)
    requires h < |ms| && h <= i < |Compact(ms, h)| && IsStub(Compact(ms, h)[i])
    ensures i in Live(Compact(ms, h), h)
  {
    hide Compact, Shift, RoundActive, IsStub, IsObservation, Selected, Starts, ActiveStubs, KeepFrom, RoundsSound, RoundEnd, RoundStubs, RoundObservations;
    var r, from, d := Compact(ms, h), KeepFrom(ms, h), Shift(ms, h);
    StubSource(ms, h, i);
    var starts, starts' := Starts(ms, from), Starts(r, h);
    RoundsOf(ms, from);
    StartsAfter(ms, h);
    var j := ActiveInRound(ms, Selected(ms, h), starts, 0, i - d);
    LayoutSize(ms, h);
    RoundEndMoves(ms, r, starts, starts', d, j);
    StubsArePaired(ms, h, j);
    StubIsPaired(ms, h, j, i);
    RoundActiveIsActive(r, Selected(r, h), starts', 0, j, i);
  }

  lemma LayoutSize(ms: seq<Message>, h: nat)
    requires h < |ms|
    ensures |Compact(ms, h)| == |ms| + Shift(ms, h)
  {
    hide Compact, Shift;
    Layout(ms, h);
  }

  lemma StubIsPaired(ms: seq<Message>, h: nat, j: nat, i: nat)
    requires h < |ms| && h <= i < |Compact(ms, h)| && IsStub(Compact(ms, h)[i])
    requires j < |Starts(Compact(ms, h), h)|
    requires Starts(Compact(ms, h), h)[j] <= i < RoundEnd(Compact(ms, h), Starts(Compact(ms, h), h), j)
    ensures var r, starts := Compact(ms, h), Starts(Compact(ms, h), h);
            && RoundsSound(r, starts)
            && i in RoundActive(RoundStubs(r, starts, j), RoundObservations(r, starts, j), Selected(r, h))
  {
    hide Compact, IsStub, IsObservation, Selected, Indices;
    var r, starts := Compact(ms, h), Starts(Compact(ms, h), h);
    StubsArePaired(ms, h, j);
    var stubs, observations := RoundStubs(r, starts, j), RoundObservations(r, starts, j);
    IndicesSound(r, IsStub, starts[j], RoundEnd(r, starts, j));
    IndicesSound(r, IsObservation, starts[j], RoundEnd(r, starts, j));
    assert i in stubs;
    var k: nat :| k < |stubs| && stubs[k] == i;
    StartsSound(r, h);
    assert starts[j] in starts;
    assert observations[k] in observations;
    ObservationIsSelected(ms, h, observations[k]);
  }

  lemma StubSource(ms: seq<Message>, h: nat, i: nat)
    requires h < |ms| && h <= i < |Compact(ms, h)| && IsStub(Compact(ms, h)[i])
    ensures i - Shift(ms, h) >= KeepFrom(ms, h) && i - Shift(ms, h) in Live(ms, h)
  {
    hide Compact, Shift, Carried, Retained, Rewrite, Live, Selected, KeepFrom;
    Layout(ms, h);
    var r, from, d := Compact(ms, h), KeepFrom(ms, h), Shift(ms, h);
    if i < from + d {
      assert r[h..from + d][0] == r[h];
      CarriedIsPlain(ms, h);
      assert false;
    } else {
      RewriteSound(ms[i - d], i - d in Selected(ms, h), i - d in Live(ms, h));
    }
  }

  lemma ObservationIsSelected(ms: seq<Message>, h: nat, k: nat)
    requires h < |ms| && h <= k < |Compact(ms, h)| && IsObservation(Compact(ms, h)[k])
    ensures k in Selected(Compact(ms, h), h)
  {
    hide Compact, LastFull, LastUnchanged;
    ObservationsAfter(ms, h, k);
    SelectedAfter(ms, h);
  }

  /** Compacting an already compacted list with the same history end changes nothing. */
  lemma CompactIsIdempotent(ms: seq<Message>, h: nat)
    ensures Compact(Compact(ms, h), h) == Compact(ms, h)
  {
    if h < |ms| {
      var r := Compact(ms, h);
      Layout(ms, h);
      StartsAfter(ms, h);
      if h < |r| { FixedPoint(ms, h); }
    }
  }

  lemma FixedPoint(ms: seq<Message>, h: nat)
    requires h < |ms| && h < |Compact(ms, h)| && KeepFrom(Compact(ms, h), h) == h
    ensures Compact(Compact(ms, h), h) == Compact(ms, h)
  {
    hide Compact, KeepFrom, Live, Rewrite, IsStub, IsObservation, Selected, Carried, Retained, Shift;
    var r := Compact(ms, h);
    var rr := Compact(r, h);
    Layout(r, h);
    CarriedNotAgain(ms, h);
    forall i | h <= i < |r| ensures rr[i] == r[i] {
      if IsStub(r[i]) { StubsStayLive(ms, h, i); }
      if IsObservation(r[i]) { ObservationIsSelected(ms, h, i); }
      RewriteFixed(r[i], i in Selected(r, h), i in Live(r, h));
      assert rr[i + 0] == Rewrite(r[i], i in Selected(r, h), i in Live(r, h));
    }
    assert forall i | 0 <= i < h :: rr[i] == rr[..h][i] && r[i] == r[..h][i];
  }

  lemma RewriteFixed(m: Message, selected: bool, active: bool)
    requires (IsObservation(m) ==> selected) && (IsStub(m) ==> active)
    ensures Rewrite(m, selected, active) == m
  {
  }

  lemma CarriedNotAgain(ms: seq<Message>, h: nat)
    requires h < |ms| && KeepFrom(Compact(ms, h), h) == h
    ensures Carried(Compact(ms, h), h) == [] && Shift(Compact(ms, h), h) == 0
  {
    hide Compact;
    LastFullSound(Compact(ms, h), h, |Compact(ms, h)|);
  }
}
