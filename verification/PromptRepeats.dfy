/** Repeats of an observation that is no longer in the prompt. */
module PromptRepeats {
  // What is observed again after its observation was taken becomes a marker that refers to nothing.

  import opened PromptMessages
  import opened PromptCompaction
  import opened CompactionProperties
  import opened PromptReduction
  import opened PromptBudget
  import opened PromptMarkers
  import opened PromptGrounding
  import opened PromptOrphans
  import opened PromptRun

  /** With no full observation there, a marker in the newest round survives compaction. */
  lemma NewestMarkerKept(ms: seq<Message>, h: nat)
    requires Sound(ms, h) && !HasFull(ms, h) && MarkerInNewest(ms, h)
    ensures MarkerInNewest(Compacted(ms, h), h)
  {
    hide *;
    SoundSize(ms, h);
    var n, m := MarkerAt(ms, h);
    LastMarker(ms, h, m);
    KeepFromSound(ms, h);
    CompactedNewest(ms, h, n);
    StartOrderOf(ms, h, n);
    var c, u := Compact(ms, h), LastUnchanged(ms, h, |ms|);
    ShiftedMarker(ms, h);
    assert c[n + Shift(ms, h)..][u - n] == c[u + Shift(ms, h)];
    MarkerOf(c, h, n + Shift(ms, h), u + Shift(ms, h));
    CompactedIs(ms, h);
    OlderIsSame(c, h);
    OlderShape(c, h);
    NewestSame(c, Compacted(ms, h), h);
  }

  lemma MarkerAt(ms: seq<Message>, h: nat) returns (n: nat, m: nat)
    requires MarkerInNewest(ms, h)
    ensures Starts(ms, h) != [] && n == Starts(ms, h)[|Starts(ms, h)| - 1]
    ensures h <= n <= m < |ms| && NewestRound(ms, h) == ms[n..] && IsUnchanged(ms[m])
  {
    MarkerNeedsRound(ms, h);
    hide IsUnchanged;
    n := NewestLast(ms, h);
    var x :| x in NewestRound(ms, h) && IsUnchanged(x);
    var k :| 0 <= k < |ms[n..]| && ms[n..][k] == x;
    m := n + k;
  }

  lemma MarkerNeedsRound(ms: seq<Message>, h: nat)
    requires MarkerInNewest(ms, h)
    ensures Starts(ms, h) != []
  {
    hide IsUnchanged;
  }

  lemma MarkerOf(ms: seq<Message>, h: nat, n: nat, m: nat)
    requires n <= m < |ms| && NewestRound(ms, h) == ms[n..] && IsUnchanged(ms[m])
    ensures MarkerInNewest(ms, h)
  {
    hide IsUnchanged, NewestRound;
    assert ms[m] == ms[n..][m - n];
  }

  lemma LastMarker(ms: seq<Message>, h: nat, m: nat)
    requires !HasFull(ms, h) && h <= m < |ms| && IsUnchanged(ms[m])
    ensures LastFull(ms, h, |ms|) == -1 && m <= LastUnchanged(ms, h, |ms|) < |ms|
  {
    LastFullSound(ms, h, |ms|);
    LastUnchangedSound(ms, h, |ms|);
    hide IsFull, IsUnchanged, LastFull, LastUnchanged;
  }

  lemma StartOrderOf(ms: seq<Message>, h: nat, n: nat)
    requires Starts(ms, h) != [] && n == Starts(ms, h)[|Starts(ms, h)| - 1]
    ensures KeepFrom(ms, h) <= n
  {
    StartsSound(ms, h);
    if |Starts(ms, h)| <= MAX_TOOL_ROUNDS { assert n in Starts(ms, h); }
    hide Starts;
  }

  lemma ShiftedMarker(ms: seq<Message>, h: nat)
    requires h < |ms| && KeepFrom(ms, h) <= LastUnchanged(ms, h, |ms|)
    ensures h <= LastUnchanged(ms, h, |ms|) + Shift(ms, h) < |Compact(ms, h)|
    ensures IsUnchanged(Compact(ms, h)[LastUnchanged(ms, h, |ms|) + Shift(ms, h)])
  {
    hide IsFull, IsUnchanged, Compact, KeepFrom, LastFull, LastUnchanged, Shift, Retained, Live, Rewrite, Carried;
    LastUnchangedSound(ms, h, |ms|);
    Layout(ms, h);
    assert UnchangedAfter(ms, h) == LastUnchanged(ms, h, |ms|) + Shift(ms, h);
    hide Selected, UnchangedAfter, FullAfter, IsLastUnchanged;
    ObservationsAfter(ms, h, UnchangedAfter(ms, h));
  }

  /** The newest round of the compacted list is the newest round, rewritten. */
  lemma CompactedNewest(ms: seq<Message>, h: nat, n: nat)
    requires Starts(ms, h) != [] && n == Starts(ms, h)[|Starts(ms, h)| - 1] && h <= n <= |ms|
    ensures h < |ms| && n + Shift(ms, h) >= h && |Compact(ms, h)| == |ms| + Shift(ms, h)
    ensures NewestRound(Compact(ms, h), h) == Compact(ms, h)[n + Shift(ms, h)..]
  {
    hide *;
    var n' := NewestLast(ms, h);
    StartOrderOf(ms, h, n);
    RetainedShape(ms, h, n);
    ShapeSymmetric(ms[n..], Compact(ms, h)[n + Shift(ms, h)..]);
    SuffixIsNewest(ms, h, Compact(ms, h), h, n + Shift(ms, h));
  }

  lemma ShapeSymmetric(a: seq<Message>, b: seq<Message>)
    requires SameShape(a, b)
    ensures SameShape(b, a)
  {
  }

  /** With nothing else to be seen, a marker in the newest round is an orphan for every budget. */
  lemma NewestMarkerOrphaned(ms: seq<Message>, h: nat, b: Budget)
    requires Sound(ms, h) && !HasFull(ms, h) && MarkerInNewest(ms, h)
    ensures Orphans(ms, h, b)
  {
    hide *;
    NewestMarkerKept(ms, h);
    CompactedKinds(ms, h);
    UndroppedSeen(ms, h, b);
    NewestUndropped(ms, h, b);
    StaysIs(ms, h, b);
    OrphansIs(ms, h, b);
  }

  lemma NewestUndropped(ms: seq<Message>, h: nat, b: Budget)
    requires MarkerInNewest(Compacted(ms, h), h)
    ensures MarkerUndropped(ms, h, b)
  {
    hide *;
    var o := Compacted(ms, h);
    var n, m := MarkerAt(o, h);
    InDroppedIs(o, h, b);
    if 0 < DropSteps(o, h, b) < |Starts(o, h)| { StartOrder(o, h, DropSteps(o, h, b)); }
    MarkerUndroppedAt(ms, h, b, m);
  }

  lemma MarkerUndroppedAt(ms: seq<Message>, h: nat, b: Budget, m: nat)
    requires var o := Compacted(ms, h); h <= m < |o| && IsUnchanged(o[m]) && !InDropped(o, h, b, m)
    ensures MarkerUndropped(ms, h, b)
  {
    hide Compacted, InDropped, IsUnchanged;
  }

  // ---- Repeats ----

  lemma RepeatIsMarker(name: string)
    ensures IsUnchanged(Repeat(name)) && !IsFull(Repeat(name))
  {
    var head := OBSERVATION_PREFIX + name + ":\n";
    var text := head + UNCHANGED;
    assert text[..|OBSERVATION_PREFIX|] == OBSERVATION_PREFIX;
    assert text[|head|..|head| + |UNCHANGED|] == UNCHANGED;
    assert ContainsAt(text, UNCHANGED, |head|);
  }

  function Once(reply: string, call: Call, r: ToolResult): (step: Step)
    ensures Enabled(step)
  {
    Round(reply, [call], [r])
  }

  lemma OnceShows(s: State, reply: string, call: Call, r: ToolResult)
    ensures Shown(s, Once(reply, call, r)) == if r.observe then [Observation(call, r, s.last, s.cap)] else []
    ensures Apply(s, Once(reply, call, r)).last == if r.observe then Some(SeenOf(call, r)) else s.last
    ensures Apply(s, Once(reply, call, r)).cap == s.cap && Apply(s, Once(reply, call, r)).historyEnd == s.historyEnd
  {
    hide Observation, Cap;
    var calls, results := [call], [r];
    assert LastSeen(calls, results, s.last, 0) == s.last;
    assert Observations(calls, results, s.last, s.cap, 0) == [];
  }

  /** The newest round is the one just appended. */
  lemma OnceIsNewest(s: State, reply: string, call: Call, r: ToolResult)
    requires SoundState(s)
    ensures NewestRound(Apply(s, Once(reply, call, r)).messages, s.historyEnd)
            == [Calling(reply, [call]), Answer(call, r)] + Shown(s, Once(reply, call, r))
  {
    SoundSize(s.messages, s.historyEnd);
    OnceShows(s, reply, call, r);
    hide Observation, Cap, Sound, Shown;
    var ms, t, shown := s.messages, Apply(s, Once(reply, call, r)).messages, Shown(s, Once(reply, call, r));
    assert Replies([call], [r], 1) == [Answer(call, r)];
    assert t == ms + [Calling(reply, [call])] + [Answer(call, r)] + shown;
    assert t[|ms|..] == [Calling(reply, [call]), Answer(call, r)] + shown;
    forall i | |ms| < i < |t| ensures !RoundStart(t[i]) { ShownStartsNothing(s, reply, call, r); }
    NewestIs(t, s.historyEnd, |ms|);
  }

  lemma ShownStartsNothing(s: State, reply: string, call: Call, r: ToolResult)
    ensures forall m <- Shown(s, Once(reply, call, r)) :: !RoundStart(m)
  {
    hide Observation;
  }

  /** What was taken and is then observed again is sent as an orphan, whatever the budget: the round
      just made is never dropped. */
  lemma RepeatOrphans(s: State, reply: string, call: Call, r: ToolResult, b: Budget)
    requires SoundState(s) && !SeesFull(s) && r.observe && s.last == Some(SeenOf(call, r))
    ensures var t := Apply(Apply(s, Once(reply, call, r)), Attempt(b)); !Grounded(t.messages, t.historyEnd)
  {
    hide *;
    var step := Once(reply, call, r);
    var m := Apply(s, step);
    OnceShows(s, reply, call, r);
    OnceIsNewest(s, reply, call, r);
    RepeatedIs(call, r, s.last, s.cap);
    RepeatIsMarker(call.name);
    OnceIsRound(reply, call, r);
    RoundSees(s, step);
    ShowsIs(s, step);
    StepKeepsSound(s, step);
    SeesIs(m);
    InNewest(m.messages, s.historyEnd, Repeat(call.name));
    NewestMarkerOrphaned(m.messages, m.historyEnd, b);
    PrepareGroundedIff(m.messages, m.historyEnd, b);
  }

  lemma RepeatedIs(call: Call, r: ToolResult, last: Option<Seen>, cap: nat)
    requires last == Some(SeenOf(call, r))
    ensures Observation(call, r, last, cap) == Repeat(call.name)
  {
  }

  lemma OnceIsRound(reply: string, call: Call, r: ToolResult)
    ensures Once(reply, call, r).Round?
  {
  }

  lemma ShowsIs(s: State, step: Step)
    requires Enabled(step)
    ensures Shows(s, step) <==> exists m <- Shown(s, step) :: IsFull(m)
  {
    hide Shown, IsFull;
  }

  lemma InNewest(ms: seq<Message>, h: nat, m: Message)
    requires m in NewestRound(ms, h) && IsUnchanged(m)
    ensures MarkerInNewest(ms, h)
  {
    hide NewestRound, IsUnchanged;
  }

  // ---- An overflow in between ----

  /** A newest round without observations still has none in the prepared prompt, as long as no history
      is given up. */
  lemma QuietNewest(ms: seq<Message>, h: nat, b: Budget)
    requires Sound(ms, h) && Starts(ms, h) != [] && !Resets(ms, h, b)
    requires forall m <- NewestRound(ms, h) :: !IsObservation(m)
    ensures var p := Prepare(ms, h, b); p.historyEnd == h && !FullInNewest(p.messages, h) && !MarkerInNewest(p.messages, h)
  {
    hide *;
    PrepareIs(ms, h, b);
    StaysIs(ms, h, b);
    var n := NewestLast(ms, h);
    CompactedNewest(ms, h, n);
    var c, o := Compact(ms, h), Compacted(ms, h);
    StartOrderOf(ms, h, n);
    forall j | n + Shift(ms, h) <= j < |c| ensures !IsObservation(c[j]) {
      var i := j - Shift(ms, h);
      assert ms[i] == ms[n..][i - n];
      LayoutAt(ms, h, i);
      RewriteSound(ms[i], i in Selected(ms, h), i in Live(ms, h));
    }
    QuietSuffix(c, h, n + Shift(ms, h));
    CompactedIs(ms, h);
    OlderIsSame(c, h);
    OlderShape(c, h);
    NewestSame(c, o, h);
    var d := DropWhile(o, h, b);
    DroppedNewest(o, h, b);
    NewestEqual(o, d, h);
    ShrinkWhileIsSame(d, b);
    NewestSame(d, ShrinkWhile(d, b), h);
  }

  lemma QuietSuffix(ms: seq<Message>, h: nat, n: nat)
    requires n <= |ms| && NewestRound(ms, h) == ms[n..] && forall i | n <= i < |ms| :: !IsObservation(ms[i])
    ensures !FullInNewest(ms, h) && !MarkerInNewest(ms, h)
  {
    hide NewestRound, IsObservation;
    forall m | m in ms[n..] ensures !IsObservation(m) {
      var k :| 0 <= k < |ms[n..]| && ms[n..][k] == m;
      assert ms[n + k] == m;
    }
  }

  /** With room for everything the full observation stays. */
  lemma RoomyKeeps(s: State, b: Budget)
    requires SoundState(s) && SeesFull(s)
    requires DropSteps(Compacted(s.messages, s.historyEnd), s.historyEnd, b) == 0 && !Resets(s.messages, s.historyEnd, b)
    ensures SeesFull(Apply(s, Attempt(b)))
  {
    hide *;
    AlwaysEnabled();
    SeesIs(s);
    SeesIs(Apply(s, Attempt(b)));
    CompactedKinds(s.messages, s.historyEnd);
    PrepareKinds(s.messages, s.historyEnd, b);
    NoneDropped(s.messages, s.historyEnd, b);
  }

  lemma NoneDropped(ms: seq<Message>, h: nat, b: Budget)
    requires DropSteps(Compacted(ms, h), h, b) == 0 && HasFull(Compacted(ms, h), h)
    ensures FullUndropped(ms, h, b)
  {
    hide Compacted, DropSteps, Starts, IsFull;
    var o := Compacted(ms, h);
    var f: nat :| h <= f < |o| && IsFull(o[f]);
    assert !InDropped(o, h, b, f);
  }

  /** A round that observes nothing. */
  lemma BlindIsQuiet(s: State, reply: string, call: Call, r: ToolResult)
    requires SoundState(s) && !r.observe
    ensures var t := Apply(s, Once(reply, call, r));
            Starts(t.messages, s.historyEnd) != [] && forall m <- NewestRound(t.messages, s.historyEnd) :: !IsObservation(m)
  {
    OnceShows(s, reply, call, r);
    OnceIsNewest(s, reply, call, r);
    var t := Apply(s, Once(reply, call, r));
    assert NewestRound(t.messages, s.historyEnd) == [Calling(reply, [call]), Answer(call, r)];
    NoObservation([Calling(reply, [call]), Answer(call, r)]);
    hide Apply, Once, Calling, Answer;
  }

  lemma Extend(s: State, run: seq<Step>, step: Step)
    requires Legal(run) && Enabled(step)
    ensures Legal(run + [step]) && After(s, run + [step]) == Apply(After(s, run), step)
  {
    assert (run + [step])[..|run|] == run;
    hide Apply;
  }

  /** Shown once and taken by the overflow two rounds later. */
  lemma ShownThenTaken(s: State, page: (Call, ToolResult), blind: (Call, ToolResult), encoding: Encoding) returns (run: seq<Step>)
    requires SoundState(s) && s.last != Some(SeenOf(page.0, page.1)) && page.1.observe && !blind.1.observe
    requires IsFull(Observation(page.0, page.1, s.last, s.cap))
    ensures Legal(run) && |run| == 6 && run[0].Attempt? && run[1] == Once("", page.0, page.1)
    ensures run[2].Attempt? && run[3] == Once("", blind.0, blind.1) && run[4].Attempt? && run[5] == Overflow
    ensures var t := After(s, run); SoundState(t) && !SeesFull(t) && t.last == Some(SeenOf(page.0, page.1))
    ensures Takes(After(s, run[..5]), Overflow)
  {
    hide *;
    AlwaysEnabled();
    BeforeAll(s);
    var b := Roomy(s.messages, s.historyEnd, encoding, 0);
    run := [Attempt(b)];
    Extend(s, [], Attempt(b));
    assert [] + [Attempt(b)] == run;
    var m1 := Apply(s, Attempt(b));
    StepKeepsSound(s, Attempt(b));
    KeepsLast(s, Attempt(b));
    var one := Once("", page.0, page.1);
    var m2 := PageShown(m1, page);
    Extend(s, run, one);
    run := run + [one];
    b := Roomy(m2.messages, m2.historyEnd, encoding, 0);
    RoomyKeeps(m2, b);
    StepKeepsSound(m2, Attempt(b));
    KeepsLast(m2, Attempt(b));
    var m3 := Apply(m2, Attempt(b));
    Extend(s, run, Attempt(b));
    run := run + [Attempt(b)];
    var m4, b' := BlindThenOverflow(m3, blind, encoding);
    Extend(s, run, Once("", blind.0, blind.1));
    run := run + [Once("", blind.0, blind.1)];
    Extend(s, run, Attempt(b'));
    run := run + [Attempt(b')];
    Extend(s, run, Overflow);
    assert (run + [Overflow])[..5] == run;
    run := run + [Overflow];
  }

  lemma AlwaysEnabled()
    ensures Enabled(Overflow) && forall b :: Enabled(Attempt(b))
  {
  }

  lemma BeforeAll(s: State)
    ensures Legal([]) && After(s, []) == s
  {
  }

  lemma KeepsLast(s: State, step: Step)
    requires Enabled(step) && !step.Round?
    ensures Apply(s, step).last == s.last && Apply(s, step).cap == s.cap
  {
    ReductionsKeepLast(s, step);
  }

  lemma PageShown(s: State, page: (Call, ToolResult)) returns (t: State)
    requires SoundState(s) && page.1.observe && IsFull(Observation(page.0, page.1, s.last, s.cap))
    ensures t == Apply(s, Once("", page.0, page.1)) && SoundState(t) && SeesFull(t) && t.last == Some(SeenOf(page.0, page.1))
  {
    hide *;
    var step := Once("", page.0, page.1);
    t := Apply(s, step);
    OnceShows(s, "", page.0, page.1);
    OnceIsRound("", page.0, page.1);
    StepKeepsSound(s, step);
    RoundSees(s, step);
    ShowsIs(s, step);
    assert Observation(page.0, page.1, s.last, s.cap) in Shown(s, step);
  }

  lemma BlindThenOverflow(s: State, blind: (Call, ToolResult), encoding: Encoding) returns (m: State, b: Budget)
    requires SoundState(s) && SeesFull(s) && !blind.1.observe
    ensures m == Apply(s, Once("", blind.0, blind.1))
    ensures var n := Apply(m, Attempt(b));
            Takes(n, Overflow) && SoundState(Apply(n, Overflow)) && !SeesFull(Apply(n, Overflow)) && Apply(n, Overflow).last == s.last
  {
    hide *;
    AlwaysEnabled();
    var step := Once("", blind.0, blind.1);
    m := Apply(s, step);
    OnceShows(s, "", blind.0, blind.1);
    OnceIsRound("", blind.0, blind.1);
    StepKeepsSound(s, step);
    RoundSees(s, step);
    BlindIsQuiet(s, "", blind.0, blind.1);
    b := Roomy(m.messages, m.historyEnd, encoding, 0);
    RoomyKeeps(m, b);
    StepKeepsSound(m, Attempt(b));
    KeepsLast(m, Attempt(b));
    SeesIs(m);
    QuietNewest(m.messages, m.historyEnd, b);
    var n := Apply(m, Attempt(b));
    SeesIs(n);
    OverflowTakesIff(n);
    TakesIs(n, Overflow);
    StepKeepsSound(n, Overflow);
    KeepsLast(n, Overflow);
  }

  /** It happens in any conversation, with any page: observed in one round, taken by an overflow after
      a round that observed nothing, and observed again, it is sent as a marker alone, whatever the
      last two budgets. */
  lemma OverflowOrphans(s: State, page: (Call, ToolResult), blind: (Call, ToolResult), encoding: Encoding, b1: Budget, b2: Budget)
      returns (run: seq<Step>)
    requires SoundState(s) && s.last != Some(SeenOf(page.0, page.1)) && page.1.observe && !blind.1.observe
    requires IsFull(Observation(page.0, page.1, s.last, s.cap))
    ensures Legal(run) && |run| == 9 && run[1] == run[7] == Once("", page.0, page.1) && run[3] == Once("", blind.0, blind.1)
    ensures run[5] == Overflow && run[6] == Attempt(b1) && run[8] == Attempt(b2)
    ensures Takes(After(s, run[..5]), Overflow)
    ensures var t := After(s, run); !Grounded(t.messages, t.historyEnd)
  {
    hide *;
    AlwaysEnabled();
    var first := ShownThenTaken(s, page, blind, encoding);
    var m := After(s, first);
    Extend(s, first, Attempt(b1));
    StepKeepsSound(m, Attempt(b1));
    KeepsLast(m, Attempt(b1));
    ReductionSees(m, Attempt(b1));
    var n := Apply(m, Attempt(b1));
    RepeatOrphans(n, "", page.0, page.1, b2);
    Extend(s, first + [Attempt(b1)], Once("", page.0, page.1));
    Extend(s, first + [Attempt(b1)] + [Once("", page.0, page.1)], Attempt(b2));
    run := first + [Attempt(b1)] + [Once("", page.0, page.1)] + [Attempt(b2)];
    assert run[..5] == first[..5];
  }
}
