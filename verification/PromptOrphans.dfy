/** Which prompts get orphaned, and an example of such a prompt. */
module PromptOrphans {
  // For which prompts there is a context window that leaves an "unchanged" marker without a full
  // observation, and an example.

  import opened PromptMessages
  import opened PromptCompaction
  import opened CompactionProperties
  import opened PromptReduction
  import opened PromptBudget
  import opened PromptMarkers
  import opened PromptGrounding

  lemma FitsIsFinal(ms: seq<Message>, b: Budget)
    ensures Fits(ms, b) ==> ShrinkWhile(ms, b) == ms
  {
    hide Fits, Shrinks, ShrinkLatest;
  }

  function DropN(ms: seq<Message>, h: nat, n: nat): seq<Message>
    decreases n
  {
    if n == 0 then ms else DropN(DropOldest(ms, h), h, n - 1)
  }

  lemma CeilGrows(x: nat, y: nat)
    requires x + 12 <= y
    ensures Ceil(x as real / 3.0) < Ceil(y as real / 3.0)
  {
    assert y as real / 3.0 >= x as real / 3.0 + 4.0;
  }

  lemma DropIsStrictlyCheaper(ms: seq<Message>, h: nat, b: Budget)
    requires |Starts(ms, h)| >= 2 && b.ratio == DEFAULT_RATIO
    ensures Cost(DropOldest(ms, h), b) < Cost(ms, b)
  {
    DropIsCheaper(ms, h, b);
    hide Starts, DropOldest, PromptEstimate, Ceil;
    CeilGrows(PromptEstimate(DropOldest(ms, h), b.encoding).textBytes, PromptEstimate(ms, b.encoding).textBytes);
  }

  lemma {:induction false} DropNIsCheaper(ms: seq<Message>, h: nat, n: nat, b: Budget)
    requires (n == 0 || n < |Starts(ms, h)|) && b.ratio == DEFAULT_RATIO
    ensures Cost(DropN(ms, h, n), b) + n <= Cost(ms, b)
    decreases n
  {
    hide Cost, Starts, DropOldest;
    if n > 0 {
      DropIsStrictlyCheaper(ms, h, b);
      DropRemovesOneRound(ms, h);
      DropNIsCheaper(DropOldest(ms, h), h, n - 1, b);
    }
  }

  /** There is a context for which exactly `n` rounds are dropped, and then the prompt fits. */
  lemma {:induction false} BudgetForDrops(ms: seq<Message>, h: nat, n: nat, b: Budget)
    requires (n == 0 || n < |Starts(ms, h)|) && b.ratio == DEFAULT_RATIO
    requires b.context == Cost(DropN(ms, h, n), b) + CONTEXT_MARGIN + MIN_COMPLETION
    ensures DropSteps(ms, h, b) == n && Fits(DropWhile(ms, h, b), b)
    decreases n
  {
    hide Cost, Starts, DropOldest;
    DropNIsCheaper(ms, h, n, b);
    if n > 0 {
      DropRemovesOneRound(ms, h);
      BudgetForDrops(DropOldest(ms, h), h, n - 1, b);
    }
  }

  /** The observation and the marker belong to different rounds. */
  ghost predicate Parted(ms: seq<Message>, h: nat) {
    exists k | 0 < k < |Starts(ms, h)| :: Severed(ms, Starts(ms, h)[0], Starts(ms, h)[k])
  }

  /** For some context window a prompt is prepared with an orphaned marker exactly if, once
      compacted, it has a marker and no full observation, or has them in different rounds. */
  lemma OrphanBudgetIff(ms: seq<Message>, h: nat, encoding: Encoding)
    requires Sound(ms, h)
    ensures (exists b: Budget | b.encoding == encoding ::
               !Grounded(Prepare(ms, h, b).messages, Prepare(ms, h, b).historyEnd))
            <==> var o := Compacted(ms, h); (HasMarker(o, h) && !HasFull(o, h)) || Parted(o, h)
  {
    hide *;
    var o := Compacted(ms, h);
    if HasMarker(o, h) && !HasFull(o, h) {
      var b := Roomy(ms, h, encoding, 0);
      NeverFull(ms, h, b);
      PrepareGroundedIff(ms, h, b);
    }
    if Parted(o, h) {
      var k := PartedAt(o, h);
      var b := Roomy(ms, h, encoding, k);
      PartedOrphans(ms, h, b, k);
      PrepareGroundedIff(ms, h, b);
    }
    forall b: Budget | b.encoding == encoding && !Grounded(Prepare(ms, h, b).messages, Prepare(ms, h, b).historyEnd)
      ensures (HasMarker(o, h) && !HasFull(o, h)) || Parted(o, h)
    {
      PrepareGroundedIff(ms, h, b);
      OrphansParts(ms, h, b);
    }
  }

  lemma SameCost(ms: seq<Message>, a: Budget, b: Budget)
    requires a.encoding == b.encoding && a.ratio == b.ratio
    ensures Cost(ms, a) == Cost(ms, b)
  {
    hide PromptEstimate, Tokens;
  }

  /** A budget for which exactly `k` rounds are dropped and no history is given up. */
  lemma Roomy(ms: seq<Message>, h: nat, encoding: Encoding, k: nat) returns (b: Budget)
    requires k == 0 || k < |Starts(Compacted(ms, h), h)|
    ensures b.encoding == encoding && DropSteps(Compacted(ms, h), h, b) == k && !Resets(ms, h, b)
  {
    hide Compacted, DropN, Cost, DropSteps, DropWhile, ShrinkWhile, Fits, Starts;
    var o, b0 := Compacted(ms, h), Budget(0, encoding, DEFAULT_RATIO);
    b := b0.(context := Cost(DropN(o, h, k), b0) + CONTEXT_MARGIN + MIN_COMPLETION);
    SameCost(DropN(o, h, k), b0, b);
    BudgetForDrops(o, h, k, b);
    FitsIsFinal(DropWhile(o, h, b), b);
  }

  lemma NeverFull(ms: seq<Message>, h: nat, b: Budget)
    requires var o := Compacted(ms, h); HasMarker(o, h) && !HasFull(o, h) && DropSteps(o, h, b) == 0
    requires !Resets(ms, h, b)
    ensures Orphans(ms, h, b)
  {
    var o := Compacted(ms, h);
    hide Compacted, DropSteps, Starts, IsFull, IsUnchanged, Resets, Orphans;
    var u: nat :| h <= u < |o| && IsUnchanged(o[u]);
    OrphansHold(ms, h, b, u);
  }

  lemma PartedAt(ms: seq<Message>, h: nat) returns (k: nat)
    requires Parted(ms, h)
    ensures 0 < k < |Starts(ms, h)| && Severed(ms, Starts(ms, h)[0], Starts(ms, h)[k])
  {
    hide Severed, Starts;
    k :| 0 < k < |Starts(ms, h)| && Severed(ms, Starts(ms, h)[0], Starts(ms, h)[k]);
  }

  lemma PartedOrphans(ms: seq<Message>, h: nat, b: Budget, k: nat)
    requires var o := Compacted(ms, h);
             DropSteps(o, h, b) == k && 0 < k < |Starts(o, h)| && Severed(o, Starts(o, h)[0], Starts(o, h)[k])
    requires Sound(ms, h) && !Resets(ms, h, b)
    ensures Orphans(ms, h, b)
  {
    hide *;
    CompactedKinds(ms, h);
    var o := Compacted(ms, h);
    StartAt(o, h, 0);
    var f, u := SeveredAt(o, Starts(o, h)[0], Starts(o, h)[k]);
    OnlyFull(o, h, f);
    InDroppedIs(o, h, b);
    OrphansHold(ms, h, b, u);
  }

  lemma SeveredAt(ms: seq<Message>, a: nat, b: nat) returns (f: nat, u: nat)
    requires Severed(ms, a, b)
    ensures a <= f < b <= u < |ms| && IsFull(ms[f]) && IsUnchanged(ms[u])
  {
    hide IsFull, IsUnchanged;
    f, u :| a <= f < b <= u < |ms| && IsFull(ms[f]) && IsUnchanged(ms[u]);
  }

  lemma OnlyFull(ms: seq<Message>, h: nat, f: nat)
    requires Tidied(ms, h) && h <= f < |ms| && IsFull(ms[f])
    ensures forall i | h <= i < |ms| && IsFull(ms[i]) :: i == f
  {
    hide IsFull, IsUnchanged;
  }

  lemma OrphansHold(ms: seq<Message>, h: nat, b: Budget, u: nat)
    requires var o := Compacted(ms, h);
             && h <= u < |o| && IsUnchanged(o[u]) && !InDropped(o, h, b, u)
             && forall f | h <= f < |o| && IsFull(o[f]) :: InDropped(o, h, b, f)
    requires !Resets(ms, h, b)
    ensures Orphans(ms, h, b)
  {
    hide Compacted, InDropped, Resets, IsFull, IsUnchanged;
  }

  lemma StartAt(ms: seq<Message>, h: nat, k: nat)
    requires k < |Starts(ms, h)|
    ensures h <= Starts(ms, h)[k] < |ms| && RoundStart(ms[Starts(ms, h)[k]])
  {
    StartsSound(ms, h);
    assert Starts(ms, h)[k] in Starts(ms, h);
  }

  /** A marker that stays is in the list, and outside the rounds dropped. */
  lemma StayingMarker(ms: seq<Message>, h: nat, b: Budget) returns (u: nat)
    requires MarkerStays(ms, h, b)
    ensures var o := Compacted(ms, h); h <= u < |o| && IsUnchanged(o[u]) && !InDropped(o, h, b, u)
  {
    var o := Compacted(ms, h);
    if Resets(ms, h, b) {
      hide Compacted, Resets, DropSteps, IsUnchanged;
      if Starts(o, h) == [] {
        NoNewest(o, h);
        NoKinds(o, h);
        u := h;
      } else {
        var n := NewestLast(o, h);
        var m :| m in NewestRound(o, h) && IsUnchanged(m);
        var i :| 0 <= i < |o[n..]| && o[n..][i] == m;
        u := n + i;
        if 0 < DropSteps(o, h, b) < |Starts(o, h)| { StartOrder(o, h, DropSteps(o, h, b)); }
        hide Starts;
        assert o[u] == m;
      }
    } else {
      hide Compacted, Resets, InDropped, IsUnchanged;
      u :| h <= u < |o| && IsUnchanged(o[u]) && !InDropped(o, h, b, u);
    }
  }

  lemma OrphansParts(ms: seq<Message>, h: nat, b: Budget)
    requires Sound(ms, h) && Orphans(ms, h, b)
    ensures var o := Compacted(ms, h); (HasMarker(o, h) && !HasFull(o, h)) || Parted(o, h)
  {
    CompactedKinds(ms, h);
    var o := Compacted(ms, h);
    var u := StayingMarker(ms, h, b);
    FullIsNotMarker();
    hide Compacted, DropSteps, Starts, IsFull, IsUnchanged, Resets, Sound, MarkerStays;
    if HasFull(o, h) {
      var f :| h <= f < |o| && IsFull(o[f]);
      assert InDropped(o, h, b, f);
      var k, starts := DropSteps(o, h, b), Starts(o, h);
      assert f < u;
      assert Severed(o, starts[0], starts[k]);
    }
  }

  // ---- An example ----

  /** It does happen: page state in a first round, and a second round that found the page unchanged. */
  lemma DropCanOrphanMarker()
    ensures exists ms, h, b :: Sound(ms, h) && Grounded(ms, h)
                               && !Grounded(Prepare(ms, h, b).messages, Prepare(ms, h, b).historyEnd)
  {
    TwoRoundsSound();
    TwoRoundsStarts();
    TwoRoundsObservations();
    hide *;
    var ms := TwoRounds();
    TwoRoundsParted();
    OrphanBudgetIff(ms, 2, Encoding(0, _ => 0));
  }

  lemma TwoRoundsKeepFrom()
    ensures KeepFrom(TwoRounds(), 2) == 2
  {
    TwoRoundsStarts();
  }

  lemma TwoRoundsLast()
    ensures LastFull(TwoRounds(), 2, 8) == 4 && LastUnchanged(TwoRounds(), 2, 8) == 7
  {
    var ms := TwoRounds();
    TwoRoundsKinds();
    hide IsFull, IsUnchanged;
    LastUnique(ms, 2, 8, 4, 7);
  }

  lemma TwoRoundsParted()
    ensures Parted(Compacted(TwoRounds(), 2), 2)
  {
    assert |TwoRounds()| == 8;
    TwoRoundsStart(2);
    TwoRoundsStart(5);
    TwoRoundsObserved();
    CompactedIs(TwoRounds(), 2);
    hide *;
    PartedLater(Compact(TwoRounds(), 2), 4, 7);
  }

  lemma TwoRoundsShift()
    ensures Shift(TwoRounds(), 2) == 0 && |TwoRounds()| == 8
  {
    TwoRoundsKeepFrom();
    TwoRoundsLast();
    hide IsFull, IsUnchanged, LastFull, KeepFrom;
  }

  lemma TwoRoundsStart(i: nat)
    requires i == 2 || i == 5
    ensures i < |Compact(TwoRounds(), 2)| && RoundStart(Compact(TwoRounds(), 2)[i])
  {
    var ms := TwoRounds();
    assert RoundStart(ms[i]);
    TwoRoundsKeepFrom();
    TwoRoundsShift();
    hide *;
    LayoutAt(ms, 2, i);
    RewriteSound(ms[i], i in Selected(ms, 2), i in Live(ms, 2));
  }

  lemma TwoRoundsObserved()
    ensures var c := Compact(TwoRounds(), 2); |c| == 8 && IsFull(c[4]) && IsUnchanged(c[7])
  {
    TwoRoundsKeepFrom();
    TwoRoundsLast();
    TwoRoundsShift();
    var ms := TwoRounds();
    assert FullAfter(ms, 2) == 4 && UnchangedAfter(ms, 2) == 7 by {
      hide LastFull, LastUnchanged, KeepFrom, Shift, TwoRounds;
    }
    hide *;
    Layout(ms, 2);
    ObservationsAfter(ms, 2, 4);
    ObservationsAfter(ms, 2, 7);
  }

  /** Older tool text is no observation and starts no round. */
  lemma PartedLater(c: seq<Message>, f: nat, u: nat)
    requires 2 <= f < 5 <= u < |c| && IsFull(c[f]) && IsUnchanged(c[u]) && RoundStart(c[2]) && RoundStart(c[5])
    ensures Parted(CompactOlder(c, 2), 2)
  {
    var o := CompactOlder(c, 2);
    OlderIsSame(c, 2);
    OlderShape(c, 2);
    hide IsFull, IsUnchanged, CompactOlder;
    StartsSound(o, 2);
    var starts := Starts(o, 2);
    hide Starts;
    assert 2 in starts && 5 in starts;
    var k :| 0 <= k < |starts| && starts[k] == 5;
    var z :| 0 <= z < |starts| && starts[z] == 2;
    assert starts[0] in starts;
    assert starts[0] == 2 && k > 0;
    assert Severed(o, 2, 5);
  }

  lemma TwoRoundsStarts()
    ensures Starts(TwoRounds(), 2) == [2, 5]
  {
    var ms := TwoRounds();
    assert Starts(ms, 8) == [];
    assert Starts(ms, 7) == [] + Starts(ms, 8);
    assert Starts(ms, 6) == [] + Starts(ms, 7);
    assert Starts(ms, 5) == [5] + Starts(ms, 6);
    assert Starts(ms, 4) == [] + Starts(ms, 5);
    assert Starts(ms, 3) == [] + Starts(ms, 4);
    assert Starts(ms, 2) == [2] + Starts(ms, 3);
  }

  lemma TwoRoundsKinds()
    ensures forall i | 2 <= i < 8 :: (IsFull(TwoRounds()[i]) <==> i == 4) && (IsUnchanged(TwoRounds()[i]) <==> i == 7)
  {
    hide Contains, HasPrefix;
    var ms := TwoRounds();
    FullExample();
    MarkerExample();
    assert forall i | 2 <= i < 8 && i != 4 && i != 7 :: !IsObservation(ms[i]);
  }

  lemma TwoRoundsObservations()
    ensures Grounded(TwoRounds(), 2)
  {
    TwoRoundsKinds();
    assert |TwoRounds()| == 8;
    hide IsFull, IsUnchanged, TwoRounds;
    assert IsFull(TwoRounds()[4]);
  }

  function TwoRounds(): seq<Message> {
    [Message(System, Plain("s"), [], ""), Message(User, Plain("u"), [], ""),
     Message(Assistant, Plain(""), [Call("a", "page", "")], ""), Message(Tool, Plain(TOOL_STUB), [], "a"), FullMessage(),
     Message(Assistant, Plain(""), [Call("b", "page", "")], ""), Message(Tool, Plain(TOOL_STUB), [], "b"), MarkerMessage()]
  }

  function FullMessage(): Message { Message(User, Plain(OBSERVATION_PREFIX + "page:\nx"), [], "") }
  function MarkerMessage(): Message { Message(User, Plain(OBSERVATION_PREFIX + "page:\n" + UNCHANGED), [], "") }

  lemma FullExample()
    ensures IsFull(FullMessage())
  {
    var text := OBSERVATION_PREFIX + "page:\nx";
    assert text[..|OBSERVATION_PREFIX|] == OBSERVATION_PREFIX;
    assert |text| == 24 && |UNCHANGED| == 42;
  }

  lemma MarkerExample()
    ensures IsUnchanged(MarkerMessage())
  {
    var head := OBSERVATION_PREFIX + "page:\n";
    var text := head + UNCHANGED;
    assert text[..|OBSERVATION_PREFIX|] == OBSERVATION_PREFIX;
    assert text[|head|..|head| + |UNCHANGED|] == UNCHANGED;
    assert ContainsAt(text, UNCHANGED, |head|);
  }

  lemma TwoRoundsSound()
    ensures Sound(TwoRounds(), 2)
  {
    var ms := TwoRounds();
    assert ms[1].role == User;
    PlainPair(ms[0], ms[1]);
    assert ms[..2] == [ms[0], ms[1]];
    RoundExample(ms[2], ms[3], ms[4]);
    RoundExample(ms[5], ms[6], ms[7]);
    WellFormedConcat([ms[2], ms[3], ms[4]], [ms[5], ms[6], ms[7]]);
    WellFormedConcat([ms[0], ms[1]], [ms[2], ms[3], ms[4]] + [ms[5], ms[6], ms[7]]);
    assert ms == [ms[0], ms[1]] + ([ms[2], ms[3], ms[4]] + [ms[5], ms[6], ms[7]]);
  }

  lemma RoundExample(call: Message, reply: Message, observation: Message)
    requires call.role == Assistant && |call.calls| == 1 && reply.role == Tool && reply.callId == call.calls[0].id
    requires observation.role == User
    ensures WellFormed([call, reply, observation])
  {
    var ms := [call, reply, observation];
    assert ms[1..] == [reply, observation] && ms[1..][1..] == [observation] && [observation][1..] == [];
    assert Ids(call.calls) == [reply.callId] && [reply.callId][1..] == [];
    assert Owed([observation], []) == Some([]);
    assert Owed([reply, observation], [reply.callId]) == Some([]);
  }
}
