/** What stays of a prompt. */
module CompactionKept {
  import opened PromptMessages
  import opened PromptCompaction
  import opened CompactionProperties
  import Idempotence = CompactionIdempotence

  /** `n` is where the last four rounds begin, or the end of the history if there are no more. */
  ghost predicate LastFour(ms: seq<Message>, h: nat, n: nat) {
    n == if |Starts(ms, h)| > 4 then Starts(ms, h)[|Starts(ms, h)| - 4] else h
  }

  /** Nothing shown after the observation at `i` replaces it. */
  ghost predicate Newest(ms: seq<Message>, i: nat)
    requires i < |ms|
  {
    && IsObservation(ms[i])
    && forall k | i < k < |ms| :: !IsFull(ms[k]) && (IsUnchanged(ms[i]) ==> !IsObservation(ms[k]))
  }

  /** `s` and `e` are where a round begins and ends. */
  ghost predicate IsRound(ms: seq<Message>, s: nat, e: nat) {
    && s < e <= |ms| && RoundStart(ms[s]) && (e == |ms| || RoundStart(ms[e]))
    && forall k | s < k < e :: !RoundStart(ms[k])
  }

  /** Of the stubs of a round the one at `i` announces an observation that nothing replaces. */
  ghost predicate Announces(ms: seq<Message>, s: nat, e: nat, i: nat)
    requires e <= |ms|
  {
    var observations := Indices(ms, IsObservation, s, e);
    exists k: nat | k < |Indices(ms, IsStub, s, e)| && Indices(ms, IsStub, s, e)[k] == i ::
      k < |observations| && observations[k] < |ms| && Newest(ms, observations[k])
  }

  lemma LastFourIs(ms: seq<Message>, h: nat, n: nat)
    requires h < |ms| && LastFour(ms, h, n)
    ensures n == KeepFrom(ms, h) && h <= n <= |ms| && |Compact(ms, h)| == |ms| + Shift(ms, h)
    ensures |Compact(ms, h)| - (|ms| - n) == n + Shift(ms, h)
  {
    KeepFromSound(ms, h);
    hide Compact;
    LayoutParts(ms, h);
  }

  /** The last four rounds stay, in their shape and at the end; before them stay the history and at
      most one full observation. */
  lemma LastFourStay(ms: seq<Message>, h: nat, n: nat)
    requires h < |ms| && LastFour(ms, h, n)
    ensures var r := Compact(ms, h);
            && |Starts(r, h)| == (if |Starts(ms, h)| < 4 then |Starts(ms, h)| else 4)
            && n <= |ms| && h + |ms| - n <= |r| <= h + 1 + |ms| - n
            && r[..h] == ms[..h] && SameShape(r[|r| - (|ms| - n)..], ms[n..])
  {
    hide Compact, KeepFrom, Shift;
    LastFourIs(ms, h, n);
    Layout(ms, h);
    RetainedShape(ms, h, n);
    Idempotence.StartsAfter(ms, h);
    if |Starts(ms, h)| > 4 { StartsFromStart(ms, h, |Starts(ms, h)| - 4); }
  }

  /** The one observation carried in front of them is the last full one, if they do not hold it. */
  lemma WhatIsCarried(ms: seq<Message>, h: nat, n: nat, f: nat)
    requires h < |ms| && LastFour(ms, h, n) && n <= |ms|
    requires h <= f < |ms| && IsFull(ms[f]) && forall k | f < k < |ms| :: !IsFull(ms[k])
    ensures var r := Compact(ms, h);
            if f < n then |r| == h + 1 + |ms| - n && r[h] == ms[f] else |r| == h + |ms| - n
  {
    hide Compact, Retained;
    LastFourIs(ms, h, n);
    LayoutParts(ms, h);
    LastFullSound(ms, h, |ms|);
    var r, d := Compact(ms, h), Shift(ms, h);
    assert LastFull(ms, h, |ms|) == f;
    if f < n { assert r[h..n + d][0] == r[h]; }
  }

  lemma NothingIsCarried(ms: seq<Message>, h: nat, n: nat)
    requires h < |ms| && LastFour(ms, h, n) && forall k | h <= k < |ms| :: !IsFull(ms[k])
    ensures n <= |ms| && |Compact(ms, h)| == h + |ms| - n
  {
    hide Compact, Retained;
    LastFourIs(ms, h, n);
    LayoutParts(ms, h);
    LastFullSound(ms, h, |ms|);
  }

  lemma SelectedIsNewest(ms: seq<Message>, h: nat, i: nat)
    requires h <= i < |ms| && IsObservation(ms[i])
    ensures i in Selected(ms, h) <==> Newest(ms, i)
  {
    LastFullSound(ms, h, |ms|);
    LastUnchangedSound(ms, h, |ms|);
  }

  /** From there on an observation is replaced exactly if a later one replaces it, and what is neither
      an observation nor a stub stays as it is. */
  lemma WhatStays(ms: seq<Message>, h: nat, n: nat, i: nat)
    requires h < |ms| && LastFour(ms, h, n) && n <= i < |ms| && !IsStub(ms[i])
    ensures var r := Compact(ms, h);
            && |r| >= |ms| - i
            && r[|r| - (|ms| - i)] ==
               if IsObservation(ms[i]) && !Newest(ms, i)
               then Message(User, Plain("[observation superseded by a newer one]"), [], "")
               else ms[i]
  {
    hide Compact, KeepFrom, Shift, Selected, Live, IsObservation, IsStub, Newest;
    LastFourIs(ms, h, n);
    LayoutAt(ms, h, i);
    if IsObservation(ms[i]) { SelectedIsNewest(ms, h, i); }
  }

  /** A stub stays exactly if it announces an observation that stays: the first of its round the
      first, and so on. */
  lemma WhichStubsStay(ms: seq<Message>, h: nat, n: nat, s: nat, e: nat, i: nat)
    requires h < |ms| && LastFour(ms, h, n) && n <= s <= i < e && IsRound(ms, s, e) && IsStub(ms[i])
    ensures var r := Compact(ms, h);
            && |r| >= |ms| - i
            && r[|r| - (|ms| - i)] ==
               if Announces(ms, s, e, i) then ms[i]
               else ms[i].(content := Plain("[observation superseded]"))
  {
    hide Compact, KeepFrom, Shift, Selected, Live, IsObservation, IsStub, Announces;
    LastFourIs(ms, h, n);
    LayoutAt(ms, h, i);
    StubIsNoObservation(ms[i]);
    LiveAnnounces(ms, h, n, s, e, i);
  }

  lemma StubIsNoObservation(m: Message)
    requires IsStub(m)
    ensures !IsObservation(m)
  {
  }

  /** A stub in front of the first round is never kept. */
  lemma StrayStubs(ms: seq<Message>, h: nat, n: nat, i: nat)
    requires h < |ms| && LastFour(ms, h, n) && n <= i < |ms| && IsStub(ms[i])
    requires forall k | n <= k <= i :: !RoundStart(ms[k])
    ensures var r := Compact(ms, h);
            |r| >= |ms| - i && r[|r| - (|ms| - i)] == ms[i].(content := Plain("[observation superseded]"))
  {
    hide Compact, KeepFrom, Shift, Selected, IsObservation, IsStub, RoundStubs, RoundObservations, RoundActive;
    LastFourIs(ms, h, n);
    LayoutAt(ms, h, i);
    StubIsNoObservation(ms[i]);
    var starts := Starts(ms, n);
    Idempotence.RoundsOf(ms, n);
    StartsSound(ms, n);
    assert forall j | 0 <= j < |starts| :: starts[j] in starts;
    if i in Live(ms, h) {
      var j := Idempotence.ActiveInRound(ms, Selected(ms, h), starts, 0, i);
    }
  }

  lemma RoundOf(ms: seq<Message>, n: nat, s: nat, e: nat) returns (j: nat)
    requires n <= s && IsRound(ms, s, e)
    ensures j < |Starts(ms, n)| && Starts(ms, n)[j] == s && RoundEnd(ms, Starts(ms, n), j) == e
  {
    StartsSound(ms, n);
    var starts := Starts(ms, n);
    hide Starts;
    assert s in starts;
    j :| j < |starts| && starts[j] == s;
    if j + 1 < |starts| { assert starts[j + 1] in starts; }
    assert e < |ms| ==> e in starts;
  }

  lemma LiveAnnounces(ms: seq<Message>, h: nat, n: nat, s: nat, e: nat, i: nat)
    requires h <= n && n == KeepFrom(ms, h) && n <= s <= i < e && IsRound(ms, s, e) && IsStub(ms[i])
    ensures i in Live(ms, h) <==> Announces(ms, s, e, i)
  {
    hide KeepFrom, Starts, Selected, IsObservation, IsStub, ActiveStubs, Indices, Newest, RoundActive;
    var j := RoundOf(ms, n, s, e);
    var starts := Starts(ms, n);
    Idempotence.RoundsOf(ms, n);
    var stubs, observations := Indices(ms, IsStub, s, e), Indices(ms, IsObservation, s, e);
    IndicesSound(ms, IsStub, s, e);
    IndicesSound(ms, IsObservation, s, e);
    assert i in stubs;
    var k: nat :| k < |stubs| && stubs[k] == i;
    Idempotence.LiveMeansPaired(ms, Selected(ms, h), starts, j, k);
    if k < |observations| {
      assert observations[k] in observations;
      SelectedIsNewest(ms, h, observations[k]);
    }
  }
}
