/** Orphaned markers. */
module PromptGrounding {
  // Which prepared prompts hold an "unchanged" marker with no full observation before it: exactly those
  // whose marker stays while every full observation that is left was in the rounds dropped, if any was
  // left at all.

  import opened PromptMessages
  import opened PromptCompaction
  import opened CompactionProperties
  import opened PromptReduction
  import opened PromptBudget
  import opened PromptMarkers

  // ---- The hard reset ----

  lemma EssentialsGrounded(ms: seq<Message>, h: nat)
    requires Sound(ms, h) && Grounded(ms, h)
    ensures Grounded(Essentials(ms, h), 2)
  {
    if Starts(ms, h) != [] {
      hide *;
      var user, carried, n := EssentialsParts(ms, h);
      FullIsNoMarker(carried);
      JoinedGrounded(ms, h, n, [ms[0], ms[user]], carried);
    } else {
      hide Sound, Starts, LastUser;
    }
  }

  lemma FullIsNoMarker(s: seq<Message>)
    requires forall m <- s :: IsFull(m)
    ensures forall m <- s :: !IsUnchanged(m)
  {
  }

  lemma JoinedGrounded(ms: seq<Message>, h: nat, n: nat, head: seq<Message>, carried: seq<Message>)
    requires Grounded(ms, h) && h <= n <= |ms| && |head| == 2
    requires forall m <- carried :: IsFull(m) && !IsUnchanged(m)
    requires carried == [] ==> !AnyUnchanged(ms, n) || forall i | h <= i < n :: !IsFull(ms[i])
    ensures Grounded(head + carried + ms[n..], 2)
  {
    hide IsFull, IsUnchanged;
    var e, d := head + carried + ms[n..], 2 + |carried|;
    forall j | 2 <= j < |e| && IsUnchanged(e[j]) ensures exists i | 2 <= i < j :: IsFull(e[i]) {
      assert forall k | 2 <= k < d :: e[k] in carried;
      assert j >= d;
      var u := j - d + n;
      assert e[j] == ms[u];
      var i :| h <= i < u && IsFull(ms[i]);
      if i >= n {
        assert e[i - n + d] == ms[i];
      } else {
        assert carried != [] && e[2] == carried[0];
      }
    }
  }

  /** The hard reset keeps the observation every remaining marker refers to. */
  lemma ResetKeepsGrounded(ms: seq<Message>, h: nat)
    requires Sound(ms, h) && Grounded(ms, h)
    ensures Grounded(AfterContextError(ms, h), 2)
  {
    EssentialsGrounded(ms, h);
    EssentialsSound(ms, h);
    var e := Essentials(ms, h);
    SoundSize(ms, h);
    SoundSize(e, 2);
    hide Grounded, Sound, Essentials, OneOfEach;
    if |e| > 2 {
      CompactKeepsGrounded(e, 2);
      assert AfterContextError(ms, h) == Compact(e, 2);
    } else {
      assert Compact(e, 2) == e;
    }
  }

  // ---- Reductions that leave the observations alone ----

  ghost predicate SameObservations(a: seq<Message>, b: seq<Message>) {
    |a| == |b| && forall i | 0 <= i < |a| :: IsFull(a[i]) == IsFull(b[i]) && IsUnchanged(a[i]) == IsUnchanged(b[i])
  }

  lemma OlderIsSame(ms: seq<Message>, h: nat)
    ensures SameObservations(ms, CompactOlder(ms, h))
  {
    hide Contains, Starts, Cap, FirstLine;
  }

  lemma ShrinkIsSame(ms: seq<Message>)
    requires Shrinks(ms, false)
    ensures SameObservations(ms, ShrinkLatest(ms, false)) && SameShape(ms, ShrinkLatest(ms, false))
  {
    LastFullSound(ms, 0, |ms|);
    ReducedMessageSound(ms[LastFull(ms, 0, |ms|)]);
    hide Contains, Cap, ReducedParts, LastFull;
  }

  lemma {:induction false} ShrinkWhileIsSame(ms: seq<Message>, b: Budget)
    ensures SameObservations(ms, ShrinkWhile(ms, b)) && SameShape(ms, ShrinkWhile(ms, b))
    decreases |LatestText(ms)|
  {
    hide Fits, Shrinks, ShrinkLatest, LatestText, IsFull, IsUnchanged;
    if !Fits(ms, b) && Shrinks(ms, false) {
      ShrinkReducesText(ms);
      ShrinkIsSame(ms);
      ShrinkWhileIsSame(ShrinkLatest(ms, false), b);
    }
  }

  // ---- What dropping rounds amounts to ----

  lemma {:induction false} StartsShift(a: seq<Message>, i: nat, b: seq<Message>, j: nat)
    requires i <= |a| && j <= |b| && a[i..] == b[j..]
    ensures |Starts(a, i)| == |Starts(b, j)|
    ensures forall k | 0 <= k < |Starts(a, i)| :: Starts(a, i)[k] - i == Starts(b, j)[k] - j
    decreases |a| - i
  {
    assert |a| - i == |b| - j;
    if i < |a| {
      assert a[i..][0] == b[j..][0];
      assert a[i + 1..] == a[i..][1..] && b[j + 1..] == b[j..][1..];
      StartsShift(a, i + 1, b, j + 1);
    }
  }

  /** After one drop the rounds start where they did, moved up by the length of the oldest. */
  lemma DropShiftsStarts(ms: seq<Message>, h: nat)
    requires |Starts(ms, h)| >= 2
    ensures var starts, r := Starts(ms, h), DropOldest(ms, h);
            && h <= starts[0] < starts[1] < |ms| && r == ms[..starts[0]] + ms[starts[1]..]
            && |Starts(r, h)| == |starts| - 1
            && forall k | 1 <= k < |starts| :: Starts(r, h)[k - 1] + starts[1] == starts[k] + starts[0]
  {
    StartsSound(ms, h);
    var starts, r := Starts(ms, h), DropOldest(ms, h);
    assert starts[0] in starts && starts[1] in starts;
    forall i | h <= i < starts[0] ensures !RoundStart(r[i]) {
      if RoundStart(ms[i]) { FirstStart(ms, h, i); }
    }
    NoStartsBetween(r, h, starts[0]);
    assert r[starts[0]..] == ms[starts[1]..];
    StartsShift(r, starts[0], ms, starts[1]);
    StartsFromStart(ms, h, 1);
  }

  /** All drops together cut out the rounds before the k-th, where k is their number. */
  lemma {:induction false} DropWhileIs(ms: seq<Message>, h: nat, b: Budget)
    ensures var k, starts, d := DropSteps(ms, h, b), Starts(ms, h), DropWhile(ms, h, b);
            if k == 0 then d == ms
            else k < |starts| && h <= starts[0] < starts[k] < |ms| && d == ms[..starts[0]] + ms[starts[k]..]
    decreases |ms|
  {
    hide Fits, Starts, DropOldest;
    DropShortens(ms, h);
    if !Fits(ms, b) && |Starts(ms, h)| >= 2 {
      DropShiftsStarts(ms, h);
      var starts, r, k := Starts(ms, h), DropOldest(ms, h), DropSteps(ms, h, b);
      DropWhileIs(r, h, b);
      DropStepsBounded(ms, h, b);
      if k > 1 {
        var rs := Starts(r, h);
        assert rs[0] + starts[1] == starts[1] + starts[0] && rs[k - 1] + starts[1] == starts[k] + starts[0];
        assert r[..rs[0]] == ms[..starts[0]];
        assert r[rs[k - 1]..] == ms[starts[k]..];
      }
    }
  }

  // ---- What is there to see ----

  ghost predicate HasFull(ms: seq<Message>, h: nat) { exists i | h <= i < |ms| :: IsFull(ms[i]) }

  ghost predicate HasMarker(ms: seq<Message>, h: nat) { exists i | h <= i < |ms| :: IsUnchanged(ms[i]) }

  /** At most one of each kind, and the marker later. */
  ghost predicate Tidied(ms: seq<Message>, h: nat) {
    OneOfEach(ms, h) && forall i, j | h <= i < j < |ms| :: !(IsUnchanged(ms[i]) && IsFull(ms[j]))
  }

  ghost predicate FullInNewest(ms: seq<Message>, h: nat) { exists m <- NewestRound(ms, h) :: IsFull(m) }

  ghost predicate MarkerInNewest(ms: seq<Message>, h: nat) { exists m <- NewestRound(ms, h) :: IsUnchanged(m) }

  lemma TidiedGrounded(ms: seq<Message>, h: nat)
    requires Tidied(ms, h)
    ensures Grounded(ms, h) <==> (HasMarker(ms, h) ==> HasFull(ms, h))
  {
    hide Contains, ObservationText;
  }

  lemma SameKinds(a: seq<Message>, b: seq<Message>, h: nat)
    requires SameObservations(a, b)
    ensures HasFull(a, h) <==> HasFull(b, h)
    ensures HasMarker(a, h) <==> HasMarker(b, h)
    ensures Tidied(a, h) <==> Tidied(b, h)
  {
    hide IsFull, IsUnchanged;
  }

  /** Compaction keeps a full observation if there is one, and makes up no marker. */
  lemma CompactKinds(ms: seq<Message>, h: nat)
    requires h <= |ms|
    ensures Tidied(Compact(ms, h), h)
    ensures HasFull(Compact(ms, h), h) <==> HasFull(ms, h)
    ensures HasMarker(Compact(ms, h), h) ==> HasMarker(ms, h)
  {
    hide IsFull, IsUnchanged, Compact, LastFull, LastUnchanged, KeepFrom, Shift, FullAfter;
    if h < |ms| {
      OneObservationOfEachKind(ms, h);
      LastFullIsKept(ms, h);
      LastUnchangedSound(ms, h, |ms|);
      FullIsNotMarker();
      forall k | h <= k < |Compact(ms, h)|
        ensures IsFull(Compact(ms, h)[k]) ==> FullAfter(ms, h) >= 0
        ensures IsUnchanged(Compact(ms, h)[k]) ==> HasMarker(ms, h)
      {
        ObservationsAfter(ms, h, k);
        OnlyObservations(Compact(ms, h)[k]);
      }
      if FullAfter(ms, h) >= 0 { ObservationsAfter(ms, h, FullAfter(ms, h)); }
    } else {
      NothingToCompact(ms, h);
    }
  }

  lemma NothingToCompact(ms: seq<Message>, h: nat)
    requires h >= |ms|
    ensures Compact(ms, h) == ms
  {
  }

  lemma FullIsNotMarker()
    ensures forall m :: !(IsFull(m) && IsUnchanged(m))
  {
  }

  lemma OnlyObservations(m: Message)
    ensures IsFull(m) || IsUnchanged(m) <==> IsObservation(m)
  {
  }

  /** A marker that is the last thing seen survives compaction, unless its round is too old. */
  lemma CompactKeepsMarker(ms: seq<Message>, h: nat)
    requires h < |ms| && Tidied(ms, h) && HasMarker(ms, h) && KeepFrom(ms, h) == h
    ensures HasMarker(Compact(ms, h), h)
  {
    hide IsFull, IsUnchanged, Compact, LastFull, LastUnchanged, KeepFrom, Retained, Live, Rewrite;
    var m :| h <= m < |ms| && IsUnchanged(ms[m]);
    FullIsNotMarker();
    LastFullSound(ms, h, |ms|);
    LastUnchangedSound(ms, h, |ms|);
    assert LastUnchanged(ms, h, |ms|) >= m;
    Layout(ms, h);
    ObservationsAfter(ms, h, UnchangedAfter(ms, h));
  }

  // ---- The hard reset and what is seen ----

  lemma JoinedKinds(head: seq<Message>, carried: seq<Message>, newest: seq<Message>)
    requires |head| == 2 && forall m <- carried :: IsFull(m) && !IsUnchanged(m)
    ensures var e := head + carried + newest;
            && (HasFull(e, 2) <==> carried != [] || exists m <- newest :: IsFull(m))
            && (HasMarker(e, 2) <==> exists m <- newest :: IsUnchanged(m))
  {
    hide IsFull, IsUnchanged;
    var e, d := head + carried + newest, 2 + |carried|;
    forall i | 0 <= i < |newest| ensures e[d + i] == newest[i] {}
    forall i | 2 <= i < |e| ensures e[i] == if i < d then carried[i - 2] else newest[i - d] {}
    if carried != [] { assert e[2] == carried[0]; }
  }

  /** `Essentials` keeps the newest round, and a full observation if there is one in it, or one
      before it that a marker in it needs. */
  lemma EssentialsKinds(ms: seq<Message>, h: nat)
    requires Sound(ms, h)
    ensures var e := Essentials(ms, h);
            && Sound(e, 2)
            && (HasFull(e, 2) <==> FullInNewest(ms, h) || (MarkerInNewest(ms, h) && HasFull(ms, h)))
            && (HasMarker(e, 2) <==> MarkerInNewest(ms, h))
  {
    hide *;
    EssentialsSound(ms, h);
    var user, carried, n := EssentialsParts(ms, h);
    FullIsNoMarker(carried);
    if Starts(ms, h) == [] {
      NoNewest(ms, h);
      JoinedKinds([ms[0], ms[user]], [], []);
      assert [ms[0], ms[user]] + [] + [] == [ms[0], ms[user]];
      NoKinds(ms, h);
    } else {
      JoinedKinds([ms[0], ms[user]], carried, ms[n..]);
      NewestKinds(ms, h, n);
    }
  }

  lemma NoNewest(ms: seq<Message>, h: nat)
    requires Starts(ms, h) == []
    ensures NewestRound(ms, h) == []
  {
  }

  lemma NoKinds(ms: seq<Message>, h: nat)
    requires NewestRound(ms, h) == []
    ensures !FullInNewest(ms, h) && !MarkerInNewest(ms, h)
  {
    hide NewestRound;
  }

  lemma NewestKinds(ms: seq<Message>, h: nat, n: nat)
    requires h <= n <= |ms| && NewestRound(ms, h) == ms[n..]
    ensures MarkerInNewest(ms, h) <==> AnyUnchanged(ms, n)
    ensures MarkerInNewest(ms, h) <==> exists m <- ms[n..] :: IsUnchanged(m)
    ensures FullInNewest(ms, h) <==> exists m <- ms[n..] :: IsFull(m)
    ensures HasFull(ms, h) <==> FullInNewest(ms, h) || exists i | h <= i < n :: IsFull(ms[i])
    ensures MarkerInNewest(ms, h) ==> HasMarker(ms, h)
  {
    hide NewestRound, IsFull, IsUnchanged;
    assert forall i | n <= i < |ms| :: ms[i] == ms[n..][i - n];
    assert forall m <- ms[n..] :: exists i | n <= i < |ms| :: ms[i] == m;
  }

  lemma EssentialsTidied(ms: seq<Message>, h: nat)
    requires Sound(ms, h) && Tidied(ms, h)
    ensures Tidied(Essentials(ms, h), 2) && |Starts(Essentials(ms, h), 2)| <= 1
  {
    hide *;
    var user, carried, n := EssentialsParts(ms, h);
    var head := [ms[0], ms[user]];
    if Starts(ms, h) == [] {
      ShortIsTidied(head);
    } else {
      FullIsNoMarker(carried);
      CarriedOnce(ms, h, n, head, carried);
      OneStart(ms, h, n, head, carried);
    }
  }

  lemma ShortIsTidied(ms: seq<Message>)
    requires |ms| == 2
    ensures Tidied(ms, 2) && Starts(ms, 2) == []
  {
  }

  lemma CarriedOnce(ms: seq<Message>, h: nat, n: nat, head: seq<Message>, carried: seq<Message>)
    requires h <= n <= |ms| && Tidied(ms, h) && |head| == 2 && |carried| <= 1
    requires forall m <- carried :: IsFull(m) && !IsUnchanged(m)
    requires carried == [] <==> !AnyUnchanged(ms, n) || forall i | h <= i < n :: !IsFull(ms[i])
    ensures Tidied(head + carried + ms[n..], 2)
  {
    hide IsFull, IsUnchanged;
    var e, d := head + carried + ms[n..], 2 + |carried|;
    forall i | 2 <= i < |e| ensures e[i] == if i < d then carried[i - 2] else ms[i - d + n] {}
    if carried != [] {
      var f :| h <= f < n && IsFull(ms[f]);
      assert forall i | n <= i < |ms| :: !IsFull(ms[i]);
    }
  }

  lemma OneStart(ms: seq<Message>, h: nat, n: nat, head: seq<Message>, carried: seq<Message>)
    requires h <= n <= |ms| && Starts(ms, h) != [] && NewestRound(ms, h) == ms[n..] && |head| == 2
    requires forall m <- carried :: IsFull(m)
    ensures |Starts(head + carried + ms[n..], 2)| <= 1
  {
    hide *;
    var last := NewestLast(ms, h);
    assert |ms[last..]| == |ms[n..]|;
    var e, d := head + carried + ms[n..], 2 + |carried|;
    FullStartsNothing(carried);
    forall i | 2 <= i < d ensures !RoundStart(e[i]) { assert e[i] == carried[i - 2]; }
    NoStartsBetween(e, 2, d);
    assert e[d..] == ms[n..];
    StartsShift(e, d, ms, n);
    StartsFromStart(ms, h, |Starts(ms, h)| - 1);
  }

  lemma FullStartsNothing(s: seq<Message>)
    requires forall m <- s :: IsFull(m)
    ensures forall m <- s :: !RoundStart(m)
  {
  }

  lemma ResetIs(ms: seq<Message>, h: nat)
    requires Sound(ms, h) && |Essentials(ms, h)| >= 2
    ensures AfterContextError(ms, h) == Compact(Essentials(ms, h), 2)
  {
    SoundSize(ms, h);
    hide Compact, Essentials, Sound;
  }

  /** What the hard reset leaves to be seen. */
  lemma ResetKinds(ms: seq<Message>, h: nat)
    requires Sound(ms, h)
    ensures var x := AfterContextError(ms, h);
            && Tidied(x, 2)
            && (HasFull(x, 2) <==> FullInNewest(ms, h) || (MarkerInNewest(ms, h) && HasFull(ms, h)))
            && (HasMarker(x, 2) ==> MarkerInNewest(ms, h))
            && (Tidied(ms, h) ==> (HasMarker(x, 2) <==> MarkerInNewest(ms, h)))
  {
    hide *;
    SoundSize(ms, h);
    var e := Essentials(ms, h);
    EssentialsKinds(ms, h);
    SoundSize(e, 2);
    ResetIs(ms, h);
    CompactKinds(e, 2);
    if Tidied(ms, h) && HasMarker(e, 2) {
      EssentialsTidied(ms, h);
      KeepsAll(e, 2);
      MarkerWithin(e, 2);
      CompactKeepsMarker(e, 2);
    }
  }

  lemma MarkerWithin(ms: seq<Message>, h: nat)
    requires HasMarker(ms, h)
    ensures h < |ms|
  {
  }

  lemma KeepsAll(ms: seq<Message>, h: nat)
    requires |Starts(ms, h)| <= 1
    ensures KeepFrom(ms, h) == h
  {
  }

  // ---- The whole preparation ----

  /** The prompt the drops start from. */
  function Compacted(ms: seq<Message>, h: nat): seq<Message> { CompactOlder(Compact(ms, h), h) }

  /** The message is in one of the rounds dropped. */
  ghost predicate InDropped(o: seq<Message>, h: nat, b: Budget, i: nat) {
    var k, starts := DropSteps(o, h, b), Starts(o, h);
    0 < k < |starts| && starts[0] <= i < starts[k]
  }

  /** Dropping and shrinking are not enough, and there is history to give up. */
  predicate Resets(ms: seq<Message>, h: nat, b: Budget) {
    h > 2 && !Fits(ShrinkWhile(DropWhile(Compacted(ms, h), h, b), b), b)
  }

  ghost predicate FullUndropped(ms: seq<Message>, h: nat, b: Budget) {
    var o := Compacted(ms, h);
    exists f | h <= f < |o| && IsFull(o[f]) :: !InDropped(o, h, b, f)
  }

  ghost predicate MarkerUndropped(ms: seq<Message>, h: nat, b: Budget) {
    var o := Compacted(ms, h);
    exists u | h <= u < |o| && IsUnchanged(o[u]) :: !InDropped(o, h, b, u)
  }

  ghost predicate MarkerStays(ms: seq<Message>, h: nat, b: Budget) {
    if Resets(ms, h, b) then MarkerInNewest(Compacted(ms, h), h) else MarkerUndropped(ms, h, b)
  }

  /** A marker stays, and no full observation that was left is outside the rounds dropped. */
  ghost predicate Orphans(ms: seq<Message>, h: nat, b: Budget) {
    MarkerStays(ms, h, b) && !FullUndropped(ms, h, b)
  }

  lemma CompactedKinds(ms: seq<Message>, h: nat)
    requires Sound(ms, h)
    ensures var o := Compacted(ms, h);
            && Sound(o, h) && Tidied(o, h) && (HasFull(o, h) <==> HasFull(ms, h)) && (HasMarker(o, h) ==> HasMarker(ms, h))
  {
    hide *;
    SoundSize(ms, h);
    CompactKeeps(ms, h);
    CompactOlderKeeps(Compact(ms, h), h);
    CompactedIs(ms, h);
    CompactKinds(ms, h);
    OlderIsSame(Compact(ms, h), h);
    SameKinds(Compact(ms, h), Compacted(ms, h), h);
  }

  lemma CompactedIs(ms: seq<Message>, h: nat)
    ensures Compacted(ms, h) == CompactOlder(Compact(ms, h), h)
  {
  }

  lemma CutKinds(o: seq<Message>, d: seq<Message>, h: nat, a: nat, b: nat)
    requires h <= a <= b <= |o| && d == o[..a] + o[b..]
    ensures HasFull(d, h) <==> exists i | h <= i < |o| && IsFull(o[i]) :: !(a <= i < b)
    ensures HasMarker(d, h) <==> exists i | h <= i < |o| && IsUnchanged(o[i]) :: !(a <= i < b)
  {
    CutHolds(o, d, h, a, b, IsFull);
    CutHolds(o, d, h, a, b, IsUnchanged);
    hide IsFull, IsUnchanged;
  }

  lemma CutTidied(o: seq<Message>, d: seq<Message>, h: nat, a: nat, b: nat)
    requires h <= a <= b <= |o| && d == o[..a] + o[b..] && Tidied(o, h)
    ensures Tidied(d, h)
  {
    hide IsFull, IsUnchanged;
    forall i | h <= i < |d| ensures d[i] == if i < a then o[i] else o[i + (b - a)] {}
  }

  lemma CutHolds(o: seq<Message>, d: seq<Message>, h: nat, a: nat, b: nat, p: Message -> bool)
    requires h <= a <= b <= |o| && d == o[..a] + o[b..]
    ensures (exists i | h <= i < |d| :: p(d[i])) <==> exists i | h <= i < |o| && p(o[i]) :: !(a <= i < b)
  {
    if i :| h <= i < |d| && p(d[i]) {
      var j := if i < a then i else i + (b - a);
      assert d[i] == o[j];
    }
    if j :| h <= j < |o| && p(o[j]) && !(a <= j < b) {
      var i := if j < a then j else j - (b - a);
      assert d[i] == o[j];
    }
  }

  lemma InDroppedIs(o: seq<Message>, h: nat, b: Budget)
    ensures forall i: nat :: InDropped(o, h, b, i) <==>
              0 < DropSteps(o, h, b) < |Starts(o, h)| && Starts(o, h)[0] <= i < Starts(o, h)[DropSteps(o, h, b)]
  {
    hide DropSteps, Starts;
  }

  lemma UndroppedIs(ms: seq<Message>, h: nat, b: Budget, from: nat, to: nat)
    requires forall i: nat :: InDropped(Compacted(ms, h), h, b, i) <==> from <= i < to
    ensures var o := Compacted(ms, h);
            && (FullUndropped(ms, h, b) <==> exists i | h <= i < |o| && IsFull(o[i]) :: !(from <= i < to))
            && (MarkerUndropped(ms, h, b) <==> exists i | h <= i < |o| && IsUnchanged(o[i]) :: !(from <= i < to))
  {
    hide Compacted, InDropped, IsFull, IsUnchanged;
  }

  /** What is left to be seen after the drops. */
  lemma DroppedKinds(ms: seq<Message>, h: nat, b: Budget)
    requires Sound(ms, h)
    ensures var d := DropWhile(Compacted(ms, h), h, b);
            && (HasFull(d, h) <==> FullUndropped(ms, h, b)) && (HasMarker(d, h) <==> MarkerUndropped(ms, h, b))
            && Tidied(d, h)
  {
    hide *;
    CompactedKinds(ms, h);
    var o := Compacted(ms, h);
    SoundSize(o, h);
    DropWhileIs(o, h, b);
    InDroppedIs(o, h, b);
    var k, starts := DropSteps(o, h, b), Starts(o, h);
    var from, to := if k == 0 then h else starts[0], if k == 0 then h else starts[k];
    assert o == o[..h] + o[h..];
    UndroppedIs(ms, h, b, from, to);
    CutKinds(o, DropWhile(o, h, b), h, from, to);
    CutTidied(o, DropWhile(o, h, b), h, from, to);
  }

  /** The drops leave the newest round alone. */
  lemma DroppedNewest(o: seq<Message>, h: nat, b: Budget)
    ensures NewestRound(DropWhile(o, h, b), h) == NewestRound(o, h)
  {
    hide *;
    DropWhileIs(o, h, b);
    var k, starts, d := DropSteps(o, h, b), Starts(o, h), DropWhile(o, h, b);
    if k > 0 {
      var n := NewestLast(o, h);
      StartOrder(o, h, k);
      var m := n - (starts[k] - starts[0]);
      assert d[m..] == o[n..];
      SameIsShape(o[n..]);
      SuffixIsNewest(o, h, d, h, m);
    }
  }

  lemma StartOrder(ms: seq<Message>, h: nat, k: nat)
    requires k < |Starts(ms, h)|
    ensures Starts(ms, h)[k] <= Starts(ms, h)[|Starts(ms, h)| - 1]
  {
    StartsSound(ms, h);
    hide Starts;
  }

  lemma SameIsShape(ms: seq<Message>)
    ensures SameShape(ms, ms)
  {
  }

  lemma NewestSame(a: seq<Message>, b: seq<Message>, h: nat)
    requires SameShape(a, b) && SameObservations(a, b)
    ensures FullInNewest(a, h) <==> FullInNewest(b, h)
    ensures MarkerInNewest(a, h) <==> MarkerInNewest(b, h)
  {
    ShapeStarts(a, b, h);
    if Starts(a, h) == [] {
    } else {
      var n := NewestLast(a, h);
      var m := NewestLast(b, h);
      hide IsFull, IsUnchanged, Starts, NewestRound, SameShape;
      NewestKinds(a, h, n);
      NewestKinds(b, h, n);
      forall i | n <= i < |a| ensures a[i] == a[n..][i - n] && b[i] == b[n..][i - n] {}
      KindsOfSuffix(a, b, n);
    }
  }

  lemma KindsOfSuffix(a: seq<Message>, b: seq<Message>, n: nat)
    requires SameObservations(a, b) && n <= |a|
    ensures (exists m <- a[n..] :: IsFull(m)) <==> exists m <- b[n..] :: IsFull(m)
    ensures (exists m <- a[n..] :: IsUnchanged(m)) <==> exists m <- b[n..] :: IsUnchanged(m)
  {
    hide IsFull, IsUnchanged;
    forall i | 0 <= i < |a| - n ensures a[n..][i] == a[n + i] && b[n..][i] == b[n + i] {}
  }

  lemma PrepareIs(ms: seq<Message>, h: nat, b: Budget)
    requires Sound(ms, h)
    ensures var r := ShrinkWhile(DropWhile(Compacted(ms, h), h, b), b);
            && Sound(Compact(ms, h), h)
            && Prepare(ms, h, b) == if !Fits(r, b) && h > 2 then Prepared(AfterContextError(r, h), 2) else Prepared(r, h)
  {
    CompactKeeps(ms, h);
    var c := Compact(ms, h);
    CompactOlderKeeps(c, h);
    var o := Compacted(ms, h);
    DropWhileKeeps(o, h, b);
    var d := DropWhile(o, h, b);
    ShrinkWhileKeeps(d, h, b);
    var r := ShrinkWhile(d, b);
    AfterContextErrorKeeps(r, h);
    hide Sound, Fits, Compact, CompactOlder, DropWhile, ShrinkWhile, AfterContextError, KeepsNewest;
    SoundSize(c, h);
    SoundSize(r, h);
    SoundSize(AfterContextError(r, h), 2);
  }

  /** What a prepared prompt shows: a full observation exactly if one is left outside the rounds
      dropped and, where history is given up, the newest round holds it or a marker. */
  lemma PrepareKinds(ms: seq<Message>, h: nat, b: Budget)
    requires Sound(ms, h)
    ensures var p, o := Prepare(ms, h, b), Compacted(ms, h);
            && Tidied(p.messages, p.historyEnd)
            && (HasFull(p.messages, p.historyEnd) <==>
                  FullUndropped(ms, h, b) && (Resets(ms, h, b) ==> FullInNewest(o, h) || MarkerInNewest(o, h)))
            && (HasMarker(p.messages, p.historyEnd) <==> MarkerStays(ms, h, b))
  {
    hide *;
    PrepareIs(ms, h, b);
    CompactedKinds(ms, h);
    DroppedKinds(ms, h, b);
    var o := Compacted(ms, h);
    var d := DropWhile(o, h, b);
    var r := ShrinkWhile(d, b);
    DropWhileKeeps(o, h, b);
    ShrinkWhileKeeps(d, h, b);
    ShrinkWhileIsSame(d, b);
    SameKinds(d, r, h);
    StaysIs(ms, h, b);
    if Resets(ms, h, b) {
      ResetKinds(r, h);
      DroppedNewest(o, h, b);
      NewestEqual(o, d, h);
      NewestSame(d, r, h);
      FullSeen(d, h);
    }
  }

  lemma StaysIs(ms: seq<Message>, h: nat, b: Budget)
    ensures MarkerStays(ms, h, b) <==> if Resets(ms, h, b) then MarkerInNewest(Compacted(ms, h), h) else MarkerUndropped(ms, h, b)
    ensures Resets(ms, h, b) <==> h > 2 && !Fits(ShrinkWhile(DropWhile(Compacted(ms, h), h, b), b), b)
  {
    hide MarkerInNewest, MarkerUndropped, Fits, ShrinkWhile, DropWhile, Compacted;
  }

  lemma NewestEqual(a: seq<Message>, b: seq<Message>, h: nat)
    requires NewestRound(a, h) == NewestRound(b, h)
    ensures (FullInNewest(a, h) <==> FullInNewest(b, h)) && (MarkerInNewest(a, h) <==> MarkerInNewest(b, h))
  {
    hide NewestRound, IsFull, IsUnchanged;
  }

  lemma FullSeen(ms: seq<Message>, h: nat)
    ensures FullInNewest(ms, h) ==> HasFull(ms, h)
    ensures MarkerInNewest(ms, h) ==> HasMarker(ms, h)
  {
    hide IsFull, IsUnchanged;
    if Starts(ms, h) != [] {
      var n := NewestLast(ms, h);
      hide Starts, NewestRound;
      NewestKinds(ms, h, n);
    }
  }

  /** Whatever the list, the budget and the ratio, every marker of the prepared prompt has a full
      observation before it, exactly unless a marker stays while every full observation that was left
      goes with the rounds dropped, or none was left. */
  lemma PrepareGroundedIff(ms: seq<Message>, h: nat, b: Budget)
    requires Sound(ms, h)
    ensures var p := Prepare(ms, h, b); Grounded(p.messages, p.historyEnd) <==> !Orphans(ms, h, b)
  {
    hide *;
    PrepareKinds(ms, h, b);
    var p := Prepare(ms, h, b);
    TidiedGrounded(p.messages, p.historyEnd);
    StaysIs(ms, h, b);
    OrphansIs(ms, h, b);
  }

  lemma OrphansIs(ms: seq<Message>, h: nat, b: Budget)
    ensures Orphans(ms, h, b) <==> MarkerStays(ms, h, b) && !FullUndropped(ms, h, b)
  {
    hide MarkerStays, FullUndropped;
  }
}
