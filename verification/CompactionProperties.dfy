/** What task compaction keeps. */
module CompactionProperties {
  // The protocol, the newest round, one observation of each kind, the pairing of stubs with
  // observations, and its own result when applied again.

  import opened PromptMessages
  import opened PromptCompaction

  /** A well-formed list whose history ends at `h`, with no call pending there. */
  ghost predicate Cut(ms: seq<Message>, h: nat) {
    h <= |ms| && WellFormed(ms) && WellFormed(ms[..h])
  }

  /** How far the retained messages move: the one at index i ends up at i + Shift. */
  function Shift(ms: seq<Message>, h: nat): int {
    h + |Carried(ms, h)| - KeepFrom(ms, h)
  }

  lemma LayoutParts(ms: seq<Message>, h: nat)
    requires h < |ms|
    ensures var r, from, d := Compact(ms, h), KeepFrom(ms, h), Shift(ms, h);
            && h <= from <= |ms| && h <= from + d <= h + 1
            && |r| == |ms| + d && r[..h] == ms[..h] && r[h..from + d] == Carried(ms, h)
            && r[from + d..] == Retained(ms, h)
  {
    KeepFromSound(ms, h);
    assert Compact(ms, h) == ms[..h] + Carried(ms, h) + Retained(ms, h);
    hide Compact, Carried, KeepFrom, Retained;
  }

  lemma LayoutAt(ms: seq<Message>, h: nat, i: nat)
    requires h < |ms| && KeepFrom(ms, h) <= i < |ms|
    ensures |Compact(ms, h)| == |ms| + Shift(ms, h) && 0 <= i + Shift(ms, h)
    ensures Compact(ms, h)[i + Shift(ms, h)] == Rewrite(ms[i], i in Selected(ms, h), i in Live(ms, h))
  {
    hide *;
    LayoutParts(ms, h);
    RetainedAt(ms, h, i);
    var r, from, d := Compact(ms, h), KeepFrom(ms, h), Shift(ms, h);
    assert r[i + d] == r[from + d..][i - from];
  }

  lemma Layout(ms: seq<Message>, h: nat)
    requires h < |ms|
    ensures var r, from, d := Compact(ms, h), KeepFrom(ms, h), Shift(ms, h);
            && h <= from <= |ms| && h <= from + d <= h + 1
            && |r| == |ms| + d && r[..h] == ms[..h] && r[h..from + d] == Carried(ms, h)
            && r[from + d..] == Retained(ms, h)
            && forall i | from <= i < |ms| ::
                 r[i + d] == Rewrite(ms[i], i in Selected(ms, h), i in Live(ms, h))
  {
    hide *;
    LayoutParts(ms, h);
    var r, from, d := Compact(ms, h), KeepFrom(ms, h), Shift(ms, h);
    forall i: nat | from <= i < |ms|
      ensures r[i + d] == Rewrite(ms[i], i in Selected(ms, h), i in Live(ms, h))
    {
      LayoutAt(ms, h, i);
    }
  }

  lemma RetainedAt(ms: seq<Message>, h: nat, i: nat)
    requires KeepFrom(ms, h) <= i < |ms|
    ensures |Retained(ms, h)| == |ms| - KeepFrom(ms, h)
    ensures Retained(ms, h)[i - KeepFrom(ms, h)] == Rewrite(ms[i], i in Selected(ms, h), i in Live(ms, h))
  {
    hide KeepFrom, Selected, Live, Rewrite;
  }

  // ---- The protocol ----

  lemma CutSuffix(ms: seq<Message>, h: nat)
    requires Cut(ms, h)
    ensures WellFormed(ms[h..])
    ensures h < |ms| ==> KeepFrom(ms, h) <= |ms| && WellFormed(ms[KeepFrom(ms, h)..])
  {
    assert ms == ms[..h] + ms[h..];
    WellFormedConcat(ms[..h], ms[h..]);
    if h < |ms| {
      KeepFromSound(ms, h);
      if KeepFrom(ms, h) != h { CutAtRound(ms, KeepFrom(ms, h)); }
    }
  }

  lemma ThreeParts(r: seq<Message>, i: nat, j: nat)
    requires i <= j <= |r| && WellFormed(r[..i]) && WellFormed(r[i..j]) && WellFormed(r[j..])
    ensures WellFormed(r)
  {
    hide WellFormed;
    assert r == r[..i] + (r[i..j] + r[j..]);
    WellFormedConcat(r[i..j], r[j..]);
    WellFormedConcat(r[..i], r[i..j] + r[j..]);
  }

  /** Compaction keeps the tool-call protocol, and the history in front of it untouched. */
  lemma CompactKeepsProtocol(ms: seq<Message>, h: nat)
    requires Cut(ms, h)
    ensures Cut(Compact(ms, h), h) && Compact(ms, h)[..h] == ms[..h]
  {
    if h < |ms| {
      hide KeepFrom, Retained, Carried, Selected, Live, WellFormed, Compact, Rewrite, Shift;
      Layout(ms, h);
      CutSuffix(ms, h);
      var r, from, d := Compact(ms, h), KeepFrom(ms, h), Shift(ms, h);
      RetainedShape(ms, h, from);
      WellFormedShape(ms[from..], r[from + d..]);
      CarriedIsPlain(ms, h);
      ThreeParts(r, h, from + d);
    }
  }

  lemma RetainedShape(ms: seq<Message>, h: nat, n: nat)
    requires h < |ms| && KeepFrom(ms, h) <= n <= |ms|
    ensures n + Shift(ms, h) >= h && |Compact(ms, h)| == |ms| + Shift(ms, h)
    ensures SameShape(ms[n..], Compact(ms, h)[n + Shift(ms, h)..])
  {
    hide KeepFrom, Retained, Carried, Selected, Live, Compact, Rewrite, Shift;
    Layout(ms, h);
    forall i | n <= i < |ms| ensures SamePart(ms[i], Compact(ms, h)[i + Shift(ms, h)]) {
      RewriteSound(ms[i], i in Selected(ms, h), i in Live(ms, h));
    }
  }

  lemma CarriedIsPlain(ms: seq<Message>, h: nat)
    requires h <= |ms|
    ensures WellFormed(Carried(ms, h))
    ensures forall m <- Carried(ms, h) :: IsFull(m) && !RoundStart(m) && !IsStub(m)
  {
    LastFullSound(ms, h, |ms|);
    var c := Carried(ms, h);
    if c != [] {
      assert c[1..] == [];
      assert OwedAfter(c[0], []) == Some([]);
    }
  }

  /** The newest round survives whole: same calls, same replies, same number of messages after it. */
  lemma CompactKeepsNewestRound(ms: seq<Message>, h: nat)
    requires Starts(ms, h) != []
    ensures var n := Starts(ms, h)[|Starts(ms, h)| - 1];
            var r := Compact(ms, h);
            h <= n < |ms| && |r| >= h + |ms| - n && SameShape(r[|r| - (|ms| - n)..], ms[n..])
  {
    hide KeepFrom, Compact, Shift;
    StartsSound(ms, h);
    var n := Starts(ms, h)[|Starts(ms, h)| - 1];
    assert n in Starts(ms, h);
    KeepFromSound(ms, h);
    RetainedShape(ms, h, n);
  }

  // ---- Observations ----

  lemma RewriteSound(m: Message, selected: bool, active: bool)
    ensures var w := Rewrite(m, selected, active);
            && SamePart(w, m)
            && (RoundStart(w) <==> RoundStart(m))
            && (IsObservation(w) <==> IsObservation(m) && selected)
            && (IsObservation(w) ==> w == m)
            && (IsStub(w) <==> IsStub(m) && active)
  {
    SupersededIsNoObservation();
  }

  /** Where the last full observation and the last marker end up. */
  function FullAfter(ms: seq<Message>, h: nat): int {
    var f := LastFull(ms, h, |ms|);
    if f == -1 then -1 else if f < KeepFrom(ms, h) then h else f + Shift(ms, h)
  }

  function UnchangedAfter(ms: seq<Message>, h: nat): int {
    var u := LastUnchanged(ms, h, |ms|);
    if u < KeepFrom(ms, h) then -1 else u + Shift(ms, h)
  }

  lemma ObservationsAfter(ms: seq<Message>, h: nat, k: nat)
    requires h < |ms| && h <= k < |Compact(ms, h)|
    ensures IsObservation(Compact(ms, h)[k]) <==> k == FullAfter(ms, h) || k == UnchangedAfter(ms, h)
    ensures k == FullAfter(ms, h) ==> IsFull(Compact(ms, h)[k])
    ensures k == UnchangedAfter(ms, h) ==> IsUnchanged(Compact(ms, h)[k])
    ensures FullAfter(ms, h) == -1 || h <= FullAfter(ms, h) < |Compact(ms, h)|
  {
    hide Retained, Live, Compact, Starts, Rewrite;
    Layout(ms, h);
    LastFullSound(ms, h, |ms|);
    LastUnchangedSound(ms, h, |ms|);
    var r, from, d := Compact(ms, h), KeepFrom(ms, h), Shift(ms, h);
    var f, u := LastFull(ms, h, |ms|), LastUnchanged(ms, h, |ms|);
    if k < from + d {
      assert r[h..from + d][0] == r[h];
      assert Carried(ms, h) == [ms[f]];
    } else {
      var i := k - d;
      RewriteSound(ms[i], i in Selected(ms, h), i in Live(ms, h));
    }
  }

  /** After compaction at most one full observation and at most one "unchanged" marker are left, and
      the marker comes later. */
  lemma OneObservationOfEachKind(ms: seq<Message>, h: nat)
    requires h < |ms|
    ensures var r := Compact(ms, h);
            && (forall i, j | h <= i < j < |r| :: !(IsFull(r[i]) && IsFull(r[j])))
            && (forall i, j | h <= i < j < |r| :: !(IsUnchanged(r[i]) && IsUnchanged(r[j])))
            && (forall i, j | h <= i < j < |r| :: !(IsUnchanged(r[i]) && IsFull(r[j])))
  {
    hide Compact, FullAfter, UnchangedAfter;
    var r := Compact(ms, h);
    AfterOrder(ms, h);
    forall k | h <= k < |r|
      ensures IsFull(r[k]) ==> k == FullAfter(ms, h)
      ensures IsUnchanged(r[k]) ==> k == UnchangedAfter(ms, h)
    {
      ObservationsAfter(ms, h, k);
    }
  }

  lemma AfterOrder(ms: seq<Message>, h: nat)
    requires h < |ms|
    ensures UnchangedAfter(ms, h) == -1 || FullAfter(ms, h) < UnchangedAfter(ms, h)
  {
    KeepFromSound(ms, h);
    LastFullSound(ms, h, |ms|);
    LastUnchangedSound(ms, h, |ms|);
  }

  /** The last full observation is never lost: if there was one, it is there afterwards, unchanged. */
  lemma LastFullIsKept(ms: seq<Message>, h: nat)
    requires h < |ms|
    ensures (exists i | h <= i < |ms| :: IsFull(ms[i])) <==> FullAfter(ms, h) >= 0
    ensures FullAfter(ms, h) >= 0 ==>
              && h <= FullAfter(ms, h) < |Compact(ms, h)|
              && 0 <= LastFull(ms, h, |ms|) < |ms|
              && Compact(ms, h)[FullAfter(ms, h)] == ms[LastFull(ms, h, |ms|)]
  {
    KeepFromSound(ms, h);
    LastFullSound(ms, h, |ms|);
    if FullAfter(ms, h) != -1 { FullIsCopied(ms, h); }
  }

  lemma FullIsCopied(ms: seq<Message>, h: nat)
    requires h < |ms| && FullAfter(ms, h) != -1
    ensures var f := LastFull(ms, h, |ms|);
            0 <= f < |ms| && h <= FullAfter(ms, h) < |Compact(ms, h)| && Compact(ms, h)[FullAfter(ms, h)] == ms[f]
  {
    hide Retained, Live, Compact, Starts, Rewrite;
    Layout(ms, h);
    LastFullSound(ms, h, |ms|);
    var r, from, d, f := Compact(ms, h), KeepFrom(ms, h), Shift(ms, h), LastFull(ms, h, |ms|);
    if f < from {
      assert r[h..from + d][0] == r[h];
    } else {
      RewriteSound(ms[f], true, f in Live(ms, h));
    }
  }
}
