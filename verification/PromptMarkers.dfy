/** When an "unchanged" marker still has something to refer to. */
module PromptMarkers {
  // "Page unchanged since the last observation" only makes sense while that observation is still in
  // the prompt.  Task compaction sees to that; dropping the oldest round does not.

  import opened PromptMessages
  import opened PromptCompaction
  import opened CompactionProperties
  import opened PromptReduction

  /** Every marker after the history has a full observation before it. */
  ghost predicate Grounded(ms: seq<Message>, h: nat) {
    forall j | h <= j < |ms| && IsUnchanged(ms[j]) :: exists i | h <= i < j :: IsFull(ms[i])
  }

  /** The state compaction leaves: at most one observation of each kind. */
  ghost predicate OneOfEach(ms: seq<Message>, h: nat) {
    && (forall i, j | h <= i < j < |ms| :: !(IsFull(ms[i]) && IsFull(ms[j])))
    && (forall i, j | h <= i < j < |ms| :: !(IsUnchanged(ms[i]) && IsUnchanged(ms[j])))
  }

  /** Compaction never leaves a marker without its observation. */
  lemma CompactKeepsGrounded(ms: seq<Message>, h: nat)
    requires h < |ms| && Grounded(ms, h)
    ensures Grounded(Compact(ms, h), h) && OneOfEach(Compact(ms, h), h)
  {
    hide Compact, LastFull, LastUnchanged, KeepFrom, Shift;
    OneObservationOfEachKind(ms, h);
    LastFullIsKept(ms, h);
    AfterOrder(ms, h);
    LastFullSound(ms, h, |ms|);
    LastUnchangedSound(ms, h, |ms|);
    var r := Compact(ms, h);
    forall j | h <= j < |r| && IsUnchanged(r[j]) ensures exists i | h <= i < j :: IsFull(r[i]) {
      ObservationsAfter(ms, h, j);
      MarkerSource(ms, h);
      ObservationsAfter(ms, h, FullAfter(ms, h));
      assert h <= FullAfter(ms, h) < j;
    }
  }

  lemma MarkerSource(ms: seq<Message>, h: nat)
    requires h < |ms| && Grounded(ms, h) && UnchangedAfter(ms, h) != -1
    ensures FullAfter(ms, h) >= h && FullAfter(ms, h) < |Compact(ms, h)|
  {
    hide Compact;
    KeepFromSound(ms, h);
    LastFullSound(ms, h, |ms|);
    LastUnchangedSound(ms, h, |ms|);
    LastFullIsKept(ms, h);
    var u := LastUnchanged(ms, h, |ms|);
    assert IsUnchanged(ms[u]);
  }

  /** A marker after the cut whose observation lies inside it. */
  ghost predicate Severed(ms: seq<Message>, a: nat, b: nat) {
    exists f, u | a <= f < b <= u < |ms| :: IsFull(ms[f]) && IsUnchanged(ms[u])
  }

  lemma SeveredIsOrphaned(ms: seq<Message>, r: seq<Message>, h: nat, a: nat, b: nat)
    requires h <= a < b <= |ms| && r == ms[..a] + ms[b..] && OneOfEach(ms, h) && Severed(ms, a, b)
    ensures !Grounded(r, h)
  {
    hide IsFull, IsUnchanged;
    var f, u :| a <= f < b <= u < |ms| && IsFull(ms[f]) && IsUnchanged(ms[u]);
    assert r[u - (b - a)] == ms[u];
    forall i | h <= i < u - (b - a) ensures !IsFull(r[i]) {
      if i < a { assert r[i] == ms[i]; } else { assert r[i] == ms[i + (b - a)]; }
    }
  }

  lemma NotSeveredIsGrounded(ms: seq<Message>, r: seq<Message>, h: nat, a: nat, b: nat)
    requires h <= a < b <= |ms| && r == ms[..a] + ms[b..] && Grounded(ms, h) && !Severed(ms, a, b)
    ensures Grounded(r, h)
  {
    hide IsFull, IsUnchanged;
    forall j | h <= j < |r| && IsUnchanged(r[j]) ensures exists i | h <= i < j :: IsFull(r[i]) {
      var u := if j < a then j else j + (b - a);
      assert r[j] == ms[u];
      var i :| h <= i < u && IsFull(ms[i]);
      var i' := if i < a then i else i - (b - a);
      assert !(a <= i < b);
      assert r[i'] == ms[i];
    }
  }

  /** Dropping the oldest round leaves a marker without its observation exactly when that observation
      belongs to the dropped round and the marker to a later one. */
  lemma DropGroundedIff(ms: seq<Message>, h: nat)
    requires |Starts(ms, h)| >= 2 && Grounded(ms, h) && OneOfEach(ms, h)
    ensures Grounded(DropOldest(ms, h), h) <==> !Severed(ms, Starts(ms, h)[0], Starts(ms, h)[1])
  {
    hide Grounded, OneOfEach, Severed;
    StartsSound(ms, h);
    var starts, r := Starts(ms, h), DropOldest(ms, h);
    assert starts[0] in starts && starts[1] in starts;
    if Severed(ms, starts[0], starts[1]) {
      SeveredIsOrphaned(ms, r, h, starts[0], starts[1]);
    } else {
      NotSeveredIsGrounded(ms, r, h, starts[0], starts[1]);
    }
  }
}
