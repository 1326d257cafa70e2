/** Task compaction of a prompt, as specified and as run. */
module PromptCompaction {
  // `compactTaskMessages` keeps the last tool rounds, at most one full observation and one
  // "unchanged" marker, and replaces every other observation and its stub by a placeholder.

  import opened PromptMessages

  function KeepFrom(ms: seq<Message>, h: nat): nat {
    var starts := Starts(ms, h);
    if |starts| > MAX_TOOL_ROUNDS then starts[|starts| - MAX_TOOL_ROUNDS] else h
  }

  /** The last full observation in [lo, hi), or -1. */
  function LastFull(ms: seq<Message>, lo: nat, hi: nat): int
    requires hi <= |ms|
    decreases hi
  {
    if hi <= lo then -1 else if IsFull(ms[hi - 1]) then hi - 1 else LastFull(ms, lo, hi - 1)
  }

  /** The last "unchanged" marker in [lo, hi) after the last full observation, or -1. */
  function LastUnchanged(ms: seq<Message>, lo: nat, hi: nat): int
    requires hi <= |ms|
    decreases hi
  {
    if hi <= lo || IsFull(ms[hi - 1]) then -1
    else if IsUnchanged(ms[hi - 1]) then hi - 1
    else LastUnchanged(ms, lo, hi - 1)
  }

  ghost predicate IsLastFull(ms: seq<Message>, lo: nat, hi: nat, f: int)
    requires hi <= |ms|
  {
    && (f == -1 || (lo <= f < hi && IsFull(ms[f])))
    && (forall i | lo <= i < hi && i > f :: !IsFull(ms[i]))
  }

  ghost predicate IsLastUnchanged(ms: seq<Message>, lo: nat, hi: nat, f: int, u: int)
    requires hi <= |ms|
  {
    && (u == -1 || (lo <= u < hi && u > f && IsUnchanged(ms[u])))
    && (forall i | lo <= i < hi && i > f && i > u :: !IsUnchanged(ms[i]))
  }

  lemma {:induction false} LastFullSound(ms: seq<Message>, lo: nat, hi: nat)
    requires hi <= |ms|
    ensures IsLastFull(ms, lo, hi, LastFull(ms, lo, hi))
    decreases hi
  {
    if hi > lo && !IsFull(ms[hi - 1]) { LastFullSound(ms, lo, hi - 1); }
  }

  lemma {:induction false} LastUnchangedSound(ms: seq<Message>, lo: nat, hi: nat)
    requires hi <= |ms|
    ensures IsLastUnchanged(ms, lo, hi, LastFull(ms, lo, hi), LastUnchanged(ms, lo, hi))
    decreases hi
  {
    LastFullSound(ms, lo, hi);
    if hi > lo && !IsFull(ms[hi - 1]) && !IsUnchanged(ms[hi - 1]) { LastUnchangedSound(ms, lo, hi - 1); }
  }

  lemma LastUnique(ms: seq<Message>, lo: nat, hi: nat, f: int, u: int)
    requires hi <= |ms| && IsLastFull(ms, lo, hi, f) && IsLastUnchanged(ms, lo, hi, f, u)
    ensures LastFull(ms, lo, hi) == f && LastUnchanged(ms, lo, hi) == u
  {
    LastFullSound(ms, lo, hi);
    LastUnchangedSound(ms, lo, hi);
    var f', u' := LastFull(ms, lo, hi), LastUnchanged(ms, lo, hi);
    assert f' <= f && f <= f';
    assert u' <= u && u <= u';
  }

  /** The indices in [a, b) of the messages satisfying `p`. */
  function Indices(ms: seq<Message>, p: Message -> bool, a: nat, b: nat): seq<nat>
    requires b <= |ms|
    decreases b - a
  {
    if a >= b then [] else (if p(ms[a]) then [a] else []) + Indices(ms, p, a + 1, b)
  }

  lemma {:induction false} IndicesSound(ms: seq<Message>, p: Message -> bool, a: nat, b: nat)
    requires b <= |ms|
    ensures Ascending(Indices(ms, p, a, b))
    ensures forall i :: i in Indices(ms, p, a, b) <==> a <= i < b && p(ms[i])
    decreases b - a
  {
    if a < b {
      IndicesSound(ms, p, a + 1, b);
      var rest := Indices(ms, p, a + 1, b);
      forall i | 0 <= i < |rest| ensures rest[i] > a { assert rest[i] in rest; }
    }
  }

  /** In one round the k-th stub announces the k-th observation; it stays live if that one does. */
  function RoundActive(stubs: seq<nat>, observations: seq<nat>, selected: set<int>): set<nat> {
    set k: nat | k < |stubs| && k < |observations| && observations[k] in selected :: stubs[k]
  }

  function RoundEnd(ms: seq<Message>, starts: seq<nat>, j: nat): nat {
    if j + 1 < |starts| then starts[j + 1] else |ms|
  }

  ghost predicate SoundStarts(ms: seq<Message>, starts: seq<nat>) {
    Ascending(starts) && forall s <- starts :: s < |ms|
  }

  function RoundStubs(ms: seq<Message>, starts: seq<nat>, j: nat): seq<nat>
    requires j < |starts| && RoundEnd(ms, starts, j) <= |ms|
  {
    Indices(ms, IsStub, starts[j], RoundEnd(ms, starts, j))
  }

  function RoundObservations(ms: seq<Message>, starts: seq<nat>, j: nat): seq<nat>
    requires j < |starts| && RoundEnd(ms, starts, j) <= |ms|
  {
    Indices(ms, IsObservation, starts[j], RoundEnd(ms, starts, j))
  }

  /** The live stubs of the rounds from the j-th on. */
  function ActiveStubs(ms: seq<Message>, selected: set<int>, starts: seq<nat>, j: nat): set<nat>
    requires forall k | j <= k < |starts| :: RoundEnd(ms, starts, k) <= |ms|
    decreases |starts| - j
  {
    if j >= |starts| then {}
    else RoundActive(RoundStubs(ms, starts, j), RoundObservations(ms, starts, j), selected)
         + ActiveStubs(ms, selected, starts, j + 1)
  }

  function Rewrite(m: Message, selected: bool, active: bool): Message {
    if IsObservation(m) && !selected then SupersededMessage
    else if IsStub(m) && !active then m.(content := Plain(SUPERSEDED_STUB))
    else m
  }

  function Selected(ms: seq<Message>, h: nat): set<int> {
    {LastFull(ms, h, |ms|), LastUnchanged(ms, h, |ms|)}
  }

  lemma RetainedStarts(ms: seq<Message>, from: nat)
    ensures var starts := Starts(ms, from);
            SoundStarts(ms, starts) && forall k | 0 <= k < |starts| :: RoundEnd(ms, starts, k) <= |ms|
  {
    StartsSound(ms, from);
    var starts := Starts(ms, from);
    forall k | 0 <= k < |starts| ensures RoundEnd(ms, starts, k) <= |ms| {
      if k + 1 < |starts| { assert starts[k + 1] in starts; }
    }
  }

  function Live(ms: seq<Message>, h: nat): set<nat> {
    var starts := Starts(ms, KeepFrom(ms, h));
    RetainedStarts(ms, KeepFrom(ms, h));
    ActiveStubs(ms, Selected(ms, h), starts, 0)
  }

  /** The last full observation, when the rounds kept would lose it. */
  function Carried(ms: seq<Message>, h: nat): seq<Message> {
    var f := LastFull(ms, h, |ms|);
    if 0 <= f < |ms| && f < KeepFrom(ms, h) then [ms[f]] else []
  }

  function Retained(ms: seq<Message>, h: nat): seq<Message>
    requires KeepFrom(ms, h) <= |ms|
  {
    var from, selected, live := KeepFrom(ms, h), Selected(ms, h), Live(ms, h);
    seq(|ms| - from, i requires 0 <= i < |ms| - from => Rewrite(ms[from + i], from + i in selected, from + i in live))
  }

  lemma KeepFromSound(ms: seq<Message>, h: nat)
    requires h <= |ms|
    ensures h <= KeepFrom(ms, h) <= |ms|
    ensures KeepFrom(ms, h) != h ==> KeepFrom(ms, h) < |ms| && RoundStart(ms[KeepFrom(ms, h)])
    ensures |Starts(ms, KeepFrom(ms, h))| <= MAX_TOOL_ROUNDS
    ensures Starts(ms, h) != [] ==> KeepFrom(ms, h) <= Starts(ms, h)[|Starts(ms, h)| - 1]
  {
    StartsSound(ms, h);
    var starts := Starts(ms, h);
    if starts != [] { assert starts[|starts| - 1] in starts; }
    if |starts| > MAX_TOOL_ROUNDS {
      assert starts[|starts| - MAX_TOOL_ROUNDS] in starts;
      StartsFromStart(ms, h, |starts| - MAX_TOOL_ROUNDS);
    }
  }

  function Compact(ms: seq<Message>, h: nat): seq<Message> {
    if h >= |ms| then ms
    else
      KeepFromSound(ms, h);
      ms[..h] + Carried(ms, h) + Retained(ms, h)
  }

  // ---- The code ----

  method LatestObservations(ms: seq<Message>, h: nat) returns (full: int, marker: int)
    requires h <= |ms|
    ensures full == LastFull(ms, h, |ms|) && marker == LastUnchanged(ms, h, |ms|)
  {
    full, marker := -1, -1;
    var index := |ms|;
    while index > h
      invariant h <= index <= |ms|
      invariant LastFull(ms, h, |ms|) == LastFull(ms, h, index)
      invariant LastUnchanged(ms, h, |ms|) == if marker >= 0 then marker else LastUnchanged(ms, h, index)
    {
      index := index - 1;
      if IsUnchanged(ms[index]) {
        if marker < 0 { marker := index; }
        continue;
      }
      if IsObservation(ms[index]) {
        full := index;
        break;
      }
    }
  }

  method RoundIndices(ms: seq<Message>, start: nat, end: nat) returns (stubs: seq<nat>, observations: seq<nat>)
    requires start <= end <= |ms|
    ensures stubs == Indices(ms, IsStub, start, end) && observations == Indices(ms, IsObservation, start, end)
  {
    stubs, observations := [], [];
    var index := start;
    while index < end
      invariant start <= index <= end
      invariant stubs + Indices(ms, IsStub, index, end) == Indices(ms, IsStub, start, end)
      invariant observations + Indices(ms, IsObservation, index, end) == Indices(ms, IsObservation, start, end)
    {
      ghost var s, o := Indices(ms, IsStub, index + 1, end), Indices(ms, IsObservation, index + 1, end);
      assert stubs + ([index] + s) == (stubs + [index]) + s;
      assert observations + ([index] + o) == (observations + [index]) + o;
      assert [] + s == s && [] + o == o;
      if ms[index].role == Tool && ms[index].content == Plain(TOOL_STUB) { stubs := stubs + [index]; }
      if IsObservation(ms[index]) { observations := observations + [index]; }
      index := index + 1;
    }
  }

  method ActivateRound(stubs: seq<nat>, observations: seq<nat>, selected: set<int>) returns (active: set<nat>)
    ensures active == RoundActive(stubs, observations, selected)
  {
    active := {};
    var index := 0;
    while index < |stubs| && index < |observations|
      invariant 0 <= index <= |stubs| && index <= |observations|
      invariant active == set k: nat | k < index && observations[k] in selected :: stubs[k]
    {
      if observations[index] in selected { active := active + {stubs[index]}; }
      index := index + 1;
    }
  }

  method ActiveToolStubs(ms: seq<Message>, selected: set<int>, from: nat) returns (active: set<nat>)
    ensures forall k | 0 <= k < |Starts(ms, from)| :: RoundEnd(ms, Starts(ms, from), k) <= |ms|
    ensures active == ActiveStubs(ms, selected, Starts(ms, from), 0)
  {
    RetainedStarts(ms, from);
    active := {};
    var starts := ToolRoundStarts(ms, from);
    var round := 0;
    while round < |starts|
      invariant 0 <= round <= |starts|
      invariant active + ActiveStubs(ms, selected, starts, round) == ActiveStubs(ms, selected, starts, 0)
    {
      var end := |ms|;
      if round + 1 < |starts| { end := starts[round + 1]; }
      assert starts[round] in starts;
      var stubs, observations := RoundIndices(ms, starts[round], end);
      var more := ActivateRound(stubs, observations, selected);
      active := active + more;
      round := round + 1;
    }
  }

  method RewriteFrom(ms: seq<Message>, from: nat, full: int, marker: int, active: set<nat>) returns (r: seq<Message>)
    requires from <= |ms|
    ensures r == seq(|ms| - from, i requires 0 <= i < |ms| - from =>
                                    Rewrite(ms[from + i], from + i in {full, marker}, from + i in active))
  {
    r := [];
    var index := from;
    while index < |ms|
      invariant from <= index <= |ms| && |r| == index - from
      invariant forall i | 0 <= i < |r| :: r[i] == Rewrite(ms[from + i], from + i in {full, marker}, from + i in active)
    {
      var m := ms[index];
      if IsObservation(m) && index != full && index != marker {
        m := SupersededMessage;
      } else if m.role == Tool && m.content == Plain(TOOL_STUB) && index !in active {
        m := m.(content := Plain(SUPERSEDED_STUB));
      }
      r := r + [m];
      index := index + 1;
    }
  }

  method CompactTaskMessages(ms: seq<Message>, h: nat) returns (r: seq<Message>)
    ensures r == Compact(ms, h)
  {
    hide Starts, LastFull, LastUnchanged, ActiveStubs, Rewrite, RoundEnd;
    if h >= |ms| { return ms; }
    KeepFromSound(ms, h);
    var starts := ToolRoundStarts(ms, h);
    var keepFrom := h;
    if |starts| > MAX_TOOL_ROUNDS { keepFrom := starts[|starts| - MAX_TOOL_ROUNDS]; }
    var full, marker := LatestObservations(ms, h);
    LastFullSound(ms, h, |ms|);
    r := ms[..h];
    if h <= full && full < keepFrom { r := r + [ms[full]]; }
    assert r == ms[..h] + Carried(ms, h);
    var active := ActiveToolStubs(ms, {full, marker}, keepFrom);
    var retained := RewriteFrom(ms, keepFrom, full, marker, active);
    assert retained == Retained(ms, h);
    r := r + retained;
  }
}
