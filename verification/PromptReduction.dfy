/** The other prompt reductions, and what they keep of it. */
module PromptReduction {
  // Older tool text, the oldest round, the latest observation, and the hard reset after a context
  // overflow; and what each of them keeps.

  import opened PromptMessages
  import opened PromptCompaction
  import opened CompactionProperties

  const OLDER_TOOL_TEXT_CAP: nat := 512
  const MIN_REDUCED: nat := 256
  const TRUNCATED: string := "\n" + ELLIPSIS + "[truncated to fit " + "model context]"
  const REDUCED: string := "\n" + ELLIPSIS + "[observation reduced " + "to fit model context]"

  function Cap(text: string, limit: nat, suffix: string): (r: string)
    ensures |r| <= limit || r == text
  {
    if |text| <= limit then text
    else if limit <= |suffix| then text[..limit]
    else text[..limit - |suffix|] + suffix
  }

  function FirstLine(text: string): (r: string)
    ensures r <= text && '\n' !in r
    ensures r == text || text[|r|] == '\n'
  {
    if text == "" || text[0] == '\n' then "" else [text[0]] + FirstLine(text[1..])
  }

  // ---- Older tool text ----

  function OlderText(m: Message): Message {
    if m.role == Tool && m.content.Plain? && m.content.text != TOOL_STUB && m.content.text != SUPERSEDED_STUB then
      m.(content := Plain(Cap(FirstLine(m.content.text), OLDER_TOOL_TEXT_CAP, TRUNCATED)))
    else m
  }

  /** Everything from the oldest round up to the newest one has its tool text reduced to one line. */
  function CompactOlder(ms: seq<Message>, h: nat): seq<Message> {
    var starts := Starts(ms, h);
    if |starts| < 2 then ms
    else
      seq(|ms|, i requires 0 <= i < |ms| =>
        if starts[0] <= i < starts[|starts| - 1] then OlderText(ms[i]) else ms[i])
  }

  /** The line ends at the first newline, or with the text. */
  lemma {:induction false} FirstLineIs(text: string, n: nat)
    requires n <= |text| && (forall i | 0 <= i < n :: text[i] != '\n') && (n < |text| ==> text[n] == '\n')
    ensures FirstLine(text) == text[..n]
  {
    if n > 0 {
      FirstLineIs(text[1..], n - 1);
      assert text[..n] == [text[0]] + text[1..][..n - 1];
    }
  }

  method FirstLineCapped(text: string, limit: nat) returns (r: string)
    ensures r == Cap(FirstLine(text), limit, TRUNCATED)
  {
    hide Cap;
    var at := 0;
    while at < |text| && text[at] != '\n'
      invariant 0 <= at <= |text|
      invariant forall i | 0 <= i < at :: text[i] != '\n'
    {
      at := at + 1;
    }
    FirstLineIs(text, at);
    r := Cap(text[..at], limit, TRUNCATED);
  }

  method CompactOlderToolText(ms: seq<Message>, h: nat) returns (r: seq<Message>, changed: bool)
    ensures r == CompactOlder(ms, h) && (changed <==> r != ms)
  {
    hide Starts, Cap, FirstLine;
    var starts := ToolRoundStarts(ms, h);
    if |starts| < 2 { return ms, false; }
    StartsSound(ms, h);
    var newest := starts[|starts| - 1];
    assert newest in starts && starts[0] in starts;
    r, changed := ms, false;
    var index := starts[0];
    while index < newest
      invariant starts[0] <= index <= newest && |r| == |ms|
      invariant forall i | 0 <= i < |ms| :: r[i] == if starts[0] <= i < index then OlderText(ms[i]) else ms[i]
      invariant changed <==> exists i | starts[0] <= i < index :: OlderText(ms[i]) != ms[i]
    {
      var m := ms[index];
      if m.role == Tool && m.content.Plain? && m.content.text != TOOL_STUB && m.content.text != SUPERSEDED_STUB {
        var reduced := FirstLineCapped(m.content.text, OLDER_TOOL_TEXT_CAP);
        if reduced != m.content.text {
          r, changed := r[index := m.(content := Plain(reduced))], true;
        }
      }
      index := index + 1;
    }
    if changed {
      var i :| starts[0] <= i < newest && OlderText(ms[i]) != ms[i];
      assert r[i] != ms[i];
    }
  }

  // ---- The oldest round ----

  function DropOldest(ms: seq<Message>, h: nat): seq<Message> {
    var starts := Starts(ms, h);
    StartsSound(ms, h);
    if |starts| < 2 then ms
    else
      assert starts[0] in starts && starts[1] in starts;
      ms[..starts[0]] + ms[starts[1]..]
  }

  method DropOldestToolRound(ms: seq<Message>, h: nat) returns (r: seq<Message>, dropped: bool)
    ensures r == DropOldest(ms, h) && (dropped <==> |Starts(ms, h)| >= 2)
    ensures dropped <==> |r| < |ms|
  {
    var starts := ToolRoundStarts(ms, h);
    StartsSound(ms, h);
    if |starts| < 2 { return ms, false; }
    assert starts[0] in starts && starts[1] in starts;
    return ms[..starts[0]] + ms[starts[1]..], true;
  }

  // ---- The latest observation ----

  function ReducedText(text: string): string {
    var limit := if |text| / 2 > MIN_REDUCED then |text| / 2 else MIN_REDUCED;
    Cap(text, limit, REDUCED)
  }

  function ReducedParts(parts: seq<Part>, text: string, dropImage: bool): seq<Part> {
    if parts == [] then []
    else
      (match parts[0]
       case ImagePart(_) => if dropImage then [] else [parts[0]]
       case TextPart(_) => [TextPart(text)])
      + ReducedParts(parts[1..], text, dropImage)
  }

  function ReducedMessage(m: Message, dropImage: bool): Message
    requires IsObservation(m)
  {
    var text := ReducedText(ObservationText(m).value);
    match m.content
    case Plain(_) => m.(content := Plain(text))
    case Parts(parts) => m.(content := Parts(ReducedParts(parts, text, dropImage)))
  }

  function LatestText(ms: seq<Message>): string {
    var f := LastFull(ms, 0, |ms|);
    if 0 <= f < |ms| && IsObservation(ms[f]) then ObservationText(ms[f]).value else ""
  }

  function ShrinkLatest(ms: seq<Message>, dropImage: bool): seq<Message> {
    LastFullSound(ms, 0, |ms|);
    var f := LastFull(ms, 0, |ms|);
    if f < 0 then ms else ms[f := ReducedMessage(ms[f], dropImage)]
  }

  predicate Shrinks(ms: seq<Message>, dropImage: bool) {
    LastFull(ms, 0, |ms|) >= 0 && (dropImage || ReducedText(LatestText(ms)) != LatestText(ms))
  }

  method ReduceParts(parts: seq<Part>, text: string, dropImage: bool) returns (next: seq<Part>)
    ensures next == ReducedParts(parts, text, dropImage)
  {
    next := [];
    var i := 0;
    while i < |parts|
      invariant 0 <= i <= |parts|
      invariant next + ReducedParts(parts[i..], text, dropImage) == ReducedParts(parts, text, dropImage)
    {
      var part := parts[i];
      assert parts[i..][1..] == parts[i + 1..];
      ghost var rest := ReducedParts(parts[i + 1..], text, dropImage);
      i := i + 1;
      if part.ImagePart? && dropImage {
        assert [] + rest == rest;
        continue;
      }
      var kept := if part.TextPart? then TextPart(text) else part;
      assert next + ([kept] + rest) == next + [kept] + rest;
      next := next + [kept];
    }
    assert next + [] == next;
  }

  method ShrinkLatestObservation(ms: seq<Message>, dropImage: bool) returns (r: seq<Message>, changed: bool)
    ensures r == ShrinkLatest(ms, dropImage) && changed == Shrinks(ms, dropImage)
  {
    var index := |ms|;
    while index > 0
      invariant 0 <= index <= |ms|
      invariant LastFull(ms, 0, |ms|) == LastFull(ms, 0, index)
    {
      index := index - 1;
      if !IsObservation(ms[index]) || IsUnchanged(ms[index]) { continue; }
      var text := ObservationText(ms[index]).value;
      var reduced := ReducedText(text);
      if ms[index].content.Parts? {
        var next := ReduceParts(ms[index].content.parts, reduced, dropImage);
        r := ms[index := ms[index].(content := Parts(next))];
      } else {
        r := ms[index := ms[index].(content := Plain(reduced))];
      }
      return r, reduced != text || dropImage;
    }
    return ms, false;
  }

  // ---- The hard reset ----

  /** The last user message in [1, hi), or 0. */
  function LastUser(ms: seq<Message>, hi: nat): nat
    requires hi <= |ms|
    decreases hi
  {
    if hi <= 1 then 0 else if ms[hi - 1].role == User then hi - 1 else LastUser(ms, hi - 1)
  }

  predicate AnyUnchanged(ms: seq<Message>, from: nat) {
    exists i | from <= i < |ms| :: IsUnchanged(ms[i])
  }

  function Min(a: nat, b: nat): nat { if a <= b then a else b }

  /** What is put together before it is compacted: the system prompt, the last user message of the
      history, the observation a marker of the newest round refers to, and the newest round. */
  function Essentials(ms: seq<Message>, h: nat): seq<Message>
    requires ms != []
  {
    var user := LastUser(ms, Min(h, |ms|));
    var head := [ms[0]] + (if user > 0 && user < |ms| then [ms[user]] else []);
    var starts := Starts(ms, h);
    StartsSound(ms, h);
    if starts == [] then head
    else
      var latest := starts[|starts| - 1];
      assert latest in starts;
      LastFullSound(ms, h, latest);
      var full := LastFull(ms, h, latest);
      head + (if AnyUnchanged(ms, latest) && full >= 0 then [ms[full]] else []) + ms[latest..]
  }

  function AfterContextError(ms: seq<Message>, h: nat): seq<Message> {
    if ms == [] then ms else Compact(Essentials(ms, h), Min(2, |Essentials(ms, h)|))
  }

  method FindLastUser(ms: seq<Message>, hi: nat) returns (user: nat)
    requires hi <= |ms|
    ensures user == LastUser(ms, hi)
  {
    user := 0;
    var index := hi;
    while index > 1
      invariant 0 <= index <= hi && LastUser(ms, index) == LastUser(ms, hi)
    {
      index := index - 1;
      if ms[index].role == User { return index; }
    }
  }

  method FindMarker(ms: seq<Message>, from: nat) returns (found: bool)
    ensures found == AnyUnchanged(ms, from)
  {
    var index := from;
    while index < |ms|
      invariant index >= from
      invariant forall i | from <= i < index && i < |ms| :: !IsUnchanged(ms[i])
      decreases |ms| - index
    {
      if IsUnchanged(ms[index]) { return true; }
      index := index + 1;
    }
    return false;
  }

  method FindFull(ms: seq<Message>, lo: nat, hi: nat) returns (full: int)
    requires hi <= |ms|
    ensures full == LastFull(ms, lo, hi)
  {
    full := -1;
    var index := hi;
    while index > lo
      invariant 0 <= index <= hi && LastFull(ms, lo, index) == LastFull(ms, lo, hi)
    {
      index := index - 1;
      if IsObservation(ms[index]) && !IsUnchanged(ms[index]) { return index; }
    }
  }

  method FindLatestRound(ms: seq<Message>, h: nat) returns (latest: int)
    ensures latest == if Starts(ms, h) == [] then -1 else Starts(ms, h)[|Starts(ms, h)| - 1]
  {
    StartsSound(ms, h);
    ghost var starts := Starts(ms, h);
    assert starts == [] || starts[0] in starts;
    latest := -1;
    var index := |ms|;
    while index > h
      invariant forall i | index <= i < |ms| && i >= h :: !RoundStart(ms[i])
    {
      index := index - 1;
      if ms[index].role == Assistant && |ms[index].calls| > 0 {
        assert index in starts;
        ghost var last := starts[|starts| - 1];
        assert last in starts;
        ghost var k :| 0 <= k < |starts| && starts[k] == index;
        assert index <= last;
        return index;
      }
    }
  }

  method CompactAfterContextError(ms: seq<Message>, h: nat) returns (r: seq<Message>)
    ensures r == AfterContextError(ms, h)
  {
    if ms == [] { return ms; }
    r := KeepEssentials(ms, h);
    hide Starts, Essentials, Compact;
    r := CompactTaskMessages(r, Min(2, |r|));
  }

  method KeepEssentials(ms: seq<Message>, h: nat) returns (r: seq<Message>)
    requires ms != []
    ensures r == Essentials(ms, h)
  {
    hide Starts, LastFull, LastUser, IsUnchanged, IsFull, AnyUnchanged;
    r := [ms[0]];
    var user := FindLastUser(ms, Min(h, |ms|));
    if user > 0 && user < |ms| { r := r + [ms[user]]; }
    var latest := FindLatestRound(ms, h);
    StartsSound(ms, h);
    if latest < 0 { return; }
    assert latest in Starts(ms, h);
    LastFullSound(ms, h, latest);
    var marker := FindMarker(ms, latest);
    var full := -1;
    if marker { full := FindFull(ms, h, latest); }
    var carried := if full >= 0 then [ms[full]] else [];
    r := r + carried + ms[latest..];
  }

  // ---- What every reduction keeps ----

  /** The newest tool round and everything after it; empty if no round has started. */
  function NewestRound(ms: seq<Message>, h: nat): seq<Message> {
    var starts := Starts(ms, h);
    StartsSound(ms, h);
    if starts == [] then []
    else
      assert starts[|starts| - 1] in starts;
      ms[starts[|starts| - 1]..]
  }

  lemma NewestIs(ms: seq<Message>, h: nat, n: nat)
    requires h <= n < |ms| && RoundStart(ms[n]) && forall i | n < i < |ms| :: !RoundStart(ms[i])
    ensures Starts(ms, h) != [] && Starts(ms, h)[|Starts(ms, h)| - 1] == n && NewestRound(ms, h) == ms[n..]
  {
    StartsSound(ms, h);
    var starts := Starts(ms, h);
    assert n in starts;
    var last := starts[|starts| - 1];
    assert last in starts;
    assert n <= last by {
      var k :| 0 <= k < |starts| && starts[k] == n;
    }
  }

  lemma NoLaterStart(starts: seq<nat>, i: nat)
    requires starts != [] && (forall j, k | 0 <= j < k < |starts| :: starts[j] < starts[k]) && i > starts[|starts| - 1]
    ensures i !in starts
  {
  }

  lemma NewestLast(ms: seq<Message>, h: nat) returns (n: nat)
    requires Starts(ms, h) != []
    ensures h <= n < |ms| && RoundStart(ms[n]) && NewestRound(ms, h) == ms[n..]
    ensures n == Starts(ms, h)[|Starts(ms, h)| - 1]
    ensures forall i | n < i < |ms| :: !RoundStart(ms[i])
  {
    StartsSound(ms, h);
    var starts := Starts(ms, h);
    n := starts[|starts| - 1];
    assert n in starts;
    forall i | n < i < |ms| ensures !RoundStart(ms[i]) {
      assert i !in starts by { NoLaterStart(starts, i); }
    }
  }

  /** A list that ends in the shape of another list's newest round has that as its own newest round. */
  lemma SuffixIsNewest(ms: seq<Message>, h: nat, r: seq<Message>, h': nat, k: nat)
    requires Starts(ms, h) != [] && h' <= k <= |r| && SameShape(r[k..], NewestRound(ms, h))
    ensures Starts(r, h') != [] && NewestRound(r, h') == r[k..]
  {
    var n := NewestLast(ms, h);
    assert forall i | 0 <= i < |ms| - n :: r[k + i] == r[k..][i] && ms[n + i] == ms[n..][i];
    forall i | k < i < |r| ensures !RoundStart(r[i]) {
      assert r[i] == r[k..][i - k];
    }
    NewestIs(r, h', k);
  }

  /** The newest round of `ms` is still there, in shape, as the newest round of `r`. */
  ghost predicate KeepsNewest(ms: seq<Message>, h: nat, r: seq<Message>, h': nat) {
    Starts(ms, h) != [] ==> Starts(r, h') != [] && SameShape(NewestRound(r, h'), NewestRound(ms, h))
  }

  lemma KeepsNewestTransitive(a: seq<Message>, ha: nat, b: seq<Message>, hb: nat, c: seq<Message>, hc: nat)
    requires KeepsNewest(a, ha, b, hb) && KeepsNewest(b, hb, c, hc)
    ensures KeepsNewest(a, ha, c, hc)
  {
    hide NewestRound, Starts;
  }

  /** What the agent's loop maintains: a system prompt, a user message in the history, and no call
      pending at the end of the history or of the list. */
  ghost predicate Sound(ms: seq<Message>, h: nat) {
    && Cut(ms, h) && h >= 2 && ms[0].role == System
    && exists i | 1 <= i < h :: ms[i].role == User
  }

  lemma ShapeKeeps(ms: seq<Message>, r: seq<Message>, h: nat)
    requires Sound(ms, h) && SameShape(ms, r)
    ensures Sound(r, h) && KeepsNewest(ms, h, r, h)
  {
    WellFormedShape(ms, r);
    WellFormedShape(ms[..h], r[..h]);
    if Starts(ms, h) != [] {
      var n := NewestLast(ms, h);
      assert SameShape(r[n..], ms[n..]);
      SuffixIsNewest(ms, h, r, h, n);
    }
  }

  lemma CompactKeeps(ms: seq<Message>, h: nat)
    requires Sound(ms, h)
    ensures Sound(Compact(ms, h), h) && KeepsNewest(ms, h, Compact(ms, h), h)
  {
    hide Compact, WellFormed;
    var r := Compact(ms, h);
    CompactKeepsProtocol(ms, h);
    assert ms[..h][0] == r[..h][0];
    assert forall i | 0 <= i < h :: ms[i] == ms[..h][i] && r[i] == r[..h][i];
    if Starts(ms, h) != [] {
      CompactKeepsNewestRound(ms, h);
      var n := NewestLast(ms, h);
      SuffixIsNewest(ms, h, r, h, |r| - (|ms| - n));
    }
  }

  lemma CompactOlderKeeps(ms: seq<Message>, h: nat)
    requires Sound(ms, h)
    ensures Sound(CompactOlder(ms, h), h) && KeepsNewest(ms, h, CompactOlder(ms, h), h)
  {
    assert SameShape(ms, CompactOlder(ms, h));
    ShapeKeeps(ms, CompactOlder(ms, h), h);
  }

  lemma ShrinkLatestKeeps(ms: seq<Message>, h: nat, dropImage: bool)
    requires Sound(ms, h)
    ensures Sound(ShrinkLatest(ms, dropImage), h) && KeepsNewest(ms, h, ShrinkLatest(ms, dropImage), h)
  {
    LastFullSound(ms, 0, |ms|);
    assert SameShape(ms, ShrinkLatest(ms, dropImage));
    ShapeKeeps(ms, ShrinkLatest(ms, dropImage), h);
  }

  /** The rounds are where `Starts` says, the two oldest and the newest among them. */
  lemma OldestAndNewest(ms: seq<Message>, h: nat) returns (s0: nat, s1: nat, n: nat)
    requires |Starts(ms, h)| >= 2
    ensures h <= s0 < s1 <= n < |ms| && RoundStart(ms[s0]) && RoundStart(ms[s1])
    ensures DropOldest(ms, h) == ms[..s0] + ms[s1..] && NewestRound(ms, h) == ms[n..]
  {
    var starts := Starts(ms, h);
    StartsSound(ms, h);
    s0, s1, n := starts[0], starts[1], starts[|starts| - 1];
    assert s0 in starts && s1 in starts && n in starts;
  }

  lemma DropOldestSound(ms: seq<Message>, h: nat, s0: nat, s1: nat)
    requires Sound(ms, h) && h <= s0 < s1 < |ms| && RoundStart(ms[s0]) && RoundStart(ms[s1])
    ensures Sound(ms[..s0] + ms[s1..], h)
  {
    hide WellFormed, RoundStart;
    var r := ms[..s0] + ms[s1..];
    CutAtRound(ms, s0);
    CutAtRound(ms, s1);
    WellFormedConcat(ms[..s0], ms[s1..]);
    assert r[..h] == ms[..h];
    assert forall i | 0 <= i < h :: ms[i] == r[i];
  }

  /** A list that ends in another list's newest round keeps it. */
  lemma SuffixKeeps(ms: seq<Message>, h: nat, r: seq<Message>, h': nat, k: nat)
    requires Starts(ms, h) != [] && h' <= k <= |r| && r[k..] == NewestRound(ms, h)
    ensures KeepsNewest(ms, h, r, h')
  {
    hide NewestRound, Starts;
    SuffixIsNewest(ms, h, r, h', k);
  }

  lemma TooFewToDrop(ms: seq<Message>, h: nat)
    requires |Starts(ms, h)| < 2
    ensures DropOldest(ms, h) == ms && KeepsNewest(ms, h, ms, h)
  {
    hide NewestRound, Starts;
  }

  lemma DropOldestKeeps(ms: seq<Message>, h: nat)
    requires Sound(ms, h)
    ensures Sound(DropOldest(ms, h), h) && KeepsNewest(ms, h, DropOldest(ms, h), h)
  {
    hide *;
    if |Starts(ms, h)| < 2 {
      TooFewToDrop(ms, h);
    } else {
      var s0, s1, n := OldestAndNewest(ms, h);
      DropOldestSound(ms, h, s0, s1);
      var r := ms[..s0] + ms[s1..];
      var k := n - (s1 - s0);
      assert r[k..] == ms[n..];
      SuffixKeeps(ms, h, r, h, k);
    }
  }

  lemma {:induction false} LastUserSound(ms: seq<Message>, hi: nat)
    requires hi <= |ms| && exists i | 1 <= i < hi :: ms[i].role == User
    ensures 1 <= LastUser(ms, hi) < hi && ms[LastUser(ms, hi)].role == User
    decreases hi
  {
    if ms[hi - 1].role != User { LastUserSound(ms, hi - 1); }
  }

  /** What `Essentials` is made of. */
  lemma EssentialsParts(ms: seq<Message>, h: nat) returns (user: nat, carried: seq<Message>, n: nat)
    requires Sound(ms, h)
    ensures 1 <= user < |ms| && ms[user].role == User && WellFormed(carried) && |carried| <= 1
    ensures h <= n <= |ms| && WellFormed(ms[n..])
    ensures forall m <- carried :: IsFull(m)
    ensures carried == [] <==> !AnyUnchanged(ms, n) || forall i | h <= i < n :: !IsFull(ms[i])
    ensures Starts(ms, h) == [] ==> Essentials(ms, h) == [ms[0], ms[user]]
    ensures Starts(ms, h) != [] ==> NewestRound(ms, h) == ms[n..] && Essentials(ms, h) == [ms[0], ms[user]] + carried + ms[n..]
  {
    hide WellFormed, LastFull, LastUser, AnyUnchanged, IsFull, IsUnchanged, Starts, NewestRound;
    LastUserSound(ms, h);
    user, carried, n := LastUser(ms, Min(h, |ms|)), [], |ms|;
    PlainObservation(carried);
    if Starts(ms, h) != [] {
      n := NewestLast(ms, h);
      CutAtRound(ms, n);
      LastFullSound(ms, h, n);
      var full := LastFull(ms, h, n);
      carried := if AnyUnchanged(ms, n) && full >= 0 then [ms[full]] else [];
      FullIsPlain(carried);
    } else {
      NoMarkerPastEnd(ms);
      assert ms[n..] == [];
    }
  }

  lemma NoMarkerPastEnd(ms: seq<Message>)
    ensures !AnyUnchanged(ms, |ms|)
  {
  }

  lemma FullIsPlain(s: seq<Message>)
    requires |s| <= 1 && forall m <- s :: IsFull(m)
    ensures WellFormed(s)
  {
    hide WellFormed;
    PlainObservation(s);
  }

  lemma HeadIsSound(e: seq<Message>, head: seq<Message>)
    requires |head| == 2 && head[0].role == System && head[1].role == User && WellFormed(head)
    requires head <= e && WellFormed(e)
    ensures Sound(e, 2)
  {
    hide WellFormed;
    assert e[..2] == head && e[1] == head[1];
  }

  lemma NoRoundToKeep(ms: seq<Message>, h: nat, r: seq<Message>, h': nat)
    requires Starts(ms, h) == []
    ensures KeepsNewest(ms, h, r, h')
  {
    hide NewestRound, Starts;
  }

  lemma EssentialsSound(ms: seq<Message>, h: nat)
    requires Sound(ms, h)
    ensures Sound(Essentials(ms, h), 2)
    ensures KeepsNewest(ms, h, Essentials(ms, h), 2)
  {
    var user, carried, n := EssentialsParts(ms, h);
    assert ms[0].role == System;
    hide *;
    var head, e := [ms[0], ms[user]], Essentials(ms, h);
    PlainPair(ms[0], ms[user]);
    if Starts(ms, h) == [] {
      NoRoundToKeep(ms, h, e, 2);
    } else {
      assert e == head + (carried + ms[n..]);
      WellFormedConcat(carried, ms[n..]);
      WellFormedConcat(head, carried + ms[n..]);
      assert e[2 + |carried|..] == ms[n..];
      SuffixKeeps(ms, h, e, 2, 2 + |carried|);
    }
    HeadIsSound(e, head);
  }

  lemma PlainPair(a: Message, b: Message)
    requires a.role == System && b.role == User
    ensures WellFormed([a, b])
  {
    PlainMessage(a);
    PlainMessage(b);
    assert [a, b] == [a] + [b];
    WellFormedConcat([a], [b]);
  }

  lemma PlainMessage(m: Message)
    requires m.role != Tool && !RoundStart(m)
    ensures WellFormed([m])
  {
    assert [m][1..] == [];
    assert OwedAfter([m][0], []) == Some([]);
  }

  lemma PlainObservation(s: seq<Message>)
    requires |s| <= 1 && forall m <- s :: m.role == User
    ensures WellFormed(s)
  {
    if s != [] {
      assert s == [s[0]];
      PlainMessage(s[0]);
    }
  }

  /** The hard reset keeps the protocol, with the history now ending at index 2, and the newest round. */
  lemma AfterContextErrorKeeps(ms: seq<Message>, h: nat)
    requires Sound(ms, h)
    ensures Sound(AfterContextError(ms, h), 2) && KeepsNewest(ms, h, AfterContextError(ms, h), 2)
  {
    hide Sound, KeepsNewest, Compact, Essentials;
    SoundSize(ms, h);
    EssentialsSound(ms, h);
    SoundSize(Essentials(ms, h), 2);
    CompactKeeps(Essentials(ms, h), 2);
    KeepsNewestTransitive(ms, h, Essentials(ms, h), 2, Compact(Essentials(ms, h), 2), 2);
  }

  lemma SoundSize(ms: seq<Message>, h: nat)
    requires Sound(ms, h)
    ensures 2 <= h <= |ms|
  {
  }
}
