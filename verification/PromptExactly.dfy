/** Prepared prompts. */
module PromptExactly {
  import opened PromptMessages
  import opened PromptCompaction
  import opened PromptReduction
  import opened PromptBudget
  import Grounding = PromptGrounding

  // ---- Older tool text ----

  /** The first line of a text ends at `n`. */
  ghost predicate LineEnds(text: string, n: nat) {
    n <= |text| && (forall i | 0 <= i < n :: text[i] != '\n') && (n < |text| ==> text[n] == '\n')
  }

  /** The bytes of "…" in front of the note that text was cut. */
  const MARK := "\n" + ['\U{E2}', '\U{80}', '\U{A6}']

  /** `w` is `m` with its text cut to its first line and to 512 bytes. */
  ghost predicate IsCut(m: Message, w: Message) {
    && m.content.Plain? && w.content.Plain? && w == m.(content := w.content)
    && exists n: nat | LineEnds(m.content.text, n) ::
         if n <= 512 then w.content.text == m.content.text[..n]
         else
           var note := MARK + "[truncated to fit " + "model context]";
           |note| <= 512 && w.content.text == m.content.text[..512 - |note|] + note
  }

  /** From the oldest round up to the newest the plain text of tool replies is cut, unless it is one
      of the two stubs; nothing else changes. */
  ghost predicate OlderCut(ms: seq<Message>, r: seq<Message>, h: nat) {
    && |r| == |ms|
    && forall i | 0 <= i < |ms| ::
         if Between(ms, h, i) && ms[i].role == Tool && ms[i].content.Plain? && !IsStub(ms[i])
            && ms[i].content != Plain("[observation superseded]")
         then IsCut(ms[i], r[i])
         else r[i] == ms[i]
  }

  /** A round starts at or before `i`, and another after it. */
  ghost predicate Between(ms: seq<Message>, h: nat, i: nat) {
    && (exists s | h <= s <= i && s < |ms| :: RoundStart(ms[s]))
    && (exists e | h <= e < |ms| && i < e :: RoundStart(ms[e]))
  }

  lemma BetweenIs(ms: seq<Message>, h: nat, i: nat)
    ensures Between(ms, h, i) <==>
            |Starts(ms, h)| >= 2 && Starts(ms, h)[0] <= i < Starts(ms, h)[|Starts(ms, h)| - 1]
  {
    StartsSound(ms, h);
    hide Starts;
    var starts := Starts(ms, h);
    if Between(ms, h, i) {
      var s :| h <= s <= i && s < |ms| && RoundStart(ms[s]);
      var e :| h <= e < |ms| && i < e && RoundStart(ms[e]);
      assert s in starts && e in starts;
      var j :| 0 <= j < |starts| && starts[j] == s;
      var k :| 0 <= k < |starts| && starts[k] == e;
    }
    if |starts| >= 2 && starts[0] <= i < starts[|starts| - 1] {
      assert starts[0] in starts && starts[|starts| - 1] in starts;
    }
  }

  lemma OlderTextCut(m: Message)
    requires m.role == Tool && m.content.Plain? && !IsStub(m) && m.content != Plain("[observation superseded]")
    ensures IsCut(m, OlderText(m))
  {
    var line := FirstLine(m.content.text);
    assert LineEnds(m.content.text, |line|);
    assert line == m.content.text[..|line|];
    assert TRUNCATED == MARK + "[truncated to fit " + "model context]";
  }

  lemma OlderIsCut(ms: seq<Message>, h: nat)
    ensures OlderCut(ms, CompactOlder(ms, h), h)
  {
    hide Starts, IsCut, Cap, FirstLine, Between;
    var r := CompactOlder(ms, h);
    forall i | 0 <= i < |ms|
      ensures if Between(ms, h, i) && ms[i].role == Tool && ms[i].content.Plain? && !IsStub(ms[i])
                 && ms[i].content != Plain("[observation superseded]")
              then IsCut(ms[i], r[i])
              else r[i] == ms[i]
    {
      BetweenIs(ms, h, i);
      if ms[i].role == Tool && ms[i].content.Plain? && !IsStub(ms[i])
         && ms[i].content != Plain("[observation superseded]")
      {
        OlderTextCut(ms[i]);
      }
    }
  }

  /** There is only one way to cut. */
  lemma CutIsUnique(m: Message, v: Message, w: Message)
    requires IsCut(m, v) && IsCut(m, w)
    ensures v == w
  {
  }

  lemma OlderCutIsUnique(ms: seq<Message>, r: seq<Message>, h: nat)
    requires OlderCut(ms, r, h)
    ensures r == CompactOlder(ms, h)
  {
    hide CompactOlder, IsCut, Between;
    OlderIsCut(ms, h);
    forall i | 0 <= i < |ms| ensures r[i] == CompactOlder(ms, h)[i] {
      if IsCut(ms[i], r[i]) && IsCut(ms[i], CompactOlder(ms, h)[i]) {
        CutIsUnique(ms[i], r[i], CompactOlder(ms, h)[i]);
      }
    }
  }

  // ---- The rounds dropped ----

  /** What is left without the `k` oldest rounds. */
  function Without(ms: seq<Message>, h: nat, k: nat): seq<Message>
    requires k == 0 || k < |Starts(ms, h)|
  {
    StartsSound(ms, h);
    var starts := Starts(ms, h);
    if k == 0 then ms
    else
      assert starts[0] in starts && starts[k] in starts;
      ms[..starts[0]] + ms[starts[k]..]
  }

  /** `k` is the least number of rounds to drop until the prompt fits, or all but the newest. */
  ghost predicate FewestDrops(ms: seq<Message>, h: nat, b: Budget, k: nat) {
    && (k == 0 || k < |Starts(ms, h)|)
    && (forall j: nat | j < k :: !Fits(Without(ms, h, j), b))
    && (Fits(Without(ms, h, k), b) || k + 1 >= |Starts(ms, h)|)
  }

  lemma DropAgain(ms: seq<Message>, h: nat, k: nat)
    requires 0 < k < |Starts(ms, h)|
    ensures |Starts(DropOldest(ms, h), h)| == |Starts(ms, h)| - 1
    ensures Without(DropOldest(ms, h), h, k - 1) == Without(ms, h, k)
  {
    Grounding.DropShiftsStarts(ms, h);
    hide Starts, DropOldest;
    var starts, r := Starts(ms, h), DropOldest(ms, h);
    StartsSound(ms, h);
    assert starts[k] in starts;
    if k > 1 {
      var rs := Starts(r, h);
      assert rs[0] + starts[1] == starts[1] + starts[0] && rs[k - 1] + starts[1] == starts[k] + starts[0];
      assert r[..rs[0]] == ms[..starts[0]];
      assert r[rs[k - 1]..] == ms[starts[k]..];
    }
  }

  lemma WithoutNone(ms: seq<Message>, h: nat)
    ensures Without(ms, h, 0) == ms
  {
    hide Starts;
  }

  lemma {:induction false} FewestAreDropped(ms: seq<Message>, h: nat, b: Budget, k: nat)
    requires FewestDrops(ms, h, b, k)
    ensures DropWhile(ms, h, b) == Without(ms, h, k)
    decreases k
  {
    hide Fits, Starts, DropOldest, Without;
    WithoutNone(ms, h);
    DropShortens(ms, h);
    if k > 0 {
      assert !Fits(Without(ms, h, 0), b);
      var r := DropOldest(ms, h);
      DropAgain(ms, h, 1);
      forall j: nat | j < k ensures Without(r, h, j) == Without(ms, h, j + 1) { DropAgain(ms, h, j + 1); }
      DropAgain(ms, h, k);
      assert forall j: nat | j < k - 1 :: !Fits(Without(r, h, j), b);
      FewestAreDropped(r, h, b, k - 1);
    }
  }

  // ---- The observation shrunk ----

  /** `f` is the last full observation. */
  ghost predicate IsLast(ms: seq<Message>, f: nat) {
    f < |ms| && IsFull(ms[f]) && forall i | f < i < |ms| :: !IsFull(ms[i])
  }

  /** A text of more than 256 bytes is halved, but not below 256, and says so at its end. */
  ghost predicate IsHalved(text: string, r: string) {
    var note := MARK + "[observation reduced " + "to fit model context]";
    if |text| <= 256 then r == text
    else
      var limit := if |text| / 2 > 256 then |text| / 2 else 256;
      |note| <= limit && r == text[..limit - |note|] + note
  }

  function Images(parts: seq<Part>): nat {
    if parts == [] then 0 else (if parts[0].ImagePart? then 1 else 0) + Images(parts[1..])
  }

  /** Every text becomes `text`; the images stay, in their places, or all go. */
  ghost predicate PartsBecome(parts: seq<Part>, r: seq<Part>, text: string, dropImage: bool) {
    && (forall p <- r :: p.TextPart? ==> p.text == text)
    && (dropImage ==> |r| == |parts| - Images(parts) && forall p <- r :: p.TextPart?)
    && (!dropImage ==>
          && |r| == |parts|
          && forall i | 0 <= i < |parts| :: if parts[i].ImagePart? then r[i] == parts[i] else r[i].TextPart?)
  }

  ghost predicate ContentBecomes(m: Message, w: Message, dropImage: bool)
    requires IsObservation(m)
  {
    && w == m.(content := w.content)
    && match m.content
       case Plain(text) => w.content.Plain? && IsHalved(text, w.content.text)
       case Parts(parts) =>
         && w.content.Parts?
         && exists r | IsHalved(FirstText(parts), r) :: PartsBecome(parts, w.content.parts, r, dropImage)
  }

  lemma HalvedIs(text: string)
    ensures IsHalved(text, ReducedText(text))
  {
    assert REDUCED == MARK + "[observation reduced " + "to fit model context]";
  }

  lemma {:induction false} PartsAre(parts: seq<Part>, text: string, dropImage: bool)
    ensures PartsBecome(parts, ReducedParts(parts, text, dropImage), text, dropImage)
  {
    if parts != [] { PartsAre(parts[1..], text, dropImage); }
  }

  /** Shrinking changes the last full observation alone, and halves its text. */
  lemma ShrinkIs(ms: seq<Message>, dropImage: bool, f: nat)
    requires IsLast(ms, f)
    ensures var r := ShrinkLatest(ms, dropImage);
            && |r| == |ms| && (forall i | 0 <= i < |ms| && i != f :: r[i] == ms[i])
            && ContentBecomes(ms[f], r[f], dropImage)
    ensures Shrinks(ms, dropImage) <==> dropImage || |ObservationText(ms[f]).value| > 256
  {
    hide ReducedText, IsHalved, PartsBecome, ReducedParts;
    LastFullSound(ms, 0, |ms|);
    var text := ObservationText(ms[f]).value;
    HalvedIs(text);
    HalvedChanges(text);
    if ms[f].content.Parts? { PartsAre(ms[f].content.parts, ReducedText(text), dropImage); }
  }

  lemma HalvedChanges(text: string)
    ensures ReducedText(text) != text <==> |text| > 256
  {
  }

  lemma NothingToShrink(ms: seq<Message>, dropImage: bool)
    requires forall i | 0 <= i < |ms| :: !IsFull(ms[i])
    ensures ShrinkLatest(ms, dropImage) == ms && !Shrinks(ms, dropImage)
  {
    LastFullSound(ms, 0, |ms|);
  }

  /** One shrink of an observation that can be shrunk. */
  ghost predicate Shrunk(ms: seq<Message>, r: seq<Message>) {
    exists f: nat | IsLast(ms, f) ::
      && |ObservationText(ms[f]).value| > 256
      && |r| == |ms| && (forall i | 0 <= i < |ms| && i != f :: r[i] == ms[i])
      && ContentBecomes(ms[f], r[f], false)
  }

  ghost predicate CanShrink(ms: seq<Message>) {
    exists f: nat | IsLast(ms, f) :: |ObservationText(ms[f]).value| > 256
  }

  /** The prompts on the way: each too large and shrunk into the next, the last one fits or cannot be
      shrunk. */
  ghost predicate FewestShrinks(ms: seq<Message>, b: Budget, way: seq<seq<Message>>) {
    && way != [] && way[0] == ms
    && (forall i | 0 <= i < |way| - 1 :: !Fits(way[i], b) && Shrunk(way[i], way[i + 1]))
    && (Fits(way[|way| - 1], b) || !CanShrink(way[|way| - 1]))
  }

  lemma PartsUnique(parts: seq<Part>, u: seq<Part>, v: seq<Part>, text: string)
    requires PartsBecome(parts, u, text, false) && PartsBecome(parts, v, text, false)
    ensures u == v
  {
    forall i | 0 <= i < |parts| ensures u[i] == v[i] {
      assert u[i] in u && v[i] in v;
    }
  }

  lemma ContentUnique(m: Message, v: Message, w: Message)
    requires IsObservation(m) && ContentBecomes(m, v, false) && ContentBecomes(m, w, false)
    ensures v == w
  {
    hide PartsBecome;
    match m.content
    case Plain(_) =>
    case Parts(parts) =>
      var r :| IsHalved(FirstText(parts), r) && PartsBecome(parts, v.content.parts, r, false);
      var r' :| IsHalved(FirstText(parts), r') && PartsBecome(parts, w.content.parts, r', false);
      assert r == r';
      PartsUnique(parts, v.content.parts, w.content.parts, r);
  }

  lemma ShrunkIs(ms: seq<Message>, r: seq<Message>)
    requires Shrunk(ms, r)
    ensures Shrinks(ms, false) && r == ShrinkLatest(ms, false)
  {
    hide ContentBecomes, ShrinkLatest, Shrinks;
    var f: nat :| IsLast(ms, f) && |ObservationText(ms[f]).value| > 256
      && |r| == |ms| && (forall i | 0 <= i < |ms| && i != f :: r[i] == ms[i])
      && ContentBecomes(ms[f], r[f], false);
    ShrinkIs(ms, false, f);
    FullIsObservation(ms[f]);
    ContentUnique(ms[f], r[f], ShrinkLatest(ms, false)[f]);
  }

  lemma FullIsObservation(m: Message)
    requires IsFull(m)
    ensures IsObservation(m)
  {
  }

  lemma ShrinksIff(ms: seq<Message>)
    ensures Shrinks(ms, false) <==> CanShrink(ms)
  {
    hide ContentBecomes, ShrinkLatest, Shrinks, IsFull;
    LastFullSound(ms, 0, |ms|);
    var f := LastFull(ms, 0, |ms|);
    if f >= 0 {
      assert IsLast(ms, f);
      ShrinkIs(ms, false, f);
      assert forall f' | IsLast(ms, f') :: f' == f;
    } else {
      NothingToShrink(ms, false);
    }
  }

  lemma {:induction false} FewestAreShrunk(ms: seq<Message>, b: Budget, way: seq<seq<Message>>)
    requires FewestShrinks(ms, b, way)
    ensures ShrinkWhile(ms, b) == way[|way| - 1]
    decreases |way|
  {
    hide Fits, Shrinks, ShrinkLatest, Shrunk, CanShrink;
    if |way| > 1 {
      assert !Fits(way[0], b) && Shrunk(way[0], way[0 + 1]);
      ShrunkIs(ms, way[1]);
      ShrinkReducesText(ms);
      FewestAreShrunk(way[1], b, way[1..]);
    } else {
      ShrinksIff(ms);
    }
  }

  // ---- The hard reset ----

  /** The user message the reset keeps: the last one in the history, if there is one. */
  ghost predicate IsLastUser(ms: seq<Message>, h: nat, user: seq<Message>) {
    if forall i | 1 <= i < h && i < |ms| :: ms[i].role != User then user == []
    else exists u: nat | 1 <= u < h && u < |ms| && ms[u].role == User ::
           user == [ms[u]] && forall i | u < i < h && i < |ms| :: ms[i].role != User
  }

  ghost predicate IsNewest(ms: seq<Message>, h: nat, n: nat) {
    h <= n < |ms| && RoundStart(ms[n]) && forall i | n < i < |ms| :: !RoundStart(ms[i])
  }

  /** The observation it carries over: the last full one before the newest round, if a marker there
      needs it. */
  ghost predicate IsCarried(ms: seq<Message>, h: nat, n: nat, carried: seq<Message>) {
    if (forall i | n <= i < |ms| :: !IsUnchanged(ms[i])) || (forall i | h <= i < n && i < |ms| :: !IsFull(ms[i]))
    then carried == []
    else exists f: nat | h <= f < n && f < |ms| && IsFull(ms[f]) ::
           carried == [ms[f]] && forall i | f < i < n && i < |ms| :: !IsFull(ms[i])
  }

  lemma {:induction false} LastUserIs(ms: seq<Message>, hi: nat)
    requires hi <= |ms|
    ensures var u := LastUser(ms, hi);
            if u == 0 then forall i | 1 <= i < hi :: ms[i].role != User
            else u < hi && ms[u].role == User && forall i | u < i < hi :: ms[i].role != User
    decreases hi
  {
    if hi > 1 && ms[hi - 1].role != User { LastUserIs(ms, hi - 1); }
  }

  /** The reset leaves the system prompt, the last user message, the observation carried over, and the
      newest round, compacted behind the second message. */
  lemma ResetIs(ms: seq<Message>, h: nat, user: seq<Message>, n: nat, carried: seq<Message>)
    requires ms != [] && IsLastUser(ms, h, user) && IsNewest(ms, h, n) && IsCarried(ms, h, n, carried)
    ensures AfterContextError(ms, h)
            == Compact([ms[0]] + user + carried + ms[n..], 2)
  {
    hide Starts, LastUser, LastFull, IsFull, IsUnchanged, RoundStart, Compact;
    LastUserIs(ms, Min(h, |ms|));
    NewestIs(ms, h, n);
    LastFullSound(ms, h, n);
    var full := LastFull(ms, h, n);
    var u := LastUser(ms, Min(h, |ms|));
    assert user == if u > 0 then [ms[u]] else [];
    assert carried == if AnyUnchanged(ms, n) && full >= 0 then [ms[full]] else [];
    assert Essentials(ms, h) == [ms[0]] + user + carried + ms[n..];
    assert |ms[n..]| > 0;
  }

  /** Without a round it leaves the first two. */
  lemma ResetWithoutRounds(ms: seq<Message>, h: nat, user: seq<Message>)
    requires ms != [] && IsLastUser(ms, h, user) && forall i | h <= i < |ms| :: !RoundStart(ms[i])
    ensures AfterContextError(ms, h) == [ms[0]] + user
  {
    hide LastUser, IsFull, IsUnchanged, RoundStart;
    LastUserIs(ms, Min(h, |ms|));
    if h <= |ms| { NoStartsBetween(ms, h, |ms|); }
  }

  // ---- The whole preparation ----

  /** The preparation: compact, cut the older tool text, drop as few rounds as will do, shrink the
      observation as little as will do, and only then give up the history, if there is any. */
  lemma PreparedIs(ms: seq<Message>, h: nat, b: Budget, older: seq<Message>, drops: nat, way: seq<seq<Message>>)
    requires h <= |Compact(ms, h)| && OlderCut(Compact(ms, h), older, h)
    requires FewestDrops(older, h, b, drops) && FewestShrinks(Without(older, h, drops), b, way)
    ensures var p, reduced := Prepare(ms, h, b), way[|way| - 1];
            if Fits(reduced, b) || h <= 2 then p == Prepared(reduced, h)
            else p.messages == AfterContextError(reduced, h) && p.historyEnd == Min(2, |p.messages|)
  {
    hide Compact, OlderCut, FewestShrinks, Starts, Without, Fits, AfterContextError;
    OlderCutIsUnique(Compact(ms, h), older, h);
    FewestAreDropped(older, h, b, drops);
    FewestAreShrunk(Without(older, h, drops), b, way);
    WayIsNotEmpty(Without(older, h, drops), b, way);
  }

  lemma WayIsNotEmpty(ms: seq<Message>, b: Budget, way: seq<seq<Message>>)
    requires FewestShrinks(ms, b, way)
    ensures way != []
  {
  }

  // ---- The estimate ----

  /** What a message adds: its text, the bytes of its role, of the call it answers and of its calls,
      and 12; and 256 tokens for every image. */
  lemma EstimateAdds(ms: seq<Message>, m: Message, encoding: Encoding)
    ensures var before, after := PromptEstimate(ms, encoding), PromptEstimate(ms + [m], encoding);
            var role := match m.role case System => |"system"| case User => |"user"| case Assistant => |"assistant"| case Tool => |"tool"|;
            var calls := if m.calls == [] then 0 else encoding.calls(m.calls);
            match m.content
            case Plain(text) =>
              && after.textBytes == before.textBytes + |text| + role + |m.callId| + calls + 12
              && after.fixedTokens == before.fixedTokens
            case Parts(parts) =>
              && after.textBytes == before.textBytes + |Texts(parts)| + role + |m.callId| + calls + 12
              && after.fixedTokens == before.fixedTokens + 256 * Images(parts)
    ensures PromptEstimate([], encoding) == Estimate(encoding.tools, 0)
  {
    EstimateConcat(ms, [m], encoding);
    assert [m][1..] == [];
    if m.content.Parts? { PartsEstimateIs(m.content.parts); }
  }

  /** The texts of the parts, one after another. */
  function Texts(parts: seq<Part>): string {
    if parts == [] then "" else (if parts[0].TextPart? then parts[0].text else "") + Texts(parts[1..])
  }

  lemma {:induction false} PartsEstimateIs(parts: seq<Part>)
    ensures PartsEstimate(parts) == Estimate(|Texts(parts)|, 256 * Images(parts))
  {
    if parts != [] { PartsEstimateIs(parts[1..]); }
  }

  /** The tokens of an estimate: the least number that covers its bytes at the ratio, 3.0 if that is
      not positive, and the fixed ones. */
  lemma TokensAre(e: Estimate, ratio: real)
    ensures var r := if ratio <= 0.0 then 3.0 else ratio;
            var t := Tokens(e, ratio) - e.fixedTokens;
            e.textBytes as real <= t as real * r < e.textBytes as real + r
  {
    var r := if ratio <= 0.0 then 3.0 else ratio;
    CeilScaled(e.textBytes as real, r);
    assert Tokens(e, ratio) - e.fixedTokens == Ceil(e.textBytes as real / r);
  }

  lemma CeilScaled(y: real, r: real)
    requires r > 0.0
    ensures y <= Ceil(y / r) as real * r < y + r
  {
    CeilIs(y / r);
    Quotient(y, r);
    Rescaled(y / r, Ceil(y / r) as real, r, y);
  }

  lemma CeilIs(x: real)
    ensures x <= Ceil(x) as real < x + 1.0
  {
  }

  lemma Quotient(y: real, r: real)
    requires r > 0.0
    ensures y / r * r == y
  {
  }

  lemma Rescaled(x: real, t: real, r: real, y: real)
    requires x <= t < x + 1.0 && r > 0.0 && x * r == y
    ensures y <= t * r < y + r
  {
    var low, high := t - x, x + 1.0 - t;
    Product(low, r);
    Product(high, r);
    assert high > 0.0;
    var a, c := low * r, high * r;
    assert a >= 0.0 && c > 0.0;
    assert a == t * r - y;
    assert c == y + r - t * r;
  }

  lemma Product(x: real, r: real)
    requires x >= 0.0 && r > 0.0
    ensures x * r >= 0.0 && (x > 0.0 ==> x * r > 0.0)
  {
  }

  /** A prompt fits if 1024 tokens for the completion and 512 to spare fit beside it. */
  lemma FitsIff(ms: seq<Message>, b: Budget)
    ensures Fits(ms, b) <==> Tokens(PromptEstimate(ms, b.encoding), b.ratio) + 512 + 1024 <= b.context
  {
  }

  /** The ratio moves a quarter of the way to the one observed, held between 2.0 and 3.5. */
  lemma CalibratedIs(ratio: real, e: Estimate, actual: int, observed: real)
    requires actual > e.fixedTokens ==> observed * (actual - e.fixedTokens) as real == e.textBytes as real
    ensures var r := Calibrate(ratio, e, actual);
            if actual <= e.fixedTokens then r == ratio
            else 4.0 * (r - ratio) == (if observed < 2.0 then 2.0 else if observed > 3.5 then 3.5 else observed) - ratio
  {
    if actual > e.fixedTokens {
      var d := (actual - e.fixedTokens) as real;
      assert observed == e.textBytes as real / d;
    }
  }
}
