/** The prompt budget: fitting a prompt to its context. */
module PromptBudget {
  // The graduated reduction of a prompt to the context budget, and the calibrated token estimate.  The
  // estimate divides bytes by a real ratio; rounding of the machine's floating point is not modelled.

  import opened PromptMessages
  import opened PromptCompaction
  import opened CompactionProperties
  import opened CompactionIdempotence
  import opened PromptReduction

  const CONTEXT_MARGIN: int := 512
  const MIN_COMPLETION: int := 1024
  const IMAGE_TOKENS: nat := 256
  const DEFAULT_RATIO: real := 3.0

  /** The sizes of what is sent as JSON: the tool definitions, and a message's tool calls. */
  datatype Encoding = Encoding(tools: nat, calls: seq<Call> -> nat)

  datatype Estimate = Estimate(textBytes: nat, fixedTokens: nat)

  function RoleBytes(role: Role): nat {
    match role case System => 6 case User => 4 case Assistant => 9 case Tool => 4
  }

  function PartsEstimate(parts: seq<Part>): Estimate {
    if parts == [] then Estimate(0, 0)
    else
      var rest := PartsEstimate(parts[1..]);
      match parts[0]
      case ImagePart(_) => rest.(fixedTokens := rest.fixedTokens + IMAGE_TOKENS)
      case TextPart(text) => rest.(textBytes := rest.textBytes + |text|)
  }

  function MessageEstimate(m: Message, encoding: Encoding): Estimate {
    var content := match m.content case Plain(text) => Estimate(|text|, 0) case Parts(parts) => PartsEstimate(parts);
    content.(textBytes := content.textBytes + RoleBytes(m.role) + |m.callId| + 12
                          + if m.calls != [] then encoding.calls(m.calls) else 0)
  }

  function Sum(a: Estimate, b: Estimate): Estimate {
    Estimate(a.textBytes + b.textBytes, a.fixedTokens + b.fixedTokens)
  }

  function MessagesEstimate(ms: seq<Message>, encoding: Encoding): Estimate {
    if ms == [] then Estimate(0, 0) else Sum(MessageEstimate(ms[0], encoding), MessagesEstimate(ms[1..], encoding))
  }

  function PromptEstimate(ms: seq<Message>, encoding: Encoding): Estimate {
    Sum(Estimate(encoding.tools, 0), MessagesEstimate(ms, encoding))
  }

  function Ceil(x: real): int { -((-x).Floor) }

  function Tokens(e: Estimate, ratio: real): int {
    var r := if ratio <= 0.0 then DEFAULT_RATIO else ratio;
    Ceil(e.textBytes as real / r) + e.fixedTokens
  }

  function MaxInt(a: int, b: int): int { if a >= b then a else b }
  function MinInt(a: int, b: int): int { if a <= b then a else b }

  /** Go's integer division truncates toward zero. */
  function Quarter(context: int): int { if context >= 0 then context / 4 else -((-context) / 4) }

  function AdaptiveMaxTokens(context: int, estimated: int): int {
    MinInt(MaxInt(context - estimated - CONTEXT_MARGIN, MIN_COMPLETION), MaxInt(1, Quarter(context)))
  }

  datatype Budget = Budget(context: int, encoding: Encoding, ratio: real)

  function Cost(ms: seq<Message>, b: Budget): int { Tokens(PromptEstimate(ms, b.encoding), b.ratio) }

  predicate Fits(ms: seq<Message>, b: Budget) { Cost(ms, b) <= b.context - CONTEXT_MARGIN - MIN_COMPLETION }

  // ---- The stages of the reduction ----

  lemma DropShortens(ms: seq<Message>, h: nat)
    ensures |Starts(ms, h)| >= 2 ==> |DropOldest(ms, h)| < |ms|
    ensures |Starts(ms, h)| < 2 ==> DropOldest(ms, h) == ms
  {
    StartsSound(ms, h);
    var starts := Starts(ms, h);
    if |starts| >= 2 { assert starts[0] in starts && starts[1] in starts; }
  }

  function DropWhile(ms: seq<Message>, h: nat, b: Budget): seq<Message>
    decreases |ms|
  {
    DropShortens(ms, h);
    if Fits(ms, b) || |Starts(ms, h)| < 2 then ms else DropWhile(DropOldest(ms, h), h, b)
  }

  function ShrinkWhile(ms: seq<Message>, b: Budget): seq<Message>
    decreases |LatestText(ms)|
  {
    if Fits(ms, b) || !Shrinks(ms, false) then ms
    else
      ShrinkReducesText(ms);
      ShrinkWhile(ShrinkLatest(ms, false), b)
  }

  datatype Prepared = Prepared(messages: seq<Message>, historyEnd: nat)

  function Prepare(ms: seq<Message>, h: nat, b: Budget): Prepared {
    var compacted := Compact(ms, h);
    var end := Min(h, |compacted|);
    var reduced := ShrinkWhile(DropWhile(CompactOlder(compacted, end), end, b), b);
    if !Fits(reduced, b) && end > 2 then
      var reset := AfterContextError(reduced, end);
      Prepared(reset, Min(2, |reset|))
    else Prepared(reduced, end)
  }

  // ---- Shrinking terminates ----

  lemma MarkerNotInSuffix(text: string, n: nat, i: nat)
    requires n <= |text| && !Contains(text, UNCHANGED)
    requires i <= n + |REDUCED|
    ensures !ContainsAt(text[..n] + REDUCED, UNCHANGED, i)
  {
    var whole := text[..n] + REDUCED;
    var m := |UNCHANGED|;
    if i + m <= |whole| {
      var at := whole[i..i + m];
      if i + m <= n {
        assert at == text[i..i + m];
        assert !ContainsAt(text, UNCHANGED, i);
      } else if i <= n {
        assert at[n - i] == whole[n] == '\n';
      } else {
        NoCapitalInSuffix(i - n);
        assert at[0] == whole[i] == REDUCED[i - n];
        assert UNCHANGED[0] == 'P';
      }
    }
  }

  lemma NoCapitalInSuffix(k: nat)
    requires k < |REDUCED|
    ensures REDUCED[k] != 'P'
  {
    assert forall j | 0 <= j < |ELLIPSIS| :: ELLIPSIS[j] != 'P';
    var a: string, c: string := "[observation reduced ", "to fit model context]";
    assert forall j | 0 <= j < |a| :: a[j] != 'P';
    assert forall j | 0 <= j < |c| :: c[j] != 'P';
    assert REDUCED == "\n" + ELLIPSIS + a + c;
  }

  /** A reduced full observation is still a full observation, half as long or at the floor. */
  lemma ReducedTextSound(text: string)
    requires ReducedText(text) != text && !Contains(text, UNCHANGED)
    ensures |text| > MIN_REDUCED
    ensures |ReducedText(text)| == if |text| / 2 > MIN_REDUCED then |text| / 2 else MIN_REDUCED
    ensures !Contains(ReducedText(text), UNCHANGED)
    ensures HasPrefix(text, OBSERVATION_PREFIX) ==> HasPrefix(ReducedText(text), OBSERVATION_PREFIX)
  {
    var limit := if |text| / 2 > MIN_REDUCED then |text| / 2 else MIN_REDUCED;
    var n := limit - |REDUCED|;
    assert ReducedText(text) == text[..n] + REDUCED;
    forall i | 0 <= i <= |ReducedText(text)| ensures !ContainsAt(ReducedText(text), UNCHANGED, i) {
      MarkerNotInSuffix(text, n, i);
    }
    if HasPrefix(text, OBSERVATION_PREFIX) {
      assert (text[..n] + REDUCED)[..17] == text[..17];
    }
  }

  lemma {:induction false} ReducedPartsSound(parts: seq<Part>, text: string)
    ensures HasImage(ReducedParts(parts, text, false)) == HasImage(parts)
    ensures FirstText(parts) != "" ==> FirstText(ReducedParts(parts, text, false)) == text
  {
    if parts != [] {
      ReducedPartsSound(parts[1..], text);
      var head := if parts[0].ImagePart? then parts[0] else TextPart(text);
      var r := ReducedParts(parts, text, false);
      assert r == [head] + ReducedParts(parts[1..], text, false);
      assert r[1..] == ReducedParts(parts[1..], text, false);
      assert parts == [parts[0]] + parts[1..];
    }
  }

  lemma ReducedMessageSound(m: Message)
    requires IsFull(m) && ReducedText(ObservationText(m).value) != ObservationText(m).value
    ensures IsFull(ReducedMessage(m, false))
    ensures ObservationText(ReducedMessage(m, false)) == Some(ReducedText(ObservationText(m).value))
  {
    var text := ObservationText(m).value;
    ReducedTextSound(text);
    if m.content.Parts? { ReducedPartsSound(m.content.parts, ReducedText(text)); }
  }

  /** Shrinking works on the same observation again and again, and halves its text down to the floor. */
  lemma ShrinkReducesText(ms: seq<Message>)
    requires Shrinks(ms, false)
    ensures LastFull(ShrinkLatest(ms, false), 0, |ms|) == LastFull(ms, 0, |ms|)
    ensures LatestText(ShrinkLatest(ms, false)) == ReducedText(LatestText(ms))
    ensures |LatestText(ms)| > MIN_REDUCED
    ensures |LatestText(ShrinkLatest(ms, false))|
            == if |LatestText(ms)| / 2 > MIN_REDUCED then |LatestText(ms)| / 2 else MIN_REDUCED
  {
    LastFullSound(ms, 0, |ms|);
    var f := LastFull(ms, 0, |ms|);
    var r := ShrinkLatest(ms, false);
    ReducedMessageSound(ms[f]);
    ReducedTextSound(LatestText(ms));
    LastFullSound(r, 0, |r|);
    assert forall i | f < i < |r| :: r[i] == ms[i];
    var f' := LastFull(r, 0, |r|);
    assert IsFull(r[f]) && f <= f';
  }

  /** How many times a text of this length can be shrunk. */
  function ShrinkSteps(length: nat): nat {
    if length <= MIN_REDUCED then 0 else 1 + ShrinkSteps(if length / 2 > MIN_REDUCED then length / 2 else MIN_REDUCED)
  }

  function Power2(n: nat): nat { if n == 0 then 1 else 2 * Power2(n - 1) }

  /** Logarithmically many: each step but the last halves the text. */
  lemma {:induction false} ShrinkStepsLogarithmic(length: nat)
    requires length > MIN_REDUCED
    ensures Power2(ShrinkSteps(length)) * (MIN_REDUCED / 2) <= length
    decreases length
  {
    if length / 2 > MIN_REDUCED {
      ShrinkStepsLogarithmic(length / 2);
    } else {
      assert ShrinkSteps(MIN_REDUCED) == 0;
      assert ShrinkSteps(length) == 1;
      assert Power2(1) == 2 * Power2(0);
    }
  }

  // ---- The whole preparation ----

  lemma {:induction false} DropWhileKeeps(ms: seq<Message>, h: nat, b: Budget)
    requires Sound(ms, h)
    ensures Sound(DropWhile(ms, h, b), h) && KeepsNewest(ms, h, DropWhile(ms, h, b), h)
    decreases |ms|
  {
    hide Sound, KeepsNewest, Fits, DropOldest, Starts;
    DropShortens(ms, h);
    if !Fits(ms, b) && |Starts(ms, h)| >= 2 {
      DropOldestKeeps(ms, h);
      DropWhileKeeps(DropOldest(ms, h), h, b);
      KeepsNewestTransitive(ms, h, DropOldest(ms, h), h, DropWhile(ms, h, b), h);
    } else {
      KeepsNewestSelf(ms, h);
    }
  }

  lemma KeepsNewestSelf(ms: seq<Message>, h: nat)
    ensures KeepsNewest(ms, h, ms, h)
  {
  }

  lemma {:induction false} ShrinkWhileKeeps(ms: seq<Message>, h: nat, b: Budget)
    requires Sound(ms, h)
    ensures Sound(ShrinkWhile(ms, b), h) && KeepsNewest(ms, h, ShrinkWhile(ms, b), h)
    decreases |LatestText(ms)|
  {
    hide Sound, KeepsNewest, Fits, LatestText, ShrinkLatest, Shrinks;
    if !Fits(ms, b) && Shrinks(ms, false) {
      ShrinkReducesText(ms);
      ShrinkLatestKeeps(ms, h, false);
      ShrinkWhileKeeps(ShrinkLatest(ms, false), h, b);
      KeepsNewestTransitive(ms, h, ShrinkLatest(ms, false), h, ShrinkWhile(ms, b), h);
    } else {
      KeepsNewestSelf(ms, h);
    }
  }

  /** Whatever the budget and the ratio, preparing a prompt keeps the tool-call protocol, the system
      prompt, a user message, and the newest tool round. */
  lemma PrepareKeeps(ms: seq<Message>, h: nat, b: Budget)
    requires Sound(ms, h)
    ensures var p := Prepare(ms, h, b);
            Sound(p.messages, p.historyEnd) && KeepsNewest(ms, h, p.messages, p.historyEnd)
  {
    hide Sound, KeepsNewest, Fits, Compact, CompactOlder, DropWhile, ShrinkWhile, AfterContextError;
    CompactKeeps(ms, h);
    var c := Compact(ms, h);
    SoundSize(c, h);
    CompactOlderKeeps(c, h);
    var o := CompactOlder(c, h);
    DropWhileKeeps(o, h, b);
    var d := DropWhile(o, h, b);
    ShrinkWhileKeeps(d, h, b);
    var r := ShrinkWhile(d, b);
    KeepsNewestTransitive(ms, h, c, h, o, h);
    KeepsNewestTransitive(ms, h, o, h, d, h);
    KeepsNewestTransitive(ms, h, d, h, r, h);
    AfterContextErrorKeeps(r, h);
    SoundSize(AfterContextError(r, h), 2);
    KeepsNewestTransitive(ms, h, r, h, AfterContextError(r, h), 2);
  }

  /** A prompt that fits leaves room for the completion it asks for and for the margin. */
  lemma FitsTheContext(ms: seq<Message>, b: Budget)
    requires Fits(ms, b)
    ensures Cost(ms, b) + AdaptiveMaxTokens(b.context, Cost(ms, b)) + CONTEXT_MARGIN <= b.context
    ensures 1 <= AdaptiveMaxTokens(b.context, Cost(ms, b)) <= MaxInt(1, Quarter(b.context))
    ensures AdaptiveMaxTokens(b.context, Cost(ms, b)) == MaxInt(1, Quarter(b.context))
            || Cost(ms, b) + AdaptiveMaxTokens(b.context, Cost(ms, b)) + CONTEXT_MARGIN == b.context
    ensures Cost(ms, b) + 512 + 1024 <= b.context && Quarter(b.context) == b.context / 4
  {
  }

  // ---- Reductions never make the prompt dearer ----

  lemma {:induction false} EstimateConcat(a: seq<Message>, b: seq<Message>, encoding: Encoding)
    ensures MessagesEstimate(a + b, encoding) == Sum(MessagesEstimate(a, encoding), MessagesEstimate(b, encoding))
  {
    hide MessageEstimate;
    if a == [] {
      assert a + b == b;
    } else {
      assert (a + b)[1..] == a[1..] + b;
      EstimateConcat(a[1..], b, encoding);
    }
  }

  lemma TokensMonotone(a: Estimate, b: Estimate, ratio: real)
    requires a.textBytes <= b.textBytes && a.fixedTokens <= b.fixedTokens
    ensures Tokens(a, ratio) <= Tokens(b, ratio)
  {
    var r := if ratio <= 0.0 then DEFAULT_RATIO else ratio;
    var x, y := a.textBytes as real, b.textBytes as real;
    assert x / r <= y / r by { DivideMonotone(x, y, r); }
  }

  lemma DivideMonotone(x: real, y: real, r: real)
    requires x <= y && r > 0.0
    ensures x / r <= y / r
  {
    assert (y / r - x / r) * r == y - x;
  }

  /** Dropping the oldest round lowers the estimate by at least twelve bytes' worth of text. */
  lemma DropIsCheaper(ms: seq<Message>, h: nat, b: Budget)
    requires |Starts(ms, h)| >= 2
    ensures PromptEstimate(DropOldest(ms, h), b.encoding).textBytes + 12 <= PromptEstimate(ms, b.encoding).textBytes
    ensures PromptEstimate(DropOldest(ms, h), b.encoding).fixedTokens <= PromptEstimate(ms, b.encoding).fixedTokens
    ensures Cost(DropOldest(ms, h), b) <= Cost(ms, b)
  {
    hide Tokens;
    StartsSound(ms, h);
    var starts := Starts(ms, h);
    assert starts[0] in starts && starts[1] in starts;
    var a, dropped, rest := ms[..starts[0]], ms[starts[0]..starts[1]], ms[starts[1]..];
    assert ms == (a + dropped) + rest;
    EstimateConcat(a + dropped, rest, b.encoding);
    EstimateConcat(a, dropped, b.encoding);
    EstimateConcat(a, rest, b.encoding);
    EstimateOf(dropped, b.encoding);
    TokensMonotone(PromptEstimate(DropOldest(ms, h), b.encoding), PromptEstimate(ms, b.encoding), b.ratio);
  }

  lemma EstimateOf(ms: seq<Message>, encoding: Encoding)
    requires ms != []
    ensures MessagesEstimate(ms, encoding).textBytes >= 12
  {
  }

  // ---- How many reductions there can be ----

  lemma {:induction false} SameStarts(a: seq<Message>, i: nat, b: seq<Message>, j: nat)
    requires i <= |a| && j <= |b| && a[i..] == b[j..]
    ensures |Starts(a, i)| == |Starts(b, j)|
    decreases |a| - i
  {
    assert |a| - i == |b| - j;
    if i < |a| {
      assert a[i..][0] == b[j..][0];
      assert a[i + 1..] == a[i..][1..] && b[j + 1..] == b[j..][1..];
      SameStarts(a, i + 1, b, j + 1);
    }
  }

  lemma {:induction false} NoStartsBetween(ms: seq<Message>, h: nat, k: nat)
    requires h <= k <= |ms| && forall i | h <= i < k :: !RoundStart(ms[i])
    ensures Starts(ms, h) == Starts(ms, k)
    decreases k - h
  {
    if h < k { NoStartsBetween(ms, h + 1, k); }
  }

  /** Dropping the oldest round drops exactly one round. */
  lemma DropRemovesOneRound(ms: seq<Message>, h: nat)
    requires |Starts(ms, h)| >= 2
    ensures |Starts(DropOldest(ms, h), h)| == |Starts(ms, h)| - 1
  {
    StartsSound(ms, h);
    var starts, r := Starts(ms, h), DropOldest(ms, h);
    assert starts[0] in starts && starts[1] in starts;
    forall i | h <= i < starts[0] ensures !RoundStart(r[i]) {
      if RoundStart(ms[i]) { FirstStart(ms, h, i); }
    }
    NoStartsBetween(r, h, starts[0]);
    assert r[starts[0]..] == ms[starts[1]..];
    SameStarts(r, starts[0], ms, starts[1]);
    StartsFromStart(ms, h, 1);
  }

  lemma FirstStart(ms: seq<Message>, h: nat, i: nat)
    requires h <= i < |ms| && RoundStart(ms[i])
    ensures Starts(ms, h) != [] && Starts(ms, h)[0] <= i
  {
    StartsSound(ms, h);
    assert i in Starts(ms, h);
  }

  function DropSteps(ms: seq<Message>, h: nat, b: Budget): nat
    decreases |ms|
  {
    DropShortens(ms, h);
    if Fits(ms, b) || |Starts(ms, h)| < 2 then 0 else 1 + DropSteps(DropOldest(ms, h), h, b)
  }

  lemma {:induction false} DropStepsBounded(ms: seq<Message>, h: nat, b: Budget)
    ensures DropSteps(ms, h, b) == 0 || DropSteps(ms, h, b) < |Starts(ms, h)|
    decreases |ms|
  {
    DropShortens(ms, h);
    if !Fits(ms, b) && |Starts(ms, h)| >= 2 {
      DropRemovesOneRound(ms, h);
      DropStepsBounded(DropOldest(ms, h), h, b);
    }
  }

  function ShrinkRounds(ms: seq<Message>, b: Budget): nat
    decreases |LatestText(ms)|
  {
    if Fits(ms, b) || !Shrinks(ms, false) then 0
    else
      ShrinkReducesText(ms);
      1 + ShrinkRounds(ShrinkLatest(ms, false), b)
  }

  /** Logarithmically many shrinks of the one latest observation. */
  lemma {:induction false} ShrinkRoundsBounded(ms: seq<Message>, b: Budget)
    ensures ShrinkRounds(ms, b) <= ShrinkSteps(|LatestText(ms)|)
    decreases |LatestText(ms)|
  {
    hide Fits, Shrinks, ShrinkLatest, LatestText;
    if !Fits(ms, b) && Shrinks(ms, false) {
      ShrinkReducesText(ms);
      ShrinkRoundsBounded(ShrinkLatest(ms, false), b);
    }
  }

  // ---- The calibrated ratio ----

  function Observed(e: Estimate, actual: int): real
    requires actual > e.fixedTokens
  {
    var x := e.textBytes as real / (actual - e.fixedTokens) as real;
    var y := if x < 3.5 then x else 3.5;
    if y > 2.0 then y else 2.0
  }

  function Calibrate(ratio: real, e: Estimate, actual: int): real {
    if actual <= e.fixedTokens then ratio else ratio * 0.75 + Observed(e, actual) * 0.25
  }

  function CalibrateAll(ratio: real, samples: seq<(Estimate, int)>): real
    decreases |samples|
  {
    if samples == [] then ratio else CalibrateAll(Calibrate(ratio, samples[0].0, samples[0].1), samples[1..])
  }

  /** From the default on, no sequence of samples moves the ratio out of [2.0, 3.5]. */
  lemma {:induction false} RatioStaysBounded(ratio: real, samples: seq<(Estimate, int)>)
    requires 2.0 <= ratio <= 3.5
    ensures 2.0 <= CalibrateAll(ratio, samples) <= 3.5
    decreases |samples|
  {
    if samples != [] { RatioStaysBounded(Calibrate(ratio, samples[0].0, samples[0].1), samples[1..]); }
  }

  datatype Degradation = OlderCompacted | RoundDropped | ObservationReduced | HistoryDropped

  class Agent {
    const context: int
    const encoding: Encoding
    var bytesPerToken: real

    constructor (context: int, encoding: Encoding)
      ensures this.context == context && this.encoding == encoding && RatioSound()
    {
      this.context, this.encoding, bytesPerToken := context, encoding, DEFAULT_RATIO;
    }

    predicate RatioSound()
      reads this
    {
      2.0 <= bytesPerToken <= 3.5
    }

    function Limits(): Budget
      reads this
    {
      Budget(context, encoding, bytesPerToken)
    }

    method EstimatePrompt(ms: seq<Message>) returns (e: Estimate)
      ensures e == PromptEstimate(ms, encoding)
    {
      e := Estimate(encoding.tools, 0);
      var i := 0;
      while i < |ms|
        invariant 0 <= i <= |ms|
        invariant Sum(e, MessagesEstimate(ms[i..], encoding)) == PromptEstimate(ms, encoding)
      {
        var m := ms[i];
        assert ms[i..][1..] == ms[i + 1..];
        ghost var before := e;
        e := e.(textBytes := e.textBytes + RoleBytes(m.role) + |m.callId| + 12);
        if m.calls != [] { e := e.(textBytes := e.textBytes + encoding.calls(m.calls)); }
        match m.content {
          case Plain(text) => e := e.(textBytes := e.textBytes + |text|);
          case Parts(parts) =>
            var p := EstimateParts(parts);
            e := Sum(e, p);
        }
        assert e == Sum(before, MessageEstimate(m, encoding));
        i := i + 1;
      }
    }

    method EstimateParts(parts: seq<Part>) returns (e: Estimate)
      ensures e == PartsEstimate(parts)
    {
      e := Estimate(0, 0);
      var i := 0;
      while i < |parts|
        invariant 0 <= i <= |parts|
        invariant Sum(e, PartsEstimate(parts[i..])) == PartsEstimate(parts)
      {
        assert parts[i..][1..] == parts[i + 1..];
        match parts[i] {
          case ImagePart(_) => e := e.(fixedTokens := e.fixedTokens + IMAGE_TOKENS);
          case TextPart(text) => e := e.(textBytes := e.textBytes + |text|);
        }
        i := i + 1;
      }
    }

    method DropToFit(ms: seq<Message>, h: nat) returns (r: seq<Message>, drops: nat)
      ensures r == DropWhile(ms, h, Limits()) && drops == DropSteps(ms, h, Limits())
    {
      hide Fits, Starts, DropOldest;
      r, drops := ms, 0;
      while !Fits(r, Limits())
        invariant DropWhile(r, h, Limits()) == DropWhile(ms, h, Limits())
        invariant drops + DropSteps(r, h, Limits()) == DropSteps(ms, h, Limits())
        decreases |r|
      {
        DropShortens(r, h);
        var next, dropped := DropOldestToolRound(r, h);
        if !dropped { break; }
        r, drops := next, drops + 1;
      }
    }

    method ShrinkToFit(ms: seq<Message>) returns (r: seq<Message>, shrinks: nat)
      ensures r == ShrinkWhile(ms, Limits()) && shrinks == ShrinkRounds(ms, Limits())
    {
      hide Fits, Shrinks, ShrinkLatest, LatestText;
      r, shrinks := ms, 0;
      while !Fits(r, Limits())
        invariant ShrinkWhile(r, Limits()) == ShrinkWhile(ms, Limits())
        invariant shrinks + ShrinkRounds(r, Limits()) == ShrinkRounds(ms, Limits())
        decreases |LatestText(r)|
      {
        var next, shrunk := ShrinkLatestObservation(r, false);
        if !shrunk { break; }
        ShrinkReducesText(r);
        r, shrinks := next, shrinks + 1;
      }
    }

    /** What the caller is told was done. */
    ghost predicate Told(ms: seq<Message>, h: nat, told: seq<Degradation>)
      reads this
    {
      var compacted := Compact(ms, h);
      var end := Min(h, |compacted|);
      var older := CompactOlder(compacted, end);
      var dropped := DropWhile(older, end, Limits());
      var shrunk := ShrinkWhile(dropped, Limits());
      told == (if older != compacted then [OlderCompacted] else [])
              + seq(DropSteps(older, end, Limits()), _ => RoundDropped)
              + seq(ShrinkRounds(dropped, Limits()), _ => ObservationReduced)
              + if !Fits(shrunk, Limits()) && end > 2 then [HistoryDropped] else []
    }

    /** `preparePrompt`.  At most three rounds are dropped and the latest observation is shrunk
        logarithmically often; on success the prompt, its completion and the margin fit the context. */
    method PreparePrompt(ms: seq<Message>, h: nat)
        returns (ok: bool, prepared: Prepared, maxTokens: int, degradations: seq<Degradation>)
      ensures prepared == Prepare(ms, h, Limits())
      ensures ok == Fits(prepared.messages, Limits())
      ensures ok ==> Cost(prepared.messages, Limits()) + maxTokens + CONTEXT_MARGIN <= context
      ensures ok ==> 1 <= maxTokens <= MaxInt(1, Quarter(context))
      ensures ok ==> maxTokens == MaxInt(1, Quarter(context))
                     || Cost(prepared.messages, Limits()) + maxTokens + CONTEXT_MARGIN == context
      ensures Told(ms, h, degradations)
      ensures !ok ==> maxTokens == MIN_COMPLETION
      ensures |degradations| <= 5 + ShrinkSteps(|LatestText(Dropped(ms, h, Limits()))|)
    {
      hide Fits, Compact, CompactOlder, Starts, DropWhile, ShrinkWhile, DropSteps, ShrinkRounds, LatestText;
      hide AfterContextError, ShrinkSteps, AdaptiveMaxTokens, Cost;
      degradations := [];
      var messages := CompactTaskMessages(ms, h);
      var end := Min(h, |messages|);
      ghost var compacted := messages;
      var changed;
      messages, changed := CompactOlderToolText(messages, end);
      if changed { degradations := degradations + [OlderCompacted]; }
      AtMostThreeDrops(ms, h, Limits());
      var drops, shrinks;
      messages, drops := DropToFit(messages, end);
      degradations := degradations + seq(drops, _ => RoundDropped);
      ShrinkRoundsBounded(messages, Limits());
      messages, shrinks := ShrinkToFit(messages);
      degradations := degradations + seq(shrinks, _ => ObservationReduced);
      ok := Fits(messages, Limits());
      if !ok && end > 2 {
        messages := CompactAfterContextError(messages, end);
        end := Min(2, |messages|);
        degradations := degradations + [HistoryDropped];
        ok := Fits(messages, Limits());
      }
      prepared := Prepared(messages, end);
      if ok { FitsTheContext(messages, Limits()); }
      maxTokens := if ok then AdaptiveMaxTokens(context, Cost(messages, Limits())) else MIN_COMPLETION;
    }

    /** `calibrateTokenEstimate`: the ratio moves a quarter of the way to the clamped observation. */
    method CalibrateTokenEstimate(e: Estimate, actual: int)
      requires RatioSound()
      modifies this
      ensures RatioSound() && bytesPerToken == Calibrate(old(bytesPerToken), e, actual)
    {
      if actual <= e.fixedTokens { return; }
      var observed := e.textBytes as real / (actual - e.fixedTokens) as real;
      if observed > 3.5 { observed := 3.5; }
      if observed < 2.0 { observed := 2.0; }
      bytesPerToken := bytesPerToken * 0.75 + observed * 0.25;
    }
  }

  /** The messages once rounds have been dropped, before the observation is shrunk. */
  function Dropped(ms: seq<Message>, h: nat, b: Budget): seq<Message> {
    var compacted := Compact(ms, h);
    var end := Min(h, |compacted|);
    DropWhile(CompactOlder(compacted, end), end, b)
  }

  lemma {:induction false} ShapeStarts(a: seq<Message>, b: seq<Message>, h: nat)
    requires SameShape(a, b)
    ensures Starts(a, h) == Starts(b, h)
    decreases |a| - h
  {
    if h < |a| { ShapeStarts(a, b, h + 1); }
  }

  lemma OlderShape(ms: seq<Message>, h: nat)
    ensures SameShape(ms, CompactOlder(ms, h))
  {
  }

  lemma AtMostThreeDrops(ms: seq<Message>, h: nat, b: Budget)
    ensures var compacted := Compact(ms, h);
            var end := Min(h, |compacted|);
            DropSteps(CompactOlder(compacted, end), end, b) < MAX_TOOL_ROUNDS
  {
    hide Compact, CompactOlder, DropSteps, Starts, KeepFrom;
    var compacted := Compact(ms, h);
    var end := Min(h, |compacted|);
    OlderShape(compacted, end);
    ShapeStarts(compacted, CompactOlder(compacted, end), end);
    DropStepsBounded(CompactOlder(compacted, end), end, b);
    FewRounds(ms, h);
  }

  lemma FewRounds(ms: seq<Message>, h: nat)
    ensures |Starts(Compact(ms, h), Min(h, |Compact(ms, h)|))| <= MAX_TOOL_ROUNDS
  {
    if h < |ms| {
      StartsAfter(ms, h);
      KeepFromSound(ms, h);
      Layout(ms, h);
    }
  }
}
