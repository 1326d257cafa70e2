/** The prompts of a task. */
module PromptRun {
  // The list of messages from one prompt to the next: prepared, reset after an overflow, robbed of its
  // screenshot, extended by a round of calls.  What was observed last is remembered by its content, and
  // observed again it is only a marker.

  import opened PromptMessages
  import opened PromptCompaction
  import opened PromptReduction
  import opened PromptBudget
  import opened PromptMarkers
  import opened PromptGrounding

  const TOOL_TEXT_CAP: nat := 8192

  /** `observationPromptCap`: three quarters of the context, within bounds. */
  function ObservationCap(context: int): nat {
    var limit := (if context <= 0 then 32768 else context) * 3 / 4;
    if limit < 4096 then 4096 else if limit > 65536 then 65536 else limit
  }

  /** What a tool returns; an observation may have an image. */
  datatype ToolResult = ToolResult(text: string, observe: bool, image: string)

  /** What the hash of an observation covers. */
  datatype Seen = Seen(name: string, text: string, image: string)

  function SeenOf(call: Call, r: ToolResult): Seen { Seen(call.name, r.text, r.image) }

  function Calling(reply: string, calls: seq<Call>): Message { Message(Assistant, Plain(reply), calls, "") }

  function Answer(call: Call, r: ToolResult): Message {
    Message(Tool, Plain(if r.observe then TOOL_STUB else Cap(r.text, TOOL_TEXT_CAP, TRUNCATED)), [], call.id)
  }

  function Repeat(name: string): Message { Message(User, Plain(OBSERVATION_PREFIX + name + ":\n" + UNCHANGED), [], "") }

  /** `makeObservationMessage`. */
  function Observation(call: Call, r: ToolResult, last: Option<Seen>, cap: nat): Message {
    var text := Cap(r.text, cap, TRUNCATED);
    if last == Some(SeenOf(call, r)) then Repeat(call.name)
    else if r.image == "" then Message(User, Plain(OBSERVATION_PREFIX + call.name + ":\n" + text), [], "")
    else Message(User, Parts([TextPart(text), ImagePart(r.image)]), [], "")
  }

  /** What was observed last after `n` of the calls. */
  function LastSeen(calls: seq<Call>, results: seq<ToolResult>, last: Option<Seen>, n: nat): Option<Seen>
    requires n <= |calls| == |results|
    decreases n
  {
    if n == 0 then last
    else if results[n - 1].observe then Some(SeenOf(calls[n - 1], results[n - 1]))
    else LastSeen(calls, results, last, n - 1)
  }

  /** The observations of the first `n` calls. */
  function Observations(calls: seq<Call>, results: seq<ToolResult>, last: Option<Seen>, cap: nat, n: nat): (r: seq<Message>)
    requires n <= |calls| == |results|
    ensures forall m <- r :: m.role == User
    decreases n
  {
    if n == 0 then []
    else
      Observations(calls, results, last, cap, n - 1)
      + if results[n - 1].observe then [Observation(calls[n - 1], results[n - 1], LastSeen(calls, results, last, n - 1), cap)]
        else []
  }

  function Replies(calls: seq<Call>, results: seq<ToolResult>, n: nat): (r: seq<Message>)
    requires n <= |calls| == |results|
    ensures |r| == n
  {
    seq(n, i requires 0 <= i < n => Answer(calls[i], results[i]))
  }

  // ---- Steps ----

  datatype State = State(messages: seq<Message>, historyEnd: nat, last: Option<Seen>, cap: nat)

  datatype Step =
    | Attempt(b: Budget)
    | Overflow
    | DropImage
    | Round(reply: string, calls: seq<Call>, results: seq<ToolResult>)

  predicate Enabled(step: Step) { step.Round? ==> step.calls != [] && |step.results| == |step.calls| }

  predicate Legal(steps: seq<Step>) { forall i | 0 <= i < |steps| :: Enabled(steps[i]) }

  function Shown(s: State, step: Step): seq<Message>
    requires Enabled(step)
  {
    if step.Round? then Observations(step.calls, step.results, s.last, s.cap, |step.calls|) else []
  }

  function Apply(s: State, step: Step): State
    requires Enabled(step)
  {
    match step
    case Attempt(b) =>
      var p := Prepare(s.messages, s.historyEnd, b);
      s.(messages := p.messages, historyEnd := p.historyEnd)
    case Overflow =>
      var x := AfterContextError(s.messages, s.historyEnd);
      s.(messages := x, historyEnd := Min(2, |x|))
    case DropImage => s.(messages := ShrinkLatest(s.messages, true))
    case Round(reply, calls, results) =>
      s.(messages := s.messages + [Calling(reply, calls)] + Replies(calls, results, |calls|) + Shown(s, step),
         last := LastSeen(calls, results, s.last, |calls|))
  }

  /** The state after these steps. */
  function After(s: State, steps: seq<Step>): State
    requires Legal(steps)
    decreases |steps|
  {
    if steps == [] then s
    else
      var n := |steps| - 1;
      Apply(After(s, steps[..n]), steps[n])
  }

  // ---- One round ----

  /** One reply per call, in the order of the calls. */
  ghost predicate Answered(calls: seq<Call>, replies: seq<Message>) {
    |replies| == |calls| && forall k | 0 <= k < |calls| :: replies[k].role == Tool && replies[k].callId == calls[k].id
  }

  lemma {:induction false} RepliesSettle(calls: seq<Call>, replies: seq<Message>)
    requires Answered(calls, replies)
    ensures Owed(replies, Ids(calls)) == Some([])
  {
    if calls != [] {
      assert Ids(calls)[1..] == Ids(calls[1..]);
      RepliesSettle(calls[1..], replies[1..]);
    }
  }

  lemma {:induction false} UsersOweNothing(ms: seq<Message>)
    requires forall m <- ms :: m.role == User
    ensures WellFormed(ms)
  {
    if ms != [] { UsersOweNothing(ms[1..]); }
  }

  lemma RoundIsWellFormed(start: Message, replies: seq<Message>, observations: seq<Message>)
    requires RoundStart(start) && Answered(start.calls, replies) && forall m <- observations :: m.role == User
    ensures WellFormed([start] + replies + observations)
  {
    RepliesSettle(start.calls, replies);
    UsersOweNothing(observations);
    OwedConcat([start] + replies, observations, []);
    assert ([start] + replies)[1..] == replies;
  }

  /** The messages of a round: a call, one reply for each of its calls, and what was observed, leave
      the list as sound as it was. */
  lemma RoundKeepsSound(ms: seq<Message>, h: nat, start: Message, replies: seq<Message>, observations: seq<Message>)
    requires Sound(ms, h) && RoundStart(start) && Answered(start.calls, replies)
    requires forall m <- observations :: m.role == User
    ensures Sound(ms + [start] + replies + observations, h)
  {
    SoundSize(ms, h);
    RoundIsWellFormed(start, replies, observations);
    hide WellFormed;
    var round, r := [start] + replies + observations, ms + [start] + replies + observations;
    WellFormedConcat(ms, round);
    assert r == ms + round && r[..h] == ms[..h];
    var i :| 1 <= i < h && ms[i].role == User;
    assert r[i] == ms[i] && r[0] == ms[0];
  }

  ghost predicate SoundState(s: State) { Sound(s.messages, s.historyEnd) }

  lemma StepKeepsSound(s: State, step: Step)
    requires SoundState(s) && Enabled(step)
    ensures SoundState(Apply(s, step))
  {
    hide Sound, Prepare, AfterContextError, ShrinkLatest, RoundStart, Answer, Observations;
    match step
    case Attempt(b) => PrepareKeeps(s.messages, s.historyEnd, b);
    case Overflow =>
      AfterContextErrorKeeps(s.messages, s.historyEnd);
      SoundSize(AfterContextError(s.messages, s.historyEnd), 2);
    case DropImage => ShrinkLatestKeeps(s.messages, s.historyEnd, true);
    case Round(reply, calls, results) =>
      RoundParts(reply, calls, results);
      RoundKeepsSound(s.messages, s.historyEnd, Calling(reply, calls), Replies(calls, results, |calls|), Shown(s, step));
  }

  lemma RoundParts(reply: string, calls: seq<Call>, results: seq<ToolResult>)
    requires calls != [] && |results| == |calls|
    ensures RoundStart(Calling(reply, calls)) && Calling(reply, calls).calls == calls
    ensures Answered(calls, Replies(calls, results, |calls|))
  {
  }

  lemma {:induction false} RunKeepsSound(s: State, steps: seq<Step>)
    requires SoundState(s) && Legal(steps)
    ensures SoundState(After(s, steps))
    decreases |steps|
  {
    hide SoundState, Apply;
    if steps != [] {
      RunKeepsSound(s, steps[..|steps| - 1]);
      StepKeepsSound(After(s, steps[..|steps| - 1]), steps[|steps| - 1]);
    }
  }

  // ---- What is seen, and what takes it away ----

  ghost predicate SeesFull(s: State) { HasFull(s.messages, s.historyEnd) }

  ghost predicate SeesMarker(s: State) { HasMarker(s.messages, s.historyEnd) }

  /** The step puts a full observation in front of the model. */
  ghost predicate Shows(s: State, step: Step)
    requires Enabled(step)
  {
    exists m <- Shown(s, step) :: IsFull(m)
  }

  /** The step takes the last full observation away. */
  ghost predicate Takes(s: State, step: Step)
    requires Enabled(step)
  {
    SeesFull(s) && !SeesFull(Apply(s, step))
  }

  lemma RoundSees(s: State, step: Step)
    requires SoundState(s) && Enabled(step) && step.Round?
    ensures SeesFull(Apply(s, step)) <==> SeesFull(s) || Shows(s, step)
    ensures SeesMarker(Apply(s, step)) <==> SeesMarker(s) || exists m <- Shown(s, step) :: IsUnchanged(m)
  {
    SoundSize(s.messages, s.historyEnd);
    RoundParts(step.reply, step.calls, step.results);
    var head := [Calling(step.reply, step.calls)] + Replies(step.calls, step.results, |step.calls|);
    assert forall m <- head :: m.role != User;
    NoObservation(head);
    hide IsFull, IsUnchanged, Calling, Replies, Shown, Sound;
    assert Apply(s, step).messages == s.messages + head + Shown(s, step);
    AppendSees(s.messages, s.historyEnd, head, Shown(s, step), IsFull);
    AppendSees(s.messages, s.historyEnd, head, Shown(s, step), IsUnchanged);
  }

  lemma NoObservation(ms: seq<Message>)
    requires forall m <- ms :: m.role != User
    ensures forall m <- ms :: !IsFull(m) && !IsUnchanged(m)
  {
  }

  lemma AppendSees(ms: seq<Message>, h: nat, head: seq<Message>, more: seq<Message>, p: Message -> bool)
    requires h <= |ms| && forall m <- head :: !p(m)
    ensures var r := ms + head + more;
            (exists i | h <= i < |r| :: p(r[i])) <==> (exists i | h <= i < |ms| :: p(ms[i])) || exists m <- more :: p(m)
  {
    var r, d := ms + head + more, |ms| + |head|;
    forall i | h <= i < |r| ensures r[i] == if i < |ms| then ms[i] else if i < d then head[i - |ms|] else more[i - d] {}
    if m :| m in more && p(m) {
      var k :| 0 <= k < |more| && more[k] == m;
      assert r[d + k] == m;
    }
    if i :| h <= i < |ms| && p(ms[i]) { assert r[i] == ms[i]; }
  }

  /** No reduction shows anything new. */
  lemma ReductionSees(s: State, step: Step)
    requires SoundState(s) && Enabled(step) && !step.Round?
    ensures SeesFull(Apply(s, step)) ==> SeesFull(s)
    ensures SeesMarker(Apply(s, step)) ==> SeesMarker(s)
    ensures !Shows(s, step)
  {
    hide *;
    ShowsNothing(s, step);
    SeesIs(s);
    SeesIs(Apply(s, step));
    match step
    case Attempt(b) =>
      PrepareKinds(s.messages, s.historyEnd, b);
      CompactedKinds(s.messages, s.historyEnd);
      StaysIs(s.messages, s.historyEnd, b);
      UndroppedSeen(s.messages, s.historyEnd, b);
      FullSeen(Compacted(s.messages, s.historyEnd), s.historyEnd);
    case Overflow =>
      ResetKinds(s.messages, s.historyEnd);
      FullSeen(s.messages, s.historyEnd);
      OverflowEnd(s);
    case DropImage => DropImageSees(s.messages, s.historyEnd);
  }

  lemma ShowsNothing(s: State, step: Step)
    requires Enabled(step) && !step.Round?
    ensures !Shows(s, step)
  {
  }

  lemma SeesIs(s: State)
    ensures SeesFull(s) <==> HasFull(s.messages, s.historyEnd)
    ensures SeesMarker(s) <==> HasMarker(s.messages, s.historyEnd)
    ensures SoundState(s) <==> Sound(s.messages, s.historyEnd)
    ensures forall b :: Apply(s, Attempt(b)).messages == Prepare(s.messages, s.historyEnd, b).messages
    ensures forall b :: Apply(s, Attempt(b)).historyEnd == Prepare(s.messages, s.historyEnd, b).historyEnd
    ensures Apply(s, Overflow).messages == AfterContextError(s.messages, s.historyEnd)
    ensures Apply(s, DropImage) == s.(messages := ShrinkLatest(s.messages, true))
  {
    hide HasFull, HasMarker, Prepare, AfterContextError, ShrinkLatest, Sound;
  }

  lemma OverflowEnd(s: State)
    requires SoundState(s)
    ensures Apply(s, Overflow).historyEnd == 2
  {
    AfterContextErrorKeeps(s.messages, s.historyEnd);
    SoundSize(AfterContextError(s.messages, s.historyEnd), 2);
    hide AfterContextError, Sound;
  }

  lemma UndroppedSeen(ms: seq<Message>, h: nat, b: Budget)
    ensures FullUndropped(ms, h, b) ==> HasFull(Compacted(ms, h), h)
    ensures MarkerUndropped(ms, h, b) ==> HasMarker(Compacted(ms, h), h)
  {
    hide Compacted, InDropped, IsFull, IsUnchanged;
  }

  lemma {:induction false} NoImageLeft(parts: seq<Part>, text: string)
    ensures !HasImage(ReducedParts(parts, text, true))
  {
    if parts != [] {
      NoImageLeft(parts[1..], text);
      var rest := ReducedParts(parts[1..], text, true);
      assert ReducedParts(parts, text, true) == (if parts[0].ImagePart? then [] else [TextPart(text)]) + rest;
    }
  }

  /** Without its image a screenshot is no observation any more; a page remains one. */
  lemma ImageDropped(m: Message)
    requires IsFull(m)
    ensures if m.content.Parts? then !IsObservation(ReducedMessage(m, true)) else IsFull(ReducedMessage(m, true))
  {
    var text := ObservationText(m).value;
    if m.content.Parts? {
      NoImageLeft(m.content.parts, ReducedText(text));
    } else if ReducedText(text) != text {
      ReducedTextSound(text);
    }
  }

  lemma OnlySeen()
    ensures forall m :: IsFull(m) || IsUnchanged(m) <==> IsObservation(m)
  {
  }

  /** Removing the image touches one message, the last full observation. */
  lemma DropImageSees(ms: seq<Message>, h: nat)
    ensures HasFull(ShrinkLatest(ms, true), h) ==> HasFull(ms, h)
    ensures HasMarker(ShrinkLatest(ms, true), h) ==> HasMarker(ms, h)
  {
    LastFullSound(ms, 0, |ms|);
    var f, r := LastFull(ms, 0, |ms|), ShrinkLatest(ms, true);
    if f >= 0 { ImageDropped(ms[f]); }
    FullIsNotMarker();
    OnlySeen();
    hide IsFull, IsUnchanged, IsObservation, LastFull, ReducedMessage;
    assert forall i | 0 <= i < |ms| && i != f :: r[i] == ms[i];
  }

  // ---- Which steps take the observation away ----

  /** Preparing takes it if all of it goes with the rounds dropped, or if history is given up and the
      newest round neither holds it nor has a marker that asks for it. */
  lemma AttemptTakesIff(s: State, b: Budget)
    requires SoundState(s)
    ensures var ms, h := s.messages, s.historyEnd;
            Takes(s, Attempt(b)) <==>
              && HasFull(ms, h)
              && (!FullUndropped(ms, h, b)
                  || (Resets(ms, h, b) && !FullInNewest(Compacted(ms, h), h) && !MarkerInNewest(Compacted(ms, h), h)))
  {
    SeesIs(s);
    SeesIs(Apply(s, Attempt(b)));
    TakesIs(s, Attempt(b));
    hide *;
    PrepareKinds(s.messages, s.historyEnd, b);
  }

  lemma TakesIs(s: State, step: Step)
    requires Enabled(step)
    ensures Takes(s, step) <==> SeesFull(s) && !SeesFull(Apply(s, step))
  {
    hide SeesFull, Apply;
  }

  /** An overflow takes it if the newest round neither holds it nor has a marker that asks for it. */
  lemma OverflowTakesIff(s: State)
    requires SoundState(s)
    ensures var ms, h := s.messages, s.historyEnd;
            Takes(s, Overflow) <==> HasFull(ms, h) && !FullInNewest(ms, h) && !MarkerInNewest(ms, h)
  {
    SeesIs(s);
    SeesIs(Apply(s, Overflow));
    TakesIs(s, Overflow);
    OverflowEnd(s);
    hide *;
    ResetKinds(s.messages, s.historyEnd);
  }

  /** Removing the image takes it if it is a screenshot. */
  lemma DropImageTakesIff(s: State)
    requires SoundState(s) && Tidied(s.messages, s.historyEnd)
    ensures Takes(s, DropImage) <==>
              exists f | s.historyEnd <= f < |s.messages| && IsFull(s.messages[f]) :: s.messages[f].content.Parts?
  {
    var ms, h := s.messages, s.historyEnd;
    LastFullSound(ms, 0, |ms|);
    var f, r := LastFull(ms, 0, |ms|), ShrinkLatest(ms, true);
    if f >= 0 { ImageDropped(ms[f]); }
    OnlySeen();
    FullIsNotMarker();
    hide IsFull, IsUnchanged, IsObservation, LastFull, ReducedMessage, Sound;
    assert forall i | 0 <= i < |ms| && i != f :: r[i] == ms[i];
    assert |r| == |ms|;
    if f >= h {
      assert r[f] == ReducedMessage(ms[f], true) && IsFull(ms[f]);
      assert forall i | h <= i < |ms| && IsFull(ms[i]) :: i == f;
      assert forall i | h <= i < |ms| && i != f :: !IsFull(r[i]);
      assert SeesFull(Apply(s, DropImage)) <==> IsFull(r[f]);
    } else {
      assert forall i | h <= i < |ms| :: !IsFull(ms[i]);
    }
  }

  // ---- The main result ----

  /** Some step of the run showed a full observation. */
  ghost predicate EverShown(s: State, steps: seq<Step>)
    requires Legal(steps)
  {
    exists i | 0 <= i < |steps| :: Shows(After(s, steps[..i]), steps[i])
  }

  /** Some step took the last full observation away, and none was shown since. */
  ghost predicate Taken(s: State, steps: seq<Step>)
    requires Legal(steps)
  {
    exists i | 0 <= i < |steps| :: TakenAt(s, steps, i)
  }

  ghost predicate TakenAt(s: State, steps: seq<Step>, i: nat)
    requires Legal(steps) && i < |steps|
  {
    && Takes(After(s, steps[..i]), steps[i])
    && forall j | i < j < |steps| :: !Shows(After(s, steps[..j]), steps[j])
  }

  lemma ShownExtends(s: State, steps: seq<Step>)
    requires Legal(steps) && steps != []
    ensures var n := |steps| - 1;
            EverShown(s, steps) <==> EverShown(s, steps[..n]) || Shows(After(s, steps[..n]), steps[n])
  {
    hide Shows, After;
    var n := |steps| - 1;
    assert forall i | 0 <= i < n :: steps[..n][..i] == steps[..i] && steps[..n][i] == steps[i];
  }

  lemma TakenExtends(s: State, steps: seq<Step>)
    requires Legal(steps) && steps != []
    ensures var n := |steps| - 1;
            Taken(s, steps) <==> (Taken(s, steps[..n]) && !Shows(After(s, steps[..n]), steps[n]))
                                 || Takes(After(s, steps[..n]), steps[n])
  {
    hide Shows, Takes, After;
    var n := |steps| - 1;
    var a := steps[..n];
    assert forall i | 0 <= i < n :: a[..i] == steps[..i] && a[i] == steps[i];
    if i :| 0 <= i < |steps| && TakenAt(s, steps, i) {
      if i < n { assert TakenAt(s, a, i); }
    }
    if i :| 0 <= i < n && TakenAt(s, a, i) && !Shows(After(s, a), steps[n]) { assert TakenAt(s, steps, i); }
    if Takes(After(s, a), steps[n]) { assert TakenAt(s, steps, n); }
  }

  /** A full observation is there exactly if one was shown and the last one shown was not taken. */
  lemma {:induction false} SeesFullIff(s: State, steps: seq<Step>)
    requires SoundState(s) && !SeesFull(s) && Legal(steps)
    ensures SeesFull(After(s, steps)) <==> EverShown(s, steps) && !Taken(s, steps)
    decreases |steps|
  {
    hide SoundState, SeesFull, Shows, Apply, EverShown, Taken;
    if steps == [] {
      NothingYet(s);
    } else {
      var n := |steps| - 1;
      var m, step := After(s, steps[..n]), steps[n];
      SeesFullIff(s, steps[..n]);
      RunKeepsSound(s, steps[..n]);
      ShownExtends(s, steps);
      TakenExtends(s, steps);
      if step.Round? { RoundSees(m, step); } else { ReductionSees(m, step); }
    }
  }

  lemma NothingYet(s: State)
    ensures !EverShown(s, []) && !Taken(s, [])
  {
  }

  /** In every run: a prompt just prepared has a full observation before each marker, exactly unless it
      has a marker while no full observation was ever shown, or while the last one shown was taken by
      a reduction and none has been shown since. */
  lemma PromptGroundedIff(s: State, steps: seq<Step>)
    requires SoundState(s) && !SeesFull(s) && Legal(steps) && steps != [] && steps[|steps| - 1].Attempt?
    ensures var t := After(s, steps);
            Grounded(t.messages, t.historyEnd) <==> (SeesMarker(t) ==> EverShown(s, steps) && !Taken(s, steps))
  {
    SeesFullIff(s, steps);
    RunKeepsSound(s, steps[..|steps| - 1]);
    var m, t := After(s, steps[..|steps| - 1]), After(s, steps);
    hide EverShown, Taken, Shows, Takes, Prepare, HasFull, HasMarker, Tidied, Grounded;
    PrepareKinds(m.messages, m.historyEnd, steps[|steps| - 1].b);
    TidiedGrounded(t.messages, t.historyEnd);
  }

  // ---- Pages that do not read like a marker ----

  /** What is observed for the first time reads as an observation, not as a marker. */
  ghost predicate CandidCall(call: Call, r: ToolResult, last: Option<Seen>, cap: nat) {
    r.observe && last != Some(SeenOf(call, r)) ==> IsFull(Observation(call, r, last, cap))
  }

  ghost predicate CandidStep(s: State, step: Step)
    requires Enabled(step)
  {
    step.Round? ==>
      forall k | 0 <= k < |step.calls| ::
        CandidCall(step.calls[k], step.results[k], LastSeen(step.calls, step.results, s.last, k), s.cap)
  }

  ghost predicate Candid(s: State, steps: seq<Step>)
    requires Legal(steps)
  {
    forall i | 0 <= i < |steps| :: CandidStep(After(s, steps[..i]), steps[i])
  }

  /** A round whose first observation is new shows it in full. */
  lemma {:induction false} FirstIsFull(calls: seq<Call>, results: seq<ToolResult>, cap: nat, n: nat)
    requires n <= |calls| == |results|
    requires forall k | 0 <= k < n :: CandidCall(calls[k], results[k], LastSeen(calls, results, None, k), cap)
    ensures LastSeen(calls, results, None, n).Some? || Observations(calls, results, None, cap, n) != [] ==>
              exists m <- Observations(calls, results, None, cap, n) :: IsFull(m)
    decreases n
  {
    hide IsFull, Observation;
    if n > 0 {
      FirstIsFull(calls, results, cap, n - 1);
      var before := Observations(calls, results, None, cap, n - 1);
      assert forall m <- before :: m in Observations(calls, results, None, cap, n);
      NothingSeenYet(calls, results, cap, n - 1);
    }
  }

  lemma {:induction false} NothingSeenYet(calls: seq<Call>, results: seq<ToolResult>, cap: nat, n: nat)
    requires n <= |calls| == |results|
    ensures LastSeen(calls, results, None, n).None? <==> Observations(calls, results, None, cap, n) == []
    decreases n
  {
    hide Observation;
    if n > 0 { NothingSeenYet(calls, results, cap, n - 1); }
  }

  lemma ReductionsKeepLast(s: State, step: Step)
    requires Enabled(step) && !step.Round?
    ensures Apply(s, step).last == s.last && Apply(s, step).cap == s.cap
  {
  }

  lemma CandidRound(s: State, step: Step)
    requires Enabled(step) && step.Round? && CandidStep(s, step) && s.last.None?
    ensures Apply(s, step).last.Some? || Shown(s, step) != [] ==> Shows(s, step)
  {
    hide IsFull, Observation;
    FirstIsFull(step.calls, step.results, s.cap, |step.calls|);
  }

  /** Before anything is shown in full there is no marker, and nothing is remembered. */
  lemma {:induction false} MarkerMeansShown(s: State, steps: seq<Step>)
    requires SoundState(s) && !SeesMarker(s) && s.last.None? && Legal(steps) && Candid(s, steps)
    ensures SeesMarker(After(s, steps)) || After(s, steps).last.Some? ==> EverShown(s, steps)
    decreases |steps|
  {
    hide SoundState, SeesMarker, Shows, CandidStep, Apply, EverShown, Shown;
    if steps != [] {
      var n := |steps| - 1;
      var a, step := steps[..n], steps[n];
      assert forall i | 0 <= i < n :: a[..i] == steps[..i] && a[i] == steps[i];
      MarkerMeansShown(s, a);
      RunKeepsSound(s, a);
      ShownExtends(s, steps);
      var m := After(s, a);
      if step.Round? {
        RoundSees(m, step);
        if m.last.None? { CandidRound(m, step); }
      } else {
        ReductionSees(m, step);
        ReductionsKeepLast(m, step);
      }
    }
  }

  /** If no page reads like a marker, there is one way only to send an orphaned one: the last full
      observation shown was taken by a reduction, and none has been shown since. */
  lemma PromptOrphanedIff(s: State, steps: seq<Step>)
    requires SoundState(s) && !SeesFull(s) && !SeesMarker(s) && s.last.None?
    requires Legal(steps) && steps != [] && steps[|steps| - 1].Attempt? && Candid(s, steps)
    ensures var t := After(s, steps); !Grounded(t.messages, t.historyEnd) <==> SeesMarker(t) && Taken(s, steps)
  {
    hide *;
    PromptGroundedIff(s, steps);
    MarkerMeansShown(s, steps);
  }
}
