/** The agent's loop over one task, from prompt to prompt. */
module PromptTask {
  // What the model answers and streams, what the tools return and what the server counts are
  // arbitrary, and so is the test for blank text; what is followed is the list of messages, from one
  // prompt to the next.

  import opened PromptMessages
  import opened PromptReduction
  import opened PromptBudget
  import opened PromptMarkers
  import opened PromptGrounding
  import opened PromptRun

  datatype Completion = Broken | Exceeded | Replied(text: string, calls: seq<Call>)

  datatype Ending = Done | Failure | StepLimit

  // ---- The start ----

  /** The conversation before the task: plain messages, one of them the user's. */
  predicate Conversation(history: seq<Message>) {
    && (forall m <- history :: m.role in {User, Assistant} && m.calls == [])
    && exists m <- history :: m.role == User
  }

  lemma {:induction false} PlainOwesNothing(ms: seq<Message>)
    requires forall m <- ms :: m.role != Tool && !RoundStart(m)
    ensures WellFormed(ms)
  {
    if ms != [] { PlainOwesNothing(ms[1..]); }
  }

  lemma StartIsSound(system: string, history: seq<Message>)
    requires Conversation(history)
    ensures Sound([Message(System, Plain(system), [], "")] + history, 1 + |history|)
  {
    var ms := [Message(System, Plain(system), [], "")] + history;
    PlainOwesNothing(ms);
    assert ms[..1 + |history|] == ms;
    var m :| m in history && m.role == User;
    var i :| 0 <= i < |history| && history[i] == m;
    assert ms[i + 1].role == User;
  }

  /** A prompt as it may be sent: the tool-call protocol is obeyed, the system prompt comes first and
      a user message is there, and it fits the context under some ratio the agent may have. */
  ghost predicate Proper(p: seq<Message>, context: int, encoding: Encoding) {
    && WellFormed(p) && p != [] && p[0].role == System && (exists m <- p :: m.role == User)
    && exists ratio | 2.0 <= ratio <= 3.5 :: Fits(p, Budget(context, encoding, ratio))
  }

  lemma SentIsProper(ms: seq<Message>, h: nat, b: Budget)
    requires Sound(ms, h) && Fits(ms, b) && 2.0 <= b.ratio <= 3.5
    ensures Proper(ms, b.context, b.encoding)
  {
    SoundSize(ms, h);
    hide WellFormed, Fits;
    var i :| 1 <= i < h && ms[i].role == User;
    assert ms[i] in ms;
    assert Budget(b.context, b.encoding, b.ratio) == b;
  }

  /** A prompt that was sent, and after how many steps of the task. */
  datatype Sent = Sent(prompt: seq<Message>, historyEnd: nat, after: nat)

  /** It was prepared by the last of those steps, it is proper, and each marker in it has a full
      observation before it exactly as far as the steps have left one. */
  ghost predicate SentRight(x: Sent, begun: State, trace: seq<Step>, context: int, encoding: Encoding)
    requires Legal(trace)
  {
    && 0 < x.after <= |trace| && trace[x.after - 1].Attempt? && Proper(x.prompt, context, encoding)
    && var run := trace[..x.after];
    && After(begun, run).messages == x.prompt && After(begun, run).historyEnd == x.historyEnd
    && (Grounded(x.prompt, x.historyEnd) <==>
          (HasMarker(x.prompt, x.historyEnd) ==> EverShown(begun, run) && !Taken(begun, run)))
  }

  lemma SentStaysRight(x: Sent, begun: State, trace: seq<Step>, step: Step, context: int, encoding: Encoding)
    requires Legal(trace) && Enabled(step) && SentRight(x, begun, trace, context, encoding)
    ensures Legal(trace + [step]) && SentRight(x, begun, trace + [step], context, encoding)
  {
    assert (trace + [step])[..x.after] == trace[..x.after];
    hide After, EverShown, Taken, Grounded, HasMarker, Proper;
  }

  ghost predicate AllRight(sent: seq<Sent>, begun: State, trace: seq<Step>, context: int, encoding: Encoding)
    requires Legal(trace)
  {
    forall k | 0 <= k < |sent| :: SentRight(sent[k], begun, trace, context, encoding)
  }

  lemma AllStayRight(sent: seq<Sent>, begun: State, trace: seq<Step>, step: Step, context: int, encoding: Encoding)
    requires Legal(trace) && Enabled(step) && AllRight(sent, begun, trace, context, encoding)
    ensures Legal(trace + [step]) && AllRight(sent, begun, trace + [step], context, encoding)
  {
    hide SentRight;
    forall k | 0 <= k < |sent| ensures SentRight(sent[k], begun, trace + [step], context, encoding) {
      SentStaysRight(sent[k], begun, trace, step, context, encoding);
    }
  }

  /** A conversation with nothing observed yet. */
  ghost predicate Fresh(s: State) { SoundState(s) && s.historyEnd == |s.messages| && s.last.None? }

  lemma FreshSeesNothing(s: State)
    requires Fresh(s)
    ensures SoundState(s) && !SeesFull(s) && !SeesMarker(s)
  {
    hide Sound;
  }

  lemma JustSent(begun: State, trace: seq<Step>, ms: seq<Message>, h: nat, b: Budget)
    requires Fresh(begun) && Legal(trace) && Legal(trace + [Step.Attempt(b)])
    requires After(begun, trace + [Step.Attempt(b)]).messages == ms && After(begun, trace + [Step.Attempt(b)]).historyEnd == h
    requires SoundState(After(begun, trace + [Step.Attempt(b)])) && Fits(ms, b) && 2.0 <= b.ratio <= 3.5
    ensures SentRight(Sent(ms, h, |trace| + 1), begun, trace + [Step.Attempt(b)], b.context, b.encoding)
  {
    hide *;
    var run := trace + [Step.Attempt(b)];
    FreshSeesNothing(begun);
    PromptGroundedIff(begun, run);
    SeesIs(After(begun, run));
    SentIsProper(ms, h, b);
    RightHolds(Sent(ms, h, |trace| + 1), begun, run, b.context, b.encoding);
  }

  lemma Extends(s: State, run: seq<Step>, step: Step)
    requires Legal(run) && (Enabled(step) || !step.Round?)
    ensures Enabled(step) && Legal(run + [step]) && After(s, run + [step]) == Apply(After(s, run), step)
  {
    assert (run + [step])[..|run|] == run;
    hide Apply;
  }

  lemma RightHolds(x: Sent, begun: State, run: seq<Step>, context: int, encoding: Encoding)
    requires Legal(run) && 0 < x.after == |run| && run[|run| - 1].Attempt? && Proper(x.prompt, context, encoding)
    requires After(begun, run).messages == x.prompt && After(begun, run).historyEnd == x.historyEnd
    requires Grounded(x.prompt, x.historyEnd) <==>
               (HasMarker(x.prompt, x.historyEnd) ==> EverShown(begun, run) && !Taken(begun, run))
    ensures SentRight(x, begun, run, context, encoding)
  {
    hide After, EverShown, Taken, Grounded, HasMarker, Proper;
    assert run[..x.after] == run;
  }

  /** The steps of one request: an attempt; when the context is exceeded the hard reset and another; and
      when it is exceeded again the reduced observation, and a last attempt if that changed anything. */
  predicate IsAsking(steps: seq<Step>, c: Completion) {
    && 1 <= |steps| <= 5 && |steps| != 2 && steps[0].Attempt? && (c.Exceeded? ==> |steps| > 3)
    && (|steps| > 1 ==> steps[1].Overflow? && steps[2].Attempt?)
    && (|steps| > 3 ==> steps[3].DropImage?)
    && (|steps| == 4 ==> c.Exceeded?)
    && (|steps| == 5 ==> steps[4].Attempt?)
  }

  class Task {
    const agent: Agent
    const maxSteps: nat
    const isBlank: string -> bool
    const cap: nat
    var messages: seq<Message>
    var historyEnd: nat
    var last: Option<Seen>
    var step: nat
    var prose: string
    ghost const begun: State
    ghost var trace: seq<Step>
    ghost var sent: seq<Sent>

    ghost function Now(): State
      reads this
    {
      State(messages, historyEnd, last, cap)
    }

    ghost predicate Valid()
      reads this, agent
    {
      && agent.RatioSound() && Fresh(begun) && Legal(trace)
      && AllRight(sent, begun, trace, agent.context, agent.encoding)
    }

    ghost predicate Ready()
      reads this, agent
    {
      Valid() && SoundState(Now()) && After(begun, trace) == Now()
    }

    constructor (agent: Agent, maxSteps: nat, isBlank: string -> bool, system: string, history: seq<Message>)
      requires Conversation(history) && agent.RatioSound()
      ensures Ready() && step == 0 && sent == [] && this.agent == agent && this.maxSteps == maxSteps
    {
      this.agent, this.maxSteps, this.isBlank, prose := agent, maxSteps, isBlank, "";
      cap := ObservationCap(agent.context);
      var all := [Message(System, Plain(system), [], "")] + history;
      messages, historyEnd, last := all, 1 + |history|, None;
      begun := State(all, 1 + |history|, None, ObservationCap(agent.context));
      step, trace, sent := 0, [], [];
      new;
      StartIsSound(system, history);
    }

    /** The model streams text, whether or not it completes. */
    method Complete() returns (c: Completion, promptTokens: int)
      modifies this`prose
    {
      c, promptTokens := *, *;
      var delta: string := *;
      prose := prose + delta;
    }

    method Execute(call: Call) returns (r: ToolResult)
    {
      r := *;
    }

    /** Records a step of the task. */
    ghost method Note(next: Step, was: State)
      requires Valid() && After(begun, trace) == was && Enabled(next) && Apply(was, next) == Now() && SoundState(was)
      modifies this`trace
      ensures Ready() && trace == old(trace) + [next]
    {
      hide Apply, After, SoundState, AllRight, Fresh, Legal;
      Extends(begun, trace, next);
      AllStayRight(sent, begun, trace, next, agent.context, agent.encoding);
      StepKeepsSound(was, next);
      trace := trace + [next];
    }

    /** Prepares the prompt, which is a step of the task. */
    method PrepareNow() returns (ok: bool, ghost b: Budget)
      requires Ready()
      modifies this`messages, this`historyEnd, this`trace
      ensures Ready() && b == agent.Limits() && trace == old(trace) + [Step.Attempt(b)]
      ensures ok == Fits(messages, b)
    {
      hide Apply, After, SoundState, AllRight, Fresh, Legal, Prepare, Fits, AdaptiveMaxTokens, ShrinkSteps, Dropped, LatestText, Cost;
      hide Agent.Told, MaxInt, Quarter;
      ghost var was := Now();
      b := agent.Limits();
      AttemptIs(was, b);
      var prepared, maxTokens, degradations;
      ok, prepared, maxTokens, degradations := agent.PreparePrompt(messages, historyEnd);
      messages, historyEnd := prepared.messages, prepared.historyEnd;
      Note(Step.Attempt(b), was);
    }

    /** `attemptCompletion`: prepares the prompt and sends it if it fits. */
    method Attempt() returns (c: Completion)
      requires Ready()
      modifies this`messages, this`historyEnd, this`sent, this`prose, this`trace, agent
      ensures Ready() && |sent| <= |old(sent)| + 1 && (c.Replied? ==> |sent| > 0)
      ensures exists b :: trace == old(trace) + [Step.Attempt(b)]
      ensures !c.Exceeded? ==> |sent| == |old(sent)| + 1
    {
      hide Apply, After, SoundState, AllRight, Fresh, Legal, Fits, SentRight;
      ghost var before := trace;
      var ok;
      ghost var b;
      ok, b := PrepareNow();
      if !ok { return Exceeded; }
      JustSent(begun, before, messages, historyEnd, b);
      OneMoreRight(sent, Sent(messages, historyEnd, |before| + 1), begun, trace, agent.context, agent.encoding);
      sent := sent + [Sent(messages, historyEnd, |before| + 1)];
      var tokens;
      c, tokens := Complete();
      if tokens > 0 { Calibrated(tokens); }
    }

    /** Corrects the ratio by what the server counted. */
    method Calibrated(tokens: int)
      requires Ready()
      modifies agent
      ensures Ready()
    {
      hide After, SoundState, AllRight, Fresh, Legal, Calibrate, PromptEstimate;
      var e := agent.EstimatePrompt(messages);
      agent.CalibrateTokenEstimate(e, tokens);
    }

    /** The hard reset, a step of the task. */
    method Reset()
      requires Ready()
      modifies this`messages, this`historyEnd, this`trace
      ensures Ready() && trace == old(trace) + [Overflow]
    {
      hide Apply, After, SoundState, AllRight, Fresh, Legal, AfterContextError;
      ghost var was := Now();
      OverflowIs(was);
      messages := CompactAfterContextError(messages, historyEnd);
      historyEnd := Min(2, |messages|);
      Note(Overflow, was);
    }

    /** The observation reduced and its image removed, a step of the task. */
    method Reduce() returns (reduced: bool)
      requires Ready()
      modifies this`messages, this`trace
      ensures Ready() && trace == old(trace) + [DropImage] && reduced == Shrinks(old(messages), true)
    {
      hide Apply, After, SoundState, AllRight, Fresh, Legal, ShrinkLatest, Shrinks;
      ghost var was := Now();
      DropImageIs(was);
      messages, reduced := ShrinkLatestObservation(messages, true);
      Note(DropImage, was);
    }

    /** An attempt, and the two harder ones that follow when the context is exceeded. */
    method Ask() returns (c: Completion)
      requires Ready()
      modifies this`messages, this`historyEnd, this`sent, this`prose, this`trace, agent
      ensures Ready() && |sent| <= |old(sent)| + 3 && (c.Replied? ==> |sent| > 0)
      ensures exists steps :: trace == old(trace) + steps && IsAsking(steps, c)
    {
      hide Apply, After, SoundState, AllRight, Fresh, Legal, Shrinks;
      c := Attempt();
      ghost var b :| trace == old(trace) + [Step.Attempt(b)];
      ghost var steps := [Step.Attempt(b)];
      if c.Exceeded? {
        Reset();
        c := Attempt();
        b :| trace == old(trace) + steps + [Overflow] + [Step.Attempt(b)];
        steps := steps + [Overflow, Step.Attempt(b)];
        assert trace == old(trace) + steps;
      }
      if c.Exceeded? {
        var reduced := Reduce();
        steps := steps + [DropImage];
        assert trace == old(trace) + steps;
        if reduced {
          c := Attempt();
          b :| trace == old(trace) + steps + [Step.Attempt(b)];
          steps := steps + [Step.Attempt(b)];
          assert trace == old(trace) + steps;
        }
      }
    }

    /** Appends the calls, a reply for each, and the observations; the safety limit may cut it short,
        but then no further prompt is sent. */
    method Act(reply: string, calls: seq<Call>)
      requires Ready() && calls != [] && step < maxSteps
      modifies this`messages, this`last, this`step, this`trace
      ensures step == if old(step) + |calls| < maxSteps then old(step) + |calls| else maxSteps
      ensures Valid() && (step < maxSteps ==> Ready())
      ensures step < maxSteps ==>
                exists results | |results| == |calls| ::
                  trace == old(trace) + [Round(reply, calls, results)] && Now() == Apply(old(Now()), Round(reply, calls, results))
    {
      hide Apply, After, SoundState, AllRight, Fresh, Legal, Answer, Observation, SeenOf, Calling;
      hide Replies, Observations, LastSeen;
      NothingCalled(last, cap);
      ghost var was := Now();
      var results: seq<ToolResult> := [];
      messages := messages + [Calling(reply, calls)];
      var observations: seq<Message> := [];
      var i := 0;
      while i < |calls| && step < maxSteps
        invariant Valid() && trace == old(trace)
        invariant 0 <= i <= |calls| && step == old(step) + i && step <= maxSteps && |results| == i
        invariant messages == was.messages + [Calling(reply, calls)] + Replies(calls[..i], results, i)
        invariant last == LastSeen(calls[..i], results, was.last, i)
        invariant observations == Observations(calls[..i], results, was.last, cap, i)
      {
        step := step + 1;
        var result := Execute(calls[i]);
        ghost var done := results;
        messages := messages + [Answer(calls[i], result)];
        results := results + [result];
        OneMoreCall(calls[..i], done, calls[i], result, was.last, cap);
        assert calls[..i + 1] == calls[..i] + [calls[i]];
        if result.observe {
          observations := observations + [Observation(calls[i], result, last, cap)];
          last := Some(SeenOf(calls[i], result));
        }
        i := i + 1;
      }
      messages := messages + observations;
      if step < maxSteps {
        assert calls[..i] == calls;
        RoundIs(was, reply, calls, results);
        Note(Round(reply, calls, results), was);
      }
    }

    /** `handle`: it ends, and every prompt it sends obeys the protocol and fits, and is grounded as
        far as the steps before it have left an observation; there are at most three for each step and
        for one retry. */
    method Handle() returns (ending: Ending)
      requires Ready() && step == 0 && sent == []
      modifies this, agent
      ensures Valid() && |sent| <= 3 * (maxSteps + 1)
      ensures ending.StepLimit? ==> step == maxSteps
    {
      hide After, SoundState, AllRight, Fresh, Legal;
      var retried := false;
      while step < maxSteps
        invariant Valid() && step <= maxSteps && (step < maxSteps ==> Ready())
        invariant |sent| <= 3 * (step + if retried then 1 else 0)
        decreases maxSteps - step, if retried then 0 else 1
      {
        var c := Ask();
        match c {
          case Broken => return Failure;
          case Exceeded => return Failure;
          case Replied(text, calls) =>
            if calls == [] {
              if isBlank(text) && isBlank(prose) {
                if retried { return Failure; }
                retried := true;
                continue;
              }
              return Done;
            }
            Act(text, calls);
        }
      }
      return StepLimit;
    }
  }

  // ---- What the methods do is a step ----

  lemma AttemptIs(s: State, b: Budget)
    ensures Enabled(Step.Attempt(b))
    ensures var p := Prepare(s.messages, s.historyEnd, b);
            Apply(s, Step.Attempt(b)) == State(p.messages, p.historyEnd, s.last, s.cap)
  {
    hide Prepare;
  }

  lemma OverflowIs(s: State)
    ensures Enabled(Overflow)
    ensures var x := AfterContextError(s.messages, s.historyEnd);
            Apply(s, Overflow) == State(x, Min(2, |x|), s.last, s.cap)
  {
    hide AfterContextError;
  }

  lemma DropImageIs(s: State)
    ensures Enabled(DropImage)
    ensures Apply(s, DropImage) == State(ShrinkLatest(s.messages, true), s.historyEnd, s.last, s.cap)
  {
    hide ShrinkLatest;
  }

  lemma RoundIs(s: State, reply: string, calls: seq<Call>, results: seq<ToolResult>)
    requires calls != [] && |results| == |calls|
    ensures Enabled(Round(reply, calls, results))
    ensures Apply(s, Round(reply, calls, results))
            == State(s.messages + [Calling(reply, calls)] + Replies(calls, results, |calls|)
                     + Observations(calls, results, s.last, s.cap, |calls|),
                     s.historyEnd, LastSeen(calls, results, s.last, |calls|), s.cap)
  {
    hide Calling, Replies, Observations, LastSeen;
  }

  lemma NothingCalled(last: Option<Seen>, cap: nat)
    ensures Replies([], [], 0) == [] && LastSeen([], [], last, 0) == last && Observations([], [], last, cap, 0) == []
  {
  }

  /** One more call adds its reply, and its observation if it made one. */
  lemma OneMoreCall(calls: seq<Call>, results: seq<ToolResult>, call: Call, r: ToolResult, last: Option<Seen>, cap: nat)
    requires |calls| == |results|
    ensures var n := |calls|;
            var calls', results' := calls + [call], results + [r];
            && Replies(calls', results', n + 1) == Replies(calls, results, n) + [Answer(call, r)]
            && LastSeen(calls', results', last, n + 1) == (if r.observe then Some(SeenOf(call, r)) else LastSeen(calls, results, last, n))
            && Observations(calls', results', last, cap, n + 1)
               == Observations(calls, results, last, cap, n)
                  + if r.observe then [Observation(call, r, LastSeen(calls, results, last, n), cap)] else []
  {
    hide Answer, Observation;
    SamePrefix(calls, results, call, r, last, cap, |calls|);
  }

  lemma {:induction false} SamePrefix(calls: seq<Call>, results: seq<ToolResult>, call: Call, r: ToolResult,
                                      last: Option<Seen>, cap: nat, n: nat)
    requires n <= |calls| == |results|
    ensures LastSeen(calls + [call], results + [r], last, n) == LastSeen(calls, results, last, n)
    ensures Observations(calls + [call], results + [r], last, cap, n) == Observations(calls, results, last, cap, n)
    decreases n
  {
    hide Observation;
    if n > 0 { SamePrefix(calls, results, call, r, last, cap, n - 1); }
  }

  lemma OneMoreRight(sent: seq<Sent>, x: Sent, begun: State, trace: seq<Step>, context: int, encoding: Encoding)
    requires Legal(trace) && AllRight(sent, begun, trace, context, encoding) && SentRight(x, begun, trace, context, encoding)
    ensures AllRight(sent + [x], begun, trace, context, encoding)
  {
    hide SentRight;
  }
}
