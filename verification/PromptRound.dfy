/** What a round adds. */
module PromptRound {
  import opened PromptMessages
  import opened PromptReduction
  import opened PromptExactly
  import opened PromptRun

  /** A text longer than `limit` bytes is cut to it, and says so at its end. */
  ghost predicate IsTruncated(text: string, r: string, limit: nat) {
    var note := MARK + "[truncated to fit " + "model context]";
    if |text| <= limit then r == text else |note| < limit && r == text[..limit - |note|] + note
  }

  /** The reply to a call says its text, up to 8192 bytes, or that it was observed. */
  ghost predicate IsReply(m: Message, call: Call, r: ToolResult) {
    && m == Message(Tool, m.content, [], call.id) && m.content.Plain?
    && if r.observe then m.content.text == "Observation captured; " + "use the following observation message."
       else IsTruncated(r.text, m.content.text, 8192)
  }

  /** An observation shows the page, with its image if it has one; or only that it has not changed, if
      the last one was of the same tool with the same text and image. */
  ghost predicate IsShown(m: Message, call: Call, r: ToolResult, last: Option<Seen>, cap: nat) {
    && m == Message(User, m.content, [], "")
    && var head := "Observation from " + call.name + ":\n";
       if last == Some(Seen(call.name, r.text, r.image)) then
         m.content == Plain(head + "Page unchanged since the last observation.")
       else
         exists text | IsTruncated(r.text, text, cap) ::
           m.content == if r.image == "" then Plain(head + text) else Parts([TextPart(text), ImagePart(r.image)])
  }

  /** The calls among the first `n` that observe. */
  function Observing(results: seq<ToolResult>, n: nat): (r: seq<nat>)
    requires n <= |results|
    ensures forall k | 0 <= k < |r| :: r[k] < n
  {
    if n == 0 then [] else Observing(results, n - 1) + if results[n - 1].observe then [n - 1] else []
  }

  /** What had been seen last when the first `k` of these calls had observed. */
  function Before(calls: seq<Call>, results: seq<ToolResult>, last: Option<Seen>, at: seq<nat>, k: nat): Option<Seen>
    requires |calls| == |results| && k <= |at| && forall j | 0 <= j < |at| :: at[j] < |calls|
  {
    if k == 0 then last else Some(Seen(calls[at[k - 1]].name, results[at[k - 1]].text, results[at[k - 1]].image))
  }

  /** One observation for each call that observes, in order. */
  ghost predicate AreShown(r: seq<Message>, calls: seq<Call>, results: seq<ToolResult>, last: Option<Seen>, cap: nat, at: seq<nat>)
    requires |calls| == |results| && forall j | 0 <= j < |at| :: at[j] < |calls|
  {
    && |r| == |at|
    && forall k | 0 <= k < |at| :: IsShown(r[k], calls[at[k]], results[at[k]], Before(calls, results, last, at, k), cap)
  }

  lemma TruncatedIs(text: string, limit: nat)
    requires limit >= 4096
    ensures IsTruncated(text, Cap(text, limit, TRUNCATED), limit)
  {
    assert TRUNCATED == MARK + "[truncated to fit " + "model context]";
  }

  lemma ReplyIs(call: Call, r: ToolResult)
    ensures IsReply(Answer(call, r), call, r)
  {
    hide IsTruncated, Cap;
    TruncatedIs(r.text, 8192);
  }

  lemma ShownIs(call: Call, r: ToolResult, last: Option<Seen>, cap: nat)
    requires cap >= 4096
    ensures IsShown(Observation(call, r, last, cap), call, r, last, cap)
  {
    hide IsTruncated, Cap;
    TruncatedIs(r.text, cap);
    assert OBSERVATION_PREFIX == "Observation from ";
    assert OBSERVATION_PREFIX + call.name + ":\n" + UNCHANGED == "Observation from " + call.name + ":\n" + UNCHANGED;
  }

  lemma OneMoreShown(r: seq<Message>, calls: seq<Call>, results: seq<ToolResult>, last: Option<Seen>, cap: nat,
                     at: seq<nat>, m: Message, i: nat)
    requires |calls| == |results| && (forall j | 0 <= j < |at| :: at[j] < |calls|) && i < |calls|
    requires AreShown(r, calls, results, last, cap, at)
    requires IsShown(m, calls[i], results[i], Before(calls, results, last, at, |at|), cap)
    ensures (forall j | 0 <= j < |at| + 1 :: (at + [i])[j] < |calls|) && AreShown(r + [m], calls, results, last, cap, at + [i])
    ensures Before(calls, results, last, at + [i], |at| + 1) == Some(SeenOf(calls[i], results[i]))
  {
    hide IsShown, Before, SeenOf;
    BeforeSame(calls, results, last, at, i, |at|);
    assert forall j | 0 <= j < |at| :: (at + [i])[j] == at[j];
    forall k | 0 <= k <= |at| ensures Before(calls, results, last, at + [i], k) == Before(calls, results, last, at, k) {
      BeforeSame(calls, results, last, at, i, k);
    }
    assert forall k | 0 <= k < |r| :: (r + [m])[k] == r[k];
  }

  lemma BeforeSame(calls: seq<Call>, results: seq<ToolResult>, last: Option<Seen>, at: seq<nat>, i: nat, k: nat)
    requires |calls| == |results| && (forall j | 0 <= j < |at| :: at[j] < |calls|) && i < |calls| && k <= |at|
    ensures (forall j | 0 <= j < |at| + 1 :: (at + [i])[j] < |calls|)
    ensures Before(calls, results, last, at + [i], k) == Before(calls, results, last, at, k)
    ensures Before(calls, results, last, at + [i], |at| + 1) == Some(SeenOf(calls[i], results[i]))
  {
  }

  lemma {:induction false} ObservationsAre(calls: seq<Call>, results: seq<ToolResult>, last: Option<Seen>, cap: nat, n: nat)
    requires n <= |calls| == |results| && cap >= 4096
    ensures var at := Observing(results, n);
            && AreShown(Observations(calls, results, last, cap, n), calls, results, last, cap, at)
            && LastSeen(calls, results, last, n) == Before(calls, results, last, at, |at|)
    decreases n
  {
    hide IsShown, Observation, AreShown, Answer, Before, SeenOf;
    if n == 0 {
      NoneShown(calls, results, last, cap);
    } else {
      ObservationsAre(calls, results, last, cap, n - 1);
      var at, r := Observing(results, n - 1), Observations(calls, results, last, cap, n - 1);
      var m := Observation(calls[n - 1], results[n - 1], LastSeen(calls, results, last, n - 1), cap);
      ShownIs(calls[n - 1], results[n - 1], LastSeen(calls, results, last, n - 1), cap);
      if results[n - 1].observe {
        OneMoreShown(r, calls, results, last, cap, at, m, n - 1);
      } else {
        assert at + [] == at && r + [] == r;
      }
    }
  }

  lemma NoneShown(calls: seq<Call>, results: seq<ToolResult>, last: Option<Seen>, cap: nat)
    requires |calls| == |results|
    ensures AreShown([], calls, results, last, cap, []) && Before(calls, results, last, [], 0) == last
  {
  }

  /** A round adds the message with the calls, one reply for each call in order, and then one observation
      for each call that observed, in order; and what was observed last is remembered. */
  lemma RoundAdds(s: State, reply: string, calls: seq<Call>, results: seq<ToolResult>)
      returns (replies: seq<Message>, observations: seq<Message>)
    requires calls != [] && |results| == |calls| && s.cap >= 4096
    ensures var at := Observing(results, |calls|);
            && |replies| == |calls| && (forall i | 0 <= i < |calls| :: IsReply(replies[i], calls[i], results[i]))
            && AreShown(observations, calls, results, s.last, s.cap, at)
            && Apply(s, Round(reply, calls, results))
               == State(s.messages + [Message(Assistant, Plain(reply), calls, "")] + replies + observations, s.historyEnd,
                        Before(calls, results, s.last, at, |at|), s.cap)
  {
    hide IsReply, AreShown, Before, Observing, Observations, LastSeen, Answer;
    ObservationsAre(calls, results, s.last, s.cap, |calls|);
    replies, observations := Replies(calls, results, |calls|), Observations(calls, results, s.last, s.cap, |calls|);
    forall i | 0 <= i < |calls| ensures IsReply(replies[i], calls[i], results[i]) {
      ReplyIs(calls[i], results[i]);
    }
  }

  /** The page of an observation is cut to three quarters of the context, at least 4096 bytes and at most
      65536. */
  lemma CapIs(context: int)
    ensures 4096 <= ObservationCap(context) <= 65536
    ensures 5462 <= context <= 87381 ==> 4 * ObservationCap(context) <= 3 * context < 4 * ObservationCap(context) + 4
    ensures 0 < context < 5462 ==> ObservationCap(context) == 4096
    ensures context > 87381 ==> ObservationCap(context) == 65536
  {
  }
}
