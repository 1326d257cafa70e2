/** Prompt messages, the tool-call protocol they must obey, and the observations they carry.

    Strings are byte strings: one `char` per byte. */
module PromptMessages {

  datatype Option<T> = None | Some(value: T)

  datatype Role = System | User | Assistant | Tool

  datatype Call = Call(id: string, name: string, arguments: string)

  datatype Part = TextPart(text: string) | ImagePart(url: string)

  datatype Content = Plain(text: string) | Parts(parts: seq<Part>)

  datatype Message = Message(role: Role, content: Content, calls: seq<Call>, callId: string)

  const MAX_TOOL_ROUNDS: nat := 4
  const ELLIPSIS: string := ['\U{E2}', '\U{80}', '\U{A6}']
  const OBSERVATION_PREFIX: string := "Observation from "
  const TOOL_STUB: string := "Observation captured; " + "use the following observation message."
  const SUPERSEDED_STUB: string := "[observation superseded]"
  const SUPERSEDED: string := "[observation superseded by a newer one]"
  const UNCHANGED: string := "Page unchanged since the last observation."

  // ---- The tool-call protocol ----

  predicate RoundStart(m: Message) { m.role == Assistant && m.calls != [] }

  function Ids(calls: seq<Call>): seq<string> {
    seq(|calls|, i requires 0 <= i < |calls| => calls[i].id)
  }

  /** The call ids still owed a reply after `m`; None if `m` breaks the protocol. */
  function OwedAfter(m: Message, owed: seq<string>): Option<seq<string>> {
    if m.role == Tool then
      if owed != [] && owed[0] == m.callId then Some(owed[1..]) else None
    else if owed != [] then None
    else if RoundStart(m) then Some(Ids(m.calls))
    else Some([])
  }

  function Owed(ms: seq<Message>, owed: seq<string>): Option<seq<string>> {
    if ms == [] then Some(owed)
    else
      var next := OwedAfter(ms[0], owed);
      if next.None? then None else Owed(ms[1..], next.value)
  }

  /** No tool reply without its call, and no call without its reply. */
  predicate WellFormed(ms: seq<Message>) { Owed(ms, []) == Some([]) }

  /** Two messages play the same part in the protocol. */
  predicate SamePart(a: Message, b: Message) {
    && a.role == b.role
    && (a.role == Assistant ==> a.calls == b.calls)
    && (a.role == Tool ==> a.callId == b.callId)
  }

  predicate SameShape(a: seq<Message>, b: seq<Message>) {
    |a| == |b| && forall i | 0 <= i < |a| :: SamePart(a[i], b[i])
  }

  lemma {:induction false} OwedConcat(a: seq<Message>, b: seq<Message>, owed: seq<string>)
    ensures Owed(a + b, owed) == (if Owed(a, owed).None? then None else Owed(b, Owed(a, owed).value))
  {
    if a == [] {
      assert a + b == b;
    } else {
      assert (a + b)[1..] == a[1..] + b;
      var next := OwedAfter(a[0], owed);
      if next.Some? { OwedConcat(a[1..], b, next.value); }
    }
  }

  lemma {:induction false} OwedOfShape(a: seq<Message>, b: seq<Message>, owed: seq<string>)
    requires SameShape(a, b)
    ensures Owed(a, owed) == Owed(b, owed)
  {
    if a != [] {
      var next := OwedAfter(a[0], owed);
      if next.Some? { OwedOfShape(a[1..], b[1..], next.value); }
    }
  }

  lemma WellFormedConcat(a: seq<Message>, b: seq<Message>)
    requires WellFormed(a)
    ensures WellFormed(a + b) <==> WellFormed(b)
  {
    OwedConcat(a, b, []);
  }

  lemma WellFormedShape(a: seq<Message>, b: seq<Message>)
    requires SameShape(a, b)
    ensures WellFormed(a) <==> WellFormed(b)
  {
    OwedOfShape(a, b, []);
  }

  /** A well-formed list may be cut wherever a round starts: both halves are well formed. */
  lemma CutAtRound(ms: seq<Message>, i: nat)
    requires WellFormed(ms) && i < |ms| && RoundStart(ms[i])
    ensures WellFormed(ms[..i]) && WellFormed(ms[i..])
  {
    assert ms == ms[..i] + ms[i..];
    OwedConcat(ms[..i], ms[i..], []);
  }

  // ---- Observations ----

  predicate HasPrefix(s: string, p: string) { |p| <= |s| && s[..|p|] == p }

  predicate ContainsAt(s: string, sub: string, i: int) { 0 <= i <= |s| - |sub| && s[i..i + |sub|] == sub }

  predicate Contains(s: string, sub: string) { exists i | 0 <= i <= |s| :: ContainsAt(s, sub, i) }

  function FirstText(parts: seq<Part>): string {
    if parts == [] then "" else if parts[0].TextPart? then parts[0].text else FirstText(parts[1..])
  }

  predicate HasImage(parts: seq<Part>) { exists p <- parts :: p.ImagePart? }

  /** The text of an observation message, or None if the message is not an observation. */
  function ObservationText(m: Message): Option<string> {
    if m.role != User then None
    else
      match m.content
      case Plain(text) => if HasPrefix(text, OBSERVATION_PREFIX) then Some(text) else None
      case Parts(parts) => if HasImage(parts) then Some(FirstText(parts)) else None
  }

  predicate IsObservation(m: Message) { ObservationText(m).Some? }

  predicate IsUnchanged(m: Message) { IsObservation(m) && Contains(ObservationText(m).value, UNCHANGED) }

  /** An observation that carries page state of its own. */
  predicate IsFull(m: Message) { IsObservation(m) && !IsUnchanged(m) }

  predicate IsStub(m: Message) { m.role == Tool && m.content == Plain(TOOL_STUB) }

  const SupersededMessage := Message(User, Plain(SUPERSEDED), [], "")

  lemma SupersededIsNoObservation()
    ensures !IsObservation(SupersededMessage) && !IsStub(SupersededMessage) && !RoundStart(SupersededMessage)
  {
    assert SUPERSEDED[0] == '[' && OBSERVATION_PREFIX[0] == 'O';
    assert !HasPrefix(SUPERSEDED, OBSERVATION_PREFIX);
  }

  // ---- Rounds ----

  /** The indices from `from` on where a round starts. */
  function Starts(ms: seq<Message>, from: nat): seq<nat>
    decreases |ms| - from
  {
    if from >= |ms| then [] else (if RoundStart(ms[from]) then [from] else []) + Starts(ms, from + 1)
  }

  predicate Ascending(s: seq<nat>) { forall i, j | 0 <= i < j < |s| :: s[i] < s[j] }

  lemma {:induction false} StartsSound(ms: seq<Message>, from: nat)
    ensures Ascending(Starts(ms, from))
    ensures forall i :: i in Starts(ms, from) <==> from <= i < |ms| && RoundStart(ms[i])
    decreases |ms| - from
  {
    if from < |ms| {
      StartsSound(ms, from + 1);
      var rest := Starts(ms, from + 1);
      forall i | 0 <= i < |rest| ensures rest[i] > from { assert rest[i] in rest; }
    }
  }

  /** Starting the search at one of the starts just drops the earlier ones. */
  lemma {:induction false} StartsFromStart(ms: seq<Message>, from: nat, k: nat)
    requires k < |Starts(ms, from)|
    ensures Starts(ms, Starts(ms, from)[k]) == Starts(ms, from)[k..]
    decreases |ms| - from
  {
    if RoundStart(ms[from]) {
      if k > 0 { StartsFromStart(ms, from + 1, k - 1); }
    } else {
      StartsFromStart(ms, from + 1, k);
    }
  }

  method ToolRoundStarts(ms: seq<Message>, historyEnd: nat) returns (starts: seq<nat>)
    ensures starts == Starts(ms, historyEnd)
  {
    starts := [];
    var index := historyEnd;
    while index < |ms|
      invariant index >= historyEnd
      invariant starts + Starts(ms, index) == Starts(ms, historyEnd)
      decreases |ms| - index
    {
      ghost var rest := Starts(ms, index + 1);
      if ms[index].role == Assistant && |ms[index].calls| > 0 {
        assert starts + ([index] + rest) == (starts + [index]) + rest;
        starts := starts + [index];
      } else {
        assert [] + rest == rest;
      }
      index := index + 1;
    }
    assert starts + [] == starts;
  }
}
