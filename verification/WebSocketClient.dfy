/** The client side: reassembling fragmented messages with control frames in between (section 5.4 of
    RFC 6455), until the answer to the request arrives. */
module WebSocketClient {
  import opened WebSocketFrames

  datatype Raw = Raw(fin: bool, opcode: nat, payload: Data)

  function Stream(frames: seq<Raw>): Data {
    if frames == [] then [] else RawFrame(frames[0].fin, frames[0].opcode, frames[0].payload) + Stream(frames[1..])
  }

  datatype Outcome = Failed | Answer(message: Data)

  function Truncated(payload: Data): Data { if |payload| > CONTROL_LIMIT then payload[..CONTROL_LIMIT] else payload }

  /** The receiving loop of `call`.  `accept` says whether a message is the answer waited for; the
      payloads of the pongs written are collected. */
  function Receive(input: Data, message: Data, opcode: nat, accept: Data -> bool, pongs: seq<Data>): (Outcome, seq<Data>)
    decreases |input|
  {
    match ReadServerFrame(input)
    case Broken => (Failed, pongs)
    case Frame(payload, op, fin, rest) =>
      if op == PING then Receive(rest, message, opcode, accept, pongs + [Truncated(payload)])
      else if op == CLOSE then (Failed, pongs)
      else if op !in {CONTINUATION, TEXT, BINARY} then Receive(rest, message, opcode, accept, pongs)
      else
        var (next, kind) := if op == CONTINUATION then (message + payload, opcode) else (payload, op);
        if |next| > CLIENT_LIMIT then (Failed, pongs)
        else if fin && kind == TEXT && accept(next) then (Answer(next), pongs)
        else Receive(rest, next, kind, accept, pongs)
  }

  /** What the client does with each kind of frame: 0 goes on with a message, 1 and 2 begin one, 8 ends the
      call, 9 is answered with at most 125 bytes of its payload, and any other is passed over. */
  lemma FrameIsReceived(input: Data, f: ServerRead, message: Data, kind: nat, accept: Data -> bool, pongs: seq<Data>)
    requires f.Frame? && ReadServerFrame(input) == f
    ensures var r := Receive(input, message, kind, accept, pongs);
            if f.opcode > 2 then
              r == if f.opcode == 8 then (Failed, pongs)
                   else if f.opcode == 9 then
                     Receive(f.rest, message, kind, accept,
                             pongs + [if |f.payload| > 125 then f.payload[..125] else f.payload])
                   else Receive(f.rest, message, kind, accept, pongs)
            else
              var whole, of := if f.opcode == 0 then message + f.payload else f.payload, if f.opcode == 0 then kind else f.opcode;
              r == if |whole| > 16777216 then (Failed, pongs)
                   else if f.fin && of == 1 && accept(whole) then (Answer(whole), pongs)
                   else Receive(f.rest, whole, of, accept, pongs)
  {
    hide ReadServerFrame;
  }

  // ---- Fragmented messages ----

  predicate Control(f: Raw) { f.fin && f.opcode in {PING, PONG} && |f.payload| <= CONTROL_LIMIT }

  /** The frames carry what is left of a message, with control frames in between. */
  predicate Continues(frames: seq<Raw>, text: Data) {
    && frames != []
    && (if Control(frames[0]) then Continues(frames[1..], text)
        else
          && frames[0].opcode == CONTINUATION && frames[0].payload <= text
          && (if frames[0].fin then |frames| == 1 && frames[0].payload == text
              else Continues(frames[1..], text[|frames[0].payload|..])))
  }

  /** The frames carry one whole message, in any number of fragments. */
  predicate Carries(frames: seq<Raw>, opcode: nat, text: Data) {
    && frames != [] && opcode in {TEXT, BINARY}
    && (if Control(frames[0]) then Carries(frames[1..], opcode, text)
        else
          && frames[0].opcode == opcode && frames[0].payload <= text
          && (if frames[0].fin then |frames| == 1 && frames[0].payload == text
              else Continues(frames[1..], text[|frames[0].payload|..])))
  }

  function PingPayloads(frames: seq<Raw>): seq<Data> {
    if frames == [] then []
    else (if frames[0].opcode == PING then [frames[0].payload] else []) + PingPayloads(frames[1..])
  }

  /** What the loop does once the message is whole. */
  function Judge(message: Data, opcode: nat, accept: Data -> bool, rest: Data, pongs: seq<Data>): (Outcome, seq<Data>) {
    if opcode == TEXT && accept(message) then (Answer(message), pongs) else Receive(rest, message, opcode, accept, pongs)
  }

  lemma FrameIsTaken(f: Raw, tail: Data, message: Data, opcode: nat, accept: Data -> bool, pongs: seq<Data>)
    requires f.opcode < 16 && |f.payload| <= CLIENT_LIMIT
    ensures var input := RawFrame(f.fin, f.opcode, f.payload) + tail;
            var (next, kind) := if f.opcode == CONTINUATION then (message + f.payload, opcode) else (f.payload, f.opcode);
            && (Control(f) ==>
                  Receive(input, message, opcode, accept, pongs) ==
                  Receive(tail, message, opcode, accept, pongs + (if f.opcode == PING then [f.payload] else [])))
            && (f.opcode in {CONTINUATION, TEXT, BINARY} && |next| <= CLIENT_LIMIT ==>
                  Receive(input, message, opcode, accept, pongs) ==
                  if f.fin then Judge(next, kind, accept, tail, pongs) else Receive(tail, next, kind, accept, pongs))
  {
    hide RawFrame, ReadServerFrame;
    ServerFrameIsRead(f.fin, f.opcode, f.payload, tail);
    assert pongs + [] == pongs;
  }

  lemma StreamFirst(frames: seq<Raw>, rest: Data)
    requires frames != []
    ensures Stream(frames) + rest ==
            RawFrame(frames[0].fin, frames[0].opcode, frames[0].payload) + (Stream(frames[1..]) + rest)
    ensures PingPayloads(frames) == (if frames[0].opcode == PING then [frames[0].payload] else []) + PingPayloads(frames[1..])
  {
  }

  lemma ControlIsTaken(frames: seq<Raw>, rest: Data, message: Data, opcode: nat, accept: Data -> bool, pongs: seq<Data>)
    returns (more: seq<Data>)
    requires frames != [] && Control(frames[0])
    ensures Receive(Stream(frames) + rest, message, opcode, accept, pongs) ==
            Receive(Stream(frames[1..]) + rest, message, opcode, accept, more)
    ensures more + PingPayloads(frames[1..]) == pongs + PingPayloads(frames)
  {
    var f := frames[0];
    StreamFirst(frames, rest);
    FrameIsTaken(f, Stream(frames[1..]) + rest, message, opcode, accept, pongs);
    hide Receive, Stream, RawFrame, PingPayloads;
    more := pongs + (if f.opcode == PING then [f.payload] else []);
    assert more + PingPayloads(frames[1..]) == pongs + PingPayloads(frames);
  }

  /** The message so far with a data frame added, and its kind. */
  function Added(f: Raw, message: Data, opcode: nat): (Data, nat) {
    if f.opcode == CONTINUATION then (message + f.payload, opcode) else (f.payload, f.opcode)
  }

  lemma DataIsTaken(frames: seq<Raw>, rest: Data, message: Data, opcode: nat, accept: Data -> bool, pongs: seq<Data>)
    requires frames != [] && frames[0].opcode in {CONTINUATION, TEXT, BINARY}
    requires |frames[0].payload| <= CLIENT_LIMIT && |Added(frames[0], message, opcode).0| <= CLIENT_LIMIT
    requires frames[0].fin ==> |frames| == 1
    ensures var (next, kind) := Added(frames[0], message, opcode);
            Receive(Stream(frames) + rest, message, opcode, accept, pongs) ==
            if frames[0].fin then Judge(next, kind, accept, rest, pongs)
            else Receive(Stream(frames[1..]) + rest, next, kind, accept, pongs)
    ensures PingPayloads(frames) == PingPayloads(frames[1..]) && (frames[0].fin ==> pongs + PingPayloads(frames) == pongs)
  {
    StreamFirst(frames, rest);
    FrameIsTaken(frames[0], Stream(frames[1..]) + rest, message, opcode, accept, pongs);
    if frames[0].fin { LastFrame(frames, rest); }
    hide Receive, Stream, RawFrame, PingPayloads, Judge;
    assert [] + PingPayloads(frames[1..]) == PingPayloads(frames[1..]);
    assert frames[0].fin ==> pongs + PingPayloads(frames) == pongs;
  }

  lemma LastFrame(frames: seq<Raw>, rest: Data)
    requires |frames| == 1 && frames[0].opcode != PING
    ensures Stream(frames[1..]) + rest == rest && PingPayloads(frames) == []
  {
  }

  lemma {:induction false} RestIsReassembled(frames: seq<Raw>, text: Data, message: Data, opcode: nat,
                                             accept: Data -> bool, rest: Data, pongs: seq<Data>)
    requires Continues(frames, text) && |message| + |text| <= CLIENT_LIMIT
    ensures Receive(Stream(frames) + rest, message, opcode, accept, pongs) ==
            Judge(message + text, opcode, accept, rest, pongs + PingPayloads(frames))
    decreases |frames|
  {
    hide Receive, Stream, Judge, PingPayloads, Control;
    var f := frames[0];
    if Control(f) {
      var more := ControlIsTaken(frames, rest, message, opcode, accept, pongs);
      RestIsReassembled(frames[1..], text, message, opcode, accept, rest, more);
    } else {
      DataIsTaken(frames, rest, message, opcode, accept, pongs);
      if !f.fin {
        RestIsReassembled(frames[1..], text[|f.payload|..], message + f.payload, opcode, accept, rest, pongs);
        assert message + f.payload + text[|f.payload|..] == message + text;
      }
    }
  }

  /** However a message is fragmented, and whatever control frames come in between, the original is
      put together again, and every ping is answered. */
  lemma {:induction false} MessageIsReassembled(frames: seq<Raw>, opcode: nat, text: Data, message: Data, kind: nat,
                                                accept: Data -> bool, rest: Data, pongs: seq<Data>)
    requires Carries(frames, opcode, text) && |text| <= CLIENT_LIMIT
    ensures Receive(Stream(frames) + rest, message, kind, accept, pongs) ==
            Judge(text, opcode, accept, rest, pongs + PingPayloads(frames))
    decreases |frames|
  {
    hide Receive, Stream, Judge, PingPayloads, Control, Continues;
    var f := frames[0];
    if Control(f) {
      var more := ControlIsTaken(frames, rest, message, kind, accept, pongs);
      MessageIsReassembled(frames[1..], opcode, text, message, kind, accept, rest, more);
    } else {
      DataIsTaken(frames, rest, message, kind, accept, pongs);
      if !f.fin {
        RestIsReassembled(frames[1..], text[|f.payload|..], f.payload, opcode, accept, rest, pongs);
        assert f.payload + text[|f.payload|..] == text;
      }
    }
  }

  // ---- A conversation ----

  datatype Message = Message(opcode: nat, text: Data, frames: seq<Raw>)

  predicate Legal(m: Message) { Carries(m.frames, m.opcode, m.text) && |m.text| <= CLIENT_LIMIT }

  function Conversation(messages: seq<Message>): Data {
    if messages == [] then [] else Stream(messages[0].frames) + Conversation(messages[1..])
  }

  function AllPings(messages: seq<Message>): seq<Data> {
    if messages == [] then [] else PingPayloads(messages[0].frames) + AllPings(messages[1..])
  }

  predicate Answers(m: Message, accept: Data -> bool) { m.opcode == TEXT && accept(m.text) }

  /** The call returns the first text message that answers it, passing over every other message. */
  lemma {:induction false} CallReturnsFirstAnswer(messages: seq<Message>, accept: Data -> bool, rest: Data,
                                                  message: Data, kind: nat, pongs: seq<Data>)
    requires messages != [] && (forall m <- messages :: Legal(m)) && Answers(messages[|messages| - 1], accept)
    requires forall i | 0 <= i < |messages| - 1 :: !Answers(messages[i], accept)
    ensures Receive(Conversation(messages) + rest, message, kind, accept, pongs) ==
            (Answer(messages[|messages| - 1].text), pongs + AllPings(messages))
    decreases |messages|
  {
    var m, next := messages[0], pongs + PingPayloads(messages[0].frames);
    assert Legal(m);
    ConversationFirst(messages, rest, pongs);
    MessageIsReassembled(m.frames, m.opcode, m.text, message, kind, accept, Conversation(messages[1..]) + rest, pongs);
    if |messages| == 1 {
      NothingMore(messages, pongs);
    } else {
      hide Receive, Conversation, Stream, PingPayloads, AllPings, Legal;
      CallReturnsFirstAnswer(messages[1..], accept, rest, m.text, m.opcode, next);
    }
  }

  lemma ConversationFirst(messages: seq<Message>, rest: Data, pongs: seq<Data>)
    requires messages != []
    ensures Conversation(messages) + rest == Stream(messages[0].frames) + (Conversation(messages[1..]) + rest)
    ensures (pongs + PingPayloads(messages[0].frames)) + AllPings(messages[1..]) == pongs + AllPings(messages)
  {
    hide Stream, PingPayloads;
  }

  lemma NothingMore(messages: seq<Message>, pongs: seq<Data>)
    requires |messages| == 1
    ensures pongs + AllPings(messages) == pongs + PingPayloads(messages[0].frames)
  {
    hide PingPayloads;
    assert AllPings(messages[1..]) == [];
  }

  /** What the server of this repository writes is one such message. */
  lemma ServerTextIsLegal(payload: Data)
    requires |payload| <= CLIENT_LIMIT
    ensures var m := Message(TEXT, payload, [Raw(true, TEXT, payload)]);
            Legal(m) && Conversation([m]) == ServerFrame(TEXT, payload)
  {
    var m := Message(TEXT, payload, [Raw(true, TEXT, payload)]);
    assert m.frames[1..] == [] && [m][1..] == [];
    assert Stream(m.frames) == RawFrame(true, TEXT, payload) + [];
  }
}
