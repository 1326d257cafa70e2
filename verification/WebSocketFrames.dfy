/** The two frame codecs (section 5.2 of RFC 6455): what each side writes, and what each side reads. */
module WebSocketFrames {
  import opened Radix

  datatype Option<T> = None | Some(value: T)

  type Data = seq<nat>

  const SERVER_LIMIT: nat := 65536
  const CLIENT_LIMIT: nat := 16777216
  const CONTROL_LIMIT: nat := 125

  const CONTINUATION: nat := 0
  const TEXT: nat := 1
  const BINARY: nat := 2
  const CLOSE: nat := 8
  const PING: nat := 9
  const PONG: nat := 10

  // ---- Masking ----

  /** Bitwise exclusive or. */
  function Xor(a: nat, b: nat): nat
    decreases a + b
  {
    if a == 0 && b == 0 then 0 else 2 * Xor(a / 2, b / 2) + (if a % 2 == b % 2 then 0 else 1)
  }

  /** Masking twice is masking not at all. */
  lemma {:induction false} XorTwice(a: nat, b: nat)
    ensures Xor(Xor(a, b), b) == a
    decreases a + b
  {
    if a != 0 || b != 0 {
      XorTwice(a / 2, b / 2);
      var x := Xor(a, b);
      assert x / 2 == Xor(a / 2, b / 2);
      if x == 0 && b == 0 { XorZero(a); }
    }
  }

  lemma {:induction false} XorZero(a: nat)
    ensures Xor(a, 0) == a
  {
    if a > 0 { XorZero(a / 2); }
  }

  function Masked(payload: Data, mask: Data): (r: Data)
    requires |mask| == 4
    ensures |r| == |payload|
  {
    seq(|payload|, i requires 0 <= i < |payload| => Xor(payload[i], mask[i % 4]))
  }

  lemma MaskedTwice(payload: Data, mask: Data)
    requires |mask| == 4
    ensures Masked(Masked(payload, mask), mask) == payload
  {
    forall i | 0 <= i < |payload| ensures Masked(Masked(payload, mask), mask)[i] == payload[i] {
      XorTwice(payload[i], mask[i % 4]);
    }
  }

  // ---- Lengths ----

  function LengthCode(n: nat): (r: nat)
    ensures r < 128
  {
    if n < 126 then n else if n <= 65535 then 126 else 127
  }

  function LengthMore(n: nat): Data {
    if n < 126 then [] else if n <= 65535 then Bytes(n, 2) else Bytes(n, 8)
  }

  function DecodeLength(code: nat, input: Data): Option<(nat, Data)> {
    if code == 126 then (if |input| < 2 then None else Some((FromBytes(input[..2]), input[2..])))
    else if code == 127 then (if |input| < 8 then None else Some((FromBytes(input[..8]), input[8..])))
    else Some((code, input))
  }

  lemma LengthIsRead(n: nat, rest: Data)
    requires n < Pow256(8)
    ensures DecodeLength(LengthCode(n), LengthMore(n) + rest) == Some((n, rest))
  {
    var more := LengthMore(n);
    assert (more + rest)[..|more|] == more && (more + rest)[|more|..] == rest;
    if 126 <= n <= 65535 {
      assert Pow256(2) == 65536;
      NumberOfBytes(n, 2);
    } else if n > 65535 {
      NumberOfBytes(n, 8);
    }
  }

  // ---- Frames ----

  /** `writeMaskedFrame`. */
  function ClientFrame(opcode: nat, payload: Data, mask: Data): Data
    requires |mask| == 4
  {
    [128 + opcode, 128 + LengthCode(|payload|)] + LengthMore(|payload|) + mask + Masked(payload, mask)
  }

  /** A frame from a server, whole or a fragment. */
  function RawFrame(fin: bool, opcode: nat, payload: Data): Data {
    [(if fin then 128 else 0) + opcode, LengthCode(|payload|)] + LengthMore(|payload|) + payload
  }

  /** `Conn.writeFrame`. */
  function ServerFrame(opcode: nat, payload: Data): Data { RawFrame(true, opcode, payload) }

  datatype Read = Short | Refused(code: nat) | Got(opcode: nat, payload: Data, rest: Data)

  /** One frame as `ReadLoop` takes it. */
  function ReadClientFrame(input: Data): (r: Read)
    ensures r.Got? ==> |r.rest| < |input|
  {
    if |input| < 2 then Short
    else
      var fin, rsv, opcode, masked := input[0] >= 128, input[0] / 16 % 8, input[0] % 16, input[1] >= 128;
      if !fin || rsv != 0 || !masked then Refused(1002)
      else match DecodeLength(input[1] % 128, input[2..])
           case None => Short
           case Some((n, rest)) =>
             if n > SERVER_LIMIT then Refused(1009)
             else if opcode >= 8 && n > CONTROL_LIMIT then Refused(1002)
             else if |rest| < 4 + n then Short
             else Got(opcode, Masked(rest[4..4 + n], rest[..4]), rest[4 + n..])
  }

  datatype ServerRead = Broken | Frame(payload: Data, opcode: nat, fin: bool, rest: Data)

  /** `readServerFrame`. */
  function ReadServerFrame(input: Data): (r: ServerRead)
    ensures r.Frame? ==> |r.rest| < |input|
  {
    if |input| < 2 || input[1] >= 128 then Broken
    else match DecodeLength(input[1] % 128, input[2..])
         case None => Broken
         case Some((n, rest)) =>
           if n > CLIENT_LIMIT || |rest| < n then Broken
           else Frame(rest[..n], input[0] % 16, input[0] >= 128, rest[n..])
  }

  /** The server reads a client frame as it was meant, exactly when it is within the limits. */
  lemma ClientFrameIsRead(opcode: nat, payload: Data, mask: Data, rest: Data)
    requires opcode < 16 && |mask| == 4 && |payload| < Pow256(8)
    ensures ReadClientFrame(ClientFrame(opcode, payload, mask) + rest) ==
            (if |payload| > SERVER_LIMIT then Refused(1009)
             else if opcode >= 8 && |payload| > CONTROL_LIMIT then Refused(1002)
             else Got(opcode, payload, rest))
  {
    hide LengthCode, LengthMore, DecodeLength, Masked;
    var n := |payload|;
    var input := ClientFrame(opcode, payload, mask) + rest;
    var tail := mask + Masked(payload, mask) + rest;
    assert input[2..] == LengthMore(n) + tail;
    assert input[0] == 128 + opcode && input[1] == 128 + LengthCode(n);
    LengthIsRead(n, tail);
    assert tail[..4] == mask && tail[4..4 + n] == Masked(payload, mask) && tail[4 + n..] == rest;
    MaskedTwice(payload, mask);
  }

  /** The client reads a server frame as it was sent, exactly when it is at most 16 MiB. */
  lemma ServerFrameIsRead(fin: bool, opcode: nat, payload: Data, rest: Data)
    requires opcode < 16 && |payload| < Pow256(8)
    ensures ReadServerFrame(RawFrame(fin, opcode, payload) + rest) ==
            (if |payload| > CLIENT_LIMIT then Broken else Frame(payload, opcode, fin, rest))
  {
    hide LengthCode, LengthMore, DecodeLength;
    var n := |payload|;
    var input := RawFrame(fin, opcode, payload) + rest;
    assert input[2..] == LengthMore(n) + (payload + rest);
    LengthIsRead(n, payload + rest);
    assert (payload + rest)[..n] == payload && (payload + rest)[n..] == rest;
  }

  // ---- The server loop ----

  /** What the connection has delivered to its handler and written back. */
  datatype Served = Served(delivered: seq<Data>, written: Data, closed: bool)

  function Closing(s: Served, code: nat): Served {
    if s.closed then s else s.(written := s.written + ServerFrame(CLOSE, Bytes(code, 2)), closed := true)
  }

  /** What one frame does, and whether the loop goes on. */
  function Handle(s: Served, opcode: nat, payload: Data): (Served, bool) {
    if opcode == CLOSE then (Closing(s, 1000), false)
    else if opcode == PING then (s.(written := s.written + ServerFrame(PONG, payload)), true)
    else if opcode == PONG then (s, true)
    else if opcode == TEXT then (s.(delivered := s.delivered + [payload]), true)
    else if opcode == BINARY then (s, true)
    else (Closing(s, 1002), false)
  }

  /** `ReadLoop`. */
  function Serve(input: Data, s: Served): Served
    decreases |input|
  {
    match ReadClientFrame(input)
    case Short => s
    case Refused(code) => Closing(s, code)
    case Got(opcode, payload, rest) =>
      var (t, more) := Handle(s, opcode, payload);
      if more then Serve(rest, t) else t
  }

  /** A frame the client sends: its opcode, its payload, and the mask it drew. */
  datatype Sent = Sent(opcode: nat, payload: Data, mask: Data)

  predicate Sendable(f: Sent) {
    && |f.mask| == 4 && f.opcode in {TEXT, BINARY, PING, PONG}
    && |f.payload| <= (if f.opcode >= 8 then CONTROL_LIMIT else SERVER_LIMIT)
  }

  predicate AllSendable(frames: seq<Sent>) { forall f <- frames :: Sendable(f) }

  function Wire(frames: seq<Sent>): Data
    requires AllSendable(frames)
  {
    if frames == [] then []
    else
      assert Sendable(frames[0]);
      ClientFrame(frames[0].opcode, frames[0].payload, frames[0].mask) + Wire(frames[1..])
  }

  function Texts(frames: seq<Sent>): seq<Data> {
    if frames == [] then []
    else (if frames[0].opcode == TEXT then [frames[0].payload] else []) + Texts(frames[1..])
  }

  function Pongs(frames: seq<Sent>): Data {
    if frames == [] then []
    else (if frames[0].opcode == PING then ServerFrame(PONG, frames[0].payload) else []) + Pongs(frames[1..])
  }

  /** Any sequence of client frames is delivered unchanged and in order, and every ping is answered
      by its own payload; then the loop goes on with what follows. */
  lemma {:induction false} FramesAreDelivered(frames: seq<Sent>, rest: Data, s: Served)
    requires AllSendable(frames)
    ensures Serve(Wire(frames) + rest, s) ==
            Serve(rest, s.(delivered := s.delivered + Texts(frames), written := s.written + Pongs(frames)))
  {
    if frames == [] {
      assert Wire(frames) + rest == rest;
      assert s.delivered + [] == s.delivered && s.written + [] == s.written;
    } else {
      var f := frames[0];
      assert Sendable(f);
      var tail := Wire(frames[1..]) + rest;
      assert Wire(frames) + rest == ClientFrame(f.opcode, f.payload, f.mask) + tail;
      FrameIsHandled(f, tail, s);
      var t := Handle(s, f.opcode, f.payload).0;
      FramesAreDelivered(frames[1..], rest, t);
      HandleAdds(s, f, frames);
      hide Serve, Wire, Texts, Pongs, Handle, ClientFrame;
    }
  }

  lemma FrameIsHandled(f: Sent, tail: Data, s: Served)
    requires Sendable(f)
    ensures Serve(ClientFrame(f.opcode, f.payload, f.mask) + tail, s) == Serve(tail, Handle(s, f.opcode, f.payload).0)
  {
    hide ClientFrame, ServerFrame, ReadClientFrame;
    ClientFrameIsRead(f.opcode, f.payload, f.mask, tail);
  }

  lemma HandleAdds(s: Served, f: Sent, frames: seq<Sent>)
    requires frames != [] && f == frames[0] && Sendable(f)
    ensures var t := Handle(s, f.opcode, f.payload).0;
            && t.delivered + Texts(frames[1..]) == s.delivered + Texts(frames)
            && t.written + Pongs(frames[1..]) == s.written + Pongs(frames) && t.closed == s.closed
  {
    hide ServerFrame;
    var texts, pongs := Texts(frames[1..]), Pongs(frames[1..]);
    assert Texts(frames) == (if f.opcode == TEXT then [f.payload] else []) + texts;
    assert Pongs(frames) == (if f.opcode == PING then ServerFrame(PONG, f.payload) else []) + pongs;
    hide Texts, Pongs;
    if f.opcode == TEXT {
      assert (s.delivered + [f.payload]) + texts == s.delivered + ([f.payload] + texts);
    } else {
      assert [] + texts == texts;
    }
    if f.opcode == PING {
      assert (s.written + ServerFrame(PONG, f.payload)) + pongs == s.written + (ServerFrame(PONG, f.payload) + pongs);
    } else {
      assert [] + pongs == pongs;
    }
  }

  /** A longer text frame closes the connection with code 1009 and is not delivered. */
  lemma TooLongIsRefused(payload: Data, mask: Data, rest: Data, s: Served)
    requires |mask| == 4 && SERVER_LIMIT < |payload| < Pow256(8) && !s.closed
    ensures Serve(ClientFrame(TEXT, payload, mask) + rest, s) ==
            Served(s.delivered, s.written + ServerFrame(CLOSE, Bytes(1009, 2)), true)
  {
    hide ClientFrame, ServerFrame, ReadClientFrame;
    ClientFrameIsRead(TEXT, payload, mask, rest);
  }
}
