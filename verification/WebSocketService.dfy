/** Both ends as they run: reading from a byte stream, writing to one, and masking in place. */
module WebSocketService {
  import opened Radix
  import opened WebSocketFrames
  import opened WebSocketBytes
  import opened WebSocketClient

  /** `payload[index] ^= mask[index%len(mask)]` over the whole payload. */
  method MaskInPlace(payload: array<nat>, mask: seq<nat>)
    requires |mask| == 4
    modifies payload
    ensures payload[..] == Masked(old(payload[..]), mask) && IsMasked(payload[..], old(payload[..]), mask)
  {
    MaskedIs(payload[..], mask);
    hide Xor, IsMasked;
    for i := 0 to payload.Length
      invariant forall k | 0 <= k < i :: payload[k] == Xor(old(payload[k]), mask[k % 4])
      invariant forall k | i <= k < payload.Length :: payload[k] == old(payload[k])
    {
      payload[i] := Xor(payload[i], mask[i % 4]);
    }
  }

  method ToArray(s: seq<nat>) returns (a: array<nat>)
    ensures fresh(a) && a[..] == s
  {
    a := new nat[|s|](i requires 0 <= i < |s| => s[i]);
  }

  /** The bytes of a length after the first. */
  method LengthBytes(n: nat) returns (code: nat, more: Data)
    ensures code == LengthCode(n) && more == LengthMore(n)
  {
    if n < 126 {
      code, more := n, [];
    } else if n <= 65535 {
      code, more := 126, Bytes(n, 2);
    } else {
      code, more := 127, Bytes(n, 8);
    }
  }

  /** Bytes still to be read. */
  class Reader {
    var input: Data

    constructor (input: Data)
      ensures this.input == input
    {
      this.input := input;
    }

    /** `io.ReadFull`: all `n` bytes, or nothing usable. */
    method ReadFull(n: nat) returns (bytes: Option<Data>)
      modifies this
      ensures if n <= |old(input)| then bytes == Some(old(input)[..n]) && input == old(input)[n..] else bytes == None
    {
      if n > |input| { input := []; return None; }
      bytes := Some(input[..n]);
      input := input[n..];
    }

    /** `readLength`. */
    method ReadLength(code: nat) returns (n: Option<nat>)
      modifies this
      ensures match DecodeLength(code, old(input))
              case None => n == None
              case Some((length, rest)) => n == Some(length) && input == rest
    {
      if code != 126 && code != 127 { return Some(code); }
      var bytes := ReadFull(if code == 126 then 2 else 8);
      if bytes.None? { return None; }
      n := Some(FromBytes(bytes.value));
    }
  }

  class Conn {
    const reader: Reader
    var written: Data
    var delivered: seq<Data>
    var closed: bool

    constructor (reader: Reader)
      ensures this.reader == reader && Now() == Served([], [], false)
    {
      this.reader, written, delivered, closed := reader, [], [], false;
    }

    ghost function Now(): Served reads this { Served(delivered, written, closed) }

    /** `writeFrame`. */
    method WriteFrame(opcode: nat, payload: Data)
      modifies this`written
      ensures written == old(written) + ServerFrame(opcode, payload)
      ensures |payload| < Pow256(8) ==> ServerBytes(written[|old(written)|..], opcode, payload)
    {
      ServerParts(written, opcode, payload);
      hide *;
      written := written + [128 + opcode];
      var code, more := LengthBytes(|payload|);
      written := written + [code];
      written := written + more;
      written := written + payload;
    }

    /** `closeWithCode`: at most one close frame. */
    method CloseWithCode(code: nat)
      modifies this`written, this`closed
      ensures Now() == Closing(old(Now()), code)
    {
      hide ServerFrame;
      if closed { return; }
      WriteFrame(CLOSE, Bytes(code, 2));
      closed := true;
    }

    /** One client frame, its payload unmasked in place. */
    method ReadFrame() returns (r: Read)
      modifies reader
      ensures match ReadClientFrame(old(reader.input))
              case Short => r == Short
              case Refused(code) => r == Refused(code)
              case Got(opcode, payload, rest) => r == Got(opcode, payload, rest) && reader.input == rest
      ensures forall n, h | LengthAt(old(reader.input), n, h) :: Taken(old(reader.input), n, h, r)
    {
      forall n, h | LengthAt(reader.input, n, h) ensures Taken(reader.input, n, h, ReadClientFrame(reader.input)) {
        ClientFrameTaken(reader.input, n, h);
      }
      hide Taken, LengthAt, DecodeLength, Masked;
      var header := reader.ReadFull(2);
      if header.None? { return Short; }
      var (b0, b1) := (header.value[0], header.value[1]);
      var fin, rsv, opcode, masked := b0 >= 128, b0 / 16 % 8, b0 % 16, b1 >= 128;
      if !fin || rsv != 0 || !masked { return Refused(1002); }
      var length := reader.ReadLength(b1 % 128);
      if length.None? { return Short; }
      var n := length.value;
      if n > SERVER_LIMIT { return Refused(1009); }
      if opcode >= 8 && n > CONTROL_LIMIT { return Refused(1002); }
      ghost var rest := reader.input;
      var mask := reader.ReadFull(4);
      if mask.None? { return Short; }
      var body := reader.ReadFull(n);
      if body.None? { return Short; }
      assert body.value == rest[4..4 + n] && reader.input == rest[4 + n..];
      var payload := ToArray(body.value);
      MaskInPlace(payload, mask.value);
      r := Got(opcode, payload[..], reader.input);
    }

    /** `ReadLoop`. */
    method ReadLoop()
      modifies this, reader
      ensures Now() == Serve(old(reader.input), old(Now()))
    {
      hide ReadClientFrame, ServerFrame;
      ghost var whole := Serve(reader.input, Now());
      while true
        invariant Serve(reader.input, Now()) == whole
        decreases |reader.input|
      {
        ghost var before := Now();
        var frame := ReadFrame();
        match frame {
          case Short => return;
          case Refused(code) =>
            CloseWithCode(code);
            return;
          case Got(opcode, payload, _) =>
            if opcode == CLOSE {
              CloseWithCode(1000);
              return;
            } else if opcode == PING {
              WriteFrame(PONG, payload);
            } else if opcode == TEXT {
              delivered := delivered + [payload];
            } else if opcode != PONG && opcode != BINARY {
              CloseWithCode(1002);
              return;
            }
            assert (Now(), true) == Handle(before, opcode, payload);
        }
      }
    }
  }

  lemma ServerParts(was: Data, opcode: nat, payload: Data)
    ensures var now := was + [128 + opcode] + [LengthCode(|payload|)] + LengthMore(|payload|) + payload;
            && now == was + ServerFrame(opcode, payload)
            && (|payload| < Pow256(8) ==> ServerBytes(now[|was|..], opcode, payload))
  {
    hide LengthCode, LengthMore, ServerBytes, Pow256;
    if |payload| < Pow256(8) { ServerFrameIs(opcode, payload); }
    var frame := ServerFrame(opcode, payload);
    assert was + [128 + opcode] + [LengthCode(|payload|)] + LengthMore(|payload|) + payload == was + frame;
    assert (was + frame)[|was|..] == frame;
  }

  /** `writeMaskedFrame`. */
  method WriteMaskedFrame(opcode: nat, payload: Data, mask: Data) returns (frame: Data)
    requires |mask| == 4
    ensures frame == ClientFrame(opcode, payload, mask)
    ensures |payload| < Pow256(8) ==> ClientBytes(frame, opcode, payload, mask)
  {
    ClientParts(opcode, payload, mask);
    hide *;
    var code, more := LengthBytes(|payload|);
    var header := [128 + opcode] + [128 + code] + more;
    header := header + mask;
    var masked := ToArray(payload);
    MaskInPlace(masked, mask);
    frame := header + masked[..];
  }

  lemma ClientParts(opcode: nat, payload: Data, mask: Data)
    requires |mask| == 4
    ensures [128 + opcode] + [128 + LengthCode(|payload|)] + LengthMore(|payload|) + mask + Masked(payload, mask)
            == ClientFrame(opcode, payload, mask)
    ensures |payload| < Pow256(8) ==> ClientBytes(ClientFrame(opcode, payload, mask), opcode, payload, mask)
  {
    hide LengthCode, LengthMore, Masked, ClientBytes, Pow256;
    if |payload| < Pow256(8) { ClientFrameIs(opcode, payload, mask); }
    assert [128 + opcode] + [128 + LengthCode(|payload|)] == [128 + opcode, 128 + LengthCode(|payload|)];
  }

  /** `readServerFrame`. */
  method ReadFrameFromServer(reader: Reader) returns (r: ServerRead)
    modifies reader
    ensures match ReadServerFrame(old(reader.input))
            case Broken => r == Broken
            case Frame(payload, opcode, fin, rest) => r == Frame(payload, opcode, fin, rest) && reader.input == rest
    ensures forall n, h | LengthAt(old(reader.input), n, h) :: ServerTaken(old(reader.input), n, h, r)
  {
    forall n, h | LengthAt(reader.input, n, h) ensures ServerTaken(reader.input, n, h, ReadServerFrame(reader.input)) {
      ServerFrameTaken(reader.input, n, h);
    }
    hide ServerTaken, LengthAt, DecodeLength;
    var header := reader.ReadFull(2);
    if header.None? { return Broken; }
    var (b0, b1) := (header.value[0], header.value[1]);
    if b1 >= 128 { return Broken; }
    var length := reader.ReadLength(b1 % 128);
    if length.None? || length.value > CLIENT_LIMIT { return Broken; }
    var payload := reader.ReadFull(length.value);
    if payload.None? { return Broken; }
    r := Frame(payload.value, b0 % 16, b0 >= 128, reader.input);
  }

  /** The receiving loop of `call`, with the message buffer it reuses. */
  method ReceiveAnswer(reader: Reader, accept: Data -> bool) returns (outcome: Outcome, pongs: seq<Data>)
    modifies reader
    ensures (outcome, pongs) == Receive(old(reader.input), [], 0, accept, [])
  {
    hide ReadServerFrame;
    var message: Data, messageOpcode: nat := [], 0;
    pongs := [];
    ghost var whole := Receive(reader.input, [], 0, accept, []);
    while true
      invariant Receive(reader.input, message, messageOpcode, accept, pongs) == whole
      decreases |reader.input|
    {
      var frame := ReadFrameFromServer(reader);
      if frame.Broken? { return Failed, pongs; }
      var payload, opcode := frame.payload, frame.opcode;
      if opcode == PING {
        pongs := pongs + [Truncated(payload)];
        continue;
      }
      if opcode == CLOSE { return Failed, pongs; }
      if opcode == TEXT || opcode == BINARY {
        message, messageOpcode := payload, opcode;
      } else if opcode == CONTINUATION {
        message := message + payload;
      } else {
        continue;
      }
      if |message| > CLIENT_LIMIT { return Failed, pongs; }
      if !frame.fin || messageOpcode != TEXT { continue; }
      if accept(message) { return Answer(message), pongs; }
    }
  }
}
