/** The bytes on the wire. */
module WebSocketBytes {
  import opened Radix
  import opened WebSocketFrames

  // ---- Bits ----

  function Bit(n: nat, k: nat): nat { if k == 0 then n % 2 else Bit(n / 2, k - 1) }

  /** `x` has exactly the bits in which `a` and `b` differ. */
  ghost predicate Differ(x: nat, a: nat, b: nat) {
    && (forall k: nat :: Bit(x, k) == 1 <==> Bit(a, k) != Bit(b, k))
    && (a < 256 && b < 256 ==> x < 256)
  }

  lemma {:induction false} XorBit(a: nat, b: nat, k: nat)
    ensures Bit(Xor(a, b), k) == 1 <==> Bit(a, k) != Bit(b, k)
    decreases k
  {
    var x := Xor(a, b);
    assert x / 2 == Xor(a / 2, b / 2) && (x % 2 == 1 <==> a % 2 != b % 2);
    if k > 0 { XorBit(a / 2, b / 2, k - 1); }
  }

  lemma {:induction false} XorFits(a: nat, b: nat, m: nat)
    requires a < Pow2(m) && b < Pow2(m)
    ensures Xor(a, b) < Pow2(m)
  {
    if m > 0 { XorFits(a / 2, b / 2, m - 1); }
  }

  lemma XorDiffers(a: nat, b: nat)
    ensures Differ(Xor(a, b), a, b)
  {
    forall k: nat ensures Bit(Xor(a, b), k) == 1 <==> Bit(a, k) != Bit(b, k) { XorBit(a, b, k); }
    assert Pow2(8) == 256;
    if a < 256 && b < 256 { XorFits(a, b, 8); }
  }

  /** There is only one such number. */
  lemma {:induction false} BitsDetermine(x: nat, y: nat)
    requires forall k: nat :: Bit(x, k) == Bit(y, k)
    ensures x == y
    decreases x + y
  {
    if x != 0 || y != 0 {
      forall k: nat ensures Bit(x / 2, k) == Bit(y / 2, k) {
        assert Bit(x, k + 1) == Bit(y, k + 1);
      }
      assert Bit(x, 0) == Bit(y, 0);
      BitsDetermine(x / 2, y / 2);
    }
  }

  /** Byte `i` of the payload meets byte `i % 4` of the mask. */
  ghost predicate IsMasked(r: Data, payload: Data, mask: Data)
    requires |mask| == 4
  {
    |r| == |payload| && forall i | 0 <= i < |payload| :: Differ(r[i], payload[i], mask[i % 4])
  }

  lemma MaskedIs(payload: Data, mask: Data)
    requires |mask| == 4
    ensures IsMasked(Masked(payload, mask), payload, mask)
  {
    hide Xor, Differ;
    forall i | 0 <= i < |payload| ensures Differ(Masked(payload, mask)[i], payload[i], mask[i % 4]) {
      XorDiffers(payload[i], mask[i % 4]);
    }
  }

  // ---- Lengths ----

  /** The first `h` bytes give the length `n`: seven bits, or two bytes after 126, or eight bytes after
      127, most significant first. */
  predicate LengthAt(f: Data, n: nat, h: nat) {
    && |f| >= 2
    && var code := f[1] % 128;
       if code < 126 then n == code && h == 2
       else if code == 126 then |f| >= 4 && n == f[2] * 0x100 + f[3] && h == 4
       else
         && |f| >= 10 && h == 10
         && n == f[2] * 0x100_0000_0000_0000 + f[3] * 0x1_0000_0000_0000 + f[4] * 0x100_0000_0000
                 + f[5] * 0x1_0000_0000 + f[6] * 0x100_0000 + f[7] * 0x1_0000 + f[8] * 0x100 + f[9]
  }

  lemma TwoBytes(a: nat, b: nat)
    ensures FromBytes([a, b]) == a * 0x100 + b
  {
    assert [a, b][..1] == [a] && [a][..0] == [];
    assert FromBytes([a]) == a;
  }

  lemma ByteAdded(s: Data, b: nat)
    ensures FromBytes(s + [b]) == FromBytes(s) * 256 + b
  {
    assert (s + [b])[..|s|] == s;
  }

  lemma EightBytes(s: Data)
    requires |s| == 8
    ensures FromBytes(s) == s[0] * 0x100_0000_0000_0000 + s[1] * 0x1_0000_0000_0000 + s[2] * 0x100_0000_0000
                            + s[3] * 0x1_0000_0000 + s[4] * 0x100_0000 + s[5] * 0x1_0000 + s[6] * 0x100 + s[7]
  {
    TwoBytes(s[0], s[1]);
    assert s[..2] == [s[0], s[1]];
    assert s[..3] == s[..2] + [s[2]] && s[..4] == s[..3] + [s[3]] && s[..5] == s[..4] + [s[4]];
    assert s[..6] == s[..5] + [s[5]] && s[..7] == s[..6] + [s[6]] && s == s[..7] + [s[7]];
    ByteAdded(s[..2], s[2]);
    ByteAdded(s[..3], s[3]);
    ByteAdded(s[..4], s[4]);
    ByteAdded(s[..5], s[5]);
    ByteAdded(s[..6], s[6]);
    ByteAdded(s[..7], s[7]);
    hide FromBytes;
  }

  /** A length is read as the bytes give it. */
  lemma LengthIsTaken(f: Data, n: nat, h: nat)
    requires LengthAt(f, n, h)
    ensures h <= |f| && DecodeLength(f[1] % 128, f[2..]) == Some((n, f[h..]))
  {
    if f[1] % 128 == 126 {
      assert f[2..][..2] == [f[2], f[3]] && f[2..][2..] == f[4..];
      TwoBytes(f[2], f[3]);
    } else if f[1] % 128 == 127 {
      EightBytes(f[2..][..8]);
      assert f[2..][8..] == f[10..];
    }
    hide FromBytes;
  }

  // ---- What is written ----

  /** How many bytes give the length `n`, with the first byte of the frame. */
  function HeaderSize(n: nat): nat { if n < 126 then 2 else if n <= 65535 then 4 else 10 }

  /** The first byte is `first`; the second holds the bit of the mask, and the length follows in as few
      bytes as it can, each below 256. */
  ghost predicate Header(f: Data, first: nat, masked: bool, n: nat) {
    && LengthAt(f, n, HeaderSize(n))
    && f[0] == first && (f[1] >= 128 <==> masked) && f[1] < 256
    && forall i | 2 <= i < HeaderSize(n) :: f[i] < 256
  }

  lemma MoreIs(n: nat)
    requires n < Pow256(8)
    ensures var more := LengthMore(n);
            && |more| == HeaderSize(n) - 2 && Below(more, 256)
            && LengthCode(n) == (if n < 126 then n else if n <= 65535 then 126 else 127)
            && (n >= 126 ==> FromBytes(more) == n)
  {
    if 126 <= n <= 65535 {
      assert Pow256(2) == 65536;
      NumberOfBytes(n, 2);
    } else if n > 65535 {
      NumberOfBytes(n, 8);
    }
  }

  lemma LengthIsWritten(f: Data, first: nat, masked: bool, n: nat)
    requires n < Pow256(8) && |f| >= HeaderSize(n)
    requires f[0] == first && f[1] == (if masked then 128 else 0) + LengthCode(n) && f[2..HeaderSize(n)] == LengthMore(n)
    ensures Header(f, first, masked, n)
  {
    hide FromBytes, Pow256, LengthCode, LengthMore;
    MoreIs(n);
    var more := LengthMore(n);
    assert forall i | 2 <= i < HeaderSize(n) :: f[i] == more[i - 2];
    if 126 <= n <= 65535 {
      assert more == [more[0], more[1]];
      TwoBytes(more[0], more[1]);
    } else if n > 65535 {
      EightBytes(more);
    }
  }

  /** A client frame: the last fragment, its header, the mask, and the masked payload. */
  ghost predicate ClientBytes(f: Data, opcode: nat, payload: Data, mask: Data)
    requires |mask| == 4
  {
    var h := HeaderSize(|payload|);
    && Header(f, 128 + opcode, true, |payload|) && |f| == h + 4 + |payload|
    && f[h..h + 4] == mask && IsMasked(f[h + 4..], payload, mask)
  }

  /** A server frame: the same without a mask. */
  ghost predicate ServerBytes(f: Data, opcode: nat, payload: Data) {
    var h := HeaderSize(|payload|);
    Header(f, 128 + opcode, false, |payload|) && |f| == h + |payload| && f[h..] == payload
  }

  lemma ClientFrameIs(opcode: nat, payload: Data, mask: Data)
    requires |mask| == 4 && |payload| < Pow256(8)
    ensures ClientBytes(ClientFrame(opcode, payload, mask), opcode, payload, mask)
  {
    hide LengthCode, LengthMore, Masked, IsMasked, Header, FromBytes, Pow256;
    var n, f := |payload|, ClientFrame(opcode, payload, mask);
    MoreIs(n);
    MaskedIs(payload, mask);
    var h := HeaderSize(n);
    assert f[2..h] == LengthMore(n) && f[h..h + 4] == mask && f[h + 4..] == Masked(payload, mask);
    LengthIsWritten(f, 128 + opcode, true, n);
  }

  lemma ServerFrameIs(opcode: nat, payload: Data)
    requires |payload| < Pow256(8)
    ensures ServerBytes(ServerFrame(opcode, payload), opcode, payload)
  {
    hide LengthCode, LengthMore, Header, FromBytes, Pow256;
    var n, f := |payload|, ServerFrame(opcode, payload);
    MoreIs(n);
    var h := HeaderSize(n);
    assert f[2..h] == LengthMore(n) && f[h..] == payload;
    LengthIsWritten(f, 128 + opcode, false, n);
  }

  // ---- What is taken ----

  /** The server takes a frame that is whole, masked and free of reserved bits, up to 65536 bytes, or
      125 for a control frame; it closes with 1002 or 1009 on any other. */
  ghost predicate Taken(f: Data, n: nat, h: nat, r: Read)
    requires LengthAt(f, n, h)
  {
    if f[0] < 128 || f[0] / 16 % 8 != 0 || f[1] < 128 then r == Refused(1002)
    else if n > 65536 then r == Refused(1009)
    else if f[0] % 16 >= 8 && n > 125 then r == Refused(1002)
    else if |f| < h + 4 + n then r == Short
    else
      && r.Got? && r.opcode == f[0] % 16 && r.rest == f[h + 4 + n..]
      && IsMasked(r.payload, f[h + 4..h + 4 + n], f[h..h + 4])
  }

  lemma ClientFrameTaken(f: Data, n: nat, h: nat)
    requires LengthAt(f, n, h)
    ensures Taken(f, n, h, ReadClientFrame(f))
  {
    hide DecodeLength, Masked, IsMasked, LengthAt;
    LengthIsTaken(f, n, h);
    HasHeader(f, n, h);
    if |f| >= h + 4 + n {
      var rest := f[h..];
      assert rest[..4] == f[h..h + 4] && rest[4..4 + n] == f[h + 4..h + 4 + n] && rest[4 + n..] == f[h + 4 + n..];
      MaskedIs(f[h + 4..h + 4 + n], f[h..h + 4]);
    }
  }

  lemma HasHeader(f: Data, n: nat, h: nat)
    requires LengthAt(f, n, h)
    ensures 2 <= h <= |f|
  {
  }

  /** The client takes a frame without a mask, up to 16 MiB. */
  ghost predicate ServerTaken(f: Data, n: nat, h: nat, r: ServerRead)
    requires LengthAt(f, n, h)
  {
    r == if f[1] >= 128 || n > 16777216 || |f| < h + n then Broken
         else Frame(f[h..h + n], f[0] % 16, f[0] >= 128, f[h + n..])
  }

  lemma ServerFrameTaken(f: Data, n: nat, h: nat)
    requires LengthAt(f, n, h)
    ensures ServerTaken(f, n, h, ReadServerFrame(f))
  {
    hide DecodeLength, LengthAt;
    LengthIsTaken(f, n, h);
    HasHeader(f, n, h);
    if |f| >= h + n {
      assert f[h..][..n] == f[h..h + n] && f[h..][n..] == f[h + n..];
    }
  }

  /** What the server does with each kind of frame: text is delivered, a ping answered with its own
      payload, binary data and pongs passed over, and a close frame or any other ends the connection,
      with 1000 or 1002. */
  lemma FrameIsServed(input: Data, s: Served, opcode: nat, payload: Data, rest: Data)
    requires ReadClientFrame(input) == Got(opcode, payload, rest) && !s.closed && |payload| <= 125
    ensures Serve(input, s) ==
            if opcode == 1 then Serve(rest, s.(delivered := s.delivered + [payload]))
            else if opcode == 9 then Serve(rest, s.(written := s.written + ([138, |payload|] + payload)))
            else if opcode == 2 || opcode == 10 then Serve(rest, s)
            else s.(written := s.written + [136, 2, 3, if opcode == 8 then 232 else 234], closed := true)
  {
    hide ReadClientFrame;
    SmallServerFrame(PONG, payload);
    CloseBytes();
    hide ServerFrame, Bytes;
  }

  lemma SmallServerFrame(opcode: nat, payload: Data)
    requires |payload| < 126
    ensures ServerFrame(opcode, payload) == [128 + opcode, |payload|] + payload
  {
    assert [128 + opcode, |payload|] + [] == [128 + opcode, |payload|];
  }

  lemma CloseBytes()
    ensures ServerFrame(CLOSE, Bytes(1000, 2)) == [136, 2, 3, 232]
    ensures ServerFrame(CLOSE, Bytes(1002, 2)) == [136, 2, 3, 234]
    ensures ServerFrame(CLOSE, Bytes(1009, 2)) == [136, 2, 3, 241]
  {
    CodeBytes(1000);
    CodeBytes(1002);
    CodeBytes(1009);
    hide Bytes, ServerFrame;
    SmallServerFrame(CLOSE, [3, 232]);
    SmallServerFrame(CLOSE, [3, 234]);
    SmallServerFrame(CLOSE, [3, 241]);
  }

  lemma CodeBytes(code: nat)
    requires code < 65536
    ensures Bytes(code, 2) == [code / 256, code % 256]
  {
    assert Bytes(code / 256 / 256, 0) == [] && Bytes(code / 256, 1) == [] + [code / 256];
  }
}
