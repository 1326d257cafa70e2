/** Identifiers that sort by creation: a 48-bit millisecond clock and 80 random bits, written as 26
    characters of five bits each. */
module Ulid {
  import opened Lexical
  import opened Radix

  datatype Option<T> = None | Some(value: T)

  /** Lexicographic order of two sequences of equal length. */
  predicate Lex(a: seq<nat>, b: seq<nat>) {
    a != [] && b != [] && (a[0] < b[0] || (a[0] == b[0] && Lex(a[1..], b[1..])))
  }

  lemma {:induction false} LexConcat(a: seq<nat>, b: seq<nat>, c: seq<nat>, d: seq<nat>)
    requires |a| == |b|
    ensures Lex(a + c, b + d) <==> Lex(a, b) || (a == b && Lex(c, d))
  {
    if a == [] {
      assert a + c == c && b + d == d;
    } else {
      assert (a + c)[1..] == a[1..] + c && (b + d)[1..] == b[1..] + d;
      LexConcat(a[1..], b[1..], c, d);
      assert a == [a[0]] + a[1..] && b == [b[0]] + b[1..];
    }
  }

  lemma {:induction false} LexIsStrict(a: seq<nat>, b: seq<nat>)
    requires |a| == |b|
    ensures !(Lex(a, b) && Lex(b, a)) && (Lex(a, b) || Lex(b, a) || a == b) && !(Lex(a, b) && a == b)
  {
    if a != [] {
      LexIsStrict(a[1..], b[1..]);
      assert a == [a[0]] + a[1..] && b == [b[0]] + b[1..];
    }
  }

  /** Smaller numbers have smaller bits. */
  lemma {:induction false} BitsOrder(n: nat, k: nat, m: nat)
    requires n < k < Pow2(m)
    ensures Lex(Bits(n, m), Bits(k, m))
  {
    if n / 2 < k / 2 { BitsOrder(n / 2, k / 2, m - 1); }
    LexConcat(Bits(n / 2, m - 1), Bits(k / 2, m - 1), [n % 2], [k % 2]);
  }

  /** Smaller numbers have smaller bytes. */
  lemma {:induction false} BytesOrder(n: nat, k: nat, m: nat)
    requires n < k < Pow256(m)
    ensures Lex(Bytes(n, m), Bytes(k, m))
  {
    if n / 256 < k / 256 { BytesOrder(n / 256, k / 256, m - 1); }
    LexConcat(Bytes(n / 256, m - 1), Bytes(k / 256, m - 1), [n % 256], [k % 256]);
  }

  // ---- Groups of bits ----

  function Expand(digits: seq<nat>, m: nat): (r: seq<nat>)
    ensures |r| == m * |digits|
  {
    if digits == [] then [] else Bits(digits[0], m) + Expand(digits[1..], m)
  }

  /** Expanding digits into bits keeps the order. */
  lemma {:induction false} ExpandOrder(a: seq<nat>, b: seq<nat>, m: nat)
    requires |a| == |b| && Lex(a, b) && Below(a, Pow2(m)) && Below(b, Pow2(m))
    ensures Lex(Expand(a, m), Expand(b, m))
  {
    if a[0] < b[0] { BitsOrder(a[0], b[0], m); } else { ExpandOrder(a[1..], b[1..], m); }
    LexConcat(Bits(a[0], m), Bits(b[0], m), Expand(a[1..], m), Expand(b[1..], m));
  }

  /** ... and loses nothing. */
  lemma ExpandReflects(a: seq<nat>, b: seq<nat>, m: nat)
    requires |a| == |b| && Lex(Expand(a, m), Expand(b, m))
    requires Below(a, Pow2(m)) && Below(b, Pow2(m))
    ensures Lex(a, b)
  {
    hide Lex, Expand, Below, Pow2;
    LexIsStrict(a, b);
    LexIsStrict(Expand(a, m), Expand(b, m));
    if Lex(b, a) { ExpandOrder(b, a, m); }
  }

  /** Bits in groups of five, each read as a number. */
  function Groups(bits: seq<nat>): (r: seq<nat>)
    requires |bits| % 5 == 0
    ensures |r| == |bits| / 5
  {
    if bits == [] then [] else [FromBits(bits[..5])] + Groups(bits[5..])
  }

  predicate AreBits(s: seq<nat>) { Below(s, 2) }

  lemma FiveBits(bits: seq<nat>)
    requires |bits| == 5 && AreBits(bits)
    ensures FromBits(bits) < 32 && FromBits(bits) == bits[0] * 16 + bits[1] * 8 + bits[2] * 4 + bits[3] * 2 + bits[4]
  {
    assert bits[..4][..3] == bits[..3] && bits[..3][..2] == bits[..2] && bits[..2][..1] == bits[..1] && bits[..1][..0] == [];
    assert FromBits(bits[..1]) == bits[0];
    assert FromBits(bits[..2]) == bits[0] * 2 + bits[1];
    assert FromBits(bits[..3]) == bits[0] * 4 + bits[1] * 2 + bits[2];
    assert FromBits(bits[..4]) == bits[0] * 8 + bits[1] * 4 + bits[2] * 2 + bits[3];
  }

  lemma {:induction false} GroupsExpand(bits: seq<nat>)
    requires |bits| % 5 == 0 && AreBits(bits)
    ensures Expand(Groups(bits), 5) == bits && Below(Groups(bits), 32)
  {
    if bits != [] {
      FiveBits(bits[..5]);
      BitsOfNumber(bits[..5]);
      GroupsExpand(bits[5..]);
      assert Groups(bits)[1..] == Groups(bits[5..]);
      assert bits == bits[..5] + bits[5..];
    }
  }

  // ---- The encoding ----

  const ALPHABET := "0123456789ABCDEFGHJKMNPQRSTVWXYZ"

  lemma {:induction false} AlphabetOrder(v: nat, w: nat)
    requires v < w < 32
    ensures ALPHABET[v] < ALPHABET[w]
  {
    if v < w - 1 { AlphabetOrder(v, w - 1); }
  }

  function Text(values: seq<nat>): (r: string)
    requires Below(values, 32)
    ensures |r| == |values|
  {
    seq(|values|, i requires 0 <= i < |values| => ALPHABET[values[i]])
  }

  lemma {:induction false} TextOrder(a: seq<nat>, b: seq<nat>)
    requires |a| == |b| && Lex(a, b) && Below(a, 32) && Below(b, 32)
    ensures Less(Text(a), Text(b))
  {
    assert Text(a)[1..] == Text(a[1..]) && Text(b)[1..] == Text(b[1..]);
    if a[0] < b[0] { AlphabetOrder(a[0], b[0]); } else { TextOrder(a[1..], b[1..]); }
  }

  /** The sixteen bytes: the clock, most significant byte first, then the random bytes. */
  function Data(ms: nat, random: seq<nat>): seq<nat> { Bytes(ms, 6) + random }

  predicate AreBytes(s: seq<nat>) { Below(s, 256) }

  function Padded(data: seq<nat>): seq<nat> { [0, 0] + Expand(data, 8) }

  lemma {:induction false} ExpandBits(digits: seq<nat>, m: nat)
    ensures AreBits(Expand(digits, m))
  {
    if digits != [] { ExpandBits(digits[1..], m); }
  }

  lemma PaddedBits(data: seq<nat>)
    requires |data| == 16
    ensures |Padded(data)| == 130 && AreBits(Padded(data))
  {
    ExpandBits(data, 8);
  }

  ghost function Encode(ms: nat, random: seq<nat>): string
    requires |random| == 10
  {
    PaddedBits(Data(ms, random));
    GroupsExpand(Padded(Data(ms, random)));
    Text(Groups(Padded(Data(ms, random))))
  }

  /** `validULID`. */
  predicate ValidUlid(s: string) { |s| == 26 && s[0] <= '7' && forall c <- s :: c in ALPHABET }

  const LIMIT: nat := 0x1_0000_0000_0000

  /** Every encoding is a valid identifier. */
  lemma EncodeIsValid(ms: nat, random: seq<nat>)
    requires |random| == 10
    ensures ValidUlid(Encode(ms, random))
  {
    var bits := Padded(Data(ms, random));
    PaddedBits(Data(ms, random));
    GroupsExpand(bits);
    FiveBits(bits[..5]);
    var values := Groups(bits);
    assert values[0] <= 7;
    AlphabetOrder(values[0], 8);
    if values[0] < 7 { AlphabetOrder(values[0], 7); }
    forall c | c in Text(values) ensures c in ALPHABET {
      var i: nat :| i < |values| && Text(values)[i] == c;
    }
  }

  // ---- What the characters say ----

  /** The place of a character in the alphabet of Crockford's base 32, which has no I, L, O and U. */
  function Place(c: char): nat {
    if '0' <= c <= '9' then c as int - '0' as int
    else if 'A' <= c <= 'H' then c as int - 'A' as int + 10
    else if 'J' <= c <= 'K' then c as int - 'J' as int + 18
    else if 'M' <= c <= 'N' then c as int - 'M' as int + 20
    else if 'P' <= c <= 'T' then c as int - 'P' as int + 22
    else if 'V' <= c <= 'Z' then c as int - 'V' as int + 27
    else 0
  }

  /** The number a text stands for in base 32. */
  function Number(s: string): nat { if s == "" then 0 else Number(s[..|s| - 1]) * 32 + Place(s[|s| - 1]) }

  lemma PlaceOf(v: nat)
    requires v < 32
    ensures Place(ALPHABET[v]) == v
  {
  }

  lemma {:induction false} NumberJoins(a: string, b: string)
    ensures Number(a + b) == Number(a) * Pow2(5 * |b|) + Number(b)
    decreases |b|
  {
    if b == "" {
      assert a + b == a;
    } else {
      assert (a + b)[..|a + b| - 1] == a + b[..|b| - 1];
      NumberJoins(a, b[..|b| - 1]);
      var p := Pow2(5 * (|b| - 1));
      PowSum(5 * (|b| - 1), 5);
      assert Pow2(5) == 32;
      Regroup(Number(a), p, Number(b[..|b| - 1]), 32);
    }
  }

  lemma Regroup(x: nat, p: nat, y: nat, k: nat)
    ensures (x * p + y) * k == x * (p * k) + y * k
  {
  }

  lemma {:induction false} PowSum(i: nat, j: nat)
    ensures Pow2(i + j) == Pow2(i) * Pow2(j)
    decreases j
  {
    if j > 0 { PowSum(i, j - 1); }
  }

  lemma {:induction false} BitsJoin(a: seq<nat>, b: seq<nat>)
    ensures FromBits(a + b) == FromBits(a) * Pow2(|b|) + FromBits(b)
    decreases |b|
  {
    if b == [] {
      assert a + b == a;
    } else {
      assert (a + b)[..|a + b| - 1] == a + b[..|b| - 1];
      BitsJoin(a, b[..|b| - 1]);
      Regroup(FromBits(a), Pow2(|b| - 1), FromBits(b[..|b| - 1]), 2);
    }
  }

  /** Groups of five bits are the same number in base 32. */
  lemma {:induction false} GroupsNumber(bits: seq<nat>)
    requires |bits| % 5 == 0 && AreBits(bits)
    ensures Below(Groups(bits), 32) && Number(Text(Groups(bits))) == FromBits(bits)
    decreases |bits|
  {
    GroupsExpand(bits);
    if bits != [] {
      var first, rest := bits[..5], bits[5..];
      FiveBits(first);
      GroupsExpand(rest);
      GroupsNumber(rest);
      hide FromBits, Number, Groups;
      OneGroup(bits);
      BitsJoin(first, rest);
      assert bits == first + rest;
      NumberJoins([ALPHABET[FromBits(first)]], Text(Groups(rest)));
      OneCharacter(FromBits(first));
    }
  }

  lemma OneGroup(bits: seq<nat>)
    requires |bits| % 5 == 0 && bits != [] && Below(Groups(bits), 32)
    ensures FromBits(bits[..5]) < 32 && Below(Groups(bits[5..]), 32)
    ensures Text(Groups(bits)) == [ALPHABET[FromBits(bits[..5])]] + Text(Groups(bits[5..]))
  {
    hide *;
    var v, rest := FromBits(bits[..5]), Groups(bits[5..]);
    GroupsUnfold(bits);
    BelowParts(v, rest);
    TextJoins(v, rest);
  }

  lemma GroupsUnfold(bits: seq<nat>)
    requires |bits| % 5 == 0 && bits != []
    ensures |bits| >= 5 && Groups(bits) == [FromBits(bits[..5])] + Groups(bits[5..])
  {
    hide FromBits;
  }

  lemma BelowParts(v: nat, rest: seq<nat>)
    requires Below([v] + rest, 32)
    ensures v < 32 && Below(rest, 32)
  {
    assert ([v] + rest)[0] == v && forall i | 0 <= i < |rest| :: ([v] + rest)[i + 1] == rest[i];
  }

  lemma TextJoins(v: nat, rest: seq<nat>)
    requires v < 32 && Below(rest, 32)
    ensures Below([v] + rest, 32) && Text([v] + rest) == [ALPHABET[v]] + Text(rest)
  {
  }

  lemma OneCharacter(v: nat)
    requires v < 32
    ensures Number([ALPHABET[v]]) == v
  {
    PlaceOf(v);
    assert [ALPHABET[v]][..0] == "";
  }

  lemma {:induction false} BitsNumber(n: nat, m: nat)
    requires n < Pow2(m)
    ensures FromBits(Bits(n, m)) == n
  {
    if m > 0 {
      BitsNumber(n / 2, m - 1);
      assert Bits(n, m)[..m - 1] == Bits(n / 2, m - 1);
    }
  }

  lemma {:induction false} BytesJoin(a: seq<nat>, b: seq<nat>)
    ensures FromBytes(a + b) == FromBytes(a) * Pow256(|b|) + FromBytes(b)
    decreases |b|
  {
    if b == [] {
      assert a + b == a;
    } else {
      assert (a + b)[..|a + b| - 1] == a + b[..|b| - 1];
      BytesJoin(a, b[..|b| - 1]);
      Regroup(FromBytes(a), Pow256(|b| - 1), FromBytes(b[..|b| - 1]), 256);
    }
  }

  lemma {:induction false} PowBytes(n: nat)
    ensures Pow2(8 * n) == Pow256(n)
  {
    if n > 0 {
      PowBytes(n - 1);
      PowSum(8 * (n - 1), 8);
      assert Pow2(8) == 256;
    }
  }

  /** Bytes expanded into bits are the same number. */
  lemma {:induction false} ExpandNumber(data: seq<nat>)
    requires AreBytes(data)
    ensures FromBits(Expand(data, 8)) == FromBytes(data)
    decreases |data|
  {
    if data != [] {
      var rest := data[1..];
      assert Pow2(8) == 256;
      BitsNumber(data[0], 8);
      assert AreBytes(rest);
      hide FromBits, FromBytes, Bits, AreBytes, Pow2, Pow256;
      ExpandNumber(rest);
      assert data == [data[0]] + rest;
      OneByte(data[0]);
      BitsJoin(Bits(data[0], 8), Expand(rest, 8));
      BytesJoin([data[0]], rest);
      PowBytes(|rest|);
    }
  }

  lemma OneByte(b: nat)
    ensures FromBytes([b]) == b
  {
    assert [b][..0] == [];
  }

  /** An identifier is its clock and its random bytes as one number in base 32. */
  lemma EncodeIsNumber(ms: nat, random: seq<nat>)
    requires ms < LIMIT && |random| == 10 && AreBytes(random)
    ensures Number(Encode(ms, random)) == ms * 0x1_0000_0000_0000_0000_0000 + FromBytes(random)
  {
    var data := Data(ms, random);
    PaddedBits(data);
    DataNumber(ms, random);
    hide FromBytes, FromBits, Number, Groups, Text, Padded, Data;
    GroupsNumber(Padded(data));
    PaddedNumber(data);
  }

  lemma DataNumber(ms: nat, random: seq<nat>)
    requires ms < LIMIT && |random| == 10 && AreBytes(random)
    ensures AreBytes(Data(ms, random))
    ensures FromBytes(Data(ms, random)) == ms * 0x1_0000_0000_0000_0000_0000 + FromBytes(random)
  {
    hide Bytes, FromBytes;
    Powers();
    hide Pow256;
    NumberOfBytes(ms, 6);
    BytesJoin(Bytes(ms, 6), random);
  }

  lemma Powers()
    ensures Pow256(6) == LIMIT && Pow256(10) == 0x1_0000_0000_0000_0000_0000
  {
    assert Pow256(3) == 0x100_0000;
    assert Pow256(6) == 256 * Pow256(5) == 65536 * Pow256(4) == 0x100_0000 * Pow256(3);
    assert Pow256(9) == 0x100_0000 * Pow256(6);
  }

  lemma PaddedNumber(data: seq<nat>)
    requires AreBytes(data)
    ensures FromBits(Padded(data)) == FromBytes(data)
  {
    hide FromBits, FromBytes, Expand;
    ExpandNumber(data);
    BitsJoin([0, 0], Expand(data, 8));
    ZeroBits();
  }

  lemma ZeroBits()
    ensures FromBits([0, 0]) == 0
  {
    assert [0, 0][..1] == [0] && [0][..0] == [];
  }

  /** Incrementing adds one, unless it wraps round. */
  lemma {:induction false} IncrementAdds(s: seq<nat>)
    requires AreBytes(s) && !Increment(s).1
    ensures FromBytes(Increment(s).0) == FromBytes(s) + 1
  {
    var init, last := s[..|s| - 1], s[|s| - 1];
    if last < 255 {
      assert (init + [last + 1])[..|init|] == init;
    } else {
      IncrementAdds(init);
      assert (Increment(init).0 + [0])[..|init|] == Increment(init).0;
    }
  }

  /** Every bit is set. */
  predicate AllOnes(s: seq<nat>) { forall i | 0 <= i < |s| :: s[i] == 255 }

  predicate Earlier(ms: nat, random: seq<nat>, ms2: nat, random2: seq<nat>) {
    ms < ms2 || (ms == ms2 && Lex(random, random2))
  }

  /** A later pair of clock and random bytes has a greater encoding. */
  lemma EncodeOrder(ms: nat, random: seq<nat>, ms2: nat, random2: seq<nat>)
    requires ms < LIMIT && ms2 < LIMIT && |random| == |random2| == 10 && AreBytes(random) && AreBytes(random2)
    requires Earlier(ms, random, ms2, random2)
    ensures Less(Encode(ms, random), Encode(ms2, random2))
  {
    var a, b := Data(ms, random), Data(ms2, random2);
    if ms < ms2 { BytesOrder(ms, ms2, 6); }
    LexConcat(Bytes(ms, 6), Bytes(ms2, 6), random, random2);
    hide Lex, Bytes, Expand, Groups, Text, Less;
    ExpandOrder(a, b, 8);
    LexConcat([0, 0], [0, 0], Expand(a, 8), Expand(b, 8));
    PaddedBits(a); PaddedBits(b);
    GroupsExpand(Padded(a)); GroupsExpand(Padded(b));
    ExpandReflects(Groups(Padded(a)), Groups(Padded(b)), 5);
    TextOrder(Groups(Padded(a)), Groups(Padded(b)));
  }

  lemma EncodeIsInjective(ms: nat, random: seq<nat>, ms2: nat, random2: seq<nat>)
    requires ms < LIMIT && ms2 < LIMIT && |random| == |random2| == 10 && AreBytes(random) && AreBytes(random2)
    ensures Encode(ms, random) == Encode(ms2, random2) <==> ms == ms2 && random == random2
  {
    LexIsStrict(random, random2);
    hide Encode;
    LessIsStrict(Encode(ms, random), Encode(ms, random));
    if Earlier(ms, random, ms2, random2) { EncodeOrder(ms, random, ms2, random2); }
    if Earlier(ms2, random2, ms, random) { EncodeOrder(ms2, random2, ms, random); }
  }

  // ---- The generator ----

  /** A right shift, as repeated halving. */
  function Shifted(n: nat, places: nat): nat { if places == 0 then n else Shifted(n / 2, places - 1) }

  lemma {:induction false} BitAt(n: nat, m: nat, j: nat)
    requires j < m
    ensures Bits(n, m)[j] == Shifted(n, m - 1 - j) % 2
  {
    if j < m - 1 { BitAt(n / 2, m - 1, j); }
  }

  lemma {:induction false} ExpandByte(digits: seq<nat>, i: nat, j: nat)
    requires i < |digits| && j < 8
    ensures Expand(digits, 8)[8 * i + j] == Bits(digits[i], 8)[j]
  {
    hide Bits;
    if i > 0 {
      ExpandByte(digits[1..], i - 1, j);
      assert Expand(digits, 8)[8 * i + j] == Expand(digits[1..], 8)[8 * (i - 1) + j];
    }
  }

  lemma ExpandAt(digits: seq<nat>, k: nat)
    requires k < 8 * |digits|
    ensures Expand(digits, 8)[k] == Shifted(digits[k / 8], 7 - k % 8) % 2
  {
    hide Expand, Bits, Shifted;
    ExpandByte(digits, k / 8, k % 8);
    BitAt(digits[k / 8], 8, k % 8);
    assert 8 * (k / 8) + k % 8 == k;
  }

  lemma {:induction false} GroupAt(bits: seq<nat>, i: nat)
    requires |bits| % 5 == 0 && i < |bits| / 5
    ensures Groups(bits)[i] == FromBits(bits[i * 5..i * 5 + 5])
  {
    if i > 0 {
      GroupAt(bits[5..], i - 1);
      assert bits[5..][(i - 1) * 5..(i - 1) * 5 + 5] == bits[i * 5..i * 5 + 5];
    }
  }

  /** Adding one to the bytes, and whether it wrapped round to zero. */
  function Increment(s: seq<nat>): (r: (seq<nat>, bool))
    ensures |r.0| == |s|
  {
    if s == [] then ([], true)
    else
      var init, last := s[..|s| - 1], s[|s| - 1];
      if last < 255 then (init + [last + 1], false) else (Increment(init).0 + [0], Increment(init).1)
  }

  /** Unless it wraps round, the incremented bytes come later. */
  lemma {:induction false} IncrementIsLater(s: seq<nat>)
    requires AreBytes(s)
    ensures AreBytes(Increment(s).0) && (!Increment(s).1 ==> Lex(s, Increment(s).0))
    ensures Increment(s).1 <==> AllOnes(s)
  {
    if s != [] {
      var init, last := s[..|s| - 1], s[|s| - 1];
      assert s == init + [last];
      IncrementIsLater(init);
      hide Lex;
      LexConcat(init, Increment(init).0, [last], [0]);
      LexConcat(init, init, [last], [last + 1]);
      if Increment(s).1 { assert forall i | 0 <= i < |init| :: s[i] == init[i]; }
    }
  }

  /** `incrementEntropy`. */
  method IncrementEntropy(value: array<nat>) returns (overflow: bool)
    requires AreBytes(value[..])
    modifies value
    ensures (value[..], overflow) == Increment(old(value[..]))
  {
    ghost var was := value[..];
    var i := value.Length - 1;
    assert was[..i + 1] == was && value[i + 1..] == [] && Increment(was).0 + [] == Increment(was).0;
    while i >= 0
      invariant -1 <= i < value.Length
      invariant value[..i + 1] == was[..i + 1] && forall k | i < k < value.Length :: value[k] == 0
      invariant Increment(was) == (Increment(was[..i + 1]).0 + value[i + 1..], Increment(was[..i + 1]).1)
    {
      value[i] := (value[i] + 1) % 256;
      ghost var head := was[..i + 1];
      assert head[..|head| - 1] == was[..i] && head[|head| - 1] == was[i];
      if value[i] != 0 {
        assert Increment(head) == (was[..i] + [value[i]], false);
        assert value[..] == (was[..i] + [value[i]]) + value[i + 1..];
        return false;
      }
      assert Increment(head).0 + value[i + 1..] == Increment(was[..i]).0 + value[i..];
      i := i - 1;
    }
    assert was[..0] == [] && value[..] == [] + value[0..];
    overflow := true;
  }

  /** `encodeULID`: bit by bit. */
  method EncodeUlid(ms: nat, entropy: array<nat>) returns (id: string)
    requires entropy.Length == 10 && AreBytes(entropy[..])
    ensures id == Encode(ms, entropy[..])
  {
    var data := Bytes(ms, 6) + entropy[..];
    ghost var whole := Encode(ms, entropy[..]);
    EncodeIsValid(ms, entropy[..]);
    hide Bytes, Padded, FromBits, Encode;
    id := "";
    for c := 0 to 26
      invariant id == whole[..c]
    {
      var value := EncodeGroup(data, c);
      EncodeAt(ms, entropy[..], c);
      id := id + [ALPHABET[value]];
    }
    assert whole[..26] == whole;
  }

  lemma EncodeAt(ms: nat, random: seq<nat>, c: nat)
    requires |random| == 10 && c < 26
    ensures var bits := Padded(Data(ms, random));
            |bits| == 130 && FromBits(bits[c * 5..c * 5 + 5]) < 32 && |Encode(ms, random)| == 26
            && Encode(ms, random)[c] == ALPHABET[FromBits(bits[c * 5..c * 5 + 5])]
  {
    var bits := Padded(Data(ms, random));
    PaddedBits(Data(ms, random));
    GroupsExpand(bits);
    hide Padded, Groups, FromBits, Bytes;
    GroupAt(bits, c);
  }

  /** Five bits, the first two of all being zero. */
  method EncodeGroup(data: seq<nat>, character: nat) returns (value: nat)
    requires |data| == 16 && character < 26
    ensures |Padded(data)| == 130 && value == FromBits(Padded(data)[character * 5..character * 5 + 5]) && value < 32
  {
    value := 0;
    PaddedBits(data);
    ghost var group := Padded(data)[character * 5..character * 5 + 5];
    GroupBits(data, character);
    hide Shifted, Padded, FromBits, Below;
    for bit := 0 to 5
      invariant value == FromBits(group[..bit])
    {
      var sourceBit := character * 5 + bit - 2;
      PaddedAt(data, character * 5 + bit);
      NextBit(group, bit);
      value := value * 2;
      if sourceBit >= 0 { value := value + Shifted(data[sourceBit / 8], 7 - sourceBit % 8) % 2; }
    }
    assert group[..5] == group;
    FiveBits(group);
  }

  lemma GroupBits(data: seq<nat>, character: nat)
    requires |data| == 16 && character < 26
    ensures |Padded(data)| == 130 && AreBits(Padded(data)[character * 5..character * 5 + 5])
  {
    PaddedBits(data);
  }

  lemma NextBit(bits: seq<nat>, k: nat)
    requires k < |bits|
    ensures FromBits(bits[..k + 1]) == FromBits(bits[..k]) * 2 + bits[k]
  {
    assert bits[..k + 1][..k] == bits[..k];
  }

  lemma PaddedAt(data: seq<nat>, k: nat)
    requires |data| == 16 && k < 130
    ensures |Padded(data)| == 130
    ensures Padded(data)[k] == if k < 2 then 0 else Shifted(data[(k - 2) / 8], 7 - (k - 2) % 8) % 2
  {
    PaddedBits(data);
    hide Shifted, Expand;
    if k >= 2 { ExpandAt(data, k - 2); }
  }

  /** Clock readings may repeat and go back.  `None` means the readings ran out while it waited. */
  class Generator {
    var readings: seq<nat>
    var entropy: nat -> seq<nat>
    var drawn: nat
    var lastMs: nat
    const random: array<nat>
    var seeded: bool

    ghost predicate Valid() reads this, random {
      && random.Length == 10 && AreBytes(random[..]) && lastMs < LIMIT
      && (forall r <- readings :: r < LIMIT)
      && (forall n :: |entropy(n)| == 10 && AreBytes(entropy(n)))
    }

    constructor (readings: seq<nat>, entropy: nat -> seq<nat>)
      requires (forall r <- readings :: r < LIMIT) && forall n :: |entropy(n)| == 10 && AreBytes(entropy(n))
      ensures Valid() && !seeded && fresh(random)
    {
      this.readings, this.entropy, drawn, lastMs, seeded := readings, entropy, 0, 0, false;
      random := new nat[10](_ => 0);
    }

    method Now() returns (ms: Option<nat>)
      requires Valid()
      modifies this`readings
      ensures Valid() && |readings| <= |old(readings)| && (ms.None? ==> readings == old(readings))
      ensures ms.Some? ==> ms.value < LIMIT && old(readings) == [ms.value] + readings
    {
      if readings == [] { return None; }
      ms := Some(readings[0]);
      assert readings[0] in readings;
      assert forall r <- readings[1..] :: r in readings;
      readings := readings[1..];
    }

    method Draw()
      requires Valid()
      modifies this`drawn, random
      ensures Valid() && random[..] == entropy(old(drawn)) && drawn == old(drawn) + 1
    {
      for i := 0 to 10
        invariant Valid() && drawn == old(drawn) && forall k | 0 <= k < i :: random[k] == entropy(drawn)[k]
      {
        ghost var was := random[..];
        random[i] := entropy(drawn)[i];
        assert random[..] == was[i := entropy(drawn)[i]];
      }
      assert random[..] == entropy(drawn);
      drawn := drawn + 1;
    }

    /** The first `at` of the readings were not after `ms`, the next one was, and the others are left. */
    ghost predicate Waited(before: seq<nat>, ms: nat, at: nat)
      reads this
    {
      && at < |before| && before[at + 1..] == readings && before[at] > ms
      && forall j | 0 <= j < at :: before[j] <= ms
    }

    /** `next`: each identifier is valid and greater than the one before.  Its random bytes are fresh when
        the clock has moved on; while it has not they are counted up by one, and when they wrap round it
        waits until the clock has. */
    method Next() returns (id: Option<string>)
      requires Valid()
      modifies this, random
      ensures Valid() && (id.Some? ==> seeded && id.value == Encode(lastMs, random[..]) && ValidUlid(id.value))
      ensures id.Some? && old(seeded) ==> Less(Encode(old(lastMs), old(random[..])), id.value)
      ensures id.Some? ==> old(readings) != []
      ensures id.Some? && !old(seeded) ==> old(readings) == [lastMs] + readings && random[..] == old(entropy(drawn))
      ensures id.Some? && old(seeded) ==>
                if old(readings)[0] <= old(lastMs) && !AllOnes(old(random[..])) then
                  && lastMs == old(lastMs) && readings == old(readings)[1..]
                  && FromBytes(random[..]) == FromBytes(old(random[..])) + 1
                else
                  && random[..] == old(entropy(drawn))
                  && exists at: nat | Waited(old(readings), old(lastMs), at) :: lastMs == old(readings)[at]
    {
      hide Encode, Less, Lex, Increment, ValidUlid, FromBytes;
      ghost var ms0, random0, readings0 := lastMs, random[..], readings;
      var now := Now();
      if now.None? { return None; }
      if !seeded || now.value > lastMs {
        Draw();
        lastMs, seeded := now.value, true;
        assert old(seeded) ==> Waited(readings0, ms0, 0);
      } else {
        IncrementIsLater(random[..]);
        if !AllOnes(random[..]) { IncrementAdds(random[..]); }
        var overflow := IncrementEntropy(random);
        if overflow {
          now := WaitPast(now.value, readings0);
          if now.None? { return None; }
          Draw();
          lastMs := now.value;
        }
      }
      var text := EncodeUlid(lastMs, random);
      EncodeIsValid(lastMs, random[..]);
      if old(seeded) { EncodeOrder(ms0, random0, lastMs, random[..]); }
      id := Some(text);
    }

    /** Reads the clock until it is past the last identifier. */
    method WaitPast(first: nat, ghost before: seq<nat>) returns (now: Option<nat>)
      requires Valid() && first <= lastMs && before == [first] + readings
      modifies this`readings
      ensures Valid() && (now.Some? ==> now.value < LIMIT)
      ensures now.Some? ==> exists at: nat | Waited(before, lastMs, at) :: now.value == before[at]
    {
      now := Some(first);
      ghost var at := 0;
      while now.Some? && now.value <= lastMs
        invariant Valid() && at < |before| && before[at + 1..] == readings
        invariant now.Some? ==> now.value == before[at] && (at > 0 ==> now.value < LIMIT)
        invariant forall j | 0 <= j < at :: before[j] <= lastMs
        decreases |readings|, if now.Some? then 1 else 0
      {
        now := Now();
        if now.Some? { at := at + 1; }
      }
      assert now.Some? ==> Waited(before, lastMs, at);
    }
  }

  /** Any number of identifiers issued one after another are strictly increasing. */
  method Issue(g: Generator, n: nat) returns (ids: seq<string>)
    requires g.Valid()
    modifies g, g.random
    ensures g.Valid() && |ids| <= n
    ensures forall i, j | 0 <= i < j < |ids| :: Less(ids[i], ids[j])
    ensures forall id <- ids :: ValidUlid(id)
  {
    hide Encode, Less, ValidUlid;
    ids := [];
    while |ids| < n
      invariant g.Valid() && |ids| <= n
      invariant forall i, j | 0 <= i < j < |ids| :: Less(ids[i], ids[j])
      invariant ids != [] ==> g.seeded && ids[|ids| - 1] == Encode(g.lastMs, g.random[..])
      invariant forall id <- ids :: ValidUlid(id)
    {
      var id := g.Next();
      if id.None? { return; }
      forall i | 0 <= i < |ids| ensures Less(ids[i], id.value) {
        if i < |ids| - 1 { LessChains(ids[i], ids[|ids| - 1], id.value); }
      }
      ids := ids + [id.value];
    }
  }
}
