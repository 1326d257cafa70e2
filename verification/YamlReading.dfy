/** What lines mean. */
module YamlReading {
  import opened YamlText
  import opened YamlScalar
  import opened YamlReadBack

  // ---- Quotation marks and comments ----

  /** What stands between double quotation marks: a character, or a backslash and any character. */
  datatype Item = Lit(c: char) | Esc(c: char) {
    predicate Valid() { Lit? ==> c != '"' && c != '\\' }

    function Text(): string { match this case Lit(c) => [c] case Esc(c) => ['\\', c] }
  }

  function ItemsText(items: seq<Item>): string {
    if items == [] then "" else items[0].Text() + ItemsText(items[1..])
  }

  datatype Piece = Open(c: char) | InSingle(s: string) | InDouble(items: seq<Item>) {
    predicate Valid() {
      match this
      case Open(c) => c != '"' && c != '\''
      case InSingle(s) => '\'' !in s
      case InDouble(items) => forall i <- items :: i.Valid()
    }

    function Text(): string {
      match this
      case Open(c) => [c]
      case InSingle(s) => "'" + s + "'"
      case InDouble(items) => "\"" + ItemsText(items) + "\""
    }
  }

  function Joined(ps: seq<Piece>): string { if ps == [] then "" else ps[0].Text() + Joined(ps[1..]) }

  predicate AllValid(ps: seq<Piece>) { forall p <- ps :: p.Valid() }

  lemma {:induction false} ScanSingle(s: string)
    requires '\'' !in s
    ensures Scan(Single, s) == Single && Hashless(Single, s)
  {
    if s != "" { ScanSingle(s[1..]); }
  }

  lemma {:induction false} ScanItems(items: seq<Item>)
    requires forall i <- items :: i.Valid()
    ensures Scan(Double, ItemsText(items)) == Double && Hashless(Double, ItemsText(items))
  {
    if items != [] {
      ScanItem(items[0]);
      ScanItems(items[1..]);
      ScanConcat(Double, items[0].Text(), ItemsText(items[1..]));
    }
  }

  lemma ScanItem(i: Item)
    requires i.Valid()
    ensures Scan(Double, i.Text()) == Double && Hashless(Double, i.Text())
  {
    var t := i.Text();
    if i.Esc? {
      assert t[1..] == [i.c];
      assert [i.c][1..] == "";
      assert Scan(Escaped, [i.c]) == Double && Hashless(Escaped, [i.c]);
    } else {
      assert t[1..] == "";
    }
  }

  /** The quoted parts close again, and hold no comment. */
  lemma ScanPiece(p: Piece)
    requires p.Valid()
    ensures Scan(Bare, p.Text()) == Bare
    ensures Hashless(Bare, p.Text()) <==> p != Open('#')
  {
    var t := p.Text();
    match p
    case Open(c) => assert t[1..] == "";
    case InSingle(s) =>
      ScanSingle(s);
      ScanConcat(Single, s, "'");
      assert t[1..] == s + "'" && "'"[1..] == "";
    case InDouble(items) =>
      ScanItems(items);
      ScanConcat(Double, ItemsText(items), "\"");
      assert t[1..] == ItemsText(items) + "\"" && "\""[1..] == "";
  }

  lemma {:induction false} ScanPieces(ps: seq<Piece>)
    requires AllValid(ps)
    ensures Scan(Bare, Joined(ps)) == Bare
    ensures (forall p <- ps :: p != Open('#')) ==> Hashless(Bare, Joined(ps))
  {
    if ps != [] {
      hide Scan, Hashless, Piece.Text;
      assert ps[0] in ps;
      ScanPiece(ps[0]);
      ScanPieces(ps[1..]);
      ScanConcat(Bare, ps[0].Text(), Joined(ps[1..]));
      if forall p <- ps :: p != Open('#') {
        assert ps[0] != Open('#') && forall p <- ps[1..] :: p in ps;
      }
    }
  }

  lemma {:induction false} HashlessPrefix(q: Quoting, s: string, k: nat)
    requires Hashless(q, s) && k <= |s|
    ensures Hashless(q, s[..k]) && (k < |s| && Scan(q, s[..k]) == Bare ==> s[k] != '#')
    decreases k
  {
    if k > 0 {
      HashlessPrefix(Next(q, s[0]), s[1..], k - 1);
      assert s[..k][1..] == s[1..][..k - 1];
    }
  }

  /** A comment after a text that closes its quotation marks and has no comment itself is cut off. */
  lemma CommentIsCut(text: string, comment: string)
    requires Scan(Bare, text) == Bare && forall j: nat :: !CommentAt(text, j)
    ensures StripFrom(text + " #" + comment, 0, Bare) == Ok(text + " ") && StripFrom(text, 0, Bare) == Ok(text)
  {
    hide Scan, StripFrom;
    var line, k := text + " #" + comment, |text| + 1;
    ScanNothing();
    assert line[..0] == "" && text[..0] == "";
    StripsAt(line, 0, Bare);
    StripsAt(text, 0, Bare);
    assert line[..k] == text + " ";
    ScanConcat(Bare, text, " ");
    ScanBlank();
    assert CommentAt(line, k);
    forall j: nat | j < k ensures !CommentAt(line, j) {
      if j < |text| {
        assert !CommentAt(text, j);
        assert line[..j] == text[..j] && line[j] == text[j];
      }
    }
  }

  /** A `#` inside quotation marks, of either kind, is no comment. */
  lemma QuotedIsNoComment(ps: seq<Piece>)
    requires AllValid(ps) && forall p <- ps :: p != Open('#')
    ensures Scan(Bare, Joined(ps)) == Bare && forall j: nat :: !CommentAt(Joined(ps), j)
  {
    hide Scan, Hashless;
    ScanPieces(ps);
    forall j: nat ensures !CommentAt(Joined(ps), j) {
      if j < |Joined(ps)| { HashlessPrefix(Bare, Joined(ps), j); }
    }
  }

  lemma ScanNothing()
    ensures Scan(Bare, "") == Bare
  {
  }

  lemma ScanBlank()
    ensures Scan(Bare, " ") == Bare && Hashless(Bare, " ")
  {
    assert " "[1..] == "";
  }

  /** A quotation mark that is not closed is an error. */
  lemma OpenQuoteFails(ps: seq<Piece>, single: bool, s: string, items: seq<Item>)
    requires AllValid(ps) && (forall p <- ps :: p != Open('#')) && '\'' !in s && forall i <- items :: i.Valid()
    ensures StripFrom(Joined(ps) + (if single then "'" + s else "\"" + ItemsText(items)), 0, Bare) == Err(UnclosedQuote)
  {
    var rest := if single then "'" + s else "\"" + ItemsText(items);
    ScanSingle(s);
    ScanItems(items);
    assert rest[1..] == if single then s else ItemsText(items);
    assert Scan(Bare, rest) != Bare && Hashless(Bare, rest);
    hide Scan, Hashless, StripFrom;
    var line := Joined(ps) + rest;
    ScanPieces(ps);
    ScanConcat(Bare, Joined(ps), rest);
    assert line[0..] == line;
    StripHashless(line, 0, Bare);
  }

  /** So a line with a comment reads as the line without it. */
  lemma CommentedLine(text: string, comment: string)
    requires Scan(Bare, text) == Bare && forall j: nat :: !CommentAt(text, j)
    ensures LexLine(text + " #" + comment) == LexLine(text)
  {
    hide Forbidden, StripFrom, Scan;
    CommentIsCut(text, comment);
    assert (text + " ")[..|text|] == text;
  }

  // ---- Scalars ----

  /** Between single quotation marks a quotation mark is written twice. */
  function Doubled(s: string): string {
    if s == "" then "" else (if s[0] == '\'' then "''" else [s[0]]) + Doubled(s[1..])
  }

  lemma {:induction false} HalvesDoubled(s: string)
    ensures HalveQuotes(Doubled(s)) == s
  {
    if s != "" {
      var d := Doubled(s);
      HalvesDoubled(s[1..]);
      if s[0] == '\'' {
        assert d[..2] == "''" && d[2..] == Doubled(s[1..]);
      } else {
        assert d[0] == s[0] && d[1..] == Doubled(s[1..]);
      }
      assert [s[0]] + s[1..] == s;
    }
  }

  lemma SingleQuoted(s: string)
    ensures ParseScalar("'" + Doubled(s) + "'") == Ok(Str(s))
  {
    HalvesDoubled(s);
    var text := "'" + Doubled(s) + "'";
    assert text[1..|text| - 1] == Doubled(s);
  }

  // ---- Numbers ----

  lemma {:induction false} FormatParseNat(s: string)
    requires NatPattern(s)
    ensures FormatNat(ParseNat(s)) == s
    decreases |s|
  {
    var init, last := s[..|s| - 1], s[|s| - 1];
    assert s == init + [last] && last in s && IsDigit(last);
    if init == "" {
      assert ParseNat(init) == 0;
    } else {
      assert init[0] == s[0];
      assert NatPattern(init) by { assert forall c <- init :: c in s; }
      FormatParseNat(init);
      assert ParseNat(init) > 0 by { assert FormatNat(0) == "0"; }
      assert ParseNat(s) == ParseNat(init) * 10 + (last as int - '0' as int);
      assert ParseNat(s) / 10 == ParseNat(init);
    }
  }

  function Signed(negative: bool, s: string): string { if negative then "-" + s else s }

  /** Integers are written in decimal, without leading zeros, perhaps with a sign; "-0" is one. */
  lemma IntegerIff(s: string)
    ensures IntegerPattern(s) <==> exists negative, n: nat :: s == Signed(negative, FormatNat(n))
  {
    hide FormatNat;
    var t := Unsigned(s);
    if IntegerPattern(s) {
      FormatParseNat(t);
      assert s == Signed(HasPrefix(s, "-"), FormatNat(ParseNat(t)));
    }
    forall negative, n: nat | s == Signed(negative, FormatNat(n)) ensures IntegerPattern(s) {
      assert IsDigit(FormatNat(n)[0]);
      UnsignedIs(negative, FormatNat(n));
    }
  }

  lemma UnsignedIs(negative: bool, t: string)
    requires t != "" && t[0] != '-'
    ensures var s := Signed(negative, t); (HasPrefix(s, "-") <==> negative) && Unsigned(s) == t
  {
  }

  ghost predicate IsDecimal(s: string, negative: bool, n: nat, d: string) {
    Digits(d) && s == Signed(negative, FormatNat(n) + "." + d)
  }

  /** Decimals are an integer, a point and at least one digit. */
  lemma DecimalIff(s: string)
    ensures NumberPattern(s) <==> exists negative, n: nat, d :: IsDecimal(s, negative, n, d)
  {
    if NumberPattern(s) { DecimalHasParts(s); }
    forall negative, n: nat, d | IsDecimal(s, negative, n, d) ensures NumberPattern(s) {
      PartsAreDecimal(s, negative, n, d);
    }
  }

  lemma DecimalHasParts(s: string)
    requires NumberPattern(s)
    ensures exists negative, n: nat, d :: IsDecimal(s, negative, n, d)
  {
    var t := Unsigned(s);
    var i :| 0 <= i < |t| && PointAt(t, i);
    hide FormatNat, ParseNat, NatPattern, Digits;
    FormatParseNat(t[..i]);
    assert t == t[..i] + "." + t[i + 1..];
    assert IsDecimal(s, HasPrefix(s, "-"), ParseNat(t[..i]), t[i + 1..]);
  }

  lemma PartsAreDecimal(s: string, negative: bool, n: nat, d: string)
    requires IsDecimal(s, negative, n, d)
    ensures NumberPattern(s)
  {
    hide FormatNat;
    var u, k := FormatNat(n) + "." + d, |FormatNat(n)|;
    assert NatPattern(FormatNat(n)) && IsDigit(FormatNat(n)[0]) && u[0] == FormatNat(n)[0];
    hide NatPattern, Digits;
    UnsignedIs(negative, u);
    assert u[k] == '.' && u[..k] == FormatNat(n) && u[k + 1..] == d;
    assert PointAt(u, k);
  }

  lemma NumberCase(s: string)
    requires s != "" && (IsDigit(s[0]) || s[0] == '-') && (IntegerPattern(s) || NumberPattern(s))
    ensures ParseScalar(s) ==
            if !IntegerPattern(s) then (if IsFinite(s) then Ok(Decimal(s)) else Err(NotFinite))
            else if MIN_INT64 <= ParseInt(s) <= MAX_INT64 then Ok(Int(ParseInt(s)))
            else Err(IntegerRange)
  {
    hide IntegerPattern, NumberPattern, IsFinite, ParseInt, Unquote, HalveQuotes;
  }

  /** An integer is read as itself if it fits 64 bits, and refused otherwise. */
  lemma IntegerIsRead(negative: bool, n: nat)
    ensures var v: int := if negative then 0 - n else n;
            ParseScalar(Signed(negative, FormatNat(n))) ==
            if -9223372036854775808 <= v <= 9223372036854775807 then Ok(Int(v)) else Err(IntegerRange)
  {
    hide ParseScalar, FormatNat, ParseNat, IntegerPattern;
    var t := FormatNat(n);
    var s := Signed(negative, t);
    ParseFormatNat(n);
    assert IsDigit(t[0]) && s[0] == (if negative then '-' else t[0]);
    UnsignedIs(negative, t);
    IntegerIff(s);
    NumberCase(s);
  }

  /** A decimal is kept as it is written, unless it is too large for a double: the largest one is
      2^1024 - 2^971, and from half a unit above it a number rounds beyond. */
  lemma DecimalIsRead(negative: bool, n: nat, d: string)
    requires Digits(d)
    ensures var s := Signed(negative, FormatNat(n) + "." + d);
            ParseScalar(s) == if n < Power2(1024) - Power2(970) then Ok(Decimal(s)) else Err(NotFinite)
  {
    hide FormatNat, ParseScalar, Power2, Leading;
    var t := FormatNat(n) + "." + d;
    var s := Signed(negative, t);
    assert IsDigit(FormatNat(n)[0]) && t[0] == FormatNat(n)[0] && s[0] == (if negative then '-' else t[0]);
    UnsignedIs(negative, t);
    assert IsDecimal(s, negative, n, d);
    PartsAreDecimal(s, negative, n, d);
    assert t[|FormatNat(n)|] == '.';
    assert !IntegerPattern(s) by { PointIsNoDigit(t); }
    LeadingIs(n, d);
    hide IntegerPattern, NumberPattern, Digits;
    NumberCase(s);
  }

  lemma {:induction false} LeadingSkips(a: string, b: string, read: nat)
    requires forall c <- a :: IsDigit(c)
    ensures Leading(a + b, read) == Leading(b, Leading(a, read))
    decreases |a|
  {
    if a == "" {
      assert a + b == b;
    } else {
      assert (a + b)[1..] == a[1..] + b && a[0] in a;
      LeadingSkips(a[1..], b, 10 * read + (a[0] as int - '0' as int));
    }
  }

  lemma {:induction false} LeadingOf(n: nat)
    ensures Leading(FormatNat(n), 0) == n
  {
    var s := FormatNat(n);
    if n < 10 {
      assert s[1..] == "";
    } else {
      LeadingOf(n / 10);
      LeadingSkips(FormatNat(n / 10), [Digit(n % 10)], 0);
      assert [Digit(n % 10)][1..] == "";
    }
  }

  lemma LeadingIs(n: nat, d: string)
    ensures Leading(FormatNat(n) + "." + d, 0) == n
  {
    LeadingOf(n);
    LeadingSkips(FormatNat(n), "." + d, 0);
    assert FormatNat(n) + "." + d == FormatNat(n) + ("." + d);
  }

  lemma PointIsNoDigit(t: string)
    requires '.' in t
    ensures !NatPattern(t)
  {
  }

  // ---- Other scalars ----

  predicate OccursAt(p: string, s: string, i: nat) { i <= |s| && p <= s[i..] }

  ghost predicate Occurs(p: string, s: string) { exists i: nat :: OccursAt(p, s, i) }

  lemma {:induction false} ContainsIs(s: string, p: string)
    ensures Contains(s, p) <==> Occurs(p, s)
  {
    assert s[0..] == s;
    if p <= s { assert OccursAt(p, s, 0); }
    if s != "" {
      ContainsIs(s[1..], p);
      if i: nat :| OccursAt(p, s[1..], i) {
        assert s[1..][i..] == s[i + 1..];
        assert OccursAt(p, s, i + 1);
      }
      if i: nat :| OccursAt(p, s, i) {
        if i > 0 {
          assert s[1..][i - 1..] == s[i..];
          assert OccursAt(p, s[1..], i - 1);
        }
      }
    }
  }

  /** What is neither quoted nor a number: the five words and signs, a collection in brackets, which is
      refused, what could be taken for structure, and plain text. */
  lemma PlainIsRead(s: string)
    requires s != "" && s[0] !in "\"'" && !IntegerPattern(s) && !NumberPattern(s)
    ensures ParseScalar(s) ==
            if s == "null" then Ok(Null)
            else if s == "true" then Ok(Bool(true))
            else if s == "false" then Ok(Bool(false))
            else if s == "[]" then Ok(List([]))
            else if s == "{}" then Ok(Obj(map[]))
            else if s[0] in "[{" then Err(FlowCollection)
            else if Occurs(": ", s) || "- " <= s || IsSpace(s[0]) || IsSpace(s[|s| - 1]) then Err(Ambiguous)
            else Ok(Str(s))
  {
    ContainsIs(s, ": ");
    TrimmedIsFixed(s);
    assert s[0] in "\"'" <==> s[0] == '"' || s[0] == '\'';
    hide Contains, Occurs, IntegerPattern, NumberPattern, TrimSpace, IsSpace;
  }

  /** An opening quotation mark without its partner is refused. */
  lemma UnclosedSingleQuote(s: string)
    requires |s| == 0 || s[|s| - 1] != '\''
    ensures ParseScalar("'" + s) == Err(UnclosedSingle)
  {
    var text := "'" + s;
    assert text[0] == '\'' && (s != "" ==> text[|text| - 1] == s[|s| - 1]);
    hide IntegerPattern, NumberPattern, Unquote, HalveQuotes;
  }

  // ---- JSON strings ----

  /** A character of a JSON string as it may be written: itself, a short escape, or its code in four
      hexadecimal digits of either case, or twice four. */
  datatype Written = Itself(c: char) | Short(letter: char, c: char) | Code(digits: string, n: nat) | Pair(high: Written, low: Written)

  /** The value of a hexadecimal numeral. */
  function HexNumber(s: string): int {
    if s == "" then 0 else HexNumber(s[..|s| - 1]) * 16 + HexDigit(s[|s| - 1])
  }

  function HexDigit(c: char): int {
    if '0' <= c <= '9' then c as int - 48 else if 'a' <= c <= 'f' then c as int - 87 else c as int - 55
  }

  predicate IsHex(c: char) { '0' <= c <= '9' || 'a' <= c <= 'f' || 'A' <= c <= 'F' }

  predicate IsCode(w: Written) {
    w.Code? && |w.digits| == 4 && (forall c <- w.digits :: IsHex(c)) && w.n == HexNumber(w.digits) && w.n < 0x10000
  }

  predicate IsWritten(w: Written) {
    match w
    case Itself(c) => c >= ' ' && c != '"' && c != '\\'
    case Short(letter, c) =>
      (letter, c) in {('"', '"'), ('\\', '\\'), ('/', '/'), ('b', '\U{8}'), ('f', '\U{C}'), ('n', '\n'), ('r', '\r'), ('t', '\t')}
    case Code(_, n) => IsCode(w) && !(0xD800 <= n < 0xE000)
    case Pair(high, low) => IsCode(high) && IsCode(low) && 0xD800 <= high.n < 0xDC00 && 0xDC00 <= low.n < 0xE000
  }

  function WrittenText(w: Written): string
    requires IsWritten(w)
  {
    match w
    case Itself(c) => [c]
    case Short(letter, _) => ['\\', letter]
    case Code(digits, _) => "\\u" + digits
    case Pair(high, low) => "\\u" + high.digits + "\\u" + low.digits
  }

  function WrittenChar(w: Written): char
    requires IsWritten(w)
  {
    match w
    case Itself(c) => c
    case Short(_, c) => c
    case Code(_, n) => n as char
    case Pair(high, low) => (0x10000 + (high.n - 0xD800) * 0x400 + (low.n - 0xDC00)) as char
  }

  function WrittenTexts(ws: seq<Written>): string
    requires forall w <- ws :: IsWritten(w)
  {
    if ws == [] then "" else WrittenText(ws[0]) + WrittenTexts(ws[1..])
  }

  function WrittenChars(ws: seq<Written>): string
    requires forall w <- ws :: IsWritten(w)
  {
    if ws == [] then "" else [WrittenChar(ws[0])] + WrittenChars(ws[1..])
  }

  lemma HexStep(s: string, c: char)
    ensures HexNumber(s + [c]) == HexNumber(s) * 16 + HexDigit(c)
  {
    assert (s + [c])[..|s|] == s;
  }

  lemma FourDigits(a: char, b: char, c: char, d: char)
    ensures HexNumber([a, b, c, d]) == HexDigit(a) * 4096 + HexDigit(b) * 256 + HexDigit(c) * 16 + HexDigit(d)
  {
    HexStep("", a);
    HexStep([a], b);
    HexStep([a, b], c);
    HexStep([a, b, c], d);
    hide *;
    assert "" + [a] == [a] && [a] + [b] == [a, b] && [a, b] + [c] == [a, b, c] && [a, b, c] + [d] == [a, b, c, d];
    assert HexNumber("") == 0 by { NoDigits(); }
  }

  lemma NoDigits()
    ensures HexNumber("") == 0
  {
  }

  lemma HexValueIs(c: char)
    requires IsHex(c)
    ensures HexValue(c) == Some(HexDigit(c))
  {
  }

  lemma CodeReads(w: Written, t: string)
    requires IsCode(w)
    ensures HexAt("\\u" + w.digits + t) == Some(w.n)
  {
    var d := w.digits;
    assert d == [d[0], d[1], d[2], d[3]];
    assert d[0] in d && d[1] in d && d[2] in d && d[3] in d;
    hide HexNumber, HexDigit, HexValue, IsHex;
    FourDigits(d[0], d[1], d[2], d[3]);
    HexValueIs(d[0]); HexValueIs(d[1]); HexValueIs(d[2]); HexValueIs(d[3]);
    var s := "\\u" + d + t;
    assert s[2] == d[0] && s[3] == d[1] && s[4] == d[2] && s[5] == d[3];
  }

  lemma CodeIsRead(w: Written, t: string)
    requires IsCode(w) && !Surrogate(w.n)
    ensures Unescape("\\u" + w.digits + t) == Prepend(w.n as char, Unescape(t))
  {
    CodeReads(w, t);
    var s := "\\u" + w.digits + t;
    assert s[0] == '\\' && s[1] == 'u' && s[6..] == t;
    hide HexAt, HexNumber;
  }

  lemma PairIsRead(high: Written, low: Written, t: string)
    requires IsWritten(Pair(high, low))
    ensures Unescape("\\u" + high.digits + ("\\u" + low.digits + t)) == Prepend(WrittenChar(Pair(high, low)), Unescape(t))
  {
    var rest := "\\u" + low.digits + t;
    CodeReads(high, rest);
    CodeReads(low, t);
    var s := "\\u" + high.digits + rest;
    assert s[0] == '\\' && s[1] == 'u' && s[6..] == rest && rest[6..] == t && s[12..] == t;
    hide HexAt, HexNumber;
  }

  lemma WrittenReads(w: Written, t: string)
    requires IsWritten(w)
    ensures Unescape(WrittenText(w) + t) == Prepend(WrittenChar(w), Unescape(t))
  {
    hide Unescape;
    match w
    case Itself(c) => PlainReads(c, t);
    case Short(letter, c) => PairReads(letter, t);
    case Code(digits, n) => CodeIsRead(w, t);
    case Pair(high, low) =>
      PairIsRead(high, low, t);
      assert WrittenText(w) + t == "\\u" + high.digits + ("\\u" + low.digits + t);
  }

  /** However the characters of a double-quoted string are written, they are read. */
  lemma {:induction false} WrittenIsRead(ws: seq<Written>)
    requires forall w <- ws :: IsWritten(w)
    ensures Unescape(WrittenTexts(ws) + "\"") == Some(WrittenChars(ws))
  {
    if ws != [] {
      hide WrittenText, WrittenChar, Unescape;
      var rest := WrittenTexts(ws[1..]) + "\"";
      assert WrittenTexts(ws) + "\"" == WrittenText(ws[0]) + rest;
      WrittenReads(ws[0], rest);
      WrittenIsRead(ws[1..]);
    }
  }

  lemma DoubleQuoted(ws: seq<Written>)
    requires forall w <- ws :: IsWritten(w)
    ensures ParseScalar("\"" + WrittenTexts(ws) + "\"") == Ok(Str(WrittenChars(ws)))
  {
    WrittenIsRead(ws);
    hide WrittenTexts, WrittenChars;
    var s := "\"" + WrittenTexts(ws) + "\"";
    assert s[1..] == WrittenTexts(ws) + "\"";
    DoubleCase(s);
  }

  lemma DoubleCase(s: string)
    requires s != "" && s[0] == '"' && Unescape(s[1..]).Some?
    ensures ParseScalar(s) == Ok(Str(Unescape(s[1..]).value))
  {
    hide Unescape, IntegerPattern, NumberPattern, HalveQuotes, ParseInt;
  }

  // ---- Indentation and refused syntax ----

  /** The syntax that is refused. */
  ghost predicate Refused(text: string) {
    || text == "---" || text == "..."
    || "%" <= text || "? " <= text || "<<:" <= text || "&" <= text || "*" <= text || "!" <= text
    || Occurs(" &", text) || Occurs(" *", text) || Occurs(": !", text) || Occurs(": |", text) || Occurs(": >", text)
  }

  lemma RefusedIs(text: string)
    ensures Refused(text) <==> Forbidden(text)
  {
    ContainsIs(text, " &");
    ContainsIs(text, " *");
    ContainsIs(text, ": !");
    ContainsIs(text, ": |");
    ContainsIs(text, ": >");
    hide Contains, Occurs;
  }

  lemma {:induction false} BlanksTrimmed(s: string, m: nat)
    requires s != "" && s[|s| - 1] != ' '
    ensures TrimBlanks(s + Blanks(m)) == s
  {
    if m == 0 {
      assert s + Blanks(0) == s;
    } else {
      assert (s + Blanks(m))[..|s| + m - 1] == s + Blanks(m - 1);
      BlanksTrimmed(s, m - 1);
    }
  }

  /** A line is its indentation and its text without the blanks at the end. */
  lemma LineIs(n: nat, text: string, m: nat)
    requires text != "" && !IsSpace(text[0]) && text[|text| - 1] != ' '
    requires Scan(Bare, Blanks(n) + text + Blanks(m)) == Bare && forall k: nat :: !CommentAt(Blanks(n) + text + Blanks(m), k)
    ensures LexLine(Blanks(n) + text + Blanks(m)) ==
            if n % 2 == 1 then Err(OddIndent) else if Refused(text) then Err(UnsupportedSyntax) else Ok(Some(Line(n, text)))
  {
    assert text[0] != ' ';
    hide *;
    var content := Blanks(n) + text;
    NotCut(content + Blanks(m));
    BlanksTrimmed(content, m);
    IndentOfBlanks(n, text);
    assert content[n..] == text;
    RefusedIs(text);
    NotBlank(n, text);
    LexedAs(content + Blanks(m), content, n, text);
  }

  lemma NotCut(raw: string)
    requires Scan(Bare, raw) == Bare && forall k: nat :: !CommentAt(raw, k)
    ensures StripFrom(raw, 0, Bare) == Ok(raw)
  {
    hide StripFrom, Scan, CommentAt;
    ScanNothing();
    assert raw[..0] == "";
    StripsAt(raw, 0, Bare);
  }

  lemma NotBlank(n: nat, text: string)
    requires text != "" && !IsSpace(text[0])
    ensures TrimSpace(Blanks(n) + text) != ""
  {
    hide IsSpace;
    var s := Blanks(n) + text;
    assert s[n] == text[0];
    TrimRightKeeps(s, n);
    TrimLeftKeeps(TrimRight(s), n);
  }

  lemma LexedAs(raw: string, content: string, n: nat, text: string)
    requires StripFrom(raw, 0, Bare) == Ok(raw) && TrimBlanks(raw) == content && TrimSpace(content) != ""
    requires Indent(content) == n && content[n..] == text
    ensures LexLine(raw) ==
            if n % 2 == 1 then Err(OddIndent) else if Forbidden(text) then Err(UnsupportedSyntax) else Ok(Some(Line(n, text)))
  {
    hide StripFrom, Forbidden, TrimSpace, TrimBlanks, Indent;
  }

  /** A line of blanks is no line. */
  lemma BlankLineIs(n: nat)
    ensures LexLine(Blanks(n)) == Ok(None)
  {
    hide Forbidden;
    ScanPlain(Blanks(n));
    assert Blanks(n)[0..] == Blanks(n);
    StripHashless(Blanks(n), 0, Bare);
    NoBlanksLeft(n);
  }

  lemma {:induction false} NoBlanksLeft(n: nat)
    ensures TrimBlanks(Blanks(n)) == ""
  {
    if n > 0 {
      assert Blanks(n)[..n - 1] == Blanks(n - 1);
      NoBlanksLeft(n - 1);
    }
  }
}
