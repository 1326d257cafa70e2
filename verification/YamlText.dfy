/** The string operations the configuration reader and writer are built from, and the JSON string
    codec they quote with.  A string is a sequence of Unicode scalar values. */
module YamlText {

  datatype Option<T> = None | Some(value: T)

  predicate Contains(s: string, p: string) {
    p <= s || (s != "" && Contains(s[1..], p))
  }

  predicate HasPrefix(s: string, p: string) { p <= s }

  /** Unicode white space, as `unicode.IsSpace` has it. */
  predicate IsSpace(c: char) {
    || '\t' <= c <= '\r' || c == ' ' || c == '\U{85}' || c == '\U{A0}' || c == '\U{1680}'
    || '\U{2000}' <= c <= '\U{200A}' || c == '\U{2028}' || c == '\U{2029}' || c == '\U{202F}'
    || c == '\U{205F}' || c == '\U{3000}'
  }

  function TrimRight(s: string): (r: string)
    ensures r <= s && (r != "" ==> !IsSpace(r[|r| - 1]))
  {
    if s != "" && IsSpace(s[|s| - 1]) then TrimRight(s[..|s| - 1]) else s
  }

  function TrimLeft(s: string): (r: string)
    ensures r != "" ==> !IsSpace(r[0])
  {
    if s != "" && IsSpace(s[0]) then TrimLeft(s[1..]) else s
  }

  function TrimSpace(s: string): string { TrimLeft(TrimRight(s)) }

  /** Neither end is white space. */
  predicate Trimmed(s: string) { s == "" || (!IsSpace(s[0]) && !IsSpace(s[|s| - 1])) }

  lemma TrimmedIsFixed(s: string)
    ensures Trimmed(s) <==> TrimSpace(s) == s
  {
    if s != "" && IsSpace(s[|s| - 1]) {
      TrimLeftShortens(TrimRight(s));
    }
  }

  lemma {:induction false} TrimLeftShortens(s: string)
    ensures |TrimLeft(s)| <= |s| && (s != "" && IsSpace(s[0]) ==> |TrimLeft(s)| < |s|)
  {
    if s != "" && IsSpace(s[0]) { TrimLeftShortens(s[1..]); }
  }

  lemma TrimBlankBefore(s: string)
    requires Trimmed(s) && s != ""
    ensures TrimSpace(" " + s) == s
  {
    assert (" " + s)[1..] == s;
    assert (" " + s)[|s|] == s[|s| - 1];
    assert TrimRight(" " + s) == " " + s;
    assert TrimLeft(s) == s;
  }

  /** `strings.TrimRight(s, " ")`. */
  function TrimBlanks(s: string): string {
    if s != "" && s[|s| - 1] == ' ' then TrimBlanks(s[..|s| - 1]) else s
  }

  function Blanks(n: nat): (r: string)
    ensures |r| == n && forall c <- r :: c == ' '
  {
    seq(n, _ => ' ')
  }

  /** How far a line is indented. */
  function Indent(s: string): (n: nat)
    ensures n <= |s| && (n < |s| ==> s[n] != ' ')
  {
    if s != "" && s[0] == ' ' then 1 + Indent(s[1..]) else 0
  }

  lemma {:induction false} IndentOfBlanks(n: nat, s: string)
    requires s != "" && s[0] != ' '
    ensures Indent(Blanks(n) + s) == n
  {
    if n > 0 {
      assert (Blanks(n) + s)[1..] == Blanks(n - 1) + s;
      IndentOfBlanks(n - 1, s);
    }
  }

  /** The pattern cannot start inside a head that lacks its first character. */
  lemma {:induction false} ContainsSkips(head: string, s: string, p: string)
    requires p != "" && p[0] !in head
    ensures Contains(head + s, p) == Contains(s, p)
  {
    if head == "" {
      assert head + s == s;
    } else {
      assert (head + s)[1..] == head[1..] + s;
      assert head[0] in head;
      ContainsSkips(head[1..], s, p);
    }
  }

  lemma {:induction false} TrimLeftKeeps(s: string, i: nat)
    requires i < |s| && !IsSpace(s[i])
    ensures TrimLeft(s) != ""
  {
    if i > 0 { TrimLeftKeeps(s[1..], i - 1); }
  }

  // ---- Lines ----

  function SplitLines(s: string): (r: seq<string>)
    ensures |r| > 0
  {
    if s == "" then [""]
    else if s[0] == '\n' then [""] + SplitLines(s[1..])
    else
      var r := SplitLines(s[1..]);
      [[s[0]] + r[0]] + r[1..]
  }

  function Unlines(lines: seq<string>): string {
    if lines == [] then "" else lines[0] + "\n" + Unlines(lines[1..])
  }

  lemma {:induction false} UnlinesConcat(a: seq<string>, b: seq<string>)
    ensures Unlines(a + b) == Unlines(a) + Unlines(b)
  {
    if a == [] {
      assert a + b == b;
    } else {
      assert (a + b)[1..] == a[1..] + b;
      UnlinesConcat(a[1..], b);
      assert a[0] + "\n" + (Unlines(a[1..]) + Unlines(b)) == (a[0] + "\n" + Unlines(a[1..])) + Unlines(b);
    }
  }

  lemma {:induction false} SplitFirst(line: string, s: string)
    requires '\n' !in line
    ensures SplitLines(line + "\n" + s) == [line] + SplitLines(s)
  {
    var t := line + "\n" + s;
    if line == "" {
      assert t[1..] == s;
    } else {
      assert t[1..] == line[1..] + "\n" + s;
      SplitFirst(line[1..], s);
      assert [line[0]] + line[1..] == line;
    }
  }

  lemma {:induction false} SplitUnlines(lines: seq<string>)
    requires forall l <- lines :: '\n' !in l
    ensures SplitLines(Unlines(lines)) == lines + [""]
  {
    if lines != [] {
      SplitUnlines(lines[1..]);
      SplitFirst(lines[0], Unlines(lines[1..]));
      assert [lines[0]] + (lines[1..] + [""]) == lines + [""];
    }
  }

  /** Text free of tabs and line breaks. */
  predicate Clean(s: string) {
    '\n' !in s && '\r' !in s && '\t' !in s
  }

  predicate AllClean(lines: seq<string>) { forall l <- lines :: Clean(l) }

  lemma {:induction false} UnlinesClean(lines: seq<string>)
    requires AllClean(lines)
    ensures '\r' !in Unlines(lines) && '\t' !in Unlines(lines)
  {
    if lines != [] {
      UnlinesClean(lines[1..]);
      assert Clean(lines[0]);
    }
  }

  // ---- Integers ----

  const MIN_INT64: int := -0x8000_0000_0000_0000
  const MAX_INT64: int := 0x7FFF_FFFF_FFFF_FFFF

  predicate IsDigit(c: char) { '0' <= c <= '9' }

  predicate Digits(s: string) { s != "" && forall c <- s :: IsDigit(c) }

  function Digit(n: nat): (c: char)
    requires n < 10
    ensures IsDigit(c) && c as int == '0' as int + n
  {
    ('0' as int + n) as char
  }

  function FormatNat(n: nat): (r: string)
    ensures Digits(r) && (r[0] == '0' ==> |r| == 1)
    ensures n > 0 ==> r[0] != '0'
  {
    if n < 10 then [Digit(n)] else FormatNat(n / 10) + [Digit(n % 10)]
  }

  function FormatInt(n: int): string { if n < 0 then "-" + FormatNat(-n) else FormatNat(n) }

  function ParseNat(s: string): nat
    requires forall c <- s :: IsDigit(c)
  {
    if s == "" then 0
    else
      assert IsDigit(s[|s| - 1]);
      ParseNat(s[..|s| - 1]) * 10 + (s[|s| - 1] as int - '0' as int)
  }

  lemma {:induction false} ParseFormatNat(n: nat)
    ensures ParseNat(FormatNat(n)) == n
  {
    var s := FormatNat(n);
    if n < 10 {
      assert s[..0] == "";
    } else {
      assert s[..|s| - 1] == FormatNat(n / 10);
      ParseFormatNat(n / 10);
    }
  }

  /** `^(0|[1-9][0-9]*)$` */
  predicate NatPattern(s: string) { Digits(s) && (s[0] == '0' ==> |s| == 1) }

  function Unsigned(s: string): string { if HasPrefix(s, "-") then s[1..] else s }

  /** `^-?(0|[1-9][0-9]*)$` */
  predicate IntegerPattern(s: string) { NatPattern(Unsigned(s)) }

  /** A decimal point with an integer before it and digits after it. */
  predicate PointAt(s: string, i: nat) { i < |s| && s[i] == '.' && NatPattern(s[..i]) && Digits(s[i + 1..]) }

  /** `^-?(0|[1-9][0-9]*)\.[0-9]+$` */
  predicate NumberPattern(s: string) { exists i | 0 <= i < |Unsigned(s)| :: PointAt(Unsigned(s), i) }

  /** The number the digits at the head of the text stand for, after those already read. */
  function Leading(s: string, read: nat): nat {
    if s == "" || !IsDigit(s[0]) then read else Leading(s[1..], 10 * read + (s[0] as int - '0' as int))
  }

  function Power2(n: nat): nat { if n == 0 then 1 else 2 * Power2(n - 1) }

  /** From half a unit past the largest one, decimals are too large for a double. */
  predicate IsFinite(s: string) { Leading(Unsigned(s), 0) < Power2(1024) - Power2(970) }

  function ParseInt(s: string): int
    requires IntegerPattern(s)
  {
    if HasPrefix(s, "-") then 0 - ParseNat(s[1..]) else ParseNat(s)
  }

  lemma ParseFormatInt(n: int)
    ensures IntegerPattern(FormatInt(n)) && ParseInt(FormatInt(n)) == n
  {
    if n < 0 {
      ParseFormatNat(-n);
      assert FormatInt(n)[1..] == FormatNat(-n);
    } else {
      ParseFormatNat(n);
      assert IsDigit(FormatNat(n)[0]);
    }
  }

  // ---- JSON strings ----

  function Hex(n: nat): char
    requires n < 16
  {
    if n < 10 then ('0' as int + n) as char else ('a' as int + n - 10) as char
  }

  function HexValue(c: char): (r: Option<nat>)
    ensures r.Some? ==> r.value < 16
  {
    if '0' <= c <= '9' then Some(c as int - '0' as int)
    else if 'a' <= c <= 'f' then Some(c as int - 'a' as int + 10)
    else if 'A' <= c <= 'F' then Some(c as int - 'A' as int + 10)
    else None
  }

  function Unicode(n: nat): string
    requires n < 0x10000
  {
    ['\\', 'u', Hex(n / 4096), Hex(n / 256 % 16), Hex(n / 16 % 16), Hex(n % 16)]
  }

  /** One character as `json.Marshal` writes it. */
  function Escape(c: char): string {
    if c == '"' then "\\\""
    else if c == '\\' then "\\\\"
    else if c == '\n' then "\\n"
    else if c == '\r' then "\\r"
    else if c == '\t' then "\\t"
    else if c == '\U{8}' then "\\b"
    else if c == '\U{C}' then "\\f"
    else if c < ' ' || c in "<>&" || c == '\U{2028}' || c == '\U{2029}' then Unicode(c as int)
    else [c]
  }

  function EscapeAll(s: string): string {
    if s == "" then "" else Escape(s[0]) + EscapeAll(s[1..])
  }

  function Quote(s: string): string { "\"" + EscapeAll(s) + "\"" }

  function Surrogate(n: nat): bool { 0xD800 <= n < 0xE000 }

  /** `\uXXXX` at the head of the text. */
  function HexAt(s: string): (r: Option<nat>)
    ensures r.Some? ==> r.value < 0x10000 && |s| >= 6
  {
    if |s| < 6 || s[0] != '\\' || s[1] != 'u' then None
    else
      var (a, b, c, d) := (HexValue(s[2]), HexValue(s[3]), HexValue(s[4]), HexValue(s[5]));
      if a.Some? && b.Some? && c.Some? && d.Some? then
        Some(a.value * 4096 + b.value * 256 + c.value * 16 + d.value)
      else None
  }

  function Simple(c: char): Option<char> {
    if c in "\"\\/" then Some(c)
    else if c == 'b' then Some('\U{8}')
    else if c == 'f' then Some('\U{C}')
    else if c == 'n' then Some('\n')
    else if c == 'r' then Some('\r')
    else if c == 't' then Some('\t')
    else None
  }

  /** The body of a JSON string up to the closing quotation mark, which must end the text.  An
      unpaired surrogate becomes U+FFFD. */
  function Unescape(s: string): Option<string>
    decreases |s|
  {
    if s == "" then None
    else if s[0] == '"' then (if |s| == 1 then Some("") else None)
    else if s[0] < ' ' then None
    else if s[0] != '\\' then Prepend(s[0], Unescape(s[1..]))
    else if |s| >= 2 && Simple(s[1]).Some? then Prepend(Simple(s[1]).value, Unescape(s[2..]))
    else match HexAt(s)
         case None => None
         case Some(n) =>
           if !Surrogate(n) then Prepend(n as char, Unescape(s[6..]))
           else match HexAt(s[6..])
                case Some(m) =>
                  if n < 0xDC00 && 0xDC00 <= m < 0xE000 then
                    Prepend((0x10000 + (n - 0xD800) * 0x400 + (m - 0xDC00)) as char, Unescape(s[12..]))
                  else Prepend('\U{FFFD}', Unescape(s[6..]))
                case None => Prepend('\U{FFFD}', Unescape(s[6..]))
  }

  function Prepend(c: char, r: Option<string>): Option<string> {
    match r
    case None => None
    case Some(s) => Some([c] + s)
  }

  /** `json.Unmarshal` of a text that starts with a quotation mark. */
  function Unquote(s: string): Option<string>
    requires HasPrefix(s, "\"")
  {
    Unescape(s[1..])
  }

  lemma HexReads(n: nat)
    requires n < 16
    ensures HexValue(Hex(n)) == Some(n)
  {
  }

  lemma HexDigits(n: nat)
    requires n < 0x10000
    ensures n / 4096 < 16 && n == n / 4096 * 4096 + n / 256 % 16 * 256 + n / 16 % 16 * 16 + n % 16
  {
    assert n / 256 == n / 16 / 16 && n / 4096 == n / 256 / 16;
  }

  lemma UnicodeReads(n: nat, t: string)
    requires n < 0x10000
    ensures HexAt(Unicode(n) + t) == Some(n)
  {
    hide Hex, HexValue;
    HexDigits(n);
    var (a, b, c, d) := (n / 4096, n / 256 % 16, n / 16 % 16, n % 16);
    HexReads(a); HexReads(b); HexReads(c); HexReads(d);
    var s := Unicode(n) + t;
    assert s[2] == Hex(a) && s[3] == Hex(b) && s[4] == Hex(c) && s[5] == Hex(d);
  }

  lemma PlainReads(c: char, t: string)
    requires c >= ' ' && c != '"' && c != '\\'
    ensures Unescape([c] + t) == Prepend(c, Unescape(t))
  {
    assert ([c] + t)[1..] == t;
  }

  lemma PairReads(e: char, t: string)
    requires Simple(e).Some?
    ensures Unescape(['\\', e] + t) == Prepend(Simple(e).value, Unescape(t))
  {
    hide Simple;
    assert (['\\', e] + t)[2..] == t;
  }

  lemma EscapeReads(c: char, t: string)
    ensures Unescape(Escape(c) + t) == Prepend(c, Unescape(t))
  {
    hide Unescape;
    if |Escape(c)| == 1 {
      PlainReads(c, t);
    } else if |Escape(c)| == 2 {
      assert Escape(c) == ['\\', Escape(c)[1]];
      PairReads(Escape(c)[1], t);
    } else {
      LongEscapeReads(c, t);
    }
  }

  lemma LongEscapeReads(c: char, t: string)
    requires c as int < 0x10000 && Escape(c) == Unicode(c as int)
    ensures Unescape(Escape(c) + t) == Prepend(c, Unescape(t))
  {
    UnicodeReads(c as int, t);
    var s := Unicode(c as int) + t;
    assert s[0] == '\\' && s[1] == 'u' && s[6..] == t;
    assert !Surrogate(c as int);
    hide HexAt, Unicode, Escape;
  }

  lemma {:induction false} UnescapeEscape(s: string)
    ensures Unescape(EscapeAll(s) + "\"") == Some(s)
  {
    if s != "" {
      assert EscapeAll(s) + "\"" == Escape(s[0]) + (EscapeAll(s[1..]) + "\"");
      EscapeReads(s[0], EscapeAll(s[1..]) + "\"");
      UnescapeEscape(s[1..]);
      assert [s[0]] + s[1..] == s;
    }
  }

  /** Decoding what was encoded gives the string back. */
  lemma QuoteRoundTrip(s: string)
    ensures HasPrefix(Quote(s), "\"") && Unquote(Quote(s)) == Some(s)
  {
    UnescapeEscape(s);
    assert Quote(s)[1..] == EscapeAll(s) + "\"";
  }

  /** Decoding shortens: no text that starts with a quotation mark reads as itself. */
  lemma {:induction false} UnescapeShortens(s: string)
    ensures Unescape(s).Some? ==> |Unescape(s).value| < |s|
    decreases |s|
  {
    if |s| > 1 && s[0] != '"' {
      UnescapeShortens(s[1..]);
      UnescapeShortens(s[2..]);
      if |s| >= 6 { UnescapeShortens(s[6..]); }
      if |s| >= 12 { UnescapeShortens(s[12..]); }
    }
  }
}
