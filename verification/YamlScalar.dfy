/** One line of the configuration file: comments, refused syntax, and scalars.  The main result says
    exactly which strings survive being written on a line and read again. */
module YamlScalar {
  import opened YamlText

  datatype Error =
    | TooLarge | BareReturn | Tab | UnclosedQuote | OddIndent | UnsupportedSyntax | RootNotMapping | Trailing
    | UnexpectedEnd | IndentationJump | MixedCollection | ExpectedKey | InvalidKey | DuplicateKey | MissingNested
    | MalformedSequence | MalformedMarker | MissingItem
    | FlowCollection | BadDoubleQuoted | UnclosedSingle | IntegerRange | NotFinite | Ambiguous

  datatype Result<T> = Ok(value: T) | Err(error: Error)

  /** A decimal is kept as its literal text. */
  datatype Value =
    | Null
    | Bool(b: bool)
    | Int(n: int)
    | Decimal(literal: string)
    | Str(s: string)
    | List(items: seq<Value>)
    | Obj(fields: map<string, Value>)

  datatype Line = Line(indent: nat, text: string)

  // ---- Comments and refused syntax ----

  datatype Quoting = Bare | Single | Double | Escaped

  function Next(q: Quoting, c: char): Quoting {
    match q
    case Bare => if c == '"' then Double else if c == '\'' then Single else Bare
    case Single => if c == '\'' then Bare else Single
    case Double => if c == '\\' then Escaped else if c == '"' then Bare else Double
    case Escaped => Double
  }

  function Scan(q: Quoting, s: string): Quoting
    decreases |s|
  {
    if s == "" then q else Scan(Next(q, s[0]), s[1..])
  }

  /** A comment starts at an unquoted `#` at the beginning or after a blank. */
  function StripFrom(line: string, i: nat, q: Quoting): Result<string>
    requires i <= |line|
    decreases |line| - i
  {
    if i == |line| then (if q == Bare then Ok(line) else Err(UnclosedQuote))
    else if q == Bare && line[i] == '#' && (i == 0 || line[i - 1] == ' ') then Ok(line[..i])
    else StripFrom(line, i + 1, Next(q, line[i]))
  }

  /** A `#` outside quotation marks, at the beginning or after a blank. */
  predicate CommentAt(line: string, k: nat) {
    k < |line| && line[k] == '#' && (k == 0 || line[k - 1] == ' ') && Scan(Bare, line[..k]) == Bare
  }

  /** The line is cut before its first comment; without one it stays whole, unless a quotation mark is
      left open. */
  ghost predicate IsStripped(line: string, r: Result<string>) {
    && (forall k: nat | CommentAt(line, k) && forall j: nat | j < k :: !CommentAt(line, j) :: r == Ok(line[..k]))
    && ((forall k: nat :: !CommentAt(line, k)) ==>
          r == if Scan(Bare, line) == Bare then Ok(line) else Err(UnclosedQuote))
  }

  lemma {:induction false} StripsAt(line: string, i: nat, q: Quoting)
    requires i <= |line| && q == Scan(Bare, line[..i]) && forall j: nat | j < i :: !CommentAt(line, j)
    ensures IsStripped(line, StripFrom(line, i, q))
    decreases |line| - i
  {
    if i == |line| {
      assert line[..i] == line;
    } else if !CommentAt(line, i) {
      assert line[..i + 1] == line[..i] + [line[i]];
      ScanConcat(Bare, line[..i], [line[i]]);
      assert [line[i]][1..] == "";
      StripsAt(line, i + 1, Next(q, line[i]));
    }
  }

  /** `stripYAMLComment`. */
  method StripComment(line: string) returns (r: Result<string>)
    ensures r == StripFrom(line, 0, Bare) && IsStripped(line, r)
  {
    StripsAt(line, 0, Bare);
    hide IsStripped, Scan;
    var single, double, escaped := false, false, false;
    ghost var q := Bare;
    for i := 0 to |line|
      invariant StripFrom(line, 0, Bare) == StripFrom(line, i, q)
      invariant single <==> q == Single
      invariant double <==> q == Double || q == Escaped
      invariant escaped <==> q == Escaped
    {
      var c := line[i];
      if double {
        if escaped { escaped := false; }
        else if c == '\\' { escaped := true; }
        else if c == '"' { double := false; }
      } else if single {
        if c == '\'' { single := false; }
      } else if c == '"' {
        double := true;
      } else if c == '\'' {
        single := true;
      } else if c == '#' && (i == 0 || line[i - 1] == ' ') {
        return Ok(line[..i]);
      }
      q := Next(q, c);
    }
    r := if single || double || escaped then Err(UnclosedQuote) else Ok(line);
  }

  /** `forbiddenYAMLSyntax`. */
  predicate Forbidden(text: string) {
    || text == "---" || text == "..." || HasPrefix(text, "%") || HasPrefix(text, "? ") || HasPrefix(text, "<<:")
    || Contains(text, " &") || Contains(text, " *") || Contains(text, ": !")
    || HasPrefix(text, "&") || HasPrefix(text, "*") || HasPrefix(text, "!")
    || Contains(text, ": |") || Contains(text, ": >")
  }

  /** One line of the file, which may be blank. */
  function LexLine(raw: string): Result<Option<Line>> {
    match StripFrom(raw, 0, Bare)
    case Err(e) => Err(e)
    case Ok(stripped) =>
      var content := TrimBlanks(stripped);
      if TrimSpace(content) == "" then Ok(None)
      else
        var n := Indent(content);
        if n % 2 != 0 then Err(OddIndent)
        else if Forbidden(content[n..]) then Err(UnsupportedSyntax)
        else Ok(Some(Line(n, content[n..])))
  }

  // ---- Scalars ----

  /** `strings.ReplaceAll(s, "''", "'")`. */
  function HalveQuotes(s: string): string {
    if s == "" then ""
    else if HasPrefix(s, "''") then "'" + HalveQuotes(s[2..])
    else [s[0]] + HalveQuotes(s[1..])
  }

  /** `parseYAMLScalar`. */
  function ParseScalar(text: string): Result<Value> {
    if text == "{}" then Ok(Obj(map[]))
    else if text == "[]" then Ok(List([]))
    else if text == "null" then Ok(Null)
    else if text == "true" then Ok(Bool(true))
    else if text == "false" then Ok(Bool(false))
    else if HasPrefix(text, "[") || HasPrefix(text, "{") then Err(FlowCollection)
    else if HasPrefix(text, "\"") then
      match Unquote(text)
      case None => Err(BadDoubleQuoted)
      case Some(s) => Ok(Str(s))
    else if HasPrefix(text, "'") then
      if |text| < 2 || text[|text| - 1] != '\'' then Err(UnclosedSingle)
      else Ok(Str(HalveQuotes(text[1..|text| - 1])))
    else if IntegerPattern(text) then
      if MIN_INT64 <= ParseInt(text) <= MAX_INT64 then Ok(Int(ParseInt(text))) else Err(IntegerRange)
    else if NumberPattern(text) then (if IsFinite(text) then Ok(Decimal(text)) else Err(NotFinite))
    else if Contains(text, ": ") || HasPrefix(text, "- ") || TrimSpace(text) != text then Err(Ambiguous)
    else Ok(Str(text))
  }

  /** `plainSafe`. */
  predicate PlainSafe(text: string) {
    && text != "" && TrimSpace(text) == text && '#' !in text && !Contains(text, ": ")
    && text !in {"{}", "[]", "null", "true", "false"}
    && !IntegerPattern(text) && !NumberPattern(text) && Clean(text)
  }

  /** What the writer puts after a key or in a sequence. */
  predicate Scalar(v: Value) {
    match v
    case Null => true
    case Bool(_) => true
    case Int(n) => MIN_INT64 <= n <= MAX_INT64
    case Str(_) => true
    case _ => false
  }

  /** `emitScalar`. */
  function EmitScalar(v: Value, secret: bool): string
    requires Scalar(v)
  {
    match v
    case Null => "null"
    case Bool(b) => if b then "true" else "false"
    case Int(n) => FormatInt(n)
    case Str(s) => if secret || !PlainSafe(s) then Quote(s) else s
  }

  // ---- Scanning what the writer wrote ----

  /** No unquoted `#`. */
  predicate Hashless(q: Quoting, s: string)
    decreases |s|
  {
    s == "" || (!(q == Bare && s[0] == '#') && Hashless(Next(q, s[0]), s[1..]))
  }

  lemma {:induction false} ScanConcat(q: Quoting, a: string, b: string)
    ensures Scan(q, a + b) == Scan(Scan(q, a), b)
    ensures Hashless(q, a + b) == (Hashless(q, a) && Hashless(Scan(q, a), b))
    decreases |a|
  {
    if a == "" {
      assert a + b == b;
    } else {
      assert (a + b)[1..] == a[1..] + b;
      ScanConcat(Next(q, a[0]), a[1..], b);
    }
  }

  lemma {:induction false} StripHashless(line: string, i: nat, q: Quoting)
    requires i <= |line| && Hashless(q, line[i..])
    ensures StripFrom(line, i, q) == if Scan(q, line[i..]) == Bare then Ok(line) else Err(UnclosedQuote)
    decreases |line| - i
  {
    if i < |line| {
      assert line[i..][1..] == line[i + 1..];
      StripHashless(line, i + 1, Next(q, line[i]));
    }
  }

  lemma {:induction false} ScanPlain(s: string)
    requires '"' !in s && '\'' !in s && '#' !in s
    ensures Scan(Bare, s) == Bare && Hashless(Bare, s)
  {
    if s != "" { ScanPlain(s[1..]); }
  }

  lemma {:induction false} PlainHashless(q: Quoting, s: string)
    requires '#' !in s
    ensures Hashless(q, s)
    decreases |s|
  {
    if s != "" { PlainHashless(Next(q, s[0]), s[1..]); }
  }

  lemma ScanUnicode(n: nat)
    requires n < 0x10000
    ensures Scan(Double, Unicode(n)) == Double && Hashless(Double, Unicode(n))
  {
    var (a, b, c, d) := (Hex(n / 4096), Hex(n / 256 % 16), Hex(n / 16 % 16), Hex(n % 16));
    var u := Unicode(n);
    assert u[1..][1..] == [a, b, c, d];
    assert [a, b, c, d][1..] == [b, c, d];
    assert [b, c, d][1..] == [c, d];
    assert [c, d][1..] == [d];
    assert [d][1..] == "";
    assert Scan(Double, [d]) == Double && Hashless(Double, [d]);
    assert Scan(Double, [c, d]) == Double && Hashless(Double, [c, d]);
    assert Scan(Double, [b, c, d]) == Double && Hashless(Double, [b, c, d]);
    assert Scan(Double, [a, b, c, d]) == Double && Hashless(Double, [a, b, c, d]);
    assert Scan(Escaped, u[1..]) == Double && Hashless(Escaped, u[1..]);
  }

  lemma ScanEscape(c: char)
    ensures Scan(Double, Escape(c)) == Double && Hashless(Double, Escape(c))
  {
    var e := Escape(c);
    if |e| == 1 {
      assert e[1..] == "";
    } else if |e| == 2 {
      assert e[1..][1..] == "";
      assert Scan(Escaped, e[1..]) == Double && Hashless(Escaped, e[1..]);
    } else {
      ScanUnicode(c as int);
    }
  }

  lemma {:induction false} ScanEscapeAll(s: string)
    ensures Scan(Double, EscapeAll(s)) == Double && Hashless(Double, EscapeAll(s))
  {
    if s != "" {
      ScanEscape(s[0]);
      ScanEscapeAll(s[1..]);
      ScanConcat(Double, Escape(s[0]), EscapeAll(s[1..]));
    }
  }

  /** A quoted string opens and closes, whatever it holds. */
  lemma ScanQuote(s: string)
    ensures Scan(Bare, Quote(s)) == Bare && Hashless(Bare, Quote(s))
  {
    ScanEscapeAll(s);
    ScanConcat(Double, EscapeAll(s), "\"");
    assert "\""[1..] == "";
    assert Quote(s)[1..] == EscapeAll(s) + "\"";
  }

  // ---- Quoting hides the refused syntax, except where it does not ----

  /** Characters that stand for themselves in a quoted string and in no escape. */
  predicate Bland(c: char) { c in " *:!|" }

  predicate AllBland(p: string) { forall c <- p :: Bland(c) }

  lemma {:induction false} EscapePrefix(s: string, t: string, p: string)
    requires AllBland(p) && (t == "" || !Bland(t[0]))
    ensures p <= EscapeAll(s) + t <==> p <= s
  {
    if p != "" && s != "" {
      var e := EscapeAll(s) + t;
      assert Bland(p[0]);
      assert e == Escape(s[0]) + (EscapeAll(s[1..]) + t);
      if s[0] == p[0] {
        EscapePrefix(s[1..], t, p[1..]);
        assert e[1..] == EscapeAll(s[1..]) + t;
        assert p <= e <==> p[1..] <= e[1..];
        assert p <= s <==> p[1..] <= s[1..];
      } else {
        assert e[0] != p[0];
      }
    } else if p != "" {
      assert Bland(p[0]);
    }
  }

  lemma EscapeIsBlandOrNot(c: char, p: char)
    requires Bland(p)
    ensures Escape(c) == [p] || p !in Escape(c)
  {
  }

  lemma {:induction false} EscapeContains(s: string, p: string)
    requires AllBland(p) && p != ""
    ensures Contains(EscapeAll(s) + "\"", p) == Contains(s, p)
  {
    hide Escape;
    assert Bland(p[0]);
    var e := EscapeAll(s) + "\"";
    EscapePrefix(s, "\"", p);
    if s == "" {
      assert e[1..] == "";
    } else {
      EscapeContains(s[1..], p);
      var rest := EscapeAll(s[1..]) + "\"";
      assert e == Escape(s[0]) + rest;
      EscapeIsBlandOrNot(s[0], p[0]);
      if Escape(s[0]) == [p[0]] {
        assert e[1..] == rest;
      } else {
        ContainsSkips(Escape(s[0]), rest, p);
        NotPrefix(s, p);
      }
    }
  }

  lemma NotPrefix(s: string, p: string)
    requires AllBland(p) && p != "" && s != "" && Escape(s[0]) != [p[0]]
    ensures !(p <= s)
  {
    assert Bland(p[0]);
  }

  lemma QuoteContains(s: string, p: string)
    requires AllBland(p) && p != ""
    ensures Contains(Quote(s), p) == Contains(s, p)
  {
    EscapeContains(s, p);
    assert Bland(p[0]);
    assert Quote(s)[1..] == EscapeAll(s) + "\"";
  }

  /** `<`, `>` and `&` are always escaped. */
  lemma {:induction false} QuoteHides(s: string, c: char)
    requires c in "<>&"
    ensures c !in EscapeAll(s)
  {
    if s != "" {
      QuoteHides(s[1..], c);
      assert c !in Escape(s[0]);
    }
  }

  lemma {:induction false} ContainsNeeds(s: string, p: string, c: char)
    requires c in p && Contains(s, p)
    ensures c in s
  {
    if !(p <= s) { ContainsNeeds(s[1..], p, c); }
  }
}
