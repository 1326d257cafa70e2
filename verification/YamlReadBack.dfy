/** Exactly which scalars are read back from the line they were written on. */
module YamlReadBack {
  import opened YamlText
  import opened YamlScalar

  predicate IsLetter(c: char) { 'A' <= c <= 'Z' || 'a' <= c <= 'z' }

  /** `^[A-Za-z][A-Za-z0-9]*$` */
  predicate ValidKey(key: string) {
    key != "" && IsLetter(key[0]) && forall c <- key :: IsLetter(c) || IsDigit(c)
  }

  datatype Place = AfterKey(key: string) | InSequence {
    predicate Valid() { AfterKey? ==> ValidKey(key) }

    function Head(): string {
      match this
      case AfterKey(key) => key + ": "
      case InSequence => "- "
    }
  }

  /** The strings that survive, as a test on the string alone. */
  predicate Readable(place: Place, secret: bool, s: string) {
    if secret || !PlainSafe(s) then
      !Contains(s, " *") && !Contains(s, ": !") && !Contains(s, ": |")
    else
      && Scan(Bare, s) == Bare
      && s[0] !in "\"'[{&*" && !HasPrefix(s, "- ")
      && !Contains(s, " &") && !Contains(s, " *")
      && (place.AfterKey? ==> s[0] !in "!|>")
  }

  // ---- The line a scalar is written on ----

  lemma HeadFacts(place: Place)
    requires place.Valid()
    ensures var h := place.Head();
            |h| >= 2 && h[0] != ' ' && h[|h| - 1] == ' ' && '"' !in h && '\'' !in h && '#' !in h && Clean(h)
  {
  }

  lemma ScanBlanks(n: nat, text: string)
    requires '"' !in text && '\'' !in text && '#' !in text
    ensures Scan(Bare, Blanks(n) + text) == Bare && Hashless(Bare, Blanks(n) + text)
  {
    ScanPlain(Blanks(n) + text);
  }

  /** What a line is read as when it has no comment. */
  lemma LexText(n: nat, text: string)
    requires n % 2 == 0 && text != "" && !IsSpace(text[0]) && text[|text| - 1] != ' ' && Hashless(Bare, Blanks(n) + text)
    ensures LexLine(Blanks(n) + text) ==
            (if Scan(Bare, Blanks(n) + text) != Bare then Err(UnclosedQuote)
             else if Forbidden(text) then Err(UnsupportedSyntax)
             else Ok(Some(Line(n, text))))
  {
    hide Forbidden;
    var raw := Blanks(n) + text;
    assert raw[0..] == raw;
    StripHashless(raw, 0, Bare);
    assert raw[|raw| - 1] == text[|text| - 1];
    assert TrimBlanks(raw) == raw;
    IndentOfBlanks(n, text);
    assert raw[n..] == text;
    var t := TrimRight(raw);
    assert !IsSpace(raw[n]);
    TrimRightKeeps(raw, n);
    assert t[n] == raw[n];
    TrimLeftKeeps(t, n);
  }

  lemma {:induction false} TrimRightKeeps(s: string, i: nat)
    requires i < |s| && !IsSpace(s[i])
    ensures i < |TrimRight(s)|
  {
    if IsSpace(s[|s| - 1]) { TrimRightKeeps(s[..|s| - 1], i); }
  }

  lemma LexScalar(place: Place, n: nat, e: string)
    requires place.Valid() && n % 2 == 0 && e != "" && Trimmed(e) && Hashless(Bare, e)
    ensures LexLine(Blanks(n) + (place.Head() + e)) ==
            (if Scan(Bare, e) != Bare then Err(UnclosedQuote)
             else if Forbidden(place.Head() + e) then Err(UnsupportedSyntax)
             else Ok(Some(Line(n, place.Head() + e))))
  {
    var h := place.Head();
    HeadFacts(place);
    ScanBlanks(n, h);
    hide Forbidden, LexLine, Place.Head;
    ScanConcat(Bare, Blanks(n) + h, e);
    assert Blanks(n) + (h + e) == (Blanks(n) + h) + e;
    assert !IsSpace(h[0]) by { HeadStarts(place); }
    LexText(n, h + e);
  }

  lemma HeadStarts(place: Place)
    requires place.Valid()
    ensures !IsSpace(place.Head()[0])
  {
  }

  // ---- The refused syntax of such a line ----

  lemma ContainsAfterHead(place: Place, e: string, p: string)
    requires place.Valid() && |p| >= 2 && p[0] in ": " && p[1] in " &*"
    ensures Contains(place.Head() + e, p) <==>
            (p[0] == ' ' && p[1..] <= e) || (p[0] == ':' && p[1] == ' ' && place.AfterKey? && p[2..] <= e) || Contains(e, p)
  {
    var last := " " + e;
    assert last[1..] == e;
    assert Contains(last, p) == (p <= last || Contains(e, p));
    assert p <= last <==> p[0] == ' ' && p[1..] <= e by { Headed(p, ' ', e); }
    match place
    case InSequence =>
      assert ("- " + e)[1..] == last;
      assert "- " + e == ['-'] + last;
      Headed(p, '-', last);
    case AfterKey(key) =>
      var colon := ":" + last;
      assert colon[1..] == last;
      assert p <= colon <==> p[0] == ':' && p[1..] <= last by { Headed(p, ':', last); }
      assert p[1..] <= last <==> p[1] == ' ' && p[2..] <= e by { Headed(p[1..], ' ', e); assert p[1..][1..] == p[2..]; }
      assert key + ": " + e == key + colon;
      ContainsSkips(key, colon, p);
  }

  lemma Headed(p: string, c: char, s: string)
    requires p != ""
    ensures p <= [c] + s <==> p[0] == c && p[1..] <= s
  {
    var t := [c] + s;
    assert t[1..] == s;
    assert p == [p[0]] + p[1..];
    if p <= t {
      assert p == t[..|p|];
      assert p[1..] == s[..|p| - 1];
    }
  }

  lemma ForbiddenLine(place: Place, e: string)
    requires place.Valid() && e != ""
    ensures Forbidden(place.Head() + e) <==>
            || e[0] in "&*" || Contains(e, " &") || Contains(e, " *")
            || Contains(e, ": !") || Contains(e, ": |") || Contains(e, ": >")
            || (place.AfterKey? && e[0] in "!|>")
  {
    hide Contains;
    ContainsAfterHead(place, e, " &");
    ContainsAfterHead(place, e, " *");
    ContainsAfterHead(place, e, ": !");
    ContainsAfterHead(place, e, ": |");
    ContainsAfterHead(place, e, ": >");
    var t := place.Head() + e;
    assert " &"[1..] == "&" && " *"[1..] == "*" && ": !"[2..] == "!" && ": |"[2..] == "|" && ": >"[2..] == ">";
    assert t[0] != '%' && t[0] != '?' && t[0] != '<' && t[0] != '&' && t[0] != '*' && t[0] != '!';
    assert t != "---" && t != "..." by { if place.AfterKey? { assert IsLetter(t[0]); } else { assert t[1] == ' '; } }
  }

  // ---- Strings written in quotes ----

  lemma QuotedLine(place: Place, n: nat, s: string)
    requires place.Valid() && n % 2 == 0
    ensures LexLine(Blanks(n) + (place.Head() + Quote(s))) ==
            (if Contains(s, " *") || Contains(s, ": !") || Contains(s, ": |") then Err(UnsupportedSyntax)
             else Ok(Some(Line(n, place.Head() + Quote(s)))))
  {
    hide LexLine, Forbidden, Contains, Place.Head;
    var e := Quote(s);
    ScanQuote(s);
    LexScalar(place, n, e);
    ForbiddenLine(place, e);
    QuoteContains(s, " *");
    QuoteContains(s, ": !");
    QuoteContains(s, ": |");
    QuoteHides(s, '&');
    QuoteHides(s, '>');
    if Contains(e, " &") { ContainsNeeds(e, " &", '&'); }
    if Contains(e, ": >") { ContainsNeeds(e, ": >", '>'); }
  }

  lemma QuotedScalar(s: string)
    ensures ParseScalar(Quote(s)) == Ok(Str(s))
  {
    QuoteRoundTrip(s);
    hide Quote, Unquote;
    assert Quote(s)[0] == '"';
  }

  // ---- Strings written plainly ----

  lemma PlainLine(place: Place, n: nat, s: string)
    requires place.Valid() && n % 2 == 0 && PlainSafe(s)
    ensures LexLine(Blanks(n) + (place.Head() + s)) ==
            (if Scan(Bare, s) != Bare then Err(UnclosedQuote)
             else if s[0] in "&*" || Contains(s, " &") || Contains(s, " *") || (place.AfterKey? && s[0] in "!|>")
               then Err(UnsupportedSyntax)
             else Ok(Some(Line(n, place.Head() + s))))
  {
    PlainFacts(s);
    hide PlainSafe, LexLine, Forbidden, Contains, Place.Head, Scan, Trimmed;
    LexScalar(place, n, s);
    ForbiddenLine(place, s);
  }

  lemma PlainFacts(s: string)
    requires PlainSafe(s)
    ensures s != "" && Trimmed(s) && Hashless(Bare, s)
    ensures !Contains(s, ": !") && !Contains(s, ": |") && !Contains(s, ": >")
  {
    hide Contains, IntegerPattern, NumberPattern;
    PlainHashless(Bare, s);
    TrimmedIsFixed(s);
    if Contains(s, ": !") { ContainsPrefix(s, ": !", ": "); }
    if Contains(s, ": |") { ContainsPrefix(s, ": |", ": "); }
    if Contains(s, ": >") { ContainsPrefix(s, ": >", ": "); }
  }

  lemma {:induction false} ContainsPrefix(s: string, p: string, q: string)
    requires q <= p && Contains(s, p)
    ensures Contains(s, q)
  {
    if !(p <= s) { ContainsPrefix(s[1..], p, q); }
  }

  lemma {:induction false} HalveShortens(s: string)
    ensures |HalveQuotes(s)| <= |s|
  {
    if s != "" {
      if HasPrefix(s, "''") { HalveShortens(s[2..]); } else { HalveShortens(s[1..]); }
    }
  }

  /** A plain string is read as itself unless its first characters mean something else. */
  lemma PlainScalar(s: string)
    requires PlainSafe(s)
    ensures ParseScalar(s) == Ok(Str(s)) <==> s[0] !in "\"'[{" && !HasPrefix(s, "- ")
  {
    hide Contains, IntegerPattern, NumberPattern;
    if s[0] == '"' {
      UnescapeShortens(s[1..]);
    } else if s[0] == '\'' {
      if |s| >= 2 { HalveShortens(s[1..|s| - 1]); }
    }
  }

  // ---- The main results ----

  lemma Escaped(c: char)
    requires c in "\n\r\t"
    ensures forall d: char :: c !in Escape(d)
  {
  }

  lemma {:induction false} QuoteClean(s: string)
    ensures Clean(EscapeAll(s))
  {
    if s != "" {
      QuoteClean(s[1..]);
      Escaped('\n'); Escaped('\r'); Escaped('\t');
    }
  }

  lemma DigitsScan(s: string)
    requires Digits(s)
    ensures '"' !in s && '\'' !in s && '#' !in s && Clean(s) && Trimmed(s)
    ensures forall c <- s :: c !in " &*:!|>"
  {
    forall c | c in s ensures IsDigit(c) {}
    assert s[0] in s && s[|s| - 1] in s;
  }

  /** Numbers, booleans and null contain nothing the reader treats specially. */
  lemma WordText(v: Value)
    requires Scalar(v) && !v.Str?
    ensures var e := EmitScalar(v, false);
            e != "" && Trimmed(e) && Clean(e) && '"' !in e && '\'' !in e && '#' !in e && forall c <- e :: c !in " &*:!|>"
  {
    if v.Int? {
      if v.n < 0 { DigitsScan(FormatNat(-v.n)); } else { DigitsScan(FormatNat(v.n)); }
    }
  }

  lemma WordScalar(v: Value)
    requires Scalar(v) && !v.Str?
    ensures ParseScalar(EmitScalar(v, false)) == Ok(v)
  {
    if v.Int? {
      hide NumberPattern, Contains, ParseInt;
      ParseFormatInt(v.n);
      var e := FormatInt(v.n);
      assert e[0] == '-' || IsDigit(e[0]);
    }
  }

  lemma WordLine(place: Place, n: nat, v: Value)
    requires place.Valid() && n % 2 == 0 && Scalar(v) && !v.Str?
    ensures var e := EmitScalar(v, false); LexLine(Blanks(n) + (place.Head() + e)) == Ok(Some(Line(n, place.Head() + e)))
  {
    var e := EmitScalar(v, false);
    WordText(v);
    ScanPlain(e);
    hide LexLine, Forbidden, Contains, Place.Head, EmitScalar;
    LexScalar(place, n, e);
    ForbiddenLine(place, e);
    assert e[0] in e;
    if Contains(e, " &") { ContainsNeeds(e, " &", ' '); }
    if Contains(e, " *") { ContainsNeeds(e, " *", ' '); }
    if Contains(e, ": !") { ContainsNeeds(e, ": !", ' '); }
    if Contains(e, ": |") { ContainsNeeds(e, ": |", ' '); }
    if Contains(e, ": >") { ContainsNeeds(e, ": >", ' '); }
  }

  predicate ReadableValue(place: Place, secret: bool, v: Value) { v.Str? ==> Readable(place, secret, v.s) }

  /** The line is accepted as it stands. */
  predicate LineAccepted(place: Place, n: nat, e: string) {
    LexLine(Blanks(n) + (place.Head() + e)) == Ok(Some(Line(n, place.Head() + e)))
  }

  /** A scalar written on a line is read back exactly when it is readable. */
  lemma ScalarReadsBack(place: Place, secret: bool, n: nat, v: Value)
    requires place.Valid() && n % 2 == 0 && Scalar(v)
    ensures var e := EmitScalar(v, secret);
            (LineAccepted(place, n, e) && ParseScalar(e) == Ok(v)) <==> ReadableValue(place, secret, v)
  {
    hide LexLine, Forbidden, Contains, Place.Head, ParseScalar, PlainSafe;
    if !v.Str? {
      WordLine(place, n, v);
      WordScalar(v);
    } else if secret || !PlainSafe(v.s) {
      QuotedLine(place, n, v.s);
      QuotedScalar(v.s);
    } else {
      PlainLine(place, n, v.s);
      PlainScalar(v.s);
    }
  }

  /** The line of a scalar is either refused or taken as it stands; what was written has no breaks. */
  lemma ScalarLine(place: Place, secret: bool, n: nat, v: Value)
    requires place.Valid() && n % 2 == 0 && Scalar(v)
    ensures var e := EmitScalar(v, secret);
            && (LexLine(Blanks(n) + (place.Head() + e)).Err? || LineAccepted(place, n, e))
            && e != "" && Trimmed(e) && Clean(e)
  {
    hide LexLine, Forbidden, Contains, Place.Head, ParseScalar, Scan;
    if !v.Str? {
      WordLine(place, n, v);
      WordText(v);
    } else if secret || !PlainSafe(v.s) {
      QuotedLine(place, n, v.s);
      QuoteClean(v.s);
    } else {
      PlainLine(place, n, v.s);
      TrimmedIsFixed(v.s);
    }
  }
}
