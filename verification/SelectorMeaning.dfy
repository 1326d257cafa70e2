/** What the words of a selector mean. */
module SelectorMeaning {
  import opened YamlText
  import opened Selector
  import opened SelectorNormal
  import opened SelectorTime

  const NAMES := ["sun", "mon", "tue", "wed", "thu", "fri", "sat"]

  /** The hours of a bucket. */
  const HOURS: map<string, (nat, nat)> := map[
    "early-morning" := (5, 8), "morning" := (8, 12), "afternoon" := (12, 17), "evening" := (17, 21),
    "night" := (21, 24), "late-night" := (0, 5), "anytime" := (0, 24)]

  /** A selector applies on its days, counted from Sunday, within the hours of its bucket. */
  lemma MatchesIff(s: Selector, t: nat)
    requires |s.days| == 7
    ensures Matches(s, t) <==>
            && s.days[(t / 86400000 + 4) % 7] && s.bucket in HOURS
            && HOURS[s.bucket].0 * 3600000 <= t % 86400000 < HOURS[s.bucket].1 * 3600000
  {
    var ms := t % 86400000;
    assert forall h: nat :: h * 60 <= ms / 60000 <==> h * 3600000 <= ms;
  }

  predicate Means(days: seq<bool>, part: string) {
    && |days| == 7
    && forall d: nat | d < 7 ::
         days[d] <==> if part == "everyday" then true
                      else if part == "weekday" then 1 <= d <= 5
                      else if part == "weekend" then d == 0 || d == 6
                      else NAMES[d] in SplitOn(part, ',')
  }

  predicate DayWord(part: string) { part == "everyday" || part == "weekday" || part == "weekend" }

  predicate DistinctNames(tokens: seq<string>) {
    (forall t <- tokens :: t in NAMES) && forall i, j | 0 <= i < j < |tokens| :: tokens[i] != tokens[j]
  }

  /** Days are read if they are one of the three words, or names of days without repetition; then
      exactly those days are set. */
  lemma DaysIff(part: string)
    ensures ParseDays(part).Ok? <==> DayWord(part) || DistinctNames(SplitOn(part, ','))
    ensures ParseDays(part).Ok? ==> Means(ParseDays(part).value, part)
  {
    hide SplitOn, AddDays, DistinctNames;
    TokensIff(SplitOn(part, ','));
  }

  lemma TokensIff(tokens: seq<string>)
    ensures AddDays(tokens, NO_DAY).Ok? <==> DistinctNames(tokens)
    ensures AddDays(tokens, NO_DAY).Ok? ==>
              var days := AddDays(tokens, NO_DAY).value;
              |days| == 7 && forall d: nat | d < 7 :: days[d] <==> NAMES[d] in tokens
  {
    hide AddDays, DayOf, DistinctNames;
    if AddDays(tokens, NO_DAY).Ok? {
      ReadAreDistinct(tokens);
      DaysAreTheNamed(tokens, NO_DAY);
      forall d: nat | d < 7 ensures Named(tokens, d) <==> NAMES[d] in tokens { NamedIff(tokens, d); }
    }
    if DistinctNames(tokens) { DistinctAreRead(tokens, NO_DAY); }
  }

  lemma ReadAreDistinct(tokens: seq<string>)
    requires AddDays(tokens, NO_DAY).Ok?
    ensures DistinctNames(tokens)
  {
    hide AddDays, DayOf;
    DaysAreTheNamed(tokens, NO_DAY);
    forall t | t in tokens ensures t in NAMES { NameIs(t); }
  }

  lemma NameIs(token: string)
    ensures token in NAMES <==> DayOf(token).Some?
    ensures forall d: nat | d < 7 :: token == NAMES[d] <==> DayOf(token) == Some(d)
  {
    assert NAMES[0] == "sun" && NAMES[1] == "mon" && NAMES[2] == "tue" && NAMES[3] == "wed" && NAMES[4] == "thu"
      && NAMES[5] == "fri" && NAMES[6] == "sat";
    assert "sun"[0] != "mon"[0] && "sun"[1] != "sat"[1] && "tue"[1] != "thu"[1];
    assert "mon"[0] != "tue"[0] && "wed"[0] != "fri"[0] && "sun"[0] != "tue"[0];
  }

  lemma NamedIff(tokens: seq<string>, d: nat)
    requires d < 7
    ensures Named(tokens, d) <==> NAMES[d] in tokens
  {
    forall i | 0 <= i < |tokens| ensures tokens[i] == NAMES[d] <==> DayOf(tokens[i]) == Some(d) { NameIs(tokens[i]); }
    hide DayOf;
    if Named(tokens, d) {
      var i :| 0 <= i < |tokens| && DayOf(tokens[i]) == Some(d);
      assert tokens[i] == NAMES[d];
    }
    if NAMES[d] in tokens {
      var i: nat :| i < |tokens| && tokens[i] == NAMES[d];
      assert DayOf(tokens[i]) == Some(d);
    }
  }

  lemma {:induction false} DistinctAreRead(tokens: seq<string>, days: seq<bool>)
    requires |days| == 7 && DistinctNames(tokens)
    requires forall t <- tokens :: DayOf(t).Some? ==> !days[DayOf(t).value]
    ensures AddDays(tokens, days).Ok?
  {
    if tokens != [] {
      assert tokens[0] in tokens;
      NameIs(tokens[0]);
      var d := DayOf(tokens[0]).value;
      forall t | t in tokens[1..] ensures DayOf(t).Some? ==> !days[d := true][DayOf(t).value] {
        assert t in tokens && t != tokens[0];
        NameIs(t);
      }
      hide DayOf;
      DistinctAreRead(tokens[1..], days[d := true]);
    }
  }

  // ---- White space and case ----

  lemma {:induction false} SpaceSkipped(sp: string, s: string)
    requires forall c <- sp :: IsSpace(c)
    ensures Words(sp + s) == Words(s)
  {
    if sp == "" {
      assert sp + s == s;
    } else {
      assert (sp + s)[1..] == sp[1..] + s && sp[0] in sp;
      SpaceSkipped(sp[1..], s);
    }
  }

  lemma FirstWord(s: string)
    requires s != "" && !IsSpace(s[0])
    ensures Words(s) == [s[..WordEnd(s)]] + Words(s[WordEnd(s)..]) && WordEnd(s) > 0
  {
  }

  lemma SpaceFirst(s: string)
    requires s != "" && IsSpace(s[0])
    ensures Words(s) == Words(s[1..])
  {
  }

  lemma {:induction false} WordsApart(a: string, sp: string, b: string)
    requires sp != "" && forall c <- sp :: IsSpace(c)
    ensures Words(a + sp + b) == Words(a) + Words(b)
    decreases |a|
  {
    hide IsSpace, Words, WordEnd;
    var s := a + sp + b;
    if a == "" {
      assert s == sp + b;
      SpaceSkipped(sp, b);
      NoWord();
      assert [] + Words(b) == Words(b);
    } else if IsSpace(a[0]) {
      assert s[1..] == a[1..] + sp + b;
      SpaceFirst(s);
      SpaceFirst(a);
      WordsApart(a[1..], sp, b);
    } else {
      var n := WordEnd(a);
      assert sp[0] in sp;
      WordEndIs(s, n);
      assert s[n..] == a[n..] + sp + b && s[..n] == a[..n];
      FirstWord(s);
      FirstWord(a);
      WordsApart(a[n..], sp, b);
      assert [a[..n]] + (Words(a[n..]) + Words(b)) == [a[..n]] + Words(a[n..]) + Words(b);
    }
  }

  lemma NoWord()
    ensures Words("") == []
  {
  }

  lemma {:induction false} WordEndIs(s: string, n: nat)
    requires n < |s| && IsSpace(s[n]) && forall i | 0 <= i < n :: !IsSpace(s[i])
    ensures WordEnd(s) == n
  {
    if n > 0 { WordEndIs(s[1..], n - 1); }
  }

  lemma LowerJoins(a: string, b: string)
    ensures LowerAll(a + b) == LowerAll(a) + LowerAll(b)
  {
  }

  lemma LowerSpace(sp: string)
    requires forall c <- sp :: IsSpace(c)
    ensures LowerAll(sp) == sp
  {
    forall i | 0 <= i < |sp| ensures Lower(sp[i]) == sp[i] { assert sp[i] in sp; }
  }

  /** How much white space there is between words, or around them, means nothing. */
  lemma SpaceIsIgnored(a: string, sp: string, b: string, before: string, after: string)
    requires sp != "" && (forall c <- sp :: IsSpace(c)) && (forall c <- before :: IsSpace(c)) && forall c <- after :: IsSpace(c)
    ensures Parse(before + a + sp + b + after) == Parse(a + " " + b)
  {
    hide Words, ParseParts, Squash, Joined, LowerAll;
    var (x, y) := (LowerAll(a), LowerAll(b));
    LowerSpace(before); LowerSpace(sp); LowerSpace(after); LowerSpace(" ");
    LowerJoins(a, sp); LowerJoins(a + sp, b); LowerJoins(a, " "); LowerJoins(a + " ", b);
    LowerJoins(before, a + sp + b); LowerJoins(before + (a + sp + b), after);
    assert before + a + sp + b + after == before + (a + sp + b) + after;
    var whole := before + (x + sp + y) + after;
    assert LowerAll(before + a + sp + b + after) == whole;
    Around(before, x + sp + y, after);
    WordsApart(x, sp, y);
    WordsApart(x, " ", y);
  }

  lemma Around(before: string, s: string, after: string)
    requires (forall c <- before :: IsSpace(c)) && forall c <- after :: IsSpace(c)
    ensures Words(before + s + after) == Words(s)
  {
    hide IsSpace;
    assert before + s + after == before + (s + after);
    SpaceSkipped(before, s + after);
    if after == "" {
      assert s + after == s;
    } else {
      WordsApart(s, after, "");
      assert s + after + "" == s + after;
      assert Words("") == [] && Words(s) + [] == Words(s);
    }
  }

  /** Nor do capitals. */
  lemma CaseIsIgnored(s: string, t: string)
    requires |s| == |t|
    requires forall i | 0 <= i < |s| :: s[i] == t[i] || ('a' <= s[i] <= 'z' && t[i] as int == s[i] as int - 32)
    ensures Parse(t) == Parse(s)
  {
    assert LowerAll(t) == LowerAll(s);
    hide Words, ParseParts, Squash, Joined;
  }

  // ---- The whole text ----

  /** A word of lower-case letters, hyphens and commas. */
  predicate Word(s: string) { s != "" && forall c <- s :: 'a' <= c <= 'z' || c == '-' || c == ',' }

  lemma WordIsTidy(s: string)
    requires Word(s)
    ensures Tidy(s) && NoGap(s) && LowerCase(s) && ' ' !in s
  {
    forall i | 0 <= i < |s| ensures !IsSpace(s[i]) && Lower(s[i]) == s[i] && s[i] != ' ' { assert s[i] in s; }
  }

  lemma {:induction false} OnePart(s: string, c: char)
    requires c !in s
    ensures SplitOn(s, c) == [s]
  {
    if s != "" {
      OnePart(s[1..], c);
      assert [s[0]] + s[1..] == s;
    }
  }

  lemma {:induction false} TwoParts(a: string, b: string, c: char)
    requires c !in a && c !in b
    ensures SplitOn(a + [c] + b, c) == [a, b]
  {
    var s := a + [c] + b;
    if a == "" {
      assert s[1..] == b;
      OnePart(b, c);
    } else {
      assert s[1..] == a[1..] + [c] + b;
      TwoParts(a[1..], b, c);
      assert [a[0]] + a[1..] == a;
    }
  }

  lemma NormalOf(s: string)
    requires Tidy(s) && NoGap(s) && LowerCase(s)
    ensures Normal(s) == s
  {
    hide Words, Joined, Squash;
    LowerIsFixed(s);
    TidyIsFixed(s);
    NothingToSquash(s);
  }

  lemma PairIsTidy(a: string, b: string)
    requires Word(a) && Word(b) && a[|a| - 1] != ','
    ensures Tidy(a + " " + b) && NoGap(a + " " + b) && LowerCase(a + " " + b)
  {
    WordIsTidy(a);
    WordIsTidy(b);
    var s := a + " " + b;
    forall i | 0 <= i < |s| ensures Lower(s[i]) == s[i] && (IsSpace(s[i]) <==> i == |a|) {
      if i < |a| { assert s[i] == a[i] && a[i] in a; }
      if i > |a| { assert s[i] == b[i - |a| - 1] && s[i] in b; }
      if i == |a| { BlankIsSpace(); }
    }
  }

  /** Days and a bucket mean those days within those hours; without a bucket, all day; without days,
      every day; and anything else is refused. */
  lemma ParseIs(a: string, b: string)
    requires Word(a) && Word(b) && a[|a| - 1] != ','
    ensures var days := ParseDays(a);
            Parse(a + " " + b) == if b in HOURS && days.Ok? then Ok(Selector(days.value, b)) else Err
    ensures var days := ParseDays(a);
            Parse(a) == if a in HOURS then Ok(Selector([true, true, true, true, true, true, true], a))
                        else if days.Ok? then Ok(Selector(days.value, "anytime")) else Err
  {
    BucketIs(a);
    BucketIs(b);
    hide Normal, SplitOn, ParseDays, Hours;
    WordIsTidy(a);
    WordIsTidy(b);
    NormalOf(a);
    PairIsTidy(a, b);
    NormalOf(a + " " + b);
    OnePart(a, ' ');
    TwoParts(a, b, ' ');
    EveryDay();
  }

  lemma BucketIs(s: string)
    ensures s in HOURS <==> Hours(s).Some?
    ensures s in HOURS ==> Hours(s).value == HOURS[s]
  {
  }

  lemma EveryDay()
    ensures ParseDays("everyday") == Ok([true, true, true, true, true, true, true])
  {
  }
}
