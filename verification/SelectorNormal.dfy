/** The selector as it is stored, and its normal form. */
module SelectorNormal {
  // The text is normalised before it is stored, and again whenever it is parsed.

  import opened YamlText
  import opened Selector

  /** Words separated by single blanks. */
  predicate Tidy(s: string) {
    && (s != "" ==> !IsSpace(s[0]) && !IsSpace(s[|s| - 1]))
    && forall i | 0 <= i < |s| :: IsSpace(s[i]) ==> s[i] == ' ' && i + 1 < |s| && !IsSpace(s[i + 1])
  }

  predicate NoGap(s: string) { forall i | 0 <= i < |s| - 1 :: !(s[i] == ',' && s[i + 1] == ' ') }

  predicate GoodWords(words: seq<string>) {
    forall i | 0 <= i < |words| :: words[i] != "" && forall k | 0 <= k < |words[i]| :: !IsSpace(words[i][k])
  }

  lemma {:induction false} WordsAreGood(s: string)
    ensures GoodWords(Words(s))
    decreases |s|
  {
    if s != "" {
      if IsSpace(s[0]) { WordsAreGood(s[1..]); } else { WordsAreGood(s[WordEnd(s)..]); }
    }
  }

  lemma {:induction false} JoinedIsTidy(words: seq<string>)
    requires GoodWords(words)
    ensures Tidy(Joined(words)) && (words != [] ==> Joined(words) != "" && Joined(words)[0] == words[0][0])
  {
    if |words| > 1 {
      JoinedIsTidy(words[1..]);
      var (w, rest) := (words[0], Joined(words[1..]));
      var s := Joined(words);
      assert s == w + " " + rest;
      forall i | 0 <= i < |s| && IsSpace(s[i]) ensures s[i] == ' ' && i + 1 < |s| && !IsSpace(s[i + 1]) {
        if i > |w| { assert s[i] == rest[i - |w| - 1] && IsSpace(rest[i - |w| - 1]); }
      }
    }
  }

  lemma TidyTail(s: string, k: nat)
    requires Tidy(s) && k < |s| && !IsSpace(s[k])
    ensures Tidy(s[k..])
  {
    var rest := s[k..];
    assert rest[|rest| - 1] == s[|s| - 1];
    forall i | 0 <= i < |rest| && IsSpace(rest[i]) ensures rest[i] == ' ' && i + 1 < |rest| && !IsSpace(rest[i + 1]) {
      assert rest[i] == s[i + k];
    }
  }

  lemma GapBefore(c: char, r: string)
    requires Tidy(r) && NoGap(r) && r != "" && !IsSpace(c) && c != ','
    ensures Tidy([c, ' '] + r) && NoGap([c, ' '] + r)
  {
    var t := [c, ' '] + r;
    assert t[|t| - 1] == r[|r| - 1];
    forall i | 0 <= i < |t| && IsSpace(t[i]) ensures t[i] == ' ' && i + 1 < |t| && !IsSpace(t[i + 1]) {
      if i >= 2 { assert t[i] == r[i - 2]; }
    }
    forall i | 0 <= i < |t| - 1 ensures !(t[i] == ',' && t[i + 1] == ' ') {
      if i >= 2 { assert t[i] == r[i - 2] && t[i + 1] == r[i - 1]; }
    }
  }

  lemma ConsTidy(c: char, r: string)
    requires Tidy(r) && NoGap(r) && !IsSpace(c)
    ensures Tidy([c] + r) && NoGap([c] + r)
  {
    var t := [c] + r;
    assert r != "" ==> t[|t| - 1] == r[|r| - 1];
    forall i | 0 <= i < |t| && IsSpace(t[i]) ensures t[i] == ' ' && i + 1 < |t| && !IsSpace(t[i + 1]) {
      assert i >= 1 && t[i] == r[i - 1];
    }
    forall i | 0 <= i < |t| - 1 ensures !(t[i] == ',' && t[i + 1] == ' ') {
      if i >= 1 { assert t[i] == r[i - 1] && t[i + 1] == r[i]; }
    }
  }

  lemma WordsUnfold(s: string)
    requires s != "" && !IsSpace(s[0])
    ensures var n := WordEnd(s);
            n > 0 && Words(s) == [s[..n]] + (if n < |s| then Words(s[n + 1..]) else [])
  {
    hide IsSpace;
    var n := WordEnd(s);
    if n == |s| {
      assert s[n..] == "";
    } else {
      assert s[n..][1..] == s[n + 1..] && s[n..][0] == s[n];
    }
  }

  lemma JoinedUnfold(first: string, rest: seq<string>)
    ensures Joined([first] + rest) == if rest == [] then first else first + " " + Joined(rest)
  {
    assert ([first] + rest)[1..] == rest;
  }

  /** A tidy text is its own words joined. */
  lemma {:induction false} TidyIsFixed(s: string)
    requires Tidy(s)
    ensures Joined(Words(s)) == s
    decreases |s|
  {
    hide Words, Joined;
    if s == "" {
      NoWords();
    } else {
      var n := WordEnd(s);
      WordsUnfold(s);
      JoinedUnfold(s[..n], if n < |s| then Words(s[n + 1..]) else []);
      if n == |s| {
        assert [s] + [] == [s] && s[..n] == s;
      } else {
        assert s[n] == ' ' && !IsSpace(s[n + 1]);
        TidyTail(s, n + 1);
        TidyIsFixed(s[n + 1..]);
        SomeWord(s[n + 1..]);
        assert s == s[..n] + " " + s[n + 1..];
      }
    }
  }

  lemma NoWords()
    ensures Joined(Words("")) == ""
  {
  }

  lemma SomeWord(s: string)
    requires s != "" && !IsSpace(s[0])
    ensures Words(s) != []
  {
  }

  lemma {:induction false} SquashKeepsTidy(s: string)
    requires Tidy(s)
    ensures Tidy(Squash(s)) && NoGap(Squash(s)) && (s != "" ==> Squash(s) != "" && Squash(s)[0] == s[0])
    decreases |s|, 1
  {
    hide IsSpace;
    if s == "" || |s| == 1 {
      OneSquashed(s);
    } else if HasPrefix(s, ", ") {
      assert s[1] == ' ' && IsSpace(' ') by { BlankIsSpace(); }
      TidyTail(s, 2);
      SquashKeepsTidy(s[2..]);
      ConsTidy(s[0], Squash(s[2..]));
    } else if IsSpace(s[1]) {
      BlankStart(s, 1);
    } else {
      TidyTail(s, 1);
      SquashKeepsTidy(s[1..]);
      ConsTidy(s[0], Squash(s[1..]));
    }
  }

  lemma BlankIsSpace()
    ensures IsSpace(' ')
  {
  }

  lemma OneSquashed(s: string)
    requires |s| <= 1
    ensures Squash(s) == s && NoGap(s)
  {
    if s != "" { assert s[1..] == ""; }
  }

  /** A blank that does not follow a comma is kept. */
  lemma BlankStart(s: string, k: nat)
    requires Tidy(s) && k == 1 < |s| && IsSpace(s[1]) && !HasPrefix(s, ", ")
    ensures Tidy(Squash(s)) && NoGap(Squash(s)) && Squash(s) != "" && Squash(s)[0] == s[0]
    decreases |s|, 0
  {
    var rest := s[2..];
    assert s[1] == ' ' && s[0] != ',' && s[1..][0] == ' ' && s[1..][1..] == rest && rest[0] == s[2];
    assert Squash(s) == [s[0]] + ([' '] + Squash(rest)) by { assert !HasPrefix(s[1..], ", "); }
    TidyTail(s, 2);
    SquashKeepsTidy(rest);
    GapBefore(s[0], Squash(rest));
    hide Tidy, NoGap, Squash;
    assert [s[0]] + ([' '] + Squash(rest)) == [s[0], ' '] + Squash(rest);
  }

  lemma {:induction false} NothingToSquash(s: string)
    requires NoGap(s)
    ensures Squash(s) == s
  {
    if s != "" {
      NothingToSquash(s[1..]);
    }
  }

  lemma LowerIsFixed(s: string)
    requires forall i | 0 <= i < |s| :: Lower(s[i]) == s[i]
    ensures LowerAll(s) == s
  {
  }

  predicate LowerCase(s: string) { forall i | 0 <= i < |s| :: Lower(s[i]) == s[i] }

  lemma {:induction false} WordsStayLower(s: string)
    requires LowerCase(s)
    ensures forall i | 0 <= i < |Words(s)| :: LowerCase(Words(s)[i])
    decreases |s|
  {
    if s != "" {
      if IsSpace(s[0]) { WordsStayLower(s[1..]); } else { WordsStayLower(s[WordEnd(s)..]); }
    }
  }

  lemma {:induction false} JoinedStaysLower(words: seq<string>)
    requires forall i | 0 <= i < |words| :: LowerCase(words[i])
    ensures LowerCase(Joined(words))
  {
    if |words| > 1 { JoinedStaysLower(words[1..]); }
  }

  lemma {:induction false} SquashStaysLower(s: string)
    requires LowerCase(s)
    ensures LowerCase(Squash(s))
  {
    if s != "" {
      if HasPrefix(s, ", ") { SquashStaysLower(s[2..]); } else { SquashStaysLower(s[1..]); }
    }
  }

  lemma LowerTwice(s: string)
    ensures LowerCase(LowerAll(s))
  {
  }

  /** Normalising is idempotent: parsing the normal form gives what parsing the input gave. */
  lemma NormalIsStable(input: string)
    ensures Normal(Normal(input)) == Normal(input) && Parse(Normal(input)) == Parse(input)
  {
    var lower := LowerAll(input);
    var joined := Joined(Words(lower));
    LowerTwice(input);
    WordsStayLower(lower);
    JoinedStaysLower(Words(lower));
    SquashStaysLower(joined);
    WordsAreGood(lower);
    JoinedIsTidy(Words(lower));
    SquashKeepsTidy(joined);
    hide LowerAll, Words, Joined, Squash, Tidy, NoGap, ParseParts;
    LowerIsFixed(Normal(input));
    TidyIsFixed(Normal(input));
    NothingToSquash(Normal(input));
  }
}
