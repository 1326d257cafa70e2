/** Cutting a reply into messages of at most 4096 UTF-16 units, preferably at a blank line, a line
    break or white space in the last quarter. */
module Chunk {
  import opened YamlText

  const MAX_UNITS: nat := 4096
  const FLOOR_UNITS: nat := 3072

  /** The UTF-16 units of one code point. */
  function Unit(c: char): (n: nat)
    ensures 1 <= n <= 2
  {
    if c as int > 0xFFFF then 2 else 1
  }

  function Units(s: string): (n: nat)
    ensures |s| <= n <= 2 * |s|
  {
    if s == "" then 0 else Units(s[..|s| - 1]) + Unit(s[|s| - 1])
  }

  lemma {:induction false} UnitsConcat(a: string, b: string)
    ensures Units(a + b) == Units(a) + Units(b)
    decreases |b|
  {
    if b == "" {
      assert a + b == a;
    } else {
      assert (a + b)[..|a + b| - 1] == a + b[..|b| - 1];
      UnitsConcat(a, b[..|b| - 1]);
    }
  }

  lemma UnitsGrow(s: string, i: nat, j: nat)
    requires i <= j <= |s|
    ensures Units(s[..i]) + (j - i) <= Units(s[..j])
  {
    assert s[..j] == s[..i] + s[i..j];
    UnitsConcat(s[..i], s[i..j]);
  }

  /** The longest prefix that fits in one message. */
  predicate Fits(s: string, end: nat) {
    end <= |s| && Units(s[..end]) <= MAX_UNITS && (end < |s| ==> Units(s[..end + 1]) > MAX_UNITS)
  }

  datatype Boundary = BlankLine | LineBreak | Space

  predicate IsBoundary(kind: Boundary, s: string, i: nat)
    requires i <= |s|
  {
    match kind
    case BlankLine => i >= 2 && s[i - 1] == '\n' && s[i - 2] == '\n'
    case LineBreak => i >= 1 && s[i - 1] == '\n'
    case Space => i >= 1 && IsSpace(s[i - 1]) && s[i - 1] != '\n'
  }

  predicate Candidate(kind: Boundary, s: string, floor: nat, i: nat) {
    0 < i <= |s| && Units(s[..i]) >= floor && IsBoundary(kind, s, i)
  }

  /** The latest boundary of a kind at or after the floor, or zero. */
  predicate IsLatest(kind: Boundary, s: string, floor: nat, i: nat) {
    && (i == 0 || Candidate(kind, s, floor, i))
    && forall j | i < j <= |s| :: !Candidate(kind, s, floor, j)
  }

  /** The boundary chosen: the latest of the best kind there is, or zero when there is none. */
  ghost predicate IsPreferred(s: string, floor: nat, r: nat) {
    || (r > 0 && IsLatest(BlankLine, s, floor, r))
    || (IsLatest(BlankLine, s, floor, 0) && r > 0 && IsLatest(LineBreak, s, floor, r))
    || (IsLatest(BlankLine, s, floor, 0) && IsLatest(LineBreak, s, floor, 0) && IsLatest(Space, s, floor, r))
  }

  /** One chunk of a text that does not fit whole. */
  ghost predicate IsCut(text: string, cut: nat) {
    exists end: nat, b: nat :: Fits(text, end) && 0 < end < |text| && IsPreferred(text[..end], FLOOR_UNITS, b)
      && cut == if b > 0 then b else end
  }

  /** The chunks of a text: cut after cut, until the rest fits. */
  ghost predicate AreChunks(text: string, chunks: seq<string>)
    decreases |chunks|
  {
    if text == "" then chunks == []
    else if Units(text) <= MAX_UNITS then chunks == [text]
    else chunks != [] && exists cut: nat :: cut <= |text| && IsCut(text, cut) && chunks[0] == text[..cut] && AreChunks(text[cut..], chunks[1..])
  }

  /** The first loop of `ChunkText`. */
  method FindEnd(text: string) returns (end: nat)
    ensures Fits(text, end) && (text != "" ==> end > 0)
  {
    var units := 0;
    end := 0;
    for index := 0 to |text|
      invariant end == index && units == Units(text[..index]) && units <= MAX_UNITS
    {
      var next := if text[index] as int > 0xFFFF then 2 else 1;
      assert text[..index + 1][..index] == text[..index];
      if units + next > MAX_UNITS { break; }
      units := units + next;
      end := index + 1;
    }
    assert text[..0] == "";
  }

  /** `latest`: down from the end, over the prefix sums. */
  method Latest(kind: Boundary, runes: string, unitsAt: array<nat>, floorUnits: nat) returns (r: nat)
    requires unitsAt.Length == |runes| + 1 && forall i | 0 <= i <= |runes| :: unitsAt[i] == Units(runes[..i])
    ensures IsLatest(kind, runes, floorUnits, r)
  {
    hide Units;
    var i: nat := |runes|;
    while i > 0
      invariant i <= |runes| && forall j | i < j <= |runes| :: !Candidate(kind, runes, floorUnits, j)
    {
      if unitsAt[i] >= floorUnits && IsBoundary(kind, runes, i) { return i; }
      i := i - 1;
    }
    r := 0;
  }

  /** `preferredBoundary`. */
  method PreferredBoundary(runes: string, floorUnits: nat) returns (r: nat)
    ensures IsPreferred(runes, floorUnits, r) && r <= |runes|
  {
    var unitsAt := new nat[|runes| + 1](_ => 0);
    for i := 0 to |runes|
      invariant forall k | 0 <= k <= i :: unitsAt[k] == Units(runes[..k])
    {
      assert runes[..i + 1][..i] == runes[..i];
      unitsAt[i + 1] := unitsAt[i] + Unit(runes[i]);
    }
    hide Units;
    r := Latest(BlankLine, runes, unitsAt, floorUnits);
    if r > 0 { return; }
    r := Latest(LineBreak, runes, unitsAt, floorUnits);
    if r > 0 { return; }
    r := Latest(Space, runes, unitsAt, floorUnits);
  }

  /** `ChunkText`. */
  method ChunkText(text: string) returns (chunks: seq<string>)
    ensures AreChunks(text, chunks)
  {
    chunks := [];
    var rest := text;
    ghost var done: seq<string> := [];
    while rest != ""
      invariant Cuts(text, chunks, rest)
      decreases |rest|
    {
      var end := FindEnd(rest);
      if end == |rest| {
        assert rest[..end] == rest;
        CutsFinish(text, chunks, rest, [rest]);
        chunks := chunks + [rest];
        return;
      }
      var boundary := PreferredBoundary(rest[..end], FLOOR_UNITS);
      var cut := if boundary > 0 then boundary else end;
      assert IsCut(rest, cut);
      WholeDoesNotFit(rest, end);
      CutsExtend(text, chunks, rest, cut);
      chunks := chunks + [rest[..cut]];
      rest := rest[cut..];
    }
    CutsFinish(text, chunks, rest, []);
    assert chunks + [] == chunks;
  }

  /** The chunks taken so far lead from the text to the rest. */
  ghost predicate Cuts(text: string, chunks: seq<string>, rest: string)
    decreases |chunks|
  {
    if chunks == [] then text == rest
    else
      && Units(text) > MAX_UNITS
      && exists cut: nat :: cut <= |text| && IsCut(text, cut) && chunks[0] == text[..cut] && Cuts(text[cut..], chunks[1..], rest)
  }

  lemma WholeDoesNotFit(text: string, end: nat)
    requires Fits(text, end) && end < |text|
    ensures Units(text) > MAX_UNITS
  {
    assert text[..|text|] == text;
    UnitsGrow(text, end + 1, |text|);
  }

  lemma {:induction false} CutsExtend(text: string, chunks: seq<string>, rest: string, cut: nat)
    requires Cuts(text, chunks, rest) && Units(rest) > MAX_UNITS && cut <= |rest| && IsCut(rest, cut)
    ensures Cuts(text, chunks + [rest[..cut]], rest[cut..])
    decreases |chunks|
  {
    hide IsCut, Units;
    var more := chunks + [rest[..cut]];
    if chunks == [] {
      assert more[1..] == [];
      assert Cuts(rest[cut..], more[1..], rest[cut..]);
    } else {
      var first: nat :| first <= |text| && IsCut(text, first) && chunks[0] == text[..first] && Cuts(text[first..], chunks[1..], rest);
      assert more[1..] == chunks[1..] + [rest[..cut]];
      CutsExtend(text[first..], chunks[1..], rest, cut);
    }
  }

  lemma {:induction false} CutsFinish(text: string, chunks: seq<string>, rest: string, last: seq<string>)
    requires Cuts(text, chunks, rest) && AreChunks(rest, last)
    ensures AreChunks(text, chunks + last)
    decreases |chunks|
  {
    hide IsCut, Units;
    if chunks == [] {
      assert chunks + last == last;
    } else {
      var first: nat :| first <= |text| && IsCut(text, first) && chunks[0] == text[..first] && Cuts(text[first..], chunks[1..], rest);
      assert (chunks + last)[1..] == chunks[1..] + last;
      CutsFinish(text[first..], chunks[1..], rest, last);
    }
  }

  // ---- What the chunks are worth ----

  /** A cut is within the limits: between three quarters of a message and a whole one, and at the
      limit less one unit when there is no boundary to cut at. */
  lemma CutIsWithinLimits(text: string, cut: nat)
    requires IsCut(text, cut)
    ensures 0 < cut < |text| && 3072 <= Units(text[..cut]) <= 4096
    ensures (exists kind :: IsBoundary(kind, text, cut)) || 4095 <= Units(text[..cut])
  {
    var end: nat, b: nat :| Fits(text, end) && 0 < end < |text| && IsPreferred(text[..end], FLOOR_UNITS, b)
      && cut == if b > 0 then b else end;
    assert text[..end + 1] == text[..end] + [text[end]];
    assert text[..end + 1][..end] == text[..end];
    if b > 0 {
      assert text[..end][..b] == text[..b];
      UnitsGrow(text, b, end);
      hide Units;
      if IsLatest(BlankLine, text[..end], FLOOR_UNITS, b) { assert IsBoundary(BlankLine, text, b); }
      else if IsLatest(LineBreak, text[..end], FLOOR_UNITS, b) { assert IsBoundary(LineBreak, text, b); }
      else { assert IsBoundary(Space, text, b); }
    }
  }

  /** A place where a message of the right size could end. */
  predicate Near(text: string, i: nat) { 0 < i <= |text| && 3072 <= Units(text[..i]) <= 4096 }

  predicate AfterBlankLine(text: string, i: nat) { 2 <= i <= |text| && text[i - 2..i] == "\n\n" }

  predicate AfterBreak(text: string, i: nat) { 1 <= i <= |text| && text[i - 1] == '\n' }

  predicate AfterSpace(text: string, i: nat) { 1 <= i <= |text| && text[i - 1] != '\n' && IsSpace(text[i - 1]) }

  /** The last place near the limit that satisfies `p`. */
  ghost predicate LastNear(text: string, p: (string, nat) -> bool, cut: nat) {
    Near(text, cut) && p(text, cut) && forall i: nat | Near(text, i) && p(text, i) :: i <= cut
  }

  ghost predicate AnyNear(text: string, p: (string, nat) -> bool) { exists i: nat :: Near(text, i) && p(text, i) }

  /** The cut is after the last blank line near the limit; without one, after the last line break;
      without one, after the last white space; and without any, after as much as fits. */
  lemma CutIsPreferred(text: string, cut: nat)
    requires IsCut(text, cut)
    ensures if AnyNear(text, AfterBlankLine) then LastNear(text, AfterBlankLine, cut)
            else if AnyNear(text, AfterBreak) then LastNear(text, AfterBreak, cut)
            else if AnyNear(text, AfterSpace) then LastNear(text, AfterSpace, cut)
            else cut < |text| && Units(text[..cut]) <= 4096 < Units(text[..cut + 1])
  {
    hide Units;
    var end: nat, b: nat :| Fits(text, end) && 0 < end < |text| && IsPreferred(text[..end], FLOOR_UNITS, b)
      && cut == if b > 0 then b else end;
    LatestIsLast(text, end, BlankLine, AfterBlankLine, b);
    LatestIsLast(text, end, LineBreak, AfterBreak, b);
    LatestIsLast(text, end, Space, AfterSpace, b);
    hide Fits, AnyNear, LastNear, IsLatest;
  }

  lemma LatestIsLast(text: string, end: nat, kind: Boundary, p: (string, nat) -> bool, b: nat)
    requires Fits(text, end) && 0 < end < |text|
    requires forall i: nat | i <= |text| :: p(text, i) <==> IsBoundary(kind, text, i)
    ensures IsLatest(kind, text[..end], FLOOR_UNITS, 0) <==> !AnyNear(text, p)
    ensures b > 0 && IsLatest(kind, text[..end], FLOOR_UNITS, b) ==> AnyNear(text, p) && LastNear(text, p, b)
  {
    hide Units;
    forall i: nat
      ensures Candidate(kind, text[..end], FLOOR_UNITS, i) <==> Near(text, i) && p(text, i)
      ensures Candidate(kind, text[..end], FLOOR_UNITS, i) ==> 0 < i <= end
    {
      NearIsCandidate(text, end, kind, p, i);
      if Candidate(kind, text[..end], FLOOR_UNITS, i) { CandidateIn(kind, text[..end], FLOOR_UNITS, i); }
    }
    hide Candidate, Near, Fits;
  }

  lemma CandidateIn(kind: Boundary, s: string, floor: nat, i: nat)
    requires Candidate(kind, s, floor, i)
    ensures 0 < i <= |s|
  {
  }

  lemma NearIsCandidate(text: string, end: nat, kind: Boundary, p: (string, nat) -> bool, i: nat)
    requires Fits(text, end) && 0 < end < |text|
    requires forall j: nat | j <= |text| :: p(text, j) <==> IsBoundary(kind, text, j)
    ensures Candidate(kind, text[..end], FLOOR_UNITS, i) <==> Near(text, i) && p(text, i)
  {
    hide Units;
    if i <= end {
      assert text[..end][..i] == text[..i];
      UnitsGrow(text, i, end);
    } else if i <= |text| {
      UnitsGrow(text, end + 1, i);
    }
  }

  function Joined(chunks: seq<string>): string { if chunks == [] then "" else chunks[0] + Joined(chunks[1..]) }

  /** The chunks joined are the text; each is non-empty and at most 4096 units, and all but the last
      are at least 3072. */
  lemma {:induction false} ChunksAreFaithful(text: string, chunks: seq<string>)
    requires AreChunks(text, chunks)
    ensures Joined(chunks) == text
    ensures forall i | 0 <= i < |chunks| :: chunks[i] != "" && Units(chunks[i]) <= 4096
    ensures forall i | 0 <= i < |chunks| - 1 :: Units(chunks[i]) >= 3072
    decreases |chunks|
  {
    hide IsCut, Units;
    if text != "" && Units(text) > MAX_UNITS {
      var cut: nat :| cut <= |text| && IsCut(text, cut) && chunks[0] == text[..cut] && AreChunks(text[cut..], chunks[1..]);
      CutIsWithinLimits(text, cut);
      ChunksAreFaithful(text[cut..], chunks[1..]);
      assert text == text[..cut] + text[cut..];
      forall i | 0 <= i < |chunks| ensures chunks[i] != "" && Units(chunks[i]) <= MAX_UNITS { if i > 0 { assert chunks[i] == chunks[1..][i - 1]; } }
      forall i | 0 <= i < |chunks| - 1 ensures Units(chunks[i]) >= FLOOR_UNITS { if i > 0 { assert chunks[i] == chunks[1..][i - 1]; } }
    } else {
      assert chunks == [] || (chunks == [text] && Joined(chunks[1..]) == "");
    }
  }

  /** So the number of messages is bounded by the length. */
  lemma {:induction false} MessagesAreFew(text: string, chunks: seq<string>)
    requires AreChunks(text, chunks) && text != ""
    ensures (|chunks| - 1) * 3072 < Units(text)
    decreases |chunks|
  {
    hide IsCut;
    if Units(text) > MAX_UNITS {
      var cut: nat :| cut <= |text| && IsCut(text, cut) && chunks[0] == text[..cut] && AreChunks(text[cut..], chunks[1..]);
      CutIsWithinLimits(text, cut);
      assert text == text[..cut] + text[cut..];
      UnitsConcat(text[..cut], text[cut..]);
      MessagesAreFew(text[cut..], chunks[1..]);
    }
  }

  /** The chunks are determined by the text. */
  lemma {:induction false} ChunksAreUnique(text: string, a: seq<string>, b: seq<string>)
    requires AreChunks(text, a) && AreChunks(text, b)
    ensures a == b
    decreases |a|
  {
    hide IsCut, Units;
    if text != "" && Units(text) > MAX_UNITS {
      var i: nat :| i <= |text| && IsCut(text, i) && a[0] == text[..i] && AreChunks(text[i..], a[1..]);
      var j: nat :| j <= |text| && IsCut(text, j) && b[0] == text[..j] && AreChunks(text[j..], b[1..]);
      CutIsUnique(text, i, j);
      ChunksAreUnique(text[i..], a[1..], b[1..]);
      assert a == [a[0]] + a[1..] && b == [b[0]] + b[1..];
    }
  }

  lemma LatestIsUnique(kind: Boundary, s: string, floor: nat, i: nat, j: nat)
    requires IsLatest(kind, s, floor, i) && IsLatest(kind, s, floor, j)
    ensures i == j
  {
    hide Units, IsBoundary;
  }

  lemma PreferredIsUnique(s: string, floor: nat, i: nat, j: nat)
    requires IsPreferred(s, floor, i) && IsPreferred(s, floor, j)
    ensures i == j
  {
    hide IsLatest;
    forall kind: Boundary, p: nat, q: nat | IsLatest(kind, s, floor, p) && IsLatest(kind, s, floor, q) ensures p == q {
      LatestIsUnique(kind, s, floor, p, q);
    }
  }

  lemma EndIsUnique(text: string, i: nat, j: nat)
    requires Fits(text, i) && Fits(text, j)
    ensures i == j
  {
    if i < j { UnitsGrow(text, i + 1, j); }
    if j < i { UnitsGrow(text, j + 1, i); }
  }

  lemma CutIsUnique(text: string, i: nat, j: nat)
    requires IsCut(text, i) && IsCut(text, j)
    ensures i == j
  {
    hide Fits, IsPreferred;
    var end: nat, b: nat :| Fits(text, end) && 0 < end < |text| && IsPreferred(text[..end], FLOOR_UNITS, b) && i == if b > 0 then b else end;
    var end2: nat, b2: nat :| Fits(text, end2) && 0 < end2 < |text| && IsPreferred(text[..end2], FLOOR_UNITS, b2) && j == if b2 > 0 then b2 else end2;
    EndIsUnique(text, end, end2);
    PreferredIsUnique(text[..end], FLOOR_UNITS, b, b2);
  }
}
