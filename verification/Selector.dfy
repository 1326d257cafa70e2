/** Human time selectors: days of the week and a bucket of the day.  Time is local milliseconds since a
    Thursday midnight, without daylight saving. */
module Selector {
  import opened YamlText

  datatype Selector = Selector(days: seq<bool>, bucket: string)

  datatype Result<T> = Ok(value: T) | Err

  const HOUR_MS: nat := 3600000
  const DAY_MS: nat := 86400000
  const ANY_DAY: seq<bool> := [true, true, true, true, true, true, true]
  const WEEKDAYS: seq<bool> := [false, true, true, true, true, true, false]
  const WEEKEND: seq<bool> := [true, false, false, false, false, false, true]
  const NO_DAY: seq<bool> := [false, false, false, false, false, false, false]

  /** `bucketHours`. */
  function Hours(bucket: string): (r: Option<(nat, nat)>)
    ensures r.Some? ==> r.value.0 < r.value.1 <= 24
  {
    if bucket == "early-morning" then Some((5, 8))
    else if bucket == "morning" then Some((8, 12))
    else if bucket == "afternoon" then Some((12, 17))
    else if bucket == "evening" then Some((17, 21))
    else if bucket == "night" then Some((21, 24))
    else if bucket == "late-night" then Some((0, 5))
    else if bucket == "anytime" then Some((0, 24))
    else None
  }

  /** `dayTokens`, Sunday being 0. */
  function DayOf(token: string): (r: Option<nat>)
    ensures r.Some? ==> r.value < 7
  {
    if token == "sun" then Some(0) else if token == "mon" then Some(1) else if token == "tue" then Some(2)
    else if token == "wed" then Some(3) else if token == "thu" then Some(4) else if token == "fri" then Some(5)
    else if token == "sat" then Some(6) else None
  }

  // ---- Normalising the text ----

  function Lower(c: char): char { if 'A' <= c <= 'Z' then (c as int + 32) as char else c }

  function LowerAll(s: string): (r: string)
    ensures |r| == |s|
  {
    seq(|s|, i requires 0 <= i < |s| => Lower(s[i]))
  }

  function WordEnd(s: string): (n: nat)
    ensures n <= |s| && (forall i | 0 <= i < n :: !IsSpace(s[i])) && (n < |s| ==> IsSpace(s[n]))
  {
    if s == "" || IsSpace(s[0]) then 0 else 1 + WordEnd(s[1..])
  }

  /** `strings.Fields`. */
  function Words(s: string): seq<string>
    decreases |s|
  {
    if s == "" then []
    else if IsSpace(s[0]) then Words(s[1..])
    else [s[..WordEnd(s)]] + Words(s[WordEnd(s)..])
  }

  function Joined(words: seq<string>): string {
    if words == [] then "" else if |words| == 1 then words[0] else words[0] + " " + Joined(words[1..])
  }

  /** `strings.ReplaceAll(s, ", ", ",")`. */
  function Squash(s: string): string {
    if s == "" then ""
    else if HasPrefix(s, ", ") then "," + Squash(s[2..])
    else [s[0]] + Squash(s[1..])
  }

  function SplitOn(s: string, c: char): (r: seq<string>)
    ensures r != []
  {
    if s == "" then [""]
    else if s[0] == c then [""] + SplitOn(s[1..], c)
    else
      var r := SplitOn(s[1..], c);
      [[s[0]] + r[0]] + r[1..]
  }

  function Normal(input: string): string { Squash(Joined(Words(LowerAll(input)))) }

  // ---- Parsing ----

  function AddDays(tokens: seq<string>, days: seq<bool>): Result<seq<bool>>
    requires |days| == 7
  {
    if tokens == [] then Ok(days)
    else match DayOf(tokens[0])
         case None => Err
         case Some(d) => if days[d] then Err else AddDays(tokens[1..], days[d := true])
  }

  function ParseDays(part: string): Result<seq<bool>> {
    if part == "everyday" then Ok(ANY_DAY)
    else if part == "weekday" then Ok(WEEKDAYS)
    else if part == "weekend" then Ok(WEEKEND)
    else AddDays(SplitOn(part, ','), NO_DAY)
  }

  /** The day part and the bucket part. */
  function SplitParts(parts: seq<string>): Result<(string, string)>
    requires parts != []
  {
    var last := parts[|parts| - 1];
    if |parts| > 2 then Err
    else if Hours(last).Some? then Ok((if |parts| == 2 then parts[0] else "", last))
    else if |parts| != 1 then Err
    else Ok((last, ""))
  }

  function ParseParts(parts: seq<string>): Result<Selector>
    requires parts != []
  {
    match SplitParts(parts)
    case Err => Err
    case Ok((days, bucket)) =>
      match ParseDays(if days == "" then "everyday" else days)
      case Err => Err
      case Ok(chosen) => Ok(Selector(chosen, if bucket == "" then "anytime" else bucket))
  }

  /** `Parse`. */
  function Parse(input: string): Result<Selector> {
    var normalized := Normal(input);
    if normalized == "" then Err else ParseParts(SplitOn(normalized, ' '))
  }

  /** The loop over the day names, marking an array. */
  method MarkDays(part: string) returns (r: Result<seq<bool>>)
    ensures r == ParseDays(part)
  {
    if part == "everyday" { return Ok(ANY_DAY); }
    if part == "weekday" { return Ok(WEEKDAYS); }
    if part == "weekend" { return Ok(WEEKEND); }
    var tokens, days := SplitOn(part, ','), new bool[7](_ => false);
    assert days[..] == NO_DAY && tokens[0..] == tokens;
    for i := 0 to |tokens|
      invariant AddDays(tokens[i..], days[..]) == AddDays(tokens, NO_DAY)
    {
      ghost var was := days[..];
      assert tokens[i..][1..] == tokens[i + 1..];
      var day := DayOf(tokens[i]);
      if day.None? || days[day.value] { return Err; }
      days[day.value] := true;
      assert days[..] == was[day.value := true];
    }
    r := Ok(days[..]);
  }

  predicate Proper(s: Selector) { |s.days| == 7 && Hours(s.bucket).Some? && exists d :: 0 <= d < 7 && s.days[d] }

  predicate Named(tokens: seq<string>, d: nat) { exists i :: 0 <= i < |tokens| && DayOf(tokens[i]) == Some(d) }

  /** Exactly the named days are set, each named once. */
  lemma {:induction false} DaysAreTheNamed(tokens: seq<string>, days: seq<bool>)
    requires |days| == 7 && AddDays(tokens, days).Ok?
    ensures var r := AddDays(tokens, days).value;
            |r| == 7 && forall d: nat | d < 7 :: r[d] <==> days[d] || Named(tokens, d)
    ensures forall i, j | 0 <= i < j < |tokens| :: DayOf(tokens[i]) != DayOf(tokens[j])
    ensures forall i | 0 <= i < |tokens| :: DayOf(tokens[i]).Some? && !days[DayOf(tokens[i]).value]
  {
    hide DayOf;
    if tokens != [] {
      var d0 := DayOf(tokens[0]).value;
      var rest, next := tokens[1..], days[d0 := true];
      DaysAreTheNamed(rest, next);
      forall d: nat | d < 7 ensures Named(tokens, d) <==> d == d0 || Named(rest, d) {
        if Named(rest, d) { var i: nat :| i < |rest| && DayOf(rest[i]) == Some(d); assert tokens[i + 1] == rest[i]; }
        if Named(tokens, d) && d != d0 { var i: nat :| i < |tokens| && DayOf(tokens[i]) == Some(d); assert rest[i - 1] == tokens[i]; }
        if d == d0 { assert DayOf(tokens[0]) == Some(d); }
      }
      forall i, j | 0 <= i < j < |tokens| ensures DayOf(tokens[i]) != DayOf(tokens[j]) {
        assert tokens[j] == rest[j - 1];
        if i > 0 { assert tokens[i] == rest[i - 1]; }
      }
      forall i | 0 <= i < |tokens| ensures DayOf(tokens[i]).Some? && !days[DayOf(tokens[i]).value] {
        if i > 0 { assert tokens[i] == rest[i - 1]; }
      }
    }
  }

  /** What parses names at least one day and a known bucket. */
  lemma ParsedIsProper(input: string)
    requires Parse(input).Ok?
    ensures Proper(Parse(input).value)
  {
    hide Normal, SplitOn;
    var parts := SplitOn(Normal(input), ' ');
    var (days, bucket) := SplitParts(parts).value;
    var part := if days == "" then "everyday" else days;
    var r := ParseDays(part).value;
    if part == "everyday" || part == "weekday" || part == "weekend" {
      assert r[1] || r[0];
    } else {
      var tokens := SplitOn(part, ',');
      DaysAreTheNamed(tokens, NO_DAY);
      assert Named(tokens, DayOf(tokens[0]).value);
      assert r[DayOf(tokens[0]).value];
    }
  }
}
