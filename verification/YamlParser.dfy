/** The block reader: mappings and sequences by indentation. */
module YamlParser {
  import opened YamlText
  import opened YamlScalar
  import opened YamlReadBack

  type Fields = map<string, Value>

  function IndexOf(s: string, c: char): (r: Option<nat>)
    ensures match r
            case None => c !in s
            case Some(i) => i < |s| && s[i] == c && c !in s[..i]
  {
    if s == "" then None
    else if s[0] == c then Some(0)
    else match IndexOf(s[1..], c)
         case None => None
         case Some(i) => assert s[..i + 1] == [s[0]] + s[1..][..i]; Some(i + 1)
  }

  /** What is left is a tail of what there was. */
  predicate Tail(rest: seq<Line>, lines: seq<Line>) {
    |rest| <= |lines| && rest == lines[|lines| - |rest|..]
  }

  /** `parseBlock`, as a function from the lines still to read to the value and the lines left. */
  function PBlock(lines: seq<Line>, indent: nat): (r: Result<(Value, seq<Line>)>)
    ensures r.Ok? ==> Tail(r.value.1, lines)
    decreases |lines|, 1
  {
    if lines == [] then Err(UnexpectedEnd)
    else if lines[0].indent != indent then Err(IndentationJump)
    else if HasPrefix(lines[0].text, "-") then
      match PSequence(lines, indent, [])
      case Err(e) => Err(e)
      case Ok((items, rest)) => Ok((List(items), rest))
    else
      match PMapping(lines, indent, map[])
      case Err(e) => Err(e)
      case Ok((fields, rest)) => Ok((Obj(fields), rest))
  }

  /** The key of a mapping line, and what follows the colon. */
  function KeyLine(line: Line, indent: nat, acc: Fields): Result<(string, string)> {
    if line.indent > indent then Err(IndentationJump)
    else if HasPrefix(line.text, "-") then Err(MixedCollection)
    else match IndexOf(line.text, ':')
         case None => Err(ExpectedKey)
         case Some(colon) =>
           var key := line.text[..colon];
           if colon < 1 then Err(ExpectedKey)
           else if !ValidKey(key) then Err(InvalidKey)
           else if key in acc then Err(DuplicateKey)
           else Ok((key, TrimSpace(line.text[colon + 1..])))
  }

  /** What follows the marker of a sequence line. */
  function ItemLine(line: Line, indent: nat): Result<string> {
    if line.indent != indent || !HasPrefix(line.text, "-") then Err(MalformedSequence)
    else if |line.text| > 1 && line.text[1] != ' ' then Err(MalformedMarker)
    else Ok(TrimSpace(line.text[1..]))
  }

  /** `parseMapping`, continuing from the entries already read. */
  function PMapping(lines: seq<Line>, indent: nat, acc: Fields): (r: Result<(Fields, seq<Line>)>)
    ensures r.Ok? ==> Tail(r.value.1, lines)
    decreases |lines|, 0
  {
    if lines == [] || lines[0].indent < indent then Ok((acc, lines))
    else match KeyLine(lines[0], indent, acc)
         case Err(e) => Err(e)
         case Ok((key, rest)) =>
           var tail := lines[1..];
           if rest == "" then
             if tail == [] || tail[0].indent <= indent then Err(MissingNested)
             else if tail[0].indent != indent + 2 then Err(IndentationJump)
             else match PBlock(tail, indent + 2)
                  case Err(e) => Err(e)
                  case Ok((v, after)) => PMapping(after, indent, acc[key := v])
           else match ParseScalar(rest)
                case Err(e) => Err(e)
                case Ok(v) => PMapping(tail, indent, acc[key := v])
  }

  /** `parseSequence`, continuing from the items already read. */
  function PSequence(lines: seq<Line>, indent: nat, acc: seq<Value>): (r: Result<(seq<Value>, seq<Line>)>)
    ensures r.Ok? ==> Tail(r.value.1, lines)
    decreases |lines|, 0
  {
    if lines == [] || lines[0].indent < indent then Ok((acc, lines))
    else match ItemLine(lines[0], indent)
         case Err(e) => Err(e)
         case Ok(rest) =>
           var tail := lines[1..];
           if rest == "" then
             if tail == [] || tail[0].indent != indent + 2 then Err(MissingItem)
             else match PBlock(tail, indent + 2)
                  case Err(e) => Err(e)
                  case Ok((v, after)) => PSequence(after, indent, acc + [v])
           else match ParseScalar(rest)
                case Err(e) => Err(e)
                case Ok(v) => PSequence(tail, indent, acc + [v])
  }

  // ---- One line at a time ----

  predicate Ends(lines: seq<Line>, indent: nat) { lines == [] || lines[0].indent < indent }

  /** The four ways a mapping goes on at a line. */
  lemma MappingGoesOn(lines: seq<Line>, indent: nat, acc: Fields)
    ensures Ends(lines, indent) ==> PMapping(lines, indent, acc) == Ok((acc, lines))
    ensures !Ends(lines, indent) ==>
              var entry, tail := KeyLine(lines[0], indent, acc), lines[1..];
              if entry.Err? then PMapping(lines, indent, acc) == Err(entry.error)
              else if entry.value.1 != "" then
                var v := ParseScalar(entry.value.1);
                PMapping(lines, indent, acc) ==
                if v.Err? then Err(v.error) else PMapping(tail, indent, acc[entry.value.0 := v.value])
              else if Ends(tail, indent + 1) then PMapping(lines, indent, acc) == Err(MissingNested)
              else if tail[0].indent != indent + 2 then PMapping(lines, indent, acc) == Err(IndentationJump)
              else
                var v := PBlock(tail, indent + 2);
                PMapping(lines, indent, acc) ==
                if v.Err? then Err(v.error) else PMapping(v.value.1, indent, acc[entry.value.0 := v.value.0])
  {
    hide KeyLine, ParseScalar, PBlock;
  }

  /** The four ways a sequence goes on at a line. */
  lemma SequenceGoesOn(lines: seq<Line>, indent: nat, acc: seq<Value>)
    ensures Ends(lines, indent) ==> PSequence(lines, indent, acc) == Ok((acc, lines))
    ensures !Ends(lines, indent) ==>
              var item, tail := ItemLine(lines[0], indent), lines[1..];
              if item.Err? then PSequence(lines, indent, acc) == Err(item.error)
              else if item.value != "" then
                var v := ParseScalar(item.value);
                PSequence(lines, indent, acc) == if v.Err? then Err(v.error) else PSequence(tail, indent, acc + [v.value])
              else if tail == [] || tail[0].indent != indent + 2 then PSequence(lines, indent, acc) == Err(MissingItem)
              else
                var v := PBlock(tail, indent + 2);
                PSequence(lines, indent, acc) ==
                if v.Err? then Err(v.error) else PSequence(v.value.1, indent, acc + [v.value.0])
  {
    hide ItemLine, ParseScalar, PBlock;
  }

  /** All lines of the file, blank ones left out. */
  function Lex(raws: seq<string>): Result<seq<Line>> {
    if raws == [] then Ok([])
    else match LexLine(raws[0])
         case Err(e) => Err(e)
         case Ok(line) =>
           match Lex(raws[1..])
           case Err(e) => Err(e)
           case Ok(lines) => Ok((if line.Some? then [line.value] else []) + lines)
  }

  const MAX_BYTES: int := 1048576

  function Utf8Size(c: char): nat {
    if c < '\U{80}' then 1 else if c < '\U{800}' then 2 else if c < '\U{10000}' then 3 else 4
  }

  function Bytes(s: string): nat { if s == "" then 0 else Utf8Size(s[0]) + Bytes(s[1..]) }

  function ReplaceBreaks(s: string): string {
    if s == "" then ""
    else if HasPrefix(s, "\r\n") then "\n" + ReplaceBreaks(s[2..])
    else [s[0]] + ReplaceBreaks(s[1..])
  }

  function Normalise(text: string): string {
    ReplaceBreaks(if HasPrefix(text, "\U{FEFF}") then text[1..] else text)
  }

  function ParseLines(lines: seq<Line>): Result<Fields> {
    if lines == [] then Err(RootNotMapping)
    else match PBlock(lines, 0)
         case Err(e) => Err(e)
         case Ok((v, rest)) =>
           if rest != [] then Err(Trailing) else if v.Obj? then Ok(v.fields) else Err(RootNotMapping)
  }

  /** `ParseYAML`. */
  function Parse(text: string): Result<Fields> {
    var t := Normalise(text);
    if Bytes(text) > MAX_BYTES then Err(TooLarge)
    else if '\r' in t then Err(BareReturn)
    else if '\t' in t then Err(Tab)
    else match Lex(SplitLines(t))
         case Err(e) => Err(e)
         case Ok(lines) => ParseLines(lines)
  }

  /** The parser object: all lines, and how many have been read. */
  class Parser {
    const lines: seq<Line>
    var at: nat

    constructor (lines: seq<Line>)
      ensures this.lines == lines && at == 0
    {
      this.lines, at := lines, 0;
    }

    ghost predicate Valid() reads this { at <= |lines| }

    ghost function Left(): seq<Line> reads this requires Valid() { lines[at..] }

    method ParseBlock(indent: nat) returns (r: Result<Value>)
      requires Valid()
      modifies this
      ensures Valid() && at >= old(at)
      ensures match PBlock(old(Left()), indent)
              case Err(e) => r == Err(e)
              case Ok((v, rest)) => r == Ok(v) && Left() == rest
      decreases |lines| - at, 1
    {
      if at >= |lines| { return Err(UnexpectedEnd); }
      if lines[at].indent != indent { return Err(IndentationJump); }
      if HasPrefix(lines[at].text, "-") {
        var items := ParseSequence(indent);
        r := match items case Ok(xs) => Ok(List(xs)) case Err(e) => Err(e);
      } else {
        var fields := ParseMapping(indent);
        r := match fields case Ok(m) => Ok(Obj(m)) case Err(e) => Err(e);
      }
    }

    method ParseMapping(indent: nat) returns (r: Result<Fields>)
      requires Valid()
      modifies this
      ensures Valid() && at >= old(at)
      ensures match PMapping(old(Left()), indent, map[])
              case Err(e) => r == Err(e)
              case Ok((m, rest)) => r == Ok(m) && Left() == rest
      decreases |lines| - at, 0
    {
      hide PMapping, PBlock, ParseScalar, KeyLine;
      var result: Fields := map[];
      ghost var whole := PMapping(Left(), indent, map[]);
      while at < |lines| && lines[at].indent >= indent
        invariant Valid() && at >= old(at)
        invariant PMapping(Left(), indent, result) == whole
        decreases |lines| - at
      {
        ghost var left := Left();
        assert left[0] == lines[at] && left[1..] == lines[at + 1..];
        MappingGoesOn(left, indent, result);
        var entry := KeyLine(lines[at], indent, result);
        if entry.Err? { return Err(entry.error); }
        var (key, rest) := entry.value;
        at := at + 1;
        var value;
        if rest == "" {
          if at >= |lines| || lines[at].indent <= indent { return Err(MissingNested); }
          if lines[at].indent != indent + 2 { return Err(IndentationJump); }
          value := ParseBlock(indent + 2);
        } else {
          value := ParseScalar(rest);
        }
        if value.Err? { return Err(value.error); }
        result := result[key := value.value];
      }
      MappingGoesOn(Left(), indent, result);
      r := Ok(result);
    }

    method ParseSequence(indent: nat) returns (r: Result<seq<Value>>)
      requires Valid()
      modifies this
      ensures Valid() && at >= old(at)
      ensures match PSequence(old(Left()), indent, [])
              case Err(e) => r == Err(e)
              case Ok((xs, rest)) => r == Ok(xs) && Left() == rest
      decreases |lines| - at, 0
    {
      hide PSequence, PBlock, ParseScalar, ItemLine;
      var result: seq<Value> := [];
      ghost var whole := PSequence(Left(), indent, []);
      while at < |lines| && lines[at].indent >= indent
        invariant Valid() && at >= old(at)
        invariant PSequence(Left(), indent, result) == whole
        decreases |lines| - at
      {
        ghost var left := Left();
        assert left[0] == lines[at] && left[1..] == lines[at + 1..];
        SequenceGoesOn(left, indent, result);
        var item := ItemLine(lines[at], indent);
        if item.Err? { return Err(item.error); }
        at := at + 1;
        var value;
        if item.value == "" {
          if at >= |lines| || lines[at].indent != indent + 2 { return Err(MissingItem); }
          value := ParseBlock(indent + 2);
        } else {
          value := ParseScalar(item.value);
        }
        if value.Err? { return Err(value.error); }
        result := result + [value.value];
      }
      SequenceGoesOn(Left(), indent, result);
      r := Ok(result);
    }
  }

  /** `ParseYAML`: the loop over the lines of the file, then the parser. */
  method ParseYaml(text: string) returns (r: Result<Fields>)
    ensures r == Parse(text)
  {
    hide LexLine, PBlock, Normalise, Bytes;
    if Bytes(text) > MAX_BYTES { return Err(TooLarge); }
    var t := Normalise(text);
    if '\r' in t { return Err(BareReturn); }
    if '\t' in t { return Err(Tab); }
    var raws, lines := SplitLines(t), [];
    ghost var all := Lex(raws);
    assert raws[0..] == raws;
    assert all.Ok? ==> [] + all.value == all.value;
    for i := 0 to |raws|
      invariant match Lex(raws[i..])
                case Err(e) => all == Err(e)
                case Ok(more) => all == Ok(lines + more)
    {
      assert raws[i..][1..] == raws[i + 1..];
      var line := LexOne(raws[i]);
      if line.Err? { return Err(line.error); }
      ghost var more := Lex(raws[i + 1..]);
      if line.value.Some? {
        assert more.Ok? ==> lines + ([line.value.value] + more.value) == (lines + [line.value.value]) + more.value;
        lines := lines + [line.value.value];
      } else {
        assert more.Ok? ==> [] + more.value == more.value;
      }
    }
    assert raws[|raws|..] == [] && lines + [] == lines;
    if lines == [] { return Err(RootNotMapping); }
    var parser := new Parser(lines);
    assert parser.Left() == lines;
    var value := parser.ParseBlock(0);
    if value.Err? { return Err(value.error); }
    if parser.at != |lines| { return Err(Trailing); }
    if !value.value.Obj? { return Err(RootNotMapping); }
    r := Ok(value.value.fields);
  }

  method LexOne(raw: string) returns (r: Result<Option<Line>>)
    ensures r == LexLine(raw)
  {
    hide Forbidden, StripFrom, TrimSpace;
    var content := StripComment(raw);
    if content.Err? { return Err(content.error); }
    var c := TrimBlanks(content.value);
    if TrimSpace(c) == "" { return Ok(None); }
    var n := Indent(c);
    if n % 2 != 0 { return Err(OddIndent); }
    var trimmed := c[n..];
    if Forbidden(trimmed) { return Err(UnsupportedSyntax); }
    r := Ok(Some(Line(n, trimmed)));
  }
}
