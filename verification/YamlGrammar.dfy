/** What is read. */
module YamlGrammar {
  // The block reader accepts exactly the lines of the grammar below, and gives them exactly its meaning.

  import opened YamlText
  import opened YamlScalar
  import opened YamlReadBack
  import opened YamlParser

  /** The entries of a block, one after another.  An entry has a key, or else the marker of a sequence;
      what follows on its line; and the entries indented under it. */
  datatype Tree = Done | Entry(key: Option<string>, tail: string, nested: Tree, next: Tree)

  function Head(key: Option<string>): string { match key case None => "-" case Some(k) => k + ":" }

  function Text(t: Tree, n: nat): seq<Line> {
    match t
    case Done => []
    case Entry(key, tail, nested, next) => [Line(n, Head(key) + tail)] + Text(nested, n + 2) + Text(next, n)
  }

  /** An entry has either a scalar on its line or a block under it. */
  predicate IsEntry(t: Tree)
    requires t.Entry?
    decreases t, 0
  {
    if t.nested.Done? then TrimSpace(t.tail) != "" && ParseScalar(TrimSpace(t.tail)).Ok?
    else TrimSpace(t.tail) == "" && IsBlock(t.nested)
  }

  predicate IsBlock(t: Tree)
    decreases t, 2
  {
    t.Entry? && if t.key.None? then IsSequence(t) else IsMapping(t, {})
  }

  predicate IsSequence(t: Tree)
    decreases t, 1
  {
    match t
    case Done => true
    case Entry(key, tail, _, next) =>
      key.None? && (tail == "" || tail[0] == ' ') && IsEntry(t) && IsSequence(next)
  }

  /** Keys are letters and digits after a letter, and none is used twice. */
  predicate IsMapping(t: Tree, used: set<string>)
    decreases t, 1
  {
    match t
    case Done => true
    case Entry(key, _, _, next) =>
      key.Some? && ValidKey(key.value) && key.value !in used && IsEntry(t) && IsMapping(next, used + {key.value})
  }

  function Meaning(t: Tree): Value
    requires t.Entry? && IsEntry(t)
    decreases t, 0
  {
    if t.nested.Done? then ParseScalar(TrimSpace(t.tail)).value else BlockMeaning(t.nested)
  }

  function BlockMeaning(t: Tree): Value
    requires IsBlock(t)
    decreases t, 2
  {
    var none: Fields := map[];
    assert none.Keys == {};
    if t.key.None? then List(Items(t)) else Obj(Entries(t, none))
  }

  function Items(t: Tree): seq<Value>
    requires IsSequence(t)
    decreases t, 1
  {
    match t case Done => [] case Entry(_, _, _, next) => [Meaning(t)] + Items(next)
  }

  function Entries(t: Tree, above: Fields): Fields
    requires IsMapping(t, above.Keys)
    decreases t, 1
  {
    match t
    case Done => above
    case Entry(key, _, _, next) =>
      var all := above[key.value := Meaning(t)];
      assert all.Keys == above.Keys + {key.value};
      Entries(next, all)
  }

  // ---- Every block of the grammar is read ----

  lemma KeyLineIs(n: nat, key: string, tail: string, acc: Fields)
    requires ValidKey(key) && key !in acc
    ensures KeyLine(Line(n, key + ":" + tail), n, acc) == Ok((key, TrimSpace(tail)))
  {
    hide TrimSpace;
    var text := key + ":" + tail;
    assert text[0] == key[0] && text[..|key|] == key && text[|key| + 1..] == tail;
    FirstIndex(text, ':', |key|);
  }

  lemma {:induction false} FirstIndex(s: string, c: char, i: nat)
    requires i < |s| && s[i] == c && c !in s[..i]
    ensures IndexOf(s, c) == Some(i)
  {
    if i > 0 {
      assert s[..i][0] == s[0];
      assert s[1..][..i - 1] == s[..i][1..];
      FirstIndex(s[1..], c, i - 1);
    }
  }

  lemma EndsAfter(t: Tree, n: nat, rest: seq<Line>)
    requires Ends(rest, n)
    ensures Ends(Text(t, n) + rest, n + 1)
    ensures t.Entry? ==> Text(t, n) != [] && Text(t, n)[0] == Line(n, Head(t.key) + t.tail)
  {
  }

  lemma {:induction false} BlockIsRead(t: Tree, n: nat, rest: seq<Line>)
    requires IsBlock(t) && Ends(rest, n)
    ensures PBlock(Text(t, n) + rest, n) == Ok((BlockMeaning(t), rest))
    decreases t, 2
  {
    hide PMapping, PSequence, ValidKey;
    EndsAfter(t, n, rest);
    var lines := Text(t, n) + rest;
    assert lines[0] == Line(n, Head(t.key) + t.tail);
    if t.key.None? {
      SequenceIsRead(t, n, [], rest);
      assert [] + Items(t) == Items(t);
    } else {
      KeyIsNoMarker(t.key.value, t.tail);
      var none: Fields := map[];
      assert none.Keys == {};
      MappingIsRead(t, n, map[], rest);
    }
  }

  lemma KeyIsNoMarker(key: string, tail: string)
    requires ValidKey(key)
    ensures !HasPrefix(key + ":" + tail, "-")
  {
    assert (key + ":" + tail)[0] == key[0];
  }

  lemma {:induction false} EntryIsRead(t: Tree, n: nat, rest: seq<Line>)
    requires t.Entry? && IsEntry(t) && !t.nested.Done? && Ends(rest, n)
    ensures var left := Text(t.nested, n + 2) + (Text(t.next, n) + rest);
            && left != [] && left[0].indent == n + 2
            && PBlock(left, n + 2) == Ok((BlockMeaning(t.nested), Text(t.next, n) + rest))
    decreases t, 0
  {
    hide PBlock;
    EndsAfter(t.next, n, rest);
    EndsAfter(t.nested, n + 2, Text(t.next, n) + rest);
    BlockIsRead(t.nested, n + 2, Text(t.next, n) + rest);
  }

  lemma TextTail(t: Tree, n: nat, rest: seq<Line>)
    requires t.Entry?
    ensures var lines := Text(t, n) + rest;
            && lines != [] && lines[0] == Line(n, Head(t.key) + t.tail)
            && lines[1..] == Text(t.nested, n + 2) + (Text(t.next, n) + rest)
            && (t.nested.Done? ==> lines[1..] == Text(t.next, n) + rest)
  {
    var line, a, b := Line(n, Head(t.key) + t.tail), Text(t.nested, n + 2), Text(t.next, n);
    assert t.nested.Done? ==> a == [];
    assert Text(t, n) == [line] + a + b;
    hide Text;
    var lines := [line] + a + b + rest;
    assert lines[1..] == a + (b + rest);
    assert a == [] ==> a + (b + rest) == b + rest;
  }

  lemma {:induction false} MappingIsRead(t: Tree, n: nat, acc: Fields, rest: seq<Line>)
    requires IsMapping(t, acc.Keys) && Ends(rest, n)
    ensures PMapping(Text(t, n) + rest, n, acc) == Ok((Entries(t, acc), rest))
    decreases t, 1
  {
    hide PMapping, PBlock, KeyLine, ParseScalar, TrimSpace, ValidKey, Text;
    var lines := Text(t, n) + rest;
    MappingGoesOn(lines, n, acc);
    if t.Entry? {
      TextTail(t, n, rest);
      KeyLineIs(n, t.key.value, t.tail, acc);
      var all := acc[t.key.value := Meaning(t)];
      assert all.Keys == acc.Keys + {t.key.value};
      if !t.nested.Done? { EntryIsRead(t, n, rest); }
      MappingIsRead(t.next, n, all, rest);
    } else {
      NoText(n, rest);
    }
  }

  lemma NoText(n: nat, rest: seq<Line>)
    ensures Text(Done, n) + rest == rest
  {
  }

  lemma ItemLineIs(n: nat, tail: string)
    requires tail == "" || tail[0] == ' '
    ensures ItemLine(Line(n, "-" + tail), n) == Ok(TrimSpace(tail))
  {
    hide TrimSpace;
    assert ("-" + tail)[1..] == tail;
  }

  lemma {:induction false} SequenceIsRead(t: Tree, n: nat, acc: seq<Value>, rest: seq<Line>)
    requires IsSequence(t) && Ends(rest, n)
    ensures PSequence(Text(t, n) + rest, n, acc) == Ok((acc + Items(t), rest))
    decreases t, 1
  {
    hide PSequence, PBlock, ItemLine, ParseScalar, TrimSpace, Text, Items;
    var lines := Text(t, n) + rest;
    SequenceGoesOn(lines, n, acc);
    if t.Entry? {
      TextTail(t, n, rest);
      ItemLineIs(n, t.tail);
      if !t.nested.Done? { EntryIsRead(t, n, rest); }
      SequenceIsRead(t.next, n, acc + [Meaning(t)], rest);
      ItemsJoin(t, acc);
    } else {
      NoText(n, rest);
      NoItems(acc);
    }
  }

  lemma ItemsJoin(t: Tree, acc: seq<Value>)
    requires t.Entry? && IsSequence(t)
    ensures acc + Items(t) == acc + [Meaning(t)] + Items(t.next)
  {
    hide Meaning, IsEntry;
    assert acc + ([Meaning(t)] + Items(t.next)) == acc + [Meaning(t)] + Items(t.next);
  }

  lemma NoItems(acc: seq<Value>)
    ensures acc + Items(Done) == acc
  {
  }

  // ---- Nothing else is read ----

  lemma KeyLineHas(line: Line, n: nat, acc: Fields)
    requires line.indent >= n && KeyLine(line, n, acc).Ok?
    ensures var (key, rest) := KeyLine(line, n, acc).value;
            && ValidKey(key) && key !in acc && line.indent == n
            && exists tail | line.text == key + ":" + tail :: TrimSpace(tail) == rest
  {
    hide TrimSpace;
    var colon := IndexOf(line.text, ':').value;
    var tail := line.text[colon + 1..];
    assert line.text == line.text[..colon] + ":" + tail;
  }

  lemma ItemLineHas(line: Line, n: nat)
    requires ItemLine(line, n).Ok?
    ensures line.indent == n
    ensures exists tail | line.text == "-" + tail ::
              (tail == "" || tail[0] == ' ') && TrimSpace(tail) == ItemLine(line, n).value
  {
    hide TrimSpace;
    var tail := line.text[1..];
    assert line.text == "-" + tail;
  }

  lemma {:induction false} ReadIsBlock(lines: seq<Line>, n: nat) returns (t: Tree)
    requires PBlock(lines, n).Ok?
    ensures IsBlock(t)
    ensures var (v, rest) := PBlock(lines, n).value; Ends(rest, n) && lines == Text(t, n) + rest && v == BlockMeaning(t)
    decreases |lines|, 1
  {
    hide PMapping, PSequence, Text, KeyLine, ItemLine;
    var rest := PBlock(lines, n).value.1;
    NoText(n, rest);
    if HasPrefix(lines[0].text, "-") {
      t := ReadIsSequence(lines, n, []);
      assert [] + Items(t) == Items(t);
    } else {
      var none: Fields := map[];
      assert none.Keys == {};
      t := ReadIsMapping(lines, n, map[]);
    }
  }

  /** The entry has the value `value`. */
  predicate Gives(tail: string, nested: Tree, value: Value) {
    if nested.Done? then TrimSpace(tail) != "" && ParseScalar(TrimSpace(tail)) == Ok(value)
    else TrimSpace(tail) == "" && IsBlock(nested) && BlockMeaning(nested) == value
  }

  lemma MappingWith(key: string, tail: string, nested: Tree, next: Tree, acc: Fields, value: Value)
    requires ValidKey(key) && key !in acc && Gives(tail, nested, value) && IsMapping(next, acc[key := value].Keys)
    ensures var t := Entry(Some(key), tail, nested, next);
            IsMapping(t, acc.Keys) && Entries(t, acc) == Entries(next, acc[key := value])
  {
    hide TrimSpace, ParseScalar, IsBlock, BlockMeaning, ValidKey;
    assert acc[key := value].Keys == acc.Keys + {key};
  }

  lemma SequenceWith(tail: string, nested: Tree, next: Tree, acc: seq<Value>, value: Value)
    requires (tail == "" || tail[0] == ' ') && Gives(tail, nested, value) && IsSequence(next)
    ensures var t := Entry(None, tail, nested, next); IsSequence(t) && acc + Items(t) == acc + [value] + Items(next)
  {
    hide TrimSpace, ParseScalar, IsBlock, BlockMeaning;
    assert acc + ([value] + Items(next)) == acc + [value] + Items(next);
  }

  lemma LinesWith(lines: seq<Line>, key: Option<string>, tail: string, nested: Tree, next: Tree, n: nat,
                  left: seq<Line>, rest: seq<Line>)
    requires lines != [] && lines[0] == Line(n, Head(key) + tail)
    requires lines[1..] == Text(nested, n + 2) + left && left == Text(next, n) + rest
    ensures lines == Text(Entry(key, tail, nested, next), n) + rest
  {
    TextTail(Entry(key, tail, nested, next), n, rest);
    hide Text;
    assert lines == [lines[0]] + lines[1..];
  }

  lemma {:induction false} ReadIsMapping(lines: seq<Line>, n: nat, acc: Fields) returns (t: Tree)
    requires PMapping(lines, n, acc).Ok?
    ensures IsMapping(t, acc.Keys)
    ensures var (m, rest) := PMapping(lines, n, acc).value;
            Ends(rest, n) && lines == Text(t, n) + rest && m == Entries(t, acc)
    decreases |lines|, 0
  {
    hide PMapping, PBlock, KeyLine, ParseScalar, TrimSpace, ValidKey, Text, IsEntry, IsBlock, Meaning;
    MappingGoesOn(lines, n, acc);
    if Ends(lines, n) {
      NoText(n, lines);
      return Done;
    }
    hide IsMapping, Entries;
    KeyLineHas(lines[0], n, acc);
    var (key, after) := KeyLine(lines[0], n, acc).value;
    var tail :| lines[0].text == key + ":" + tail && TrimSpace(tail) == after;
    var value, nested, left := ReadEntry(lines[1..], n, tail);
    var next := ReadIsMapping(left, n, acc[key := value]);
    t := Entry(Some(key), tail, nested, next);
    MappingWith(key, tail, nested, next, acc, value);
    LinesWith(lines, Some(key), tail, nested, next, n, left, PMapping(lines, n, acc).value.1);
  }

  lemma {:induction false} ReadIsSequence(lines: seq<Line>, n: nat, acc: seq<Value>) returns (t: Tree)
    requires PSequence(lines, n, acc).Ok?
    ensures IsSequence(t)
    ensures var (items, rest) := PSequence(lines, n, acc).value;
            Ends(rest, n) && lines == Text(t, n) + rest && items == acc + Items(t)
    decreases |lines|, 0
  {
    hide PSequence, PBlock, ItemLine, ParseScalar, TrimSpace, Text, IsEntry, IsBlock, Meaning, Items;
    SequenceGoesOn(lines, n, acc);
    if Ends(lines, n) {
      NoText(n, lines);
      NoItems(acc);
      return Done;
    }
    hide IsSequence;
    ItemLineHas(lines[0], n);
    var after := ItemLine(lines[0], n).value;
    var tail :| lines[0].text == "-" + tail && (tail == "" || tail[0] == ' ') && TrimSpace(tail) == after;
    var value, nested, left := ReadEntry(lines[1..], n, tail);
    var next := ReadIsSequence(left, n, acc + [value]);
    t := Entry(None, tail, nested, next);
    SequenceWith(tail, nested, next, acc, value);
    LinesWith(lines, None, tail, nested, next, n, left, PSequence(lines, n, acc).value.1);
  }

  /** What an entry's line and the lines under it give: the scalar, or the block. */
  lemma {:induction false} ReadEntry(lines: seq<Line>, n: nat, tail: string)
      returns (value: Value, nested: Tree, left: seq<Line>)
    requires if TrimSpace(tail) != "" then ParseScalar(TrimSpace(tail)).Ok? else PBlock(lines, n + 2).Ok?
    ensures if TrimSpace(tail) != "" then left == lines && value == ParseScalar(TrimSpace(tail)).value
            else (value, left) == PBlock(lines, n + 2).value
    ensures Gives(tail, nested, value) && lines == Text(nested, n + 2) + left && |left| <= |lines|
    decreases |lines|, 2
  {
    hide PBlock, ParseScalar, Text, TrimSpace, IsBlock, BlockMeaning;
    if TrimSpace(tail) != "" {
      value, nested, left := ParseScalar(TrimSpace(tail)).value, Done, lines;
      NoText(n + 2, lines);
    } else {
      nested := ReadIsBlock(lines, n + 2);
      value, left := BlockMeaning(nested), PBlock(lines, n + 2).value.1;
      DoneIsNoBlock();
    }
  }

  lemma DoneIsNoBlock()
    ensures !IsBlock(Done)
  {
  }

  // ---- Whole files ----

  /** A block is read, and read as `v`, exactly if it is the text of a tree of the grammar that means `v`. */
  lemma BlockIff(lines: seq<Line>, n: nat, v: Value, rest: seq<Line>)
    ensures PBlock(lines, n) == Ok((v, rest)) <==>
            Ends(rest, n) && exists t | IsBlock(t) :: lines == Text(t, n) + rest && v == BlockMeaning(t)
  {
    hide PBlock, IsBlock, Text, BlockMeaning;
    if PBlock(lines, n) == Ok((v, rest)) {
      var t := ReadIsBlock(lines, n);
    }
    if Ends(rest, n) {
      forall t | IsBlock(t) && lines == Text(t, n) + rest && v == BlockMeaning(t)
        ensures PBlock(lines, n) == Ok((v, rest))
      {
        BlockIsRead(t, n, rest);
      }
    }
  }

  /** A file is read as `fields` exactly if it is within 1 MiB, has no tab and no carriage return of its
      own, and its lines that are not blank are a mapping of the grammar that means them. */
  lemma FileIff(file: string, fields: Fields)
    ensures Parse(file) == Ok(fields) <==>
            && Bytes(file) <= 1048576
            && '\t' !in Normalise(file) && '\r' !in Normalise(file)
            && var lines := Lex(SplitLines(Normalise(file)));
               lines.Ok? && exists t | IsBlock(t) :: lines.value == Text(t, 0) && BlockMeaning(t) == Obj(fields)
  {
    hide PBlock, IsBlock, Text, BlockMeaning, Lex, Bytes, Normalise;
    var lexed := Lex(SplitLines(Normalise(file)));
    if lexed.Ok? {
      var lines := lexed.value;
      BlockIff(lines, 0, Obj(fields), []);
      assert forall t | IsBlock(t) :: Text(t, 0) + [] == Text(t, 0);
      NoLinesNoBlock(lines);
    }
  }

  /** Lines, each with how it ends: with a carriage return before the line feed, or without. */
  function Raw(lines: seq<(string, bool)>, last: string): string {
    if lines == [] then last else lines[0].0 + (if lines[0].1 then "\r\n" else "\n") + Raw(lines[1..], last)
  }

  function Plain(lines: seq<(string, bool)>, last: string): string {
    if lines == [] then last else lines[0].0 + "\n" + Plain(lines[1..], last)
  }

  lemma {:induction false} LineReplaced(line: string, s: string)
    requires '\r' !in line
    ensures ReplaceBreaks(line + s) == line + ReplaceBreaks(s)
  {
    if line == "" {
      assert line + s == s;
    } else {
      assert (line + s)[1..] == line[1..] + s;
      LineReplaced(line[1..], s);
      assert line == [line[0]] + line[1..] && line[0] in line;
    }
  }

  lemma LineEndReplaced(line: string, long: bool, s: string)
    requires '\r' !in line
    ensures ReplaceBreaks(line + (if long then "\r\n" else "\n") + s) == line + "\n" + ReplaceBreaks(s)
  {
    var end := if long then "\r\n" else "\n";
    assert (end + s)[|end|..] == s;
    assert ReplaceBreaks(end + s) == "\n" + ReplaceBreaks(s);
    LineReplaced(line, end + s);
    hide ReplaceBreaks;
    assert line + end + s == line + (end + s);
    assert line + "\n" + ReplaceBreaks(s) == line + ("\n" + ReplaceBreaks(s));
  }

  /** Both ways to end a line mean the same. */
  lemma {:induction false} LineEndsAreEqual(lines: seq<(string, bool)>, last: string)
    requires '\r' !in last && forall l <- lines :: '\r' !in l.0
    ensures ReplaceBreaks(Raw(lines, last)) == Plain(lines, last)
  {
    if lines == [] {
      LineReplaced(last, "");
      assert last + "" == last;
    } else {
      hide ReplaceBreaks;
      assert lines[0] in lines;
      LineEndsAreEqual(lines[1..], last);
      LineEndReplaced(lines[0].0, lines[0].1, Raw(lines[1..], last));
    }
  }

  /** A byte order mark in front means nothing. */
  lemma MarkIsDropped(s: string)
    ensures Normalise("\U{FEFF}" + s) == ReplaceBreaks(s) && (s == "" || s[0] != '\U{FEFF}' ==> Normalise(s) == ReplaceBreaks(s))
  {
    hide ReplaceBreaks;
    assert ("\U{FEFF}" + s)[1..] == s;
  }

  /** A carriage return on its own stays, and makes the file unreadable. */
  lemma {:induction false} BareReturnStays(s: string, i: nat)
    requires i < |s| && s[i] == '\r' && (i + 1 < |s| ==> s[i + 1] != '\n')
    ensures '\r' in ReplaceBreaks(s)
    decreases |s|
  {
    if HasPrefix(s, "\r\n") {
      BareReturnStays(s[2..], i - 2);
    } else if i > 0 {
      BareReturnStays(s[1..], i - 1);
    }
  }

  /** The size is counted in bytes of UTF-8. */
  lemma {:induction false} BytesAdd(s: string, c: char)
    ensures Bytes(s + [c]) == Bytes(s) + (if c as int < 0x80 then 1 else if c as int < 0x800 then 2 else if c as int < 0x10000 then 3 else 4)
  {
    if s == "" {
      assert s + [c] == [c] && [c][1..] == "";
    } else {
      assert (s + [c])[1..] == s[1..] + [c];
      BytesAdd(s[1..], c);
    }
  }

  lemma NoLinesNoBlock(lines: seq<Line>)
    ensures PBlock(lines, 0).Ok? ==> lines != []
  {
  }
}
