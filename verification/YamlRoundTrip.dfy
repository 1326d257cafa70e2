/** Reading back, line by line, what was written to the file. */
module YamlRoundTrip {
  // Each scalar is read on its own line and the structure is recovered around them, so the tree comes
  // back exactly when every string in it is readable.

  import opened YamlText
  import opened YamlScalar
  import opened YamlReadBack
  import opened YamlParser
  import opened YamlEmitter

  // ---- Lines ----

  lemma {:induction false} LexConcat(a: seq<string>, b: seq<string>)
    ensures Lex(a + b) == (if Lex(a).Err? then Lex(a) else if Lex(b).Err? then Lex(b) else Ok(Lex(a).value + Lex(b).value))
  {
    hide LexLine;
    if a == [] {
      assert a + b == b;
      assert Lex(b).Ok? ==> [] + Lex(b).value == Lex(b).value;
    } else {
      assert (a + b)[1..] == a[1..] + b;
      LexConcat(a[1..], b);
      var line := LexLine(a[0]);
      if line.Ok? && Lex(a[1..]).Ok? && Lex(b).Ok? {
        var first := if line.value.Some? then [line.value.value] else [];
        assert first + (Lex(a[1..]).value + Lex(b).value) == (first + Lex(a[1..]).value) + Lex(b).value;
      }
    }
  }

  lemma LexSingle(raw: string)
    ensures Lex([raw]) == (match LexLine(raw)
                           case Err(e) => Err(e)
                           case Ok(line) => Ok(if line.Some? then [line.value] else []))
  {
    hide LexLine;
    assert [raw][1..] == [];
    var line := LexLine(raw);
    if line.Ok? {
      var lines: seq<Line> := if line.value.Some? then [line.value.value] else [];
      assert lines + [] == lines;
    }
  }

  lemma {:induction false} StripBeforeHash(line: string, n: nat, i: nat)
    requires i <= n < |line| && line[..n] == Blanks(n) && line[n] == '#'
    ensures StripFrom(line, i, Bare) == Ok(Blanks(n))
    decreases n - i
  {
    if i < n {
      assert line[i] == Blanks(n)[i];
      StripBeforeHash(line, n, i + 1);
    } else if n > 0 {
      assert line[n - 1] == Blanks(n)[n - 1];
    }
  }

  lemma {:induction false} BlankIsBlank(n: nat)
    ensures TrimBlanks(Blanks(n)) == ""
  {
    if n > 0 {
      assert Blanks(n)[..n - 1] == Blanks(n - 1);
      BlankIsBlank(n - 1);
    }
  }

  lemma CommentIsBlank(n: nat, comment: string)
    ensures LexLine(Blanks(n) + "# " + comment) == Ok(None)
  {
    var line := Blanks(n) + "# " + comment;
    assert line[..n] == Blanks(n);
    StripBeforeHash(line, n, 0);
    BlankIsBlank(n);
    hide StripFrom, Forbidden;
  }

  lemma {:induction false} CommentsVanish(comments: seq<string>, n: nat)
    ensures Lex(CommentLines(comments, n)) == Ok([])
  {
    hide LexLine;
    if comments != [] {
      CommentIsBlank(n, comments[0]);
      CommentsVanish(comments[1..], n);
      var raw := Blanks(n) + "# " + comments[0];
      LexSingle(raw);
      LexConcat([raw], CommentLines(comments[1..], n));
    }
  }

  lemma KeyLexes(n: nat, key: string)
    requires ValidKey(key) && n % 2 == 0
    ensures LexLine(Blanks(n) + (key + ":")) == Ok(Some(Line(n, key + ":")))
  {
    var text := key + ":";
    ScanBlanks(n, text);
    KeyAllowed(key);
    hide Forbidden, LexLine;
    LexText(n, text);
  }

  lemma KeyAllowed(key: string)
    requires ValidKey(key)
    ensures !Forbidden(key + ":")
  {
    var text := key + ":";
    hide Contains;
    assert ' ' !in text && IsLetter(text[0]);
    if Contains(text, " &") { ContainsNeeds(text, " &", ' '); }
    if Contains(text, " *") { ContainsNeeds(text, " *", ' '); }
    if Contains(text, ": !") { ContainsNeeds(text, ": !", ' '); }
    if Contains(text, ": |") { ContainsNeeds(text, ": |", ' '); }
    if Contains(text, ": >") { ContainsNeeds(text, ": >", ' '); }
  }

  lemma {:induction false} ColonAt(key: string, rest: string)
    requires ':' !in key
    ensures IndexOf(key + ":" + rest, ':') == Some(|key|)
  {
    var s := key + ":" + rest;
    if key != "" {
      assert s[1..] == key[1..] + ":" + rest;
      ColonAt(key[1..], rest);
    }
  }

  lemma EntryLine(n: nat, key: string, e: string, acc: Fields)
    requires ValidKey(key) && key !in acc && e != "" && Trimmed(e)
    ensures KeyLine(Line(n, AfterKey(key).Head() + e), n, acc) == Ok((key, e))
  {
    hide Trimmed;
    var text := key + ": " + e;
    assert text == key + ":" + (" " + e);
    ColonAt(key, " " + e);
    assert text[..|key|] == key && text[|key| + 1..] == " " + e;
    TrimBlankBefore(e);
    assert text[0] == key[0];
  }

  lemma NestedLine(n: nat, key: string, acc: Fields)
    requires ValidKey(key) && key !in acc
    ensures KeyLine(Line(n, key + ":"), n, acc) == Ok((key, ""))
  {
    var text := key + ":";
    assert text == key + ":" + "";
    ColonAt(key, "");
    assert text[..|key|] == key && text[|key| + 1..] == "";
    assert text[0] == key[0];
  }

  lemma MarkedLine(n: nat, e: string)
    requires e != "" && Trimmed(e)
    ensures ItemLine(Line(n, InSequence.Head() + e), n) == Ok(e)
  {
    hide Trimmed;
    TrimBlankBefore(e);
    assert (InSequence.Head() + e)[1..] == " " + e;
  }

  // ---- What is read ----

  function ReadScalar(place: Place, secret: bool, n: nat, v: Value): Result<Value>
    requires Scalar(v)
  {
    var e := EmitScalar(v, secret);
    if LineAccepted(place, n, e) then ParseScalar(e) else Err(UnsupportedSyntax)
  }

  function ReadItems(items: seq<Value>, secret: bool, n: nat): Result<seq<Value>>
    requires forall x <- items :: Scalar(x)
  {
    if items == [] then Ok([])
    else match ReadScalar(InSequence, secret, n, items[0])
         case Err(e) => Err(e)
         case Ok(x) =>
           match ReadItems(items[1..], secret, n)
           case Err(e) => Err(e)
           case Ok(xs) => Ok([x] + xs)
  }

  function ReadItem(p: Property, v: Value, n: nat): Result<Value>
    requires ShapedItem(p.schema, v)
    decreases p.schema, 2, 0
  {
    match v
    case Obj(fields) =>
      if fields == map[] then Ok(Obj(map[]))
      else (match ReadObject(p.schema, fields, n + 2) case Err(e) => Err(e) case Ok(m) => Ok(Obj(m)))
    case List(items) =>
      (match ReadItems(items, p.schema.secret, n + 2) case Err(e) => Err(e) case Ok(xs) => Ok(List(xs)))
    case _ => ReadScalar(AfterKey(p.key), p.schema.secret, n, v)
  }

  function ReadObject(schema: Schema, fields: Fields, n: nat): Result<Fields>
    requires Shaped(schema, fields)
    decreases schema, 1, 0
  {
    assert Part(Ordered(schema.props), schema) by { OrderedParts(schema); }
    ReadProps(schema, Ordered(schema.props), fields, n, map[])
  }

  function ReadProps(schema: Schema, props: seq<Property>, fields: Fields, n: nat, acc: Fields): Result<Fields>
    requires Shaped(schema, fields) && Part(props, schema)
    decreases schema, 0, |props|
  {
    if props == [] then Ok(acc)
    else match ReadItem(props[0], fields[props[0].key], n)
         case Err(e) => Err(e)
         case Ok(v) => ReadProps(schema, props[1..], fields, n, acc[props[0].key := v])
  }

  // ---- The parser recovers what is read ----

  predicate SequenceAgrees(items: seq<Value>, secret: bool, n: nat, acc: seq<Value>, post: seq<Line>)
    requires forall x <- items :: Scalar(x)
  {
    var lexed, read := Lex(ItemLines(items, secret, n)), ReadItems(items, secret, n);
    if lexed.Err? then read.Err?
    else
      && (items != [] ==> lexed.value != [] && lexed.value[0].indent == n && HasPrefix(lexed.value[0].text, "-"))
      && (Ends(post, n) ==>
            var r := PSequence(lexed.value + post, n, acc);
            if read.Err? then r.Err? else r == Ok((acc + read.value, post)))
  }

  lemma ScalarLexes(place: Place, secret: bool, n: nat, v: Value)
    requires place.Valid() && n % 2 == 0 && Scalar(v)
    ensures var e := EmitScalar(v, secret);
            && e != "" && Trimmed(e)
            && (if LineAccepted(place, n, e) then Lex([Blanks(n) + (place.Head() + e)]) == Ok([Line(n, place.Head() + e)])
                else Lex([Blanks(n) + (place.Head() + e)]).Err?)
  {
    ScalarLine(place, secret, n, v);
    hide LexLine, Trimmed, EmitScalar, Place.Head;
    LexSingle(Blanks(n) + (place.Head() + EmitScalar(v, secret)));
  }

  /** One item, and then the rest. */
  lemma ItemIsRead(v: Value, secret: bool, n: nat, acc: seq<Value>, more: seq<Line>)
    requires n % 2 == 0 && Scalar(v)
    ensures var e := EmitScalar(v, secret);
            var raw := Blanks(n) + (InSequence.Head() + e);
            var read := ReadScalar(InSequence, secret, n, v);
            if Lex([raw]).Err? then read.Err?
            else
              && |Lex([raw]).value| == 1 && Lex([raw]).value[0].indent == n && HasPrefix(Lex([raw]).value[0].text, "-")
              && PSequence(Lex([raw]).value + more, n, acc) ==
                 if read.Err? then Err(read.error) else PSequence(more, n, acc + [read.value])
  {
    hide LexLine, EmitScalar, ParseScalar, PSequence, ItemLine, Trimmed, Lex;
    var e := EmitScalar(v, secret);
    ScalarLexes(InSequence, secret, n, v);
    if LineAccepted(InSequence, n, e) {
      var all := [Line(n, InSequence.Head() + e)] + more;
      assert all[1..] == more;
      MarkedLine(n, e);
      SequenceGoesOn(all, n, acc);
    }
  }

  lemma UnfoldItems(items: seq<Value>, secret: bool, n: nat)
    requires items != [] && forall x <- items :: Scalar(x)
    ensures var head, tail := Lex([Blanks(n) + (InSequence.Head() + EmitScalar(items[0], secret))]), Lex(ItemLines(items[1..], secret, n));
            Lex(ItemLines(items, secret, n)) == if head.Err? then head else if tail.Err? then tail else Ok(head.value + tail.value)
    ensures var head, tail := ReadScalar(InSequence, secret, n, items[0]), ReadItems(items[1..], secret, n);
            ReadItems(items, secret, n) == if head.Err? then Err(head.error) else if tail.Err? then tail else Ok([head.value] + tail.value)
  {
    var raw := Blanks(n) + (InSequence.Head() + EmitScalar(items[0], secret));
    assert ItemLines(items, secret, n) == [raw] + ItemLines(items[1..], secret, n);
    LexConcat([raw], ItemLines(items[1..], secret, n));
    hide Lex, EmitScalar, ReadScalar;
  }

  lemma SequenceStep(items: seq<Value>, secret: bool, n: nat, acc: seq<Value>, post: seq<Line>)
    requires n % 2 == 0 && items != [] && forall x <- items :: Scalar(x)
    requires var first := ReadScalar(InSequence, secret, n, items[0]);
             SequenceAgrees(items[1..], secret, n, if first.Ok? then acc + [first.value] else acc, post)
    ensures SequenceAgrees(items, secret, n, acc, post)
  {
    hide Lex, ItemLines, ReadItems, ReadScalar, EmitScalar, PSequence, Place.Head;
    UnfoldItems(items, secret, n);
    var first, lexed := ReadScalar(InSequence, secret, n, items[0]), Lex(ItemLines(items[1..], secret, n));
    var rest := ReadItems(items[1..], secret, n);
    var more := (if lexed.Ok? then lexed.value else []) + post;
    ItemIsRead(items[0], secret, n, acc, more);
    var head := Lex([Blanks(n) + (InSequence.Head() + EmitScalar(items[0], secret))]);
    if head.Ok? && lexed.Ok? {
      assert head.value + lexed.value + post == head.value + more;
      if first.Ok? && rest.Ok? {
        assert (acc + [first.value]) + rest.value == acc + ([first.value] + rest.value);
      }
    }
  }

  lemma {:induction false} SequenceIsRead(items: seq<Value>, secret: bool, n: nat, acc: seq<Value>, post: seq<Line>)
    requires n % 2 == 0 && forall x <- items :: Scalar(x)
    ensures SequenceAgrees(items, secret, n, acc, post)
  {
    if items == [] {
      hide PSequence;
      assert [] + post == post && acc + [] == acc;
      if Ends(post, n) { SequenceGoesOn(post, n, acc); }
    } else {
      hide *;
      var first := ReadScalar(InSequence, secret, n, items[0]);
      SequenceIsRead(items[1..], secret, n, if first.Ok? then acc + [first.value] else acc, post);
      SequenceStep(items, secret, n, acc, post);
    }
  }

  predicate OpensEntry(lines: seq<Line>, n: nat) {
    lines != [] && lines[0].indent == n && !HasPrefix(lines[0].text, "-")
  }

  /** What the parser makes of the lines of one entry. */
  predicate EntryFits(lexed: Result<seq<Line>>, read: Result<Value>, key: string, n: nat, acc: Fields, post: seq<Line>) {
    if lexed.Err? then read.Err?
    else
      && OpensEntry(lexed.value, n)
      && (Ends(post, n + 1) ==>
            var r := PMapping(lexed.value + post, n, acc);
            if read.Err? then r.Err? else r == PMapping(post, n, acc[key := read.value]))
  }

  /** What the parser makes of the lines of several entries. */
  predicate EntriesFit(none: bool, lexed: Result<seq<Line>>, read: Result<Fields>, n: nat, acc: Fields, post: seq<Line>) {
    if lexed.Err? then read.Err?
    else
      && (if none then lexed.value == [] else OpensEntry(lexed.value, n))
      && (Ends(post, n) ==>
            var r := PMapping(lexed.value + post, n, acc);
            if read.Err? then r.Err? else r == Ok((read.value, post)))
  }

  predicate ItemAgrees(p: Property, v: Value, n: nat, acc: Fields, post: seq<Line>)
    requires ShapedItem(p.schema, v)
  {
    EntryFits(Lex(EmitItem(p, v, n)), ReadItem(p, v, n), p.key, n, acc, post)
  }

  predicate MappingAgrees(schema: Schema, props: seq<Property>, fields: Fields, n: nat, acc: Fields, post: seq<Line>)
    requires Shaped(schema, fields) && Part(props, schema)
  {
    EntriesFit(props == [], Lex(EmitProps(schema, props, fields, n)), ReadProps(schema, props, fields, n, acc), n, acc, post)
  }

  lemma EntriesJoin(head: seq<Line>, tail: seq<Line>, none: bool, v: Result<Value>, read: Result<Fields>, key: string,
                    n: nat, acc: Fields, post: seq<Line>)
    requires EntryFits(Ok(head), v, key, n, acc, tail + post)
    requires v.Ok? ==> EntriesFit(none, Ok(tail), read, n, acc[key := v.value], post)
    requires if none then tail == [] else OpensEntry(tail, n)
    ensures EntriesFit(false, Ok(head + tail), if v.Err? then Err(v.error) else read, n, acc, post)
  {
    hide PMapping;
    assert head + (tail + post) == (head + tail) + post;
    assert (head + tail)[0] == head[0];
    if none { assert tail + post == post; } else { assert (tail + post)[0] == tail[0]; }
  }

  lemma EmptyWord(place: Place, n: nat, e: string)
    requires place.Valid() && n % 2 == 0 && e in {"{}", "[]"}
    ensures LineAccepted(place, n, e) && Trimmed(e)
  {
    ScanPlain(e);
    assert ' ' !in e;
    assert !Contains(e, " &") && !Contains(e, " *") && !Contains(e, ": !") && !Contains(e, ": |") && !Contains(e, ": >") by {
      hide Contains;
      if Contains(e, " &") { ContainsNeeds(e, " &", ' '); }
      if Contains(e, " *") { ContainsNeeds(e, " *", ' '); }
      if Contains(e, ": !") { ContainsNeeds(e, ": !", ' '); }
      if Contains(e, ": |") { ContainsNeeds(e, ": |", ' '); }
      if Contains(e, ": >") { ContainsNeeds(e, ": >", ' '); }
    }
    hide LexLine, Forbidden, Contains, Place.Head, Scan, Hashless;
    LexScalar(place, n, e);
    ForbiddenLine(place, e);
  }

  /** An entry whose value stands on the line of its key. */
  lemma EntryIsRead(n: nat, key: string, e: string, acc: Fields, post: seq<Line>)
    requires ValidKey(key) && key !in acc && e != "" && Trimmed(e)
    ensures var line := Line(n, AfterKey(key).Head() + e);
            var v := ParseScalar(e);
            OpensEntry([line], n)
            && PMapping([line] + post, n, acc) == if v.Err? then Err(v.error) else PMapping(post, n, acc[key := v.value])
  {
    var line := Line(n, AfterKey(key).Head() + e);
    assert line.text[0] == key[0];
    hide ParseScalar, PMapping, KeyLine, Trimmed;
    EntryLine(n, key, e, acc);
    assert ([line] + post)[1..] == post;
    MappingGoesOn([line] + post, n, acc);
  }

  lemma ScalarItemAgrees(p: Property, v: Value, n: nat, acc: Fields, post: seq<Line>)
    requires ValidKey(p.key) && n % 2 == 0 && p.key !in acc && Scalar(v)
    ensures ItemAgrees(p, v, n, acc, post)
  {
    hide LexLine, EmitScalar, ParseScalar, PMapping, Trimmed, Lex;
    var e := EmitScalar(v, p.schema.secret);
    assert Blanks(n) + (p.key + ":") + " " + e == Blanks(n) + (AfterKey(p.key).Head() + e);
    ScalarLexes(AfterKey(p.key), p.schema.secret, n, v);
    EntryIsRead(n, p.key, e, acc, post);
  }

  lemma EmptyItemAgrees(p: Property, v: Value, n: nat, acc: Fields, post: seq<Line>)
    requires ValidKey(p.key) && n % 2 == 0 && p.key !in acc && v in {Obj(map[]), List([])}
    ensures ItemAgrees(p, v, n, acc, post)
  {
    hide LexLine, PMapping, Trimmed, Lex;
    var e := if v.Obj? then "{}" else "[]";
    var raw := Blanks(n) + (p.key + ":") + " " + e;
    assert raw == Blanks(n) + (AfterKey(p.key).Head() + e);
    assert raw == Blanks(n) + (p.key + ":") + (" " + e);
    assert if v.Obj? then raw == Blanks(n) + (p.key + ":") + " {}" else raw == Blanks(n) + (p.key + ":") + " []";
    assert EmitItem(p, v, n) == [raw];
    EmptyWord(AfterKey(p.key), n, e);
    LexSingle(raw);
    EntryIsRead(n, p.key, e, acc, post);
  }

  /** An entry whose value is a block below its key. */
  lemma BlockIsRead(n: nat, key: string, below: seq<string>, acc: Fields, post: seq<Line>)
    requires ValidKey(key) && n % 2 == 0 && key !in acc
    ensures var head, lexed := Blanks(n) + (key + ":"), Lex(below);
            if lexed.Err? then Lex([head] + below).Err?
            else
              && Lex([head] + below) == Ok([Line(n, key + ":")] + lexed.value)
              && OpensEntry([Line(n, key + ":")] + lexed.value, n)
              && (lexed.value != [] && lexed.value[0].indent == n + 2 ==>
                    var r := PBlock(lexed.value + post, n + 2);
                    PMapping([Line(n, key + ":")] + lexed.value + post, n, acc) ==
                    if r.Err? then Err(r.error) else PMapping(r.value.1, n, acc[key := r.value.0]))
  {
    hide LexLine, PMapping, PBlock, KeyLine;
    var head := Blanks(n) + (key + ":");
    KeyLexes(n, key);
    LexSingle(head);
    LexConcat([head], below);
    hide Lex;
    assert (key + ":")[0] == key[0];
    if Lex(below).Ok? {
      var tail := Lex(below).value + post;
      var all := [Line(n, key + ":")] + Lex(below).value + post;
      assert all == [Line(n, key + ":")] + tail && all[1..] == tail;
      NestedLine(n, key, acc);
      if Lex(below).value != [] && Lex(below).value[0].indent == n + 2 { MappingGoesOn(all, n, acc); }
    }
  }

  lemma ListItemAgrees(p: Property, items: seq<Value>, n: nat, acc: Fields, post: seq<Line>)
    requires ValidKey(p.key) && n % 2 == 0 && p.key !in acc && items != [] && ShapedItem(p.schema, List(items))
    ensures ItemAgrees(p, List(items), n, acc, post)
  {
    hide Lex, ItemLines, PMapping, PSequence, ReadItems;
    var below := ItemLines(items, p.schema.secret, n + 2);
    SequenceIsRead(items, p.schema.secret, n + 2, [], post);
    BlockIsRead(n, p.key, below, acc, post);
    var read := ReadItems(items, p.schema.secret, n + 2);
    assert read.Ok? ==> [] + read.value == read.value;
  }

  lemma ObjectItemAgrees(p: Property, fields: Fields, n: nat, acc: Fields, post: seq<Line>)
    requires ValidKey(p.key) && n % 2 == 0 && p.key !in acc && fields != map[] && Shaped(p.schema, fields)
    requires Part(Ordered(p.schema.props), p.schema)
    requires MappingAgrees(p.schema, Ordered(p.schema.props), fields, n + 2, map[], post)
    ensures ItemAgrees(p, Obj(fields), n, acc, post)
  {
    hide Lex, EmitProps, ReadProps, PMapping, PBlock, Ordered, ValidKey;
    var below := EmitObject(p.schema, fields, n + 2);
    BlockIsRead(n, p.key, below, acc, post);
    if Lex(below).Ok? { BlockOpens(Lex(below).value, post, n + 2); }
    assert EmitItem(p, Obj(fields), n) == [Blanks(n) + (p.key + ":")] + below;
    assert ReadItem(p, Obj(fields), n).Err? == ReadObject(p.schema, fields, n + 2).Err?;
    assert Ends(post, n + 1) ==> Ends(post, n + 2);
  }

  lemma BlockOpens(lines: seq<Line>, post: seq<Line>, n: nat)
    requires OpensEntry(lines, n)
    ensures var r := PMapping(lines + post, n, map[]);
            PBlock(lines + post, n) == if r.Err? then Err(r.error) else Ok((Obj(r.value.0), r.value.1))
  {
    hide PMapping;
    assert (lines + post)[0] == lines[0];
  }

  lemma ItemIsReadBack(p: Property, v: Value, n: nat, acc: Fields, post: seq<Line>)
    requires ValidKey(p.key) && ValidSchema(p.schema) && n % 2 == 0 && p.key !in acc && ShapedItem(p.schema, v)
    ensures ItemAgrees(p, v, n, acc, post)
    decreases p.schema, 2, 0
  {
    hide ItemAgrees, ValidKey, Ordered;
    match v
    case Obj(fields) =>
      if fields == map[] {
        EmptyItemAgrees(p, v, n, acc, post);
      } else {
        OrderedParts(p.schema);
        OrderedDistinct(p.schema);
        MappingIsRead(p.schema, Ordered(p.schema.props), fields, n + 2, map[], post);
        ObjectItemAgrees(p, fields, n, acc, post);
      }
    case List(items) =>
      if items == [] { EmptyItemAgrees(p, v, n, acc, post); } else { ListItemAgrees(p, items, n, acc, post); }
    case _ => ScalarItemAgrees(p, v, n, acc, post);
  }

  /** Distinct keys stay distinct when the properties are put in order. */
  lemma OrderedDistinct(schema: Schema)
    requires DistinctKeys(schema.props)
    ensures DistinctKeys(Ordered(schema.props))
  {
    hide Ordered;
    var s := Ordered(schema.props);
    OrderedParts(schema);
    forall i, j | 0 <= i < j < |s| ensures s[i].key != s[j].key {
      assert s[i] in s && s[j] in s;
      AtMostOnce(schema.props, s[i]);
      if s[i] == s[j] { CountsTwice(s, i, j); }
    }
  }

  lemma CountsTwice<T>(s: seq<T>, i: nat, j: nat)
    requires i < j < |s| && s[i] == s[j]
    ensures multiset(s)[s[i]] >= 2
  {
    assert s == s[..j] + [s[j]] + s[j + 1..];
    assert s[..j] == s[..i] + [s[i]] + s[i + 1..j];
  }

  lemma {:induction false} AtMostOnce(props: seq<Property>, p: Property)
    requires DistinctKeys(props)
    ensures multiset(props)[p] <= 1
  {
    if props != [] {
      assert props == [props[0]] + props[1..];
      AtMostOnce(props[1..], p);
    }
  }

  predicate Unread(props: seq<Property>, acc: Fields) { forall p <- props :: p.key !in acc }

  lemma UnfoldProps(schema: Schema, props: seq<Property>, fields: Fields, n: nat, acc: Fields)
    requires Shaped(schema, fields) && Part(props, schema) && props != [] && AllClean(props[0].schema.comments)
    ensures var head, tail := Lex(EmitItem(props[0], fields[props[0].key], n)), Lex(EmitProps(schema, props[1..], fields, n));
            var all := Lex(EmitProps(schema, props, fields, n));
            if head.Err? || tail.Err? then all.Err? else all == Ok(head.value + tail.value)
    ensures var v := ReadItem(props[0], fields[props[0].key], n);
            ReadProps(schema, props, fields, n, acc) ==
            if v.Err? then Err(v.error) else ReadProps(schema, props[1..], fields, n, acc[props[0].key := v.value])
  {
    assert props[0] in schema.props && ShapedItem(props[0].schema, fields[props[0].key]);
    hide Lex, EmitItem, ReadItem, Shaped;
    var comments, item := CommentLines(props[0].schema.comments, n), EmitItem(props[0], fields[props[0].key], n);
    var rest := EmitProps(schema, props[1..], fields, n);
    assert EmitProps(schema, props, fields, n) == comments + item + rest;
    CommentsVanish(props[0].schema.comments, n);
    LexConcat(comments, item);
    LexConcat(comments + item, rest);
    assert Lex(item).Ok? ==> [] + Lex(item).value == Lex(item).value;
  }

  lemma MappingStep(schema: Schema, props: seq<Property>, fields: Fields, n: nat, acc: Fields, post: seq<Line>)
    requires Shaped(schema, fields) && Part(props, schema) && props != [] && AllClean(props[0].schema.comments)
    requires var tail := Lex(EmitProps(schema, props[1..], fields, n));
             ItemAgrees(props[0], fields[props[0].key], n, acc, (if tail.Ok? then tail.value else []) + post)
    requires var v := ReadItem(props[0], fields[props[0].key], n);
             MappingAgrees(schema, props[1..], fields, n, if v.Ok? then acc[props[0].key := v.value] else acc, post)
    ensures MappingAgrees(schema, props, fields, n, acc, post)
  {
    assert props[0] in schema.props && ShapedItem(props[0].schema, fields[props[0].key]);
    hide Lex, EmitItem, EmitProps, ReadItem, ReadProps, PMapping, Shaped, EntryFits, EntriesFit;
    UnfoldProps(schema, props, fields, n, acc);
    var head, tail := Lex(EmitItem(props[0], fields[props[0].key], n)), Lex(EmitProps(schema, props[1..], fields, n));
    var v := ReadItem(props[0], fields[props[0].key], n);
    var next := if v.Ok? then acc[props[0].key := v.value] else acc;
    var read := ReadProps(schema, props[1..], fields, n, next);
    RefusedAlike(head, v, props[0].key, n, acc, (if tail.Ok? then tail.value else []) + post);
    EntriesAlike(props[1..] == [], tail, read, n, next, post);
    if head.Ok? && tail.Ok? {
      EntriesJoin(head.value, tail.value, props[1..] == [], v, read, props[0].key, n, acc, post);
    } else {
      EntriesAlike(false, Lex(EmitProps(schema, props, fields, n)), ReadProps(schema, props, fields, n, acc), n, acc, post);
    }
  }

  /** Lines that do not lex are not read either; lines that do, open an entry. */
  lemma RefusedAlike(lexed: Result<seq<Line>>, read: Result<Value>, key: string, n: nat, acc: Fields, post: seq<Line>)
    requires EntryFits(lexed, read, key, n, acc, post)
    ensures lexed.Err? ==> read.Err?
  {
  }

  lemma EntriesAlike(none: bool, lexed: Result<seq<Line>>, read: Result<Fields>, n: nat, acc: Fields, post: seq<Line>)
    ensures EntriesFit(none, lexed, read, n, acc, post) ==>
              if lexed.Err? then read.Err? else if none then lexed.value == [] else OpensEntry(lexed.value, n)
    ensures lexed.Err? && read.Err? ==> EntriesFit(none, lexed, read, n, acc, post)
  {
  }

  lemma {:induction false} MappingIsRead(schema: Schema, props: seq<Property>, fields: Fields, n: nat, acc: Fields, post: seq<Line>)
    requires ValidSchema(schema) && Shaped(schema, fields) && Part(props, schema) && DistinctKeys(props)
    requires n % 2 == 0 && Unread(props, acc)
    ensures MappingAgrees(schema, props, fields, n, acc, post)
    decreases schema, 0, |props|
  {
    if props == [] {
      assert [] + post == post;
      if Ends(post, n) { hide PMapping; MappingGoesOn(post, n, acc); }
    } else {
      var p := props[0];
      assert p in props && p in schema.props && ValidSchema(p.schema);
      var v := ReadItem(p, fields[p.key], n);
      var tail := Lex(EmitProps(schema, props[1..], fields, n));
      var next := if v.Ok? then acc[p.key := v.value] else acc;
      assert Unread(props[1..], next) by {
        forall q | q in props[1..] ensures q.key !in next { var k: nat :| k < |props| - 1 && props[1..][k] == q; assert props[k + 1] == q; }
      }
      assert Part(props[1..], schema);
      ItemIsReadBack(p, fields[p.key], n, acc, (if tail.Ok? then tail.value else []) + post);
      MappingIsRead(schema, props[1..], fields, n, next, post);
      MappingStep(schema, props, fields, n, acc, post);
    }
  }
}
