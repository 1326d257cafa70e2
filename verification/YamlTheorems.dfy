/** The law of the format. */
module YamlTheorems {
  // What is written is read back, exactly when every string in it is readable and the text is within
  // the size limit.

  import opened YamlText
  import opened YamlScalar
  import opened YamlReadBack
  import opened YamlParser
  import opened YamlEmitter
  import opened YamlRoundTrip

  // ---- Which trees are readable ----

  predicate AllReadable(schema: Schema, fields: Fields)
    requires Shaped(schema, fields)
    decreases schema, 0
  {
    forall p <- schema.props :: ReadableEntry(p.key, p.schema, fields[p.key])
  }

  predicate ReadableEntry(key: string, schema: Schema, v: Value)
    requires ShapedItem(schema, v)
    decreases schema, 1
  {
    match v
    case Obj(fields) => fields == map[] || AllReadable(schema, fields)
    case List(items) => forall x <- items :: ReadableValue(InSequence, schema.secret, x)
    case _ => ReadableValue(AfterKey(key), schema.secret, v)
  }

  lemma ScalarIsRead(place: Place, secret: bool, n: nat, v: Value)
    requires place.Valid() && n % 2 == 0 && Scalar(v)
    ensures ReadScalar(place, secret, n, v) == Ok(v) <==> ReadableValue(place, secret, v)
  {
    hide LineAccepted, ParseScalar, EmitScalar, ReadableValue;
    ScalarReadsBack(place, secret, n, v);
  }

  lemma {:induction false} ItemsAreRead(items: seq<Value>, secret: bool, n: nat)
    requires n % 2 == 0 && forall x <- items :: Scalar(x)
    ensures ReadItems(items, secret, n) == Ok(items) <==> forall x <- items :: ReadableValue(InSequence, secret, x)
  {
    hide ReadScalar, ReadableValue;
    if items != [] {
      ScalarIsRead(InSequence, secret, n, items[0]);
      ItemsAreRead(items[1..], secret, n);
      assert items == [items[0]] + items[1..];
    }
  }

  predicate PropsRead(schema: Schema, props: seq<Property>, fields: Fields, n: nat)
    requires Shaped(schema, fields) && Part(props, schema)
  {
    forall p <- props :: ReadItem(p, fields[p.key], n) == Ok(fields[p.key])
  }

  /** The object read holds what each entry was read as. */
  lemma {:induction false} PropsAreRead(schema: Schema, props: seq<Property>, fields: Fields, n: nat, acc: Fields)
    requires Shaped(schema, fields) && Part(props, schema) && DistinctKeys(props)
    ensures var r := ReadProps(schema, props, fields, n, acc);
            && (PropsRead(schema, props, fields, n) ==> r.Ok?)
            && (r.Ok? ==> r.value.Keys == acc.Keys + Keys(props))
            && (r.Ok? ==> forall k <- acc | k !in Keys(props) :: r.value[k] == acc[k])
            && (r.Ok? ==> forall p <- props :: ReadItem(p, fields[p.key], n) == Ok(r.value[p.key]))
    decreases |props|
  {
    hide ReadItem;
    if props != [] {
      var p := props[0];
      assert p in props && p in schema.props;
      var v, rest := ReadItem(p, fields[p.key], n), props[1..];
      assert Keys(props) == {p.key} + Keys(rest) by { assert props == [p] + rest; }
      assert p.key !in Keys(rest);
      if v.Ok? {
        PropsAreRead(schema, rest, fields, n, acc[p.key := v.value]);
        var r := ReadProps(schema, props, fields, n, acc);
        assert r == ReadProps(schema, rest, fields, n, acc[p.key := v.value]);
        if PropsRead(schema, props, fields, n) { assert PropsRead(schema, rest, fields, n); }
        if r.Ok? {
          forall q | q in props ensures ReadItem(q, fields[q.key], n) == Ok(r.value[q.key]) {
            if q != p { assert q in rest; }
          }
        }
      }
    }
  }

  lemma ObjectIsRead(schema: Schema, fields: Fields, n: nat)
    requires ValidSchema(schema) && Shaped(schema, fields)
    requires forall p <- schema.props :: ReadItem(p, fields[p.key], n) == Ok(fields[p.key]) <==> ReadableEntry(p.key, p.schema, fields[p.key])
    ensures ReadObject(schema, fields, n) == Ok(fields) <==> AllReadable(schema, fields)
  {
    hide ReadItem, ReadProps, ReadableEntry, ValidKey, Ordered;
    var props := Ordered(schema.props);
    OrderedParts(schema);
    OrderedDistinct(schema);
    forall p | p in schema.props ensures p in props { assert p in multiset(props); }
    PropsAreRead(schema, props, fields, n, map[]);
    var r := ReadProps(schema, props, fields, n, map[]);
    assert ReadObject(schema, fields, n) == r;
    assert Keys(props) == Keys(schema.props);
    if AllReadable(schema, fields) {
      assert PropsRead(schema, props, fields, n);
      forall k | k in fields ensures r.value[k] == fields[k] {
        var p :| p in schema.props && p.key == k;
      }
      assert r.value == fields;
    }
  }

  /** An entry is read as itself exactly when every string in it is readable. */
  lemma EntryIsReadable(p: Property, v: Value, n: nat)
    requires ValidKey(p.key) && ValidSchema(p.schema) && ShapedItem(p.schema, v) && n % 2 == 0
    ensures ReadItem(p, v, n) == Ok(v) <==> ReadableEntry(p.key, p.schema, v)
    decreases p.schema
  {
    hide ReadScalar, ReadItems, ReadObject, ReadableValue, ValidKey;
    match v
    case Obj(fields) =>
      if fields != map[] {
        forall q | q in p.schema.props
          ensures ReadItem(q, fields[q.key], n + 2) == Ok(fields[q.key]) <==> ReadableEntry(q.key, q.schema, fields[q.key])
        {
          EntryIsReadable(q, fields[q.key], n + 2);
        }
        ObjectIsRead(p.schema, fields, n + 2);
      }
    case List(items) => ItemsAreRead(items, p.schema.secret, n + 2);
    case _ => ScalarIsRead(AfterKey(p.key), p.schema.secret, n, v);
  }

  // ---- The text ----

  predicate GoodLines(lines: seq<string>) { AllClean(lines) && forall l <- lines :: l != "" && '\U{FEFF}' != l[0] }

  lemma GoodConcat(a: seq<string>, b: seq<string>)
    requires GoodLines(a) && GoodLines(b)
    ensures GoodLines(a + b)
  {
    hide Clean;
  }

  lemma {:induction false} CommentsGood(comments: seq<string>, n: nat)
    requires AllClean(comments)
    ensures GoodLines(CommentLines(comments, n))
  {
    if comments != [] {
      assert comments[0] in comments;
      CommentsGood(comments[1..], n);
    }
  }

  lemma ScalarGood(place: Place, n: nat, secret: bool, v: Value)
    requires place.Valid() && n % 2 == 0 && Scalar(v)
    ensures GoodLines([Blanks(n) + (place.Head() + EmitScalar(v, secret))])
  {
    ScalarLine(place, secret, n, v);
    hide EmitScalar, LexLine;
    assert place.Head()[0] != '\U{FEFF}';
  }

  lemma {:induction false} ItemsGood(items: seq<Value>, secret: bool, n: nat)
    requires n % 2 == 0 && forall x <- items :: Scalar(x)
    ensures GoodLines(ItemLines(items, secret, n))
  {
    hide EmitScalar, GoodLines;
    if items == [] {
      NoLinesGood();
    } else {
      ScalarGood(InSequence, n, secret, items[0]);
      ItemsGood(items[1..], secret, n);
      GoodConcat([Blanks(n) + (InSequence.Head() + EmitScalar(items[0], secret))], ItemLines(items[1..], secret, n));
    }
  }

  lemma NoLinesGood()
    ensures GoodLines([])
  {
  }

  lemma KeyGood(key: string, n: nat, tail: string)
    requires ValidKey(key) && Clean(tail)
    ensures GoodLines([Blanks(n) + (key + ":") + tail])
  {
    assert Clean(Blanks(n) + (key + ":"));
    assert (Blanks(n) + (key + ":") + tail)[0] == (if n > 0 then ' ' else key[0]);
  }

  lemma EntryGood(p: Property, v: Value, n: nat)
    requires ValidKey(p.key) && ValidSchema(p.schema) && ShapedItem(p.schema, v) && n % 2 == 0
    ensures GoodLines(EmitItem(p, v, n))
    decreases p.schema, 2, 0
  {
    hide GoodLines, EmitScalar, ItemLines, ValidKey, Ordered;
    var prefix := Blanks(n) + (p.key + ":");
    KeyGood(p.key, n, "");
    assert prefix + "" == prefix;
    match v
    case Obj(fields) =>
      if fields == map[] {
        KeyGood(p.key, n, " {}");
      } else {
        OrderedParts(p.schema);
        PropsGood(p.schema, Ordered(p.schema.props), fields, n + 2);
        GoodConcat([prefix], EmitObject(p.schema, fields, n + 2));
      }
    case List(items) =>
      if items == [] {
        KeyGood(p.key, n, " []");
      } else {
        ItemsGood(items, p.schema.secret, n + 2);
        GoodConcat([prefix], ItemLines(items, p.schema.secret, n + 2));
      }
    case _ =>
      ScalarEntryGood(p, v, n);
  }

  lemma ScalarEntryGood(p: Property, v: Value, n: nat)
    requires ValidKey(p.key) && Scalar(v) && n % 2 == 0
    ensures GoodLines(EmitItem(p, v, n))
  {
    hide GoodLines, EmitScalar, ValidKey;
    var e := EmitScalar(v, p.schema.secret);
    ScalarGood(AfterKey(p.key), n, p.schema.secret, v);
    assert Blanks(n) + (p.key + ":") + " " + e == Blanks(n) + (AfterKey(p.key).Head() + e);
  }

  lemma PropsGood(schema: Schema, props: seq<Property>, fields: Fields, n: nat)
    requires ValidSchema(schema) && Shaped(schema, fields) && Part(props, schema) && n % 2 == 0
    ensures GoodLines(EmitProps(schema, props, fields, n)) && (props != [] ==> EmitProps(schema, props, fields, n) != [])
    decreases schema, 0, |props|
  {
    hide GoodLines, CommentLines, ValidKey;
    if props == [] {
      NoLinesGood();
    } else {
      var p := props[0];
      assert p in props && p in schema.props;
      CommentsGood(p.schema.comments, n);
      EntryGood(p, fields[p.key], n);
      PropsGood(schema, props[1..], fields, n);
      GoodConcat(CommentLines(p.schema.comments, n), EmitItem(p, fields[p.key], n));
      GoodConcat(CommentLines(p.schema.comments, n) + EmitItem(p, fields[p.key], n), EmitProps(schema, props[1..], fields, n));
    }
  }

  /** The text ends in one line break, so cutting line breaks off the end and adding one changes nothing. */
  lemma TextIsLines(lines: seq<string>)
    requires GoodLines(lines) && lines != []
    ensures TrimBreaks(Unlines(lines)) + "\n" == Unlines(lines)
  {
    var init, last := lines[..|lines| - 1], lines[|lines| - 1];
    assert lines == init + [last] && last in lines;
    assert last != "" && last[|last| - 1] != '\n';
    hide GoodLines;
    UnlinesConcat(init, [last]);
    assert [last][1..] == [] && Unlines([last]) == last + "\n";
    hide Unlines;
    var t := Unlines(init) + last;
    assert Unlines(lines) == t + "\n";
    OneBreakTrimmed(t);
  }

  lemma OneBreakTrimmed(t: string)
    requires t != "" && t[|t| - 1] != '\n'
    ensures TrimBreaks(t + "\n") == t
  {
    assert (t + "\n")[..|t|] == t;
  }

  lemma {:induction false} NothingReplaced(s: string)
    requires '\r' !in s
    ensures ReplaceBreaks(s) == s
  {
    if s != "" {
      NothingReplaced(s[1..]);
      assert s[0] in s;
    }
  }

  lemma TextIsSplit(lines: seq<string>)
    requires GoodLines(lines)
    ensures var text := Unlines(lines);
            Normalise(text) == text && '\r' !in text && '\t' !in text && Lex(SplitLines(text)) == Lex(lines)
  {
    hide LexLine;
    UnlinesClean(lines);
    NothingReplaced(Unlines(lines));
    assert lines != [] ==> lines[0] in lines;
    SplitUnlines(lines);
    LexConcat(lines, [""]);
    LexSingle("");
    assert LexLine("") == Ok(None) by { BlankLine(); }
    assert Lex(lines).Ok? ==> Lex(lines).value + [] == Lex(lines).value;
  }

  lemma BlankLine()
    ensures LexLine("") == Ok(None)
  {
  }

  // ---- The law ----

  lemma LinesAreRead(schema: Schema, fields: Fields)
    requires ValidSchema(schema) && Shaped(schema, fields) && fields != map[]
    ensures var lexed := Lex(EmitObject(schema, fields, 0));
            (lexed.Ok? && ParseLines(lexed.value) == Ok(fields)) <==> ReadObject(schema, fields, 0) == Ok(fields)
  {
    var props := Ordered(schema.props);
    OrderedParts(schema);
    OrderedDistinct(schema);
    MappingIsRead(schema, props, fields, 0, map[], []);
    hide Lex, EmitProps, ReadProps, PMapping, PBlock, Ordered, ValidKey;
    var lexed := Lex(EmitObject(schema, fields, 0));
    if lexed.Ok? {
      assert lexed.value + [] == lexed.value;
      BlockOpens(lexed.value, [], 0);
    }
  }

  /** Parsing the commented, ordered emission gives the tree back, exactly when every string in it is
      readable, there is at least one property, and the text is within the limit; and then the tree
      read is emitted as the same text. */
  lemma RoundTrip(schema: Schema, fields: Fields)
    requires ValidSchema(schema) && Shaped(schema, fields)
    ensures Parse(Emit(schema, fields)) == Ok(fields) <==>
            fields != map[] && Bytes(Emit(schema, fields)) <= MAX_BYTES && AllReadable(schema, fields)
    ensures Parse(Emit(schema, fields)) == Ok(fields) ==> Emit(schema, Parse(Emit(schema, fields)).value) == Emit(schema, fields)
  {
    if fields == map[] {
      EmptyFails(schema, fields);
    } else {
      hide Lex, EmitProps, ReadProps, ParseLines, Ordered, ValidKey, Bytes, GoodLines, ReadableEntry, TrimBreaks, Normalise;
      OrderedParts(schema);
      PropsGood(schema, Ordered(schema.props), fields, 0);
      TextIsLines(EmitObject(schema, fields, 0));
      TextIsSplit(EmitObject(schema, fields, 0));
      LinesAreRead(schema, fields);
      forall p | p in schema.props
        ensures ReadItem(p, fields[p.key], 0) == Ok(fields[p.key]) <==> ReadableEntry(p.key, p.schema, fields[p.key])
      {
        EntryIsReadable(p, fields[p.key], 0);
      }
      ObjectIsRead(schema, fields, 0);
    }
  }

  lemma EmptyText(schema: Schema, fields: Fields)
    requires Shaped(schema, fields) && fields == map[]
    ensures Emit(schema, fields) == "\n"
  {
    hide Ordered;
    NothingOrdered(schema, fields);
    assert EmitObject(schema, fields, 0) == [];
    assert Unlines([]) == "" && TrimBreaks("") == "";
  }

  lemma NothingOrdered(schema: Schema, fields: Fields)
    requires Shaped(schema, fields) && fields == map[]
    ensures Ordered(schema.props) == []
  {
    if schema.props != [] { SomeKey(schema.props); }
  }

  lemma SomeKey(props: seq<Property>)
    requires props != []
    ensures Keys(props) != {}
  {
    assert props[0].key in Keys(props);
  }

  lemma EmptyFails(schema: Schema, fields: Fields)
    requires Shaped(schema, fields) && fields == map[]
    ensures Parse(Emit(schema, fields)) == Err(RootNotMapping)
  {
    EmptyText(schema, fields);
    hide Emit;
    BlankLine();
    hide LexLine;
    var text := "\n";
    NothingReplaced(text);
    assert text[1..] == "";
    assert SplitLines(text) == ["", ""];
    LexConcat([""], [""]);
    LexSingle("");
    assert [""] + [""] == ["", ""];
    assert Bytes(text) == 1;
  }

  /** `plainSafe` alone does not make a string survive, and where it stands matters. */
  lemma PlainSafeIsNotEnough()
    ensures PlainSafe("[a") && !Readable(InSequence, false, "[a")
    ensures PlainSafe("!a") && !Readable(AfterKey("k"), false, "!a") && Readable(InSequence, false, "!a")
  {
    TwoCharacters('[');
    TwoCharacters('!');
    assert ['[', 'a'] == "[a" && ['!', 'a'] == "!a";
    hide PlainSafe, Contains, Scan;
  }

  lemma TwoCharacters(c: char)
    requires c in "[!"
    ensures PlainSafe([c, 'a']) && Scan(Bare, [c, 'a']) == Bare
    ensures !Contains([c, 'a'], " &") && !Contains([c, 'a'], " *")
  {
    var s := [c, 'a'];
    TrimmedIsFixed(s);
    ScanPlain(s);
    assert s[1..] == "a" && "a"[1..] == "";
    assert !Contains(s, ": ") && !Contains(s, " &") && !Contains(s, " *");
    NoNumber(s);
    hide Contains, Scan, TrimSpace, IntegerPattern, NumberPattern;
  }

  lemma NoNumber(s: string)
    requires |s| == 2 && s[0] in "[!"
    ensures !IntegerPattern(s) && !NumberPattern(s)
  {
    assert !HasPrefix(s, "-");
    assert s[0] in s && !IsDigit(s[0]);
    forall i | 0 <= i < |s| && s[i] == '.' ensures !NatPattern(s[..i]) {
      if i > 0 { assert s[..i][0] == s[0] && s[0] in s[..i]; }
    }
  }
}
