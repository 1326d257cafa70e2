/** The writer as the program runs it: a string builder, filled in the sorted order of the keys. */
module YamlWriter {
  import opened YamlText
  import opened YamlScalar
  import opened YamlParser
  import opened YamlEmitter
  import opened YamlRoundTrip

  function Find(props: seq<Property>, key: string): (p: Property)
    requires exists q :: q in props && q.key == key
    ensures p in props && p.key == key
  {
    if props[0].key == key then props[0] else Find(props[1..], key)
  }

  ghost function KeysOf(props: seq<Property>): (r: seq<string>)
    ensures |r| == |props|
  {
    seq(|props|, i requires 0 <= i < |props| => props[i].key)
  }

  function Orders(props: seq<Property>): map<string, int> {
    map p <- props :: p.key := Find(props, p.key).order
  }

  lemma FindUnique(props: seq<Property>, p: Property)
    requires DistinctKeys(props) && p in props
    ensures Find(props, p.key) == p && p.key in Orders(props) && Orders(props)[p.key] == p.order
  {
  }

  ghost function Image<A, B>(f: A -> B, s: seq<A>): (r: seq<B>)
    ensures |r| == |s| && forall i | 0 <= i < |s| :: r[i] == f(s[i])
  {
    seq(|s|, i requires 0 <= i < |s| => f(s[i]))
  }

  lemma SplitAt<T>(s: seq<T>, i: nat)
    requires i < |s|
    ensures multiset(s) == multiset(s[..i] + s[i + 1..]) + multiset{s[i]}
  {
    assert s == s[..i] + [s[i]] + s[i + 1..];
  }

  lemma ImageSplit<A, B>(f: A -> B, s: seq<A>, i: nat)
    requires i < |s|
    ensures multiset(Image(f, s)) == multiset(Image(f, s[..i] + s[i + 1..])) + multiset{f(s[i])}
  {
    SplitAt(Image(f, s), i);
    assert Image(f, s)[..i] + Image(f, s)[i + 1..] == Image(f, s[..i] + s[i + 1..]);
  }

  lemma SameRemains<T>(a: multiset<T>, b: multiset<T>, x: T)
    requires a + multiset{x} == b + multiset{x}
    ensures a == b
  {
    assert a == a + multiset{x} - multiset{x} && b == b + multiset{x} - multiset{x};
  }

  /** Rearranging a sequence rearranges its image. */
  lemma {:induction false} ImagePermutes<A, B>(f: A -> B, s: seq<A>, t: seq<A>)
    requires multiset(s) == multiset(t)
    ensures multiset(Image(f, s)) == multiset(Image(f, t))
    decreases |s|
  {
    assert |multiset(s)| == |s| && |multiset(t)| == |t|;
    if s != [] {
      assert s[0] in multiset(t);
      var i: nat :| i < |t| && t[i] == s[0];
      hide Image;
      SplitAt(s, 0);
      SplitAt(t, i);
      ImageSplit(f, s, 0);
      ImageSplit(f, t, i);
      var (a, b) := (s[..0] + s[0 + 1..], t[..i] + t[i + 1..]);
      SameRemains(multiset(a), multiset(b), s[0]);
      ImagePermutes(f, a, b);
    }
  }

  /** Whatever order the map yields its keys in, sorting them gives the one emission order. */
  lemma SortedKeysAreOrdered(props: seq<Property>, start: seq<string>, keys: seq<string>)
    requires DistinctKeys(props) && multiset(start) == multiset(KeysOf(props)) && multiset(keys) == multiset(start)
    requires forall k <- keys :: k in Orders(props)
    requires Ascending(Ranked(keys, Orders(props)))
    ensures keys == KeysOf(Ordered(props))
  {
    hide Before, Ordered, Find;
    var order, sorted := Orders(props), Ordered(props);
    OrderedSorts(props);
    assert Ascending(Ranks(sorted));
    var rank := (k: string) => (if k in order then order[k] else 0, k);
    forall i | 0 <= i < |props| ensures rank(props[i].key) == Rank(props[i]) { FindUnique(props, props[i]); }
    ImagePermutes(Rank, sorted, props);
    ImagePermutes(rank, keys, KeysOf(props));
    assert Image(Rank, sorted) == Ranks(sorted) && Image(rank, keys) == Ranked(keys, order);
    assert Image(rank, KeysOf(props)) == Image(Rank, props);
    AscendingIsUnique(Ranked(keys, order), Ranks(sorted));
    forall i | 0 <= i < |keys| ensures keys[i] == sorted[i].key {
      assert Ranked(keys, order)[i] == Ranks(sorted)[i];
    }
  }

  /** `orderedPropertyKeys`. */
  method OrderedPropertyKeys(props: seq<Property>) returns (keys: array<string>)
    requires DistinctKeys(props)
    ensures fresh(keys) && keys[..] == KeysOf(Ordered(props))
  {
    keys := new string[|props|](i requires 0 <= i < |props| => props[i].key);
    assert keys[..] == KeysOf(props);
    ghost var start := keys[..];
    forall k | k in keys[..] ensures k in Orders(props) {
      var i :| 0 <= i < |props| && props[i].key == k;
      FindUnique(props, props[i]);
    }
    SortByOrder(keys, Orders(props));
    SortedKeysAreOrdered(props, start, keys[..]);
  }

  class Writer {
    var output: string

    constructor ()
      ensures output == ""
    {
      output := "";
    }

    method WriteComments(comments: seq<string>, indent: nat)
      modifies this
      ensures output == old(output) + Unlines(CommentLines(comments, indent))
    {
      assert comments[0..] == comments;
      ghost var whole := output + Unlines(CommentLines(comments, indent));
      for i := 0 to |comments|
        invariant output + Unlines(CommentLines(comments[i..], indent)) == whole
      {
        assert comments[i..][1..] == comments[i + 1..];
        ghost var rest := Unlines(CommentLines(comments[i + 1..], indent));
        ghost var was := output;
        output := output + (Blanks(indent) + "# " + comments[i] + "\n");
        assert was + ((Blanks(indent) + "# " + comments[i]) + "\n" + rest) == output + rest;
      }
    }

    method WriteItems(items: seq<Value>, secret: bool, indent: nat)
      requires forall x <- items :: Scalar(x)
      modifies this
      ensures output == old(output) + Unlines(ItemLines(items, secret, indent))
    {
      hide EmitScalar, ItemLines, Unlines;
      assert items[0..] == items;
      ghost var whole := output + Unlines(ItemLines(items, secret, indent));
      for i := 0 to |items|
        invariant output + Unlines(ItemLines(items[i..], secret, indent)) == whole
      {
        assert items[i..][1..] == items[i + 1..] && items[i..][0] == items[i];
        ghost var was := output;
        var line := Blanks(indent) + ("- " + EmitScalar(items[i], secret));
        output := output + (line + "\n");
        ItemText(items[i..], secret, indent, was);
      }
      assert items[|items|..] == [];
      NoItemText(secret, indent);
      assert output + "" == output;
    }

    /** One property, after its comment. */
    method WriteItem(p: Property, item: Value, indent: nat)
      requires ValidSchema(p.schema) && ShapedItem(p.schema, item)
      modifies this
      ensures output == old(output) + Unlines(EmitItem(p, item, indent))
      decreases p.schema, 2, 0
    {
      hide EmitScalar, ItemLines, Ordered;
      ghost var was := output;
      var prefix := Blanks(indent) + (p.key + ":");
      if item == Obj(map[]) {
        output := output + (prefix + " {}" + "\n");
      } else if item.Obj? {
        output := output + (prefix + "\n");
        WriteObject(p.schema, item.fields, indent + 2);
      } else if item == List([]) {
        output := output + (prefix + " []" + "\n");
      } else if item.List? {
        output := output + (prefix + "\n");
        WriteItems(item.items, p.schema.secret, indent + 2);
      } else {
        var line := prefix + " " + EmitScalar(item, p.schema.secret);
        output := output + (line + "\n");
      }
    }

    /** `emitObject`, in the sorted order of the keys. */
    method WriteObject(schema: Schema, fields: Fields, indent: nat)
      requires ValidSchema(schema) && Shaped(schema, fields)
      modifies this
      ensures output == old(output) + Unlines(EmitObject(schema, fields, indent))
      decreases schema, 1, 0
    {
      hide Ordered, Unlines, EmitItem, CommentLines;
      OrderedParts(schema);
      OrderedDistinct(schema);
      ghost var props := Ordered(schema.props);
      ghost var whole := output + Unlines(EmitProps(schema, props, fields, indent));
      var keys := OrderedPropertyKeys(schema.props);
      assert props[0..] == props;
      var i := 0;
      while i < keys.Length
        invariant i <= keys.Length && keys[..] == KeysOf(props) && Part(props[i..], schema)
        invariant output + Unlines(EmitProps(schema, props[i..], fields, indent)) == whole
      {
        assert keys[i] == keys[..][i] == props[i].key && props[i] in props[i..];
        FindUnique(schema.props, props[i]);
        var p := Find(schema.props, keys[i]);
        ghost var was := output;
        WriteComments(p.schema.comments, indent);
        WriteItem(p, fields[p.key], indent);
        StepText(schema, props[i..], fields, indent, was);
        assert props[i..][1..] == props[i + 1..];
        i := i + 1;
      }
      NothingLeft(schema, props[i..], fields, indent);
      assert output + "" == output;
    }
  }

  lemma ItemText(items: seq<Value>, secret: bool, indent: nat, was: string)
    requires items != [] && forall x <- items :: Scalar(x)
    ensures was + Unlines(ItemLines(items, secret, indent)) ==
            was + (Blanks(indent) + ("- " + EmitScalar(items[0], secret)) + "\n") + Unlines(ItemLines(items[1..], secret, indent))
  {
    hide EmitScalar;
    var line, rest := Blanks(indent) + ("- " + EmitScalar(items[0], secret)), ItemLines(items[1..], secret, indent);
    assert ItemLines(items, secret, indent) == [line] + rest;
    hide ItemLines, Unlines;
  }

  lemma NoItemText(secret: bool, indent: nat)
    ensures Unlines(ItemLines([], secret, indent)) == ""
  {
  }

  lemma NothingLeft(schema: Schema, props: seq<Property>, fields: Fields, indent: nat)
    requires Shaped(schema, fields) && Part(props, schema) && props == []
    ensures Unlines(EmitProps(schema, props, fields, indent)) == ""
  {
  }

  lemma StepText(schema: Schema, props: seq<Property>, fields: Fields, indent: nat, was: string)
    requires Shaped(schema, fields) && Part(props, schema) && props != []
    requires props[0].key in fields && ShapedItem(props[0].schema, fields[props[0].key])
    ensures was + Unlines(EmitProps(schema, props, fields, indent)) ==
            was + Unlines(CommentLines(props[0].schema.comments, indent)) + Unlines(EmitItem(props[0], fields[props[0].key], indent))
            + Unlines(EmitProps(schema, props[1..], fields, indent))
  {
    hide Unlines, EmitItem, CommentLines;
    var comments, item := CommentLines(props[0].schema.comments, indent), EmitItem(props[0], fields[props[0].key], indent);
    UnlinesConcat(comments, item);
    UnlinesConcat(comments + item, EmitProps(schema, props[1..], fields, indent));
  }

  /** `Emit`. */
  method EmitYaml(schema: Schema, fields: Fields) returns (text: string)
    requires ValidSchema(schema) && Shaped(schema, fields)
    ensures text == Emit(schema, fields)
  {
    hide EmitObject;
    var writer := new Writer();
    writer.WriteObject(schema, fields, 0);
    assert writer.output == Unlines(EmitObject(schema, fields, 0));
    text := TrimBreaks(writer.output) + "\n";
  }
}
