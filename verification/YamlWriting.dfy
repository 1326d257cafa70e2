/** Where the writer puts what. */
module YamlWriting {
  import opened Lexical
  import opened YamlText
  import opened YamlScalar
  import opened YamlParser
  import opened YamlEmitter

  /** The byte order: at the first difference, or by length. */
  lemma {:induction false} LessIs(s: string, c: char, d: char, x: string, y: string)
    ensures Less(s + [c] + x, s + [d] + y) <==> c < d || (c == d && Less(x, y))
    ensures Less(s, s + [c] + x) && !Less(s + [c] + x, s)
  {
    var a, b := s + [c] + x, s + [d] + y;
    if s == "" {
      assert a == [c] + x && b == [d] + y && a[1..] == x && b[1..] == y;
    } else {
      assert a[1..] == s[1..] + [c] + x && b[1..] == s[1..] + [d] + y;
      LessIs(s[1..], c, d, x, y);
    }
  }

  /** The comment of a property and then its value, each line indented by `n`. */
  function Block(schema: Schema, p: Property, fields: Fields, n: nat): seq<string>
    requires Shaped(schema, fields) && p in schema.props
  {
    seq(|p.schema.comments|, i requires 0 <= i < |p.schema.comments| => Blanks(n) + "# " + p.schema.comments[i])
    + EmitItem(p, fields[p.key], n)
  }

  lemma {:induction false} CommentsAre(comments: seq<string>, n: nat)
    ensures CommentLines(comments, n)
            == seq(|comments|, i requires 0 <= i < |comments| => Blanks(n) + "# " + comments[i])
  {
    if comments != [] { CommentsAre(comments[1..], n); }
  }

  lemma {:induction false} PropsJoin(schema: Schema, a: seq<Property>, b: seq<Property>, fields: Fields, n: nat)
    requires Shaped(schema, fields) && Part(a, schema) && Part(b, schema)
    ensures EmitProps(schema, a + b, fields, n) == EmitProps(schema, a, fields, n) + EmitProps(schema, b, fields, n)
  {
    hide EmitItem, CommentLines;
    if a == [] {
      assert a + b == b;
    } else {
      assert (a + b)[1..] == a[1..] + b && (a + b)[0] == a[0];
      PropsJoin(schema, a[1..], b, fields, n);
    }
  }

  lemma OneBlock(schema: Schema, p: Property, fields: Fields, n: nat)
    requires Shaped(schema, fields) && p in schema.props
    ensures EmitProps(schema, [p], fields, n) == Block(schema, p, fields, n)
  {
    hide EmitItem, CommentLines;
    CommentsAre(p.schema.comments, n);
    assert [p][1..] == [];
  }

  predicate Earlier(p: Property, q: Property) {
    p.order < q.order || (p.order == q.order && Less(p.key, q.key))
  }

  lemma TwoPlaces(props: seq<Property>, p: Property, q: Property) returns (x: seq<Property>, y: seq<Property>, z: seq<Property>)
    requires p in props && q in props && Earlier(p, q)
    ensures Ordered(props) == x + [p] + (y + [q] + z)
  {
    hide Ordered, Less;
    var sorted := Ordered(props);
    OrderedSorts(props);
    assert p in multiset(sorted) && q in multiset(sorted);
    var i: nat :| i < |sorted| && sorted[i] == p;
    var j: nat :| j < |sorted| && sorted[j] == q;
    LessIsStrict(p.key, q.key);
    assert Before(Rank(p), Rank(q)) && !Before(Rank(q), Rank(p));
    assert i < j;
    x, y, z := sorted[..i], sorted[i + 1..j], sorted[j + 1..];
  }

  lemma AroundOne(schema: Schema, a: seq<Property>, p: Property, b: seq<Property>, fields: Fields, n: nat)
    requires Shaped(schema, fields) && Part(a + [p] + b, schema)
    ensures p in schema.props && Part(a, schema) && Part(b, schema)
    ensures EmitProps(schema, a + [p] + b, fields, n)
            == EmitProps(schema, a, fields, n) + Block(schema, p, fields, n) + EmitProps(schema, b, fields, n)
  {
    hide Block, EmitProps, EmitItem, Shaped;
    forall r | r in a ensures r in schema.props { assert r in a + [p] + b; }
    forall r | r in b ensures r in schema.props { assert r in a + [p] + b; }
    assert p in a + [p] + b;
    PropsJoin(schema, a + [p], b, fields, n);
    PropsJoin(schema, a, [p], fields, n);
    OneBlock(schema, p, fields, n);
  }

  /** Each property is written under its comment; one with a smaller order number, or the same and a
      smaller key, comes first. */
  lemma WrittenInOrder(schema: Schema, fields: Fields, n: nat, p: Property, q: Property)
    requires Shaped(schema, fields) && p in schema.props && q in schema.props && Earlier(p, q)
    ensures exists a, b, c ::
              EmitObject(schema, fields, n)
              == a + Block(schema, p, fields, n) + (b + Block(schema, q, fields, n) + c)
  {
    hide Block, EmitProps, Shaped, Ordered;
    OrderedParts(schema);
    var x, y, z := TwoPlaces(schema.props, p, q);
    AroundOne(schema, x, p, y + [q] + z, fields, n);
    AroundOne(schema, y, q, z, fields, n);
  }

  /** A secret string is always written as JSON, and so is one that would not be safe as it stands. */
  lemma SecretsAreQuoted(p: Property, s: string, n: nat)
    ensures EmitItem(p, Str(s), n) ==
            [Blanks(n) + (p.key + ": ") + if p.schema.secret || !PlainSafe(s) then Quote(s) else s]
  {
    hide Quote, PlainSafe;
    var e := EmitScalar(Str(s), p.schema.secret);
    assert Blanks(n) + (p.key + ":") + " " + e == Blanks(n) + (p.key + ": ") + e;
  }
}
