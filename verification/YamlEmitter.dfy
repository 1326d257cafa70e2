/** The commented, ordered writer of a configuration that follows its schema. */
module YamlEmitter {
  import opened Lexical
  import opened YamlText
  import opened YamlScalar
  import opened YamlReadBack
  import opened YamlParser

  /** What the writer uses of a schema node: whether the value is secret, the comment lines (already
      wrapped), and the properties in any order. */
  datatype Schema = Schema(secret: bool, comments: seq<string>, props: seq<Property>)

  datatype Property = Property(key: string, order: int, schema: Schema)

  // ---- The order of the properties ----

  predicate Before(a: (int, string), b: (int, string)) {
    a.0 < b.0 || (a.0 == b.0 && Less(a.1, b.1))
  }

  lemma BeforeChains(a: (int, string), b: (int, string), c: (int, string))
    requires Before(a, b) && Before(b, c)
    ensures Before(a, c)
  {
    if a.0 == b.0 == c.0 { LessChains(a.1, b.1, c.1); }
  }

  predicate Ascending(s: seq<(int, string)>) { forall i, j | 0 <= i < j < |s| :: !Before(s[j], s[i]) }

  lemma NotBeforeChains(a: (int, string), b: (int, string), c: (int, string))
    requires !Before(b, a) && !Before(c, b)
    ensures !Before(c, a)
  {
    LessIsStrict(a.1, b.1);
    LessIsStrict(b.1, c.1);
    if Before(a, b) && Before(c, a) { BeforeChains(c, a, b); }
  }

  lemma FirstIsLeast(a: seq<(int, string)>, x: (int, string))
    requires a != [] && Ascending(a) && x in multiset(a)
    ensures !Before(x, a[0])
  {
    LessIsStrict(x.1, x.1);
    var i: nat :| i < |a| && a[i] == x;
  }

  lemma WithoutFirst<T>(a: seq<T>)
    requires a != []
    ensures multiset(a[1..]) == multiset(a) - multiset{a[0]} && a[0] in multiset(a)
  {
    assert a == [a[0]] + a[1..];
  }

  /** A sorted arrangement is unique, so the order in which a map yields its keys does not matter. */
  lemma {:induction false} AscendingIsUnique(a: seq<(int, string)>, b: seq<(int, string)>)
    requires Ascending(a) && Ascending(b) && multiset(a) == multiset(b)
    ensures a == b
    decreases |a|
  {
    assert |multiset(a)| == |a| && |multiset(b)| == |b|;
    if a != [] {
      WithoutFirst(a);
      WithoutFirst(b);
      FirstIsLeast(a, b[0]);
      FirstIsLeast(b, a[0]);
      LessIsStrict(a[0].1, b[0].1);
      hide Before;
      AscendingIsUnique(a[1..], b[1..]);
      assert a == [a[0]] + a[1..] && b == [b[0]] + b[1..];
    }
  }

  function Ranked(keys: seq<string>, order: map<string, int>): (r: seq<(int, string)>)
    requires forall k <- keys :: k in order
    ensures |r| == |keys|
  {
    seq(|keys|, i requires 0 <= i < |keys| => (order[keys[i]], keys[i]))
  }

  /** All positions but `j` are in order, and `j` is in order with those after it. */
  predicate AlmostAscending(s: seq<(int, string)>, n: nat, j: nat) {
    && j < n <= |s|
    && (forall p, q | 0 <= p < q < n && p != j && q != j :: !Before(s[q], s[p]))
    && (forall q | j < q < n :: Before(s[j], s[q]))
  }

  lemma SwapKeepsAlmost(s: seq<(int, string)>, t: seq<(int, string)>, n: nat, j: nat)
    requires AlmostAscending(s, n, j) && j > 0 && Before(s[j], s[j - 1]) && t == s[j := s[j - 1]][j - 1 := s[j]]
    ensures AlmostAscending(t, n, j - 1)
  {
  }

  lemma InPlace(s: seq<(int, string)>, n: nat, j: nat)
    requires AlmostAscending(s, n, j) && (j == 0 || !Before(s[j], s[j - 1]))
    ensures Ascending(s[..n])
  {
    forall p, q | 0 <= p < q < n ensures !Before(s[q], s[p]) {
      if q == j && p < j - 1 { NotBeforeChains(s[p], s[j - 1], s[j]); }
      if p == j { LessIsStrict(s[p].1, s[q].1); }
    }
  }

  /** `sortByOrder`: insertion sort in place. */
  method SortByOrder(keys: array<string>, order: map<string, int>)
    requires forall k <- keys[..] :: k in order
    modifies keys
    ensures multiset(keys[..]) == multiset(old(keys[..])) && forall k <- keys[..] :: k in order
    ensures Ascending(Ranked(keys[..], order))
  {
    var i := 1;
    while i < keys.Length
      invariant i >= 1 && multiset(keys[..]) == multiset(old(keys[..])) && forall k <- keys[..] :: k in order
      invariant i <= keys.Length ==> Ascending(Ranked(keys[..], order)[..i])
      invariant i > keys.Length ==> keys.Length == 0
    {
      assert forall k <- keys[..] :: k in multiset(keys[..]);
      var j := i;
      ghost var s := Ranked(keys[..], order);
      assert AlmostAscending(s, i + 1, i) by {
        forall p, q | 0 <= p < q < i ensures !Before(s[q], s[p]) {
          assert s[..i][p] == s[p] && s[..i][q] == s[q];
        }
      }
      while j > 0 && (order[keys[j]] < order[keys[j - 1]] || (order[keys[j]] == order[keys[j - 1]] && Less(keys[j], keys[j - 1])))
        invariant j <= i && multiset(keys[..]) == multiset(old(keys[..])) && forall k <- keys[..] :: k in order
        invariant AlmostAscending(Ranked(keys[..], order), i + 1, j)
      {
        j := SinkOne(keys, order, i + 1, j);
      }
      InPlace(Ranked(keys[..], order), i + 1, j);
      i := i + 1;
    }
    assert Ranked(keys[..], order)[..keys.Length] == Ranked(keys[..], order);
  }

  /** One exchange of the inner loop. */
  method SinkOne(keys: array<string>, order: map<string, int>, ghost n: nat, j: nat) returns (next: nat)
    requires forall k <- keys[..] :: k in order
    requires AlmostAscending(Ranked(keys[..], order), n, j) && j > 0
    requires Before((order[keys[j]], keys[j]), (order[keys[j - 1]], keys[j - 1]))
    modifies keys
    ensures next == j - 1 && multiset(keys[..]) == multiset(old(keys[..])) && forall k <- keys[..] :: k in order
    ensures AlmostAscending(Ranked(keys[..], order), n, next)
  {
    assert j < keys.Length;
    hide Before, AlmostAscending;
    ghost var was, s := keys[..], Ranked(keys[..], order);
    keys[j], keys[j - 1] := keys[j - 1], keys[j];
    assert keys[..] == was[j := was[j - 1]][j - 1 := was[j]];
    assert forall k <- keys[..] :: k in was;
    SwapKeepsAlmost(s, Ranked(keys[..], order), n, j);
    next := j - 1;
  }

  // ---- The schema in emission order ----

  function Rank(p: Property): (int, string) { (p.order, p.key) }

  function Insert(p: Property, s: seq<Property>): (r: seq<Property>)
    ensures multiset(r) == multiset(s) + multiset{p}
  {
    if s == [] then [p]
    else
      assert s == [s[0]] + s[1..];
      if Before(Rank(s[0]), Rank(p)) then [s[0]] + Insert(p, s[1..]) else [p] + s
  }

  function Ordered(props: seq<Property>): (r: seq<Property>)
    ensures multiset(r) == multiset(props)
  {
    if props == [] then []
    else
      assert props == [props[0]] + props[1..];
      Insert(props[0], Ordered(props[1..]))
  }

  function Ranks(props: seq<Property>): (r: seq<(int, string)>)
    ensures |r| == |props|
  {
    seq(|props|, i requires 0 <= i < |props| => Rank(props[i]))
  }

  predicate SortedProps(s: seq<Property>) {
    forall i, j | 0 <= i < j < |s| :: !Before(Rank(s[j]), Rank(s[i]))
  }

  lemma {:induction false} InsertSorts(p: Property, s: seq<Property>)
    requires SortedProps(s)
    ensures SortedProps(Insert(p, s))
  {
    if s != [] {
      var r := Insert(p, s);
      if Before(Rank(s[0]), Rank(p)) {
        InsertSorts(p, s[1..]);
        forall j | 0 < j < |r| ensures !Before(Rank(r[j]), Rank(r[0])) {
          assert r[1..] == Insert(p, s[1..]);
          assert r[j] in multiset(Insert(p, s[1..]));
          LessIsStrict(Rank(p).1, Rank(s[0]).1);
          if r[j] != p {
            assert r[j] in multiset(s[1..]);
            var k: nat :| k < |s| - 1 && s[1..][k] == r[j];
            assert s[k + 1] == r[j];
          }
        }
        assert r[0] == s[0] && r[1..] == Insert(p, s[1..]);
      } else {
        forall j | 0 < j < |r| ensures !Before(Rank(r[j]), Rank(p)) {
          if j > 1 { NotBeforeChains(Rank(p), Rank(s[0]), Rank(s[j - 1])); }
        }
      }
    }
  }

  lemma {:induction false} OrderedSorts(props: seq<Property>)
    ensures SortedProps(Ordered(props))
  {
    if props != [] {
      OrderedSorts(props[1..]);
      InsertSorts(props[0], Ordered(props[1..]));
    }
  }

  predicate DistinctKeys(props: seq<Property>) {
    forall i, j | 0 <= i < j < |props| :: props[i].key != props[j].key
  }

  function Keys(props: seq<Property>): set<string> { set p <- props :: p.key }

  predicate ValidSchema(schema: Schema) {
    && AllClean(schema.comments) && DistinctKeys(schema.props)
    && forall p <- schema.props :: ValidKey(p.key) && ValidSchema(p.schema)
  }

  /** The value follows the schema: every property present and no other, and only scalars in lists. */
  predicate Shaped(schema: Schema, fields: Fields)
    decreases schema, 0
  {
    && fields.Keys == Keys(schema.props)
    && forall p <- schema.props :: p.key in fields && ShapedItem(p.schema, fields[p.key])
  }

  predicate ShapedItem(schema: Schema, v: Value)
    decreases schema, 1
  {
    match v
    case Obj(fields) => fields == map[] || Shaped(schema, fields)
    case List(items) => forall x <- items :: Scalar(x)
    case _ => Scalar(v)
  }

  predicate Part(props: seq<Property>, schema: Schema) { forall p <- props :: p in schema.props }

  function CommentLines(comments: seq<string>, indent: nat): seq<string> {
    if comments == [] then [] else [Blanks(indent) + "# " + comments[0]] + CommentLines(comments[1..], indent)
  }

  function ItemLines(items: seq<Value>, secret: bool, indent: nat): seq<string>
    requires forall x <- items :: Scalar(x)
  {
    if items == [] then []
    else [Blanks(indent) + ("- " + EmitScalar(items[0], secret))] + ItemLines(items[1..], secret, indent)
  }

  /** What is written for one property, after its comment. */
  function EmitItem(p: Property, v: Value, indent: nat): seq<string>
    requires ShapedItem(p.schema, v)
    decreases p.schema, 2, 0
  {
    var prefix := Blanks(indent) + (p.key + ":");
    match v
    case Obj(fields) =>
      if fields == map[] then [prefix + " {}"] else [prefix] + EmitObject(p.schema, fields, indent + 2)
    case List(items) =>
      if items == [] then [prefix + " []"] else [prefix] + ItemLines(items, p.schema.secret, indent + 2)
    case _ => [prefix + " " + EmitScalar(v, p.schema.secret)]
  }

  /** `emitObject`: the lines written for an object. */
  function EmitObject(schema: Schema, fields: Fields, indent: nat): seq<string>
    requires Shaped(schema, fields)
    decreases schema, 1, 0
  {
    assert Part(Ordered(schema.props), schema) by { OrderedParts(schema); }
    EmitProps(schema, Ordered(schema.props), fields, indent)
  }

  function EmitProps(schema: Schema, props: seq<Property>, fields: Fields, indent: nat): seq<string>
    requires Shaped(schema, fields) && Part(props, schema)
    decreases schema, 0, |props|
  {
    if props == [] then []
    else
      CommentLines(props[0].schema.comments, indent) + EmitItem(props[0], fields[props[0].key], indent)
      + EmitProps(schema, props[1..], fields, indent)
  }

  lemma OrderedParts(schema: Schema)
    ensures Part(Ordered(schema.props), schema)
  {
    forall p | p in Ordered(schema.props) ensures p in schema.props {
      assert p in multiset(Ordered(schema.props));
    }
  }

  function TrimBreaks(s: string): string {
    if s != "" && s[|s| - 1] == '\n' then TrimBreaks(s[..|s| - 1]) else s
  }

  /** `Emit`. */
  function Emit(schema: Schema, fields: Fields): string
    requires Shaped(schema, fields)
  {
    TrimBreaks(Unlines(EmitObject(schema, fields, 0))) + "\n"
  }
}
