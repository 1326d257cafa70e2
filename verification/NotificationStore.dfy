/** The stored notifications. */
module NotificationStore {
  // A bounded list of ids, newest first, their immutable bodies, and the time each was read.  Each
  // script runs atomically.

  datatype Option<T> = None | Some(value: T)

  const RETAIN: nat := 500

  datatype Store = Store(order: seq<string>, items: map<string, string>, read: map<string, int>)

  datatype Outcome = Created | Duplicate | Conflict

  function Elements(s: seq<string>): set<string> { set x <- s }

  predicate Distinct(s: seq<string>) { forall i, j | 0 <= i < j < |s| :: s[i] != s[j] }

  predicate Inv(s: Store) {
    && Distinct(s.order) && |s.order| <= RETAIN
    && Elements(s.order) == s.items.Keys && s.read.Keys <= s.items.Keys
  }

  const Init := Store([], map[], map[])

  // ---- The scripts ----

  function CreateOutcome(s: Store, id: string, body: string): Outcome {
    if id !in s.items then Created else if s.items[id] == body then Duplicate else Conflict
  }

  function Shorten(order: seq<string>): seq<string> { if |order| <= RETAIN then order else order[..RETAIN] }

  function Cut(order: seq<string>): seq<string> { if |order| <= RETAIN then [] else order[RETAIN..] }

  function Create(s: Store, id: string, body: string): Store {
    if id in s.items then s
    else
      var pushed := [id] + s.order;
      var gone := Elements(Cut(pushed));
      Store(Shorten(pushed), s.items[id := body] - gone, s.read - gone)
  }

  function MarkOne(s: Store, id: string, at: int): Store {
    if id in s.items && id !in s.read then s.(read := s.read[id := at]) else s
  }

  predicate Unread(s: Store, id: string) { id in s.items && id !in s.read }

  function MarkAll(s: Store, at: int): Store {
    s.(read := s.read + map id | id in s.order && Unread(s, id) :: at)
  }

  datatype Row = Row(id: string, body: string, readAt: Option<int>)

  function RowOf(s: Store, id: string): Row
    requires id in s.items
  {
    Row(id, s.items[id], if id in s.read then Some(s.read[id]) else None)
  }

  function Rows(s: Store, order: seq<string>): seq<Row> {
    if order == [] then []
    else (if order[0] in s.items then [RowOf(s, order[0])] else []) + Rows(s, order[1..])
  }

  function Snapshot(s: Store): seq<Row> { Rows(s, s.order) }

  // ---- What every run keeps ----

  datatype Op = Creating(id: string, body: string) | ReadingOne(id: string, at: int) | ReadingAll(at: int)

  function Apply(s: Store, op: Op): Store {
    match op
    case Creating(id, body) => Create(s, id, body)
    case ReadingOne(id, at) => MarkOne(s, id, at)
    case ReadingAll(at) => MarkAll(s, at)
  }

  predicate Runs(s: Store, ops: seq<Op>, t: Store)
    decreases |ops|
  {
    if ops == [] then s == t else Runs(Apply(s, ops[0]), ops[1..], t)
  }

  lemma CreateKeeps(s: Store, id: string, body: string)
    requires Inv(s)
    ensures Inv(Create(s, id, body))
  {
    if id !in s.items {
      var pushed := [id] + s.order;
      assert id !in Elements(s.order);
      assert Elements(pushed) == Elements(s.order) + {id};
    }
  }

  lemma ApplyKeeps(s: Store, op: Op)
    requires Inv(s)
    ensures Inv(Apply(s, op))
  {
    match op
    case Creating(id, body) => CreateKeeps(s, id, body);
    case ReadingOne(_, _) =>
    case ReadingAll(_) =>
  }

  /** In every run the list is free of duplicates, holds exactly the ids of the bodies, at most 500 of
      them, and only retained notifications are marked read. */
  lemma {:induction false} RunKeepsInv(s: Store, ops: seq<Op>, t: Store)
    requires Inv(s) && Runs(s, ops, t)
    ensures Inv(t) && |t.order| <= 500
    decreases |ops|
  {
    hide Apply;
    if ops != [] {
      ApplyKeeps(s, ops[0]);
      hide Inv;
      RunKeepsInv(Apply(s, ops[0]), ops[1..], t);
    }
  }

  predicate Retained(s: Store, ops: seq<Op>, id: string)
    decreases |ops|
  {
    id in s.items && (ops != [] ==> Retained(Apply(s, ops[0]), ops[1..], id))
  }

  /** `a` is listed before `b`. */
  predicate Precedes(s: Store, a: string, b: string) {
    exists i, j | 0 <= i < j < |s.order| :: s.order[i] == a && s.order[j] == b
  }

  lemma ApplyKeepsOrder(s: Store, op: Op, a: string, b: string)
    requires Inv(s) && Precedes(s, a, b) && a in Apply(s, op).items && b in Apply(s, op).items
    ensures Precedes(Apply(s, op), a, b)
  {
    var i, j :| 0 <= i < j < |s.order| && s.order[i] == a && s.order[j] == b;
    ApplyKeeps(s, op);
    var t := Apply(s, op);
    if op.Creating? && op.id !in s.items {
      var pushed := [op.id] + s.order;
      assert pushed[i + 1] == a && pushed[j + 1] == b;
      assert b in Elements(t.order);
      var k :| 0 <= k < |t.order| && t.order[k] == b;
      assert pushed[k] == b;
      assert op.id !in Elements(s.order);
      assert k == j + 1;
      assert t.order[i + 1] == a && t.order[j + 1] == b;
    }
  }

  /** While a notification stays retained its body never changes and the first reading time stands. */
  lemma {:induction false} RetainedIsStable(s: Store, ops: seq<Op>, t: Store, id: string)
    requires Inv(s) && Runs(s, ops, t) && Retained(s, ops, id)
    ensures id in t.items && t.items[id] == s.items[id]
    ensures id in s.read ==> id in t.read && t.read[id] == s.read[id]
    decreases |ops|
  {
    if ops != [] {
      var m := Apply(s, ops[0]);
      ApplyKeeps(s, ops[0]);
      assert id in m.items;
      assert m.items[id] == s.items[id] && (id in s.read ==> id in m.read && m.read[id] == s.read[id]);
      hide Inv, Apply;
      RetainedIsStable(m, ops[1..], t, id);
    }
  }

  /** Two notifications that stay retained stay in the same order, whatever is created and read. */
  lemma {:induction false} RetainedKeepOrder(s: Store, ops: seq<Op>, t: Store, a: string, b: string)
    requires Inv(s) && Runs(s, ops, t) && Retained(s, ops, a) && Retained(s, ops, b) && Precedes(s, a, b)
    ensures Precedes(t, a, b)
    decreases |ops|
  {
    if ops != [] {
      var m := Apply(s, ops[0]);
      ApplyKeeps(s, ops[0]);
      assert a in m.items && b in m.items;
      ApplyKeepsOrder(s, ops[0], a, b);
      hide Inv, Apply, Precedes;
      RetainedKeepOrder(m, ops[1..], t, a, b);
    }
  }

  /** Creating pushes out at most one notification, and that one the oldest. */
  lemma CreateEvictsOldest(s: Store, id: string, body: string)
    requires Inv(s) && id !in s.items
    ensures var t := Create(s, id, body);
            && t.order[0] == id && t.items[id] == body && id !in t.read
            && t.order[1..] == (if |s.order| < 500 then s.order else s.order[..499])
            && t.items.Keys == s.items.Keys + {id} - (if |s.order| < 500 then {} else {s.order[499]})
            && (forall x <- t.items | x != id :: t.items[x] == s.items[x])
            && t.read == s.read - (if |s.order| < 500 then {} else {s.order[499]})
  {
    CutIsOldest(s.order, id);
    OldestIsKnown(s);
    CreatedFields(s, id, body);
    hide *;
  }

  lemma CreatedFields(s: Store, id: string, body: string)
    requires id !in s.items
    ensures var t, gone := Create(s, id, body), Elements(Cut([id] + s.order));
            && t.items == s.items[id := body] - gone && t.read == s.read - gone
            && t.order == [id] + if |s.order| < 500 then s.order else s.order[..499]
  {
    hide Elements, Cut;
  }

  lemma OldestIsKnown(s: Store)
    requires Inv(s)
    ensures |s.order| <= 500 && s.read.Keys <= s.items.Keys && (|s.order| == 500 ==> s.order[499] in s.items)
  {
    assert |s.order| == 500 ==> s.order[499] in Elements(s.order);
  }

  lemma CutIsOldest(order: seq<string>, id: string)
    requires |order| <= 500
    ensures Elements(Cut([id] + order)) == if |order| < 500 then {} else {order[499]}
  {
    var pushed := [id] + order;
    if |order| == 500 {
      assert pushed[500..] == [order[499]];
      assert Elements(Cut(pushed)) == {order[499]};
    }
  }

  /** Creating the same notification again, and creating another under its id, change nothing. */
  lemma CreateIsIdempotent(s: Store, id: string, body: string, other: string)
    requires Inv(s)
    ensures var t := Create(s, id, body);
            && id in t.items && Create(t, id, other) == t
            && (CreateOutcome(s, id, body) != Conflict ==>
                  CreateOutcome(t, id, other) == if other == body then Duplicate else Conflict)
  {
    if id !in s.items { CreateEvictsOldest(s, id, body); }
  }

  lemma {:induction false} RowsFollowOrder(s: Store, order: seq<string>)
    requires forall id <- order :: id in s.items
    ensures |Rows(s, order)| == |order| && forall i | 0 <= i < |order| :: Rows(s, order)[i] == RowOf(s, order[i])
  {
    if order != [] { RowsFollowOrder(s, order[1..]); }
  }

  /** A snapshot lists every notification once, in order. */
  lemma SnapshotIsComplete(s: Store)
    requires Inv(s)
    ensures |Snapshot(s)| == |s.order| == |s.items|
    ensures forall i | 0 <= i < |s.order| :: s.order[i] in s.items && Snapshot(s)[i] == RowOf(s, s.order[i])
  {
    assert forall id <- s.order :: id in Elements(s.order);
    RowsFollowOrder(s, s.order);
    DistinctCount(s.order);
  }

  lemma {:induction false} DistinctCount(order: seq<string>)
    requires Distinct(order)
    ensures |Elements(order)| == |order|
  {
    if order != [] {
      DistinctCount(order[1..]);
      assert Elements(order) == {order[0]} + Elements(order[1..]);
    }
  }

  function UnreadCount(rows: seq<Row>): nat {
    if rows == [] then 0 else UnreadCount(rows[1..]) + (if rows[0].readAt.None? then 1 else 0)
  }

  lemma FirstElement(order: seq<string>)
    requires order != [] && Distinct(order)
    ensures Elements(order) == {order[0]} + Elements(order[1..]) && order[0] !in Elements(order[1..]) && Distinct(order[1..])
  {
  }

  lemma RowsUnfold(s: Store, order: seq<string>)
    requires order != [] && order[0] in s.items
    ensures UnreadCount(Rows(s, order)) == UnreadCount(Rows(s, order[1..])) + (if order[0] in s.read then 0 else 1)
  {
    assert Rows(s, order)[1..] == Rows(s, order[1..]);
  }

  lemma NothingUnread(s: Store)
    ensures UnreadCount(Rows(s, [])) == |Elements([]) - s.read.Keys|
  {
    assert Elements([]) - s.read.Keys == {};
  }

  lemma {:induction false} UnreadOf(s: Store, order: seq<string>)
    requires Distinct(order) && forall id <- order :: id in s.items
    ensures UnreadCount(Rows(s, order)) == |Elements(order) - s.read.Keys|
  {
    hide Elements, Distinct, Rows, UnreadCount;
    if order == [] {
      NothingUnread(s);
    } else {
      FirstElement(order);
      RowsUnfold(s, order);
      UnreadOf(s, order[1..]);
      WithoutSome(Elements(order[1..]), s.read.Keys, order[0]);
    }
  }

  lemma WithoutSome(rest: set<string>, r: set<string>, x: string)
    requires x !in rest
    ensures |({x} + rest) - r| == |rest - r| + (if x in r then 0 else 1)
  {
    if x in r {
      assert ({x} + rest) - r == rest - r;
    } else {
      assert ({x} + rest) - r == {x} + (rest - r);
    }
  }

  lemma OrderHoldsItems(s: Store)
    requires Inv(s)
    ensures Elements(s.order) == s.items.Keys && (forall id <- s.order :: id in s.items) && forall id <- s.items :: id in s.order
  {
    assert forall id <- s.order :: id in Elements(s.order);
    assert forall id <- s.items :: id in Elements(s.order);
  }

  /** The unread count is what is retained minus what is read. */
  lemma UnreadIsWhatIsLeft(s: Store)
    requires Inv(s)
    ensures UnreadCount(Snapshot(s)) == |s.items| - |s.read|
  {
    OrderHoldsItems(s);
    UnreadOf(s, s.order);
    hide Elements, Rows, UnreadCount;
    assert s.items.Keys == (s.items.Keys - s.read.Keys) + s.read.Keys;
  }

  /** Reading all leaves nothing unread, and touches only what was unread. */
  lemma MarkAllReadsEverything(s: Store, at: int)
    requires Inv(s)
    ensures var t := MarkAll(s, at);
            && UnreadCount(Snapshot(t)) == 0 && t.items == s.items && t.order == s.order
            && t.read.Keys == s.items.Keys
            && forall id <- s.items :: t.read[id] == (if id in s.read then s.read[id] else at)
  {
    var t := MarkAll(s, at);
    OrderHoldsItems(s);
    assert t.read.Keys == s.items.Keys;
    hide Elements, Rows, UnreadCount;
    ApplyKeeps(s, ReadingAll(at));
    UnreadIsWhatIsLeft(t);
  }
}
