/** The notification service: each script as the commands it runs, and the page handler. */
module NotificationService {
  import opened NotificationStore

  const MAX_FRAME: nat := 49152
  const MAX_LIMIT: nat := 50

  datatype Reply =
    | Invalid
    | NotFound
    | Page(rows: seq<Row>, next: Option<string>, done: bool, retained: nat, revision: Option<string>)

  function FirstId(rows: seq<Row>): Option<string> { if rows == [] then None else Some(rows[0].id) }

  /** The page of `k` rows from `start`. */
  function PageOf(all: seq<Row>, start: nat, k: nat): Reply
    requires start + k <= |all|
  {
    var done := start + k == |all|;
    Page(all[start..start + k], if done || k == 0 then None else Some(all[start + k - 1].id), done, |all|, FirstId(all))
  }

  predicate Starts(all: seq<Row>, before: Option<string>, start: nat) {
    match before
    case None => start == 0
    case Some(id) => 0 < start <= |all| && all[start - 1].id == id && forall i | 0 <= i < start - 1 :: all[i].id != id
  }

  predicate Has(all: seq<Row>, id: string) { exists i | 0 <= i < |all| :: all[i].id == id }

  /** A correct answer: the rows after the cursor, as many as the limit and the frame size allow, and
      at least one while there are any. */
  ghost predicate IsPage(all: seq<Row>, before: Option<string>, limit: int, size: Reply -> nat, reply: Reply) {
    if !(1 <= limit <= 50) then reply == Invalid
    else if before.Some? && !Has(all, before.value) then reply == NotFound
    else exists start: nat, k: nat ::
      && Starts(all, before, start) && start + k <= |all| && k <= limit && (k == 0 ==> start == |all|)
      && reply == PageOf(all, start, k)
      && (k > 1 ==> size(reply) <= 49152)
      && (forall more | k < more <= limit && start + more <= |all| :: size(PageOf(all, start, more)) > 49152)
  }

  class Service {
    var order: seq<string>
    var items: map<string, string>
    var read: map<string, int>

    ghost function Contents(): Store reads this { Store(order, items, read) }

    constructor ()
      ensures Contents() == Init && Inv(Contents())
    {
      order, items, read := [], map[], map[];
    }

    method CreateScript(id: string, body: string) returns (outcome: Outcome)
      modifies this
      ensures Contents() == Create(old(Contents()), id, body)
      ensures outcome == CreateOutcome(old(Contents()), id, body)
      ensures outcome == if id !in old(items) then Created else if old(items)[id] == body then Duplicate else Conflict
      ensures outcome != Created ==> Contents() == old(Contents())
    {
      if id in items { return if items[id] == body then Duplicate else Conflict; }
      items := items[id := body];
      order := [id] + order;
      var evicted := if |order| <= RETAIN then [] else order[RETAIN..];
      order := if |order| <= RETAIN then order else order[..RETAIN];
      ghost var full, marks, kept := items, read, order;
      Forget(evicted);
      assert kept == Shorten([id] + old(order)) && evicted == Cut([id] + old(order));
      outcome := Created;
    }

    /** `HDEL` of every evicted id from both hashes. */
    method Forget(evicted: seq<string>)
      modifies this`items, this`read
      ensures items == old(items) - Elements(evicted) && read == old(read) - Elements(evicted)
    {
      for i := 0 to |evicted|
        invariant items == old(items) - Elements(evicted[..i]) && read == old(read) - Elements(evicted[..i])
      {
        assert Elements(evicted[..i + 1]) == Elements(evicted[..i]) + {evicted[i]};
        items := items - {evicted[i]};
        read := read - {evicted[i]};
      }
      assert evicted[..|evicted|] == evicted;
    }

    /** -1 when there is no such notification, 0 when it was read before. */
    method MarkOneScript(id: string, at: int) returns (changed: int)
      modifies this
      ensures Contents() == MarkOne(old(Contents()), id, at)
      ensures changed == if id !in old(items) then -1 else if id in old(read) then 0 else 1
      ensures order == old(order) && items == old(items)
      ensures read == if changed == 1 then old(read)[id := at] else old(read)
    {
      if id !in items { return -1; }
      if id in read { return 0; }
      read := read[id := at];
      changed := 1;
    }

    method MarkAllScript(at: int) returns (changed: nat)
      requires Inv(Contents())
      modifies this
      ensures Contents() == MarkAll(old(Contents()), at)
      ensures changed == |items| - |old(read)|
    {
      hide Inv, MarkFirst, MarkAll;
      ghost var was := Contents();
      changed := 0;
      MarkBounds(was, at);
      for i := 0 to |order|
        invariant order == old(order) && items == old(items)
        invariant read == MarkFirst(was, at, i)
        invariant changed == |read| - |was.read|
      {
        MarkNext(was, at, i);
        if order[i] in items && order[i] !in read {
          changed := changed + 1;
          read := read[order[i] := at];
        }
      }
      MarkAllReadsEverything(was, at);
    }

    method SnapshotScript() returns (rows: seq<Row>)
      ensures rows == Snapshot(Contents())
    {
      rows := [];
      assert order[0..] == order;
      for i := 0 to |order|
        invariant rows + Rows(Contents(), order[i..]) == Snapshot(Contents())
      {
        var id := order[i];
        assert order[i..][1..] == order[i + 1..];
        if id in items {
          var row := Row(id, items[id], if id in read then Some(read[id]) else None);
          assert rows + ([row] + Rows(Contents(), order[i + 1..])) == (rows + [row]) + Rows(Contents(), order[i + 1..]);
          rows := rows + [row];
        } else {
          assert [] + Rows(Contents(), order[i + 1..]) == Rows(Contents(), order[i + 1..]);
        }
      }
      assert rows + [] == rows;
    }

    /** `handlePage`.  `size` stands for the length of the encoded frame. */
    method HandlePage(before: Option<string>, limit: int, size: Reply -> nat) returns (reply: Reply)
      ensures IsPage(Snapshot(Contents()), before, limit, size, reply)
      ensures reply.Page? ==>
                && reply.retained == |Snapshot(Contents())| && |reply.rows| <= limit
                && reply.revision == (if Snapshot(Contents()) == [] then None else Some(Snapshot(Contents())[0].id))
                && (reply.next.Some? ==> reply.rows != [] && reply.next == Some(reply.rows[|reply.rows| - 1].id))
                && (reply.next.None? <==> reply.done)
    {
      if limit < 1 || limit > MAX_LIMIT { return Invalid; }
      var all := SnapshotScript();
      hide Snapshot;
      var start: nat := 0;
      if before.Some? {
        var found := FindRow(all, before.value);
        if found == |all| { return NotFound; }
        start := found + 1;
      }
      ghost var k;
      reply, k := ShrinkToFrame(all, start, limit, size);
    }
  }

  /** The rows from `start`, fewer and fewer until the frame is small enough. */
  method ShrinkToFrame(all: seq<Row>, start: nat, limit: nat, size: Reply -> nat) returns (reply: Reply, ghost k: nat)
    requires start <= |all| && limit >= 1
    ensures start + k <= |all| && k <= limit && (k == 0 ==> start == |all|)
    ensures reply == PageOf(all, start, k) && (k > 1 ==> size(reply) <= MAX_FRAME)
    ensures forall more | k < more <= limit && start + more <= |all| :: size(PageOf(all, start, more)) > MAX_FRAME
  {
    var end: nat := if start + limit <= |all| then start + limit else |all|;
    var rows := all[start..end];
    var done := end == |all|;
    var next := if !done && rows != [] then Some(rows[|rows| - 1].id) else None;
    reply := Page(rows, next, done, |all|, FirstId(all));
    k := |rows|;
    while size(reply) > MAX_FRAME && |rows| > 1
      invariant k == |rows| && k <= limit && start + k <= |all| && rows == all[start..start + k]
      invariant reply == PageOf(all, start, k) && (k == 0 ==> start == |all|)
      invariant forall more | k < more <= limit && start + more <= |all| :: size(PageOf(all, start, more)) > MAX_FRAME
      decreases |rows|
    {
      rows := rows[..|rows| - 1];
      k := k - 1;
      reply := Page(rows, Some(rows[|rows| - 1].id), false, |all|, FirstId(all));
    }
  }

  /** The index of the cursor, or the number of rows. */
  method FindRow(rows: seq<Row>, id: string) returns (index: nat)
    ensures index <= |rows| && (index < |rows| ==> rows[index].id == id) && forall i | 0 <= i < index :: rows[i].id != id
  {
    index := 0;
    while index < |rows| && rows[index].id != id
      invariant index <= |rows| && forall i | 0 <= i < index :: rows[i].id != id
    {
      index := index + 1;
    }
  }

  ghost function MarkFirst(s: Store, at: int, n: nat): map<string, int>
    requires n <= |s.order|
  {
    s.read + map id | id in s.order[..n] && Unread(s, id) :: at
  }

  lemma MarkBounds(s: Store, at: int)
    requires Inv(s)
    ensures MarkFirst(s, at, 0) == s.read && MarkFirst(s, at, |s.order|) == MarkAll(s, at).read
  {
    assert s.order[..|s.order|] == s.order;
  }

  lemma MarkNext(s: Store, at: int, n: nat)
    requires n < |s.order|
    ensures var m, id := MarkFirst(s, at, n), s.order[n];
            MarkFirst(s, at, n + 1) == if id in s.items && id !in m then m[id := at] else m
  {
    assert s.order[..n + 1] == s.order[..n] + [s.order[n]];
  }
}
