/** Paging through notifications. */
module NotificationPaging {
  // A client pages from an empty cursor while others create and read notifications between its
  // requests.  An id that was evicted is not created again meanwhile.

  import opened NotificationStore
  import opened NotificationService

  datatype Phase = Fresh | Asking(cursor: string) | Complete

  /** `begun` is the list at the first page, `got` what the pages returned so far. */
  datatype State = State(store: Store, known: set<string>, phase: Phase, begun: seq<string>, got: seq<string>)

  datatype Step = Change(op: Op) | Request(limit: int, size: Reply -> nat, reply: Reply)

  function Cursor(phase: Phase): Option<string> {
    match phase
    case Asking(cursor) => Some(cursor)
    case _ => None
  }

  ghost predicate Enabled(s: State, step: Step) {
    match step
    case Change(Creating(id, _)) => id in s.store.items || id !in s.known
    case Change(_) => true
    case Request(limit, size, reply) =>
      !s.phase.Complete? && 1 <= limit <= MAX_LIMIT && IsPage(Snapshot(s.store), Cursor(s.phase), limit, size, reply)
  }

  function Ids(rows: seq<Row>): seq<string> {
    seq(|rows|, i requires 0 <= i < |rows| => rows[i].id)
  }

  /** The client stops when told it is done, and when its cursor is gone. */
  function Advance(s: State, reply: Reply): State {
    var t := if s.phase.Fresh? then s.(begun := s.store.order) else s;
    match reply
    case Page(rows, next, done, _, _) =>
      t.(got := s.got + Ids(rows), phase := if done || next.None? then Complete else Asking(next.value))
    case _ => t.(phase := Complete)
  }

  function Apply(s: State, step: Step): State {
    match step
    case Change(op) =>
      s.(store := NotificationStore.Apply(s.store, op), known := s.known + if op.Creating? then {op.id} else {})
    case Request(_, _, reply) => Advance(s, reply)
  }

  ghost predicate Runs(s: State, steps: seq<Step>, t: State)
    decreases |steps|
  {
    if steps == [] then s == t else Enabled(s, steps[0]) && Runs(Apply(s, steps[0]), steps[1..], t)
  }

  /** The list is what was created since, followed by what is left of the list begun with. */
  predicate Aged(order: seq<string>, begun: seq<string>, n: nat) {
    && n <= |order| && order[n..] <= begun
    && (forall i | 0 <= i < n :: order[i] !in begun)
  }

  /** How the list now, the list begun with and the ids returned fit together. */
  ghost predicate Progress(order: seq<string>, phase: Phase, begun: seq<string>, got: seq<string>) {
    && (phase.Fresh? ==> got == [])
    && (!phase.Fresh? ==> Distinct(begun) && |begun| <= RETAIN && got <= begun && exists n :: Aged(order, begun, n))
    && (phase.Asking? ==> got != [] && phase.cursor == got[|got| - 1])
    && (phase.Complete? ==> forall id <- begun | id in order :: id in got)
  }

  ghost predicate Good(s: State) {
    && Inv(s.store) && Elements(s.store.order) <= s.known
    && (!s.phase.Fresh? ==> Elements(s.begun) <= s.known)
    && Progress(s.store.order, s.phase, s.begun, s.got)
  }

  // ---- Others keep it ----

  lemma CreateAges(s: State, id: string, body: string, n: nat)
    requires Inv(s.store) && Aged(s.store.order, s.begun, n) && id !in s.store.items && id !in s.begun
    ensures var t := Create(s.store, id, body);
            Aged(t.order, s.begun, if n + 1 <= |t.order| then n + 1 else |t.order|)
  {
    var pushed, t := [id] + s.store.order, Create(s.store, id, body);
    assert t.order == Shorten(pushed);
    hide Create, Inv;
    assert Shorten(pushed) == pushed || Shorten(pushed) == pushed[..RETAIN];
  }

  lemma ChangeKeeps(s: State, op: Op)
    requires Good(s) && Enabled(s, Change(op))
    ensures Good(Apply(s, Change(op)))
  {
    ApplyKeeps(s.store, op);
    var t := Apply(s, Change(op));
    if op.Creating? && op.id !in s.store.items {
      CreateEvictsOldest(s.store, op.id, op.body);
      assert op.id !in s.begun || s.phase.Fresh? by { if op.id in s.begun { assert op.id in Elements(s.begun); } }
      if !s.phase.Fresh? {
        var n :| Aged(s.store.order, s.begun, n);
        CreateAges(s, op.id, op.body, n);
      }
    }
  }

  // ---- A page ----

  lemma RowIds(s: Store, start: nat, k: nat)
    requires Inv(s) && start + k <= |s.order|
    ensures |Snapshot(s)| == |s.order| && Ids(Snapshot(s)[start..start + k]) == s.order[start..start + k]
    ensures forall id :: Has(Snapshot(s), id) <==> id in s.order
  {
    SnapshotIsComplete(s);
    hide Inv, Snapshot;
    var all := Snapshot(s);
    forall id ensures Has(all, id) <==> id in s.order {
      if id in s.order { var i: nat :| i < |s.order| && s.order[i] == id; assert all[i].id == id; }
      if Has(all, id) { var i: nat :| i < |all| && all[i].id == id; assert s.order[i] == id; }
    }
  }

  /** Where the rows after the cursor are, in the list begun with. */
  lemma CursorPlace(order: seq<string>, begun: seq<string>, n: nat, got: seq<string>, start: nat)
    requires Distinct(order) && Distinct(begun) && Aged(order, begun, n) && got != [] && got <= begun
    requires 0 < start <= |order| && order[start - 1] == got[|got| - 1]
    ensures start == n + |got|
  {
    var last := got[|got| - 1];
    assert last == begun[|got| - 1] && last in begun;
    assert start - 1 >= n;
    assert order[start - 1] == order[n..][start - 1 - n] == begun[start - 1 - n];
  }

  lemma CursorGone(order: seq<string>, begun: seq<string>, n: nat, got: seq<string>)
    requires Distinct(order) && Distinct(begun) && Aged(order, begun, n) && got != [] && got <= begun
    requires got[|got| - 1] !in order
    ensures forall id <- begun | id in order :: id in got
  {
    var k := |got| - 1;
    forall id | id in begun && id in order ensures id in got {
      var i: nat :| i < |order| && order[i] == id;
      assert i >= n && order[n..][i - n] == begun[i - n] == id;
      assert got[i - n] == id;
    }
  }

  lemma AllReturned(order: seq<string>, begun: seq<string>, n: nat, got: seq<string>)
    requires Aged(order, begun, n) && got <= begun && |got| >= |order| - n
    ensures forall id <- begun | id in order :: id in got
  {
    forall id | id in begun && id in order ensures id in got {
      var i: nat :| i < |order| && order[i] == id;
      assert i >= n && order[n..][i - n] == begun[i - n] == id;
      assert got[i - n] == id;
    }
  }

  /** The next rows continue the list begun with. */
  lemma RowsContinue(order: seq<string>, begun: seq<string>, n: nat, got: seq<string>, start: nat, k: nat)
    requires Aged(order, begun, n) && got <= begun && start == n + |got| && start + k <= |order|
    ensures got + order[start..start + k] <= begun
    ensures |got + order[start..start + k]| == |got| + k && (k > 0 ==> (got + order[start..start + k])[|got| + k - 1] == order[start + k - 1])
  {
    assert order[start..start + k] == order[n..][|got|..|got| + k] == begun[|got|..|got| + k];
  }

  /** What a page does, told by the position of its rows. */
  lemma PageEffect(s: State, start: nat, k: nat)
    requires Inv(s.store) && start + k <= |s.store.order| == |Snapshot(s.store)| && (k == 0 ==> start == |s.store.order|)
    ensures var t := Advance(s, PageOf(Snapshot(s.store), start, k));
            && t.store == s.store && t.known == s.known
            && t.begun == (if s.phase.Fresh? then s.store.order else s.begun)
            && t.got == s.got + s.store.order[start..start + k]
            && t.phase == (if start + k == |s.store.order| then Complete else Asking(s.store.order[start + k - 1]))
  {
    RowIds(s.store, start, k);
    SnapshotIsComplete(s.store);
    hide Inv, Snapshot;
    if start + k < |s.store.order| {
      assert PageOf(Snapshot(s.store), start, k).next == Some(Snapshot(s.store)[start + k - 1].id);
    }
  }

  lemma ProgressPage(order: seq<string>, begun: seq<string>, got: seq<string>, start: nat, k: nat, n: nat)
    requires Distinct(begun) && |begun| <= RETAIN && got <= begun && Aged(order, begun, n)
    requires start == n + |got| && start + k <= |order| && (k == 0 ==> start == |order|)
    ensures Progress(order, if start + k == |order| then Complete else Asking(order[start + k - 1]),
                     begun, got + order[start..start + k])
  {
    RowsContinue(order, begun, n, got, start, k);
    if start + k == |order| { AllReturned(order, begun, n, got + order[start..start + k]); }
    hide Distinct, Aged;
  }

  lemma PageKeeps(s: State, start: nat, k: nat, n: nat)
    requires Good(s) && !s.phase.Complete? && start + k <= |s.store.order| == |Snapshot(s.store)|
    requires k == 0 ==> start == |s.store.order|
    requires if s.phase.Fresh? then start == n == 0 else Aged(s.store.order, s.begun, n) && start == n + |s.got|
    ensures Good(Advance(s, PageOf(Snapshot(s.store), start, k)))
  {
    PageEffect(s, start, k);
    var order := s.store.order;
    hide Advance, Snapshot;
    assert s.phase.Fresh? ==> order[0..] == order;
    ProgressPage(order, if s.phase.Fresh? then order else s.begun, s.got, start, k, n);
  }

  /** The answer to a request, by position. */
  lemma ReplyPlace(s: State, limit: int, size: Reply -> nat, reply: Reply) returns (start: nat, k: nat, n: nat)
    requires Good(s) && Enabled(s, Request(limit, size, reply)) && reply != NotFound
    ensures start + k <= |s.store.order| == |Snapshot(s.store)| && (k == 0 ==> start == |s.store.order|)
    ensures reply == PageOf(Snapshot(s.store), start, k)
    ensures if s.phase.Fresh? then start == n == 0 else Aged(s.store.order, s.begun, n) && start == n + |s.got|
  {
    SnapshotIsComplete(s.store);
    var all := Snapshot(s.store);
    start, k := PagePosition(all, Cursor(s.phase), limit, size, reply);
    n := 0;
    if !s.phase.Fresh? {
      hide Snapshot, PageOf, IsPage, RowOf;
      n :| Aged(s.store.order, s.begun, n);
      assert all[start - 1].id == s.phase.cursor;
      assert s.store.order[start - 1] == s.phase.cursor by { SnapshotId(s.store, start - 1); }
      CursorPlace(s.store.order, s.begun, n, s.got, start);
    }
  }

  lemma SnapshotId(s: Store, i: nat)
    requires Inv(s) && i < |s.order|
    ensures i < |Snapshot(s)| && Snapshot(s)[i].id == s.order[i]
  {
    SnapshotIsComplete(s);
    hide Inv, Snapshot;
  }

  lemma PagePosition(all: seq<Row>, before: Option<string>, limit: int, size: Reply -> nat, reply: Reply) returns (start: nat, k: nat)
    requires 1 <= limit <= MAX_LIMIT && IsPage(all, before, limit, size, reply) && reply != NotFound
    ensures Starts(all, before, start) && start + k <= |all| && (k == 0 ==> start == |all|) && reply == PageOf(all, start, k)
  {
    hide PageOf, Starts;
    start, k :| Starts(all, before, start) && start + k <= |all| && k <= limit && (k == 0 ==> start == |all|)
      && reply == PageOf(all, start, k);
  }

  lemma GoneKeeps(s: State, limit: int, size: Reply -> nat)
    requires Good(s) && Enabled(s, Request(limit, size, NotFound))
    ensures Good(Advance(s, NotFound))
  {
    RowIds(s.store, 0, 0);
    hide Snapshot, Has;
    assert s.phase.Asking? && s.phase.cursor !in s.store.order;
    var n :| Aged(s.store.order, s.begun, n);
    CursorGone(s.store.order, s.begun, n, s.got);
  }

  lemma RequestKeeps(s: State, limit: int, size: Reply -> nat, reply: Reply)
    requires Good(s) && Enabled(s, Request(limit, size, reply))
    ensures Good(Advance(s, reply))
    ensures Advance(s, reply).phase.Complete? || |Advance(s, reply).got| > |s.got|
  {
    if reply == NotFound {
      GoneKeeps(s, limit, size);
    } else {
      var start, k, n := ReplyPlace(s, limit, size, reply);
      hide Enabled, IsPage;
      PageEffect(s, start, k);
      PageKeeps(s, start, k, n);
      hide Good, PageOf, Snapshot, Advance;
    }
  }

  lemma StepKeeps(s: State, step: Step)
    requires Good(s) && Enabled(s, step)
    ensures Good(Apply(s, step))
  {
    match step
    case Change(op) => ChangeKeeps(s, op);
    case Request(limit, size, reply) => RequestKeeps(s, limit, size, reply);
  }

  lemma {:induction false} RunKeeps(s: State, steps: seq<Step>, t: State)
    requires Good(s) && Runs(s, steps, t)
    ensures Good(t)
    decreases |steps|
  {
    hide Good, Apply, Enabled;
    if steps != [] {
      StepKeeps(s, steps[0]);
      RunKeeps(Apply(s, steps[0]), steps[1..], t);
    }
  }

  /** When the client stops, it has every notification of the first page's list that is still
      retained exactly once, newest first, and nothing else. */
  lemma TraversalIsComplete(store: Store, known: set<string>, steps: seq<Step>, t: State)
    requires Inv(store) && Elements(store.order) <= known
    requires Runs(State(store, known, Fresh, [], []), steps, t) && t.phase.Complete?
    ensures Distinct(t.got) && t.got <= t.begun && Distinct(t.begun)
    ensures forall id <- t.begun | id in t.store.items :: id in t.got
  {
    RunKeeps(State(store, known, Fresh, [], []), steps, t);
    OrderHoldsItems(t.store);
  }

  function Requests(steps: seq<Step>): nat {
    if steps == [] then 0 else Requests(steps[1..]) + if steps[0].Request? then 1 else 0
  }

  /** Every page but the last brings something new, so the client stops after at most 501 requests. */
  lemma {:induction false} TraversalEnds(s: State, steps: seq<Step>, t: State)
    requires Good(s) && Runs(s, steps, t)
    ensures Requests(steps) + |s.got| <= |t.got| + (if t.phase.Complete? && !s.phase.Complete? then 1 else 0)
    ensures s.phase.Fresh? ==> Requests(steps) <= RETAIN + 1
    decreases |steps|
  {
    RunKeeps(s, steps, t);
    if steps != [] {
      var m := Apply(s, steps[0]);
      StepKeeps(s, steps[0]);
      TraversalEnds(m, steps[1..], t);
      if steps[0].Request? {
        RequestKeeps(s, steps[0].limit, steps[0].size, steps[0].reply);
        hide Good, Enabled;
        assert |m.got| > |s.got| || m.phase.Complete?;
        GotGrows(s, steps[0]);
        if m.phase.Complete? { CompleteStays(m, steps[1..], t); }
      }
    }
  }

  lemma GotGrows(s: State, step: Step)
    ensures |Apply(s, step).got| >= |s.got|
  {
  }

  lemma {:induction false} CompleteStays(s: State, steps: seq<Step>, t: State)
    requires s.phase.Complete? && Runs(s, steps, t)
    ensures t.phase.Complete? && Requests(steps) == 0 && t.got == s.got
    decreases |steps|
  {
    if steps != [] { CompleteStays(Apply(s, steps[0]), steps[1..], t); }
  }
}
