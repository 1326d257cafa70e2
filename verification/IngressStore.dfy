/** Ingress records. */
module IngressStore {
  // A record moves reserved -> message -> stats -> job -> complete.  Every script is one atomic
  // Valkey command.  The three multisets are history variables: they count, per update, every history
  // append, query increment and queue append that was ever performed.

  const INDEX_CAP: nat := 1000
  const HISTORY_CAP: nat := 200

  datatype Stage = Reserved | Message | Stats | Job | Complete

  function Rank(stage: Stage): nat {
    match stage
    case Reserved => 0
    case Message => 1
    case Stats => 2
    case Job => 3
    case Complete => 4
  }

  datatype Record = Record(stage: Stage, ahead: nat)

  /** Chat history and queue entries: one written for a Telegram update, or anybody else's. */
  datatype Entry = FromUpdate(id: int) | Foreign

  datatype Store = Store(
    records: map<int, Record>,
    index: seq<int>,
    history: seq<Entry>,
    queries: nat,
    interactive: seq<Entry>,
    scheduled: seq<Entry>,
    inflight: seq<Entry>,
    offset: int,
    appended: multiset<int>,
    counted: multiset<int>,
    queued: multiset<int>)

  const EmptyStore := Store(map[], [], [], 0, [], [], [], 0, multiset{}, multiset{}, multiset{})

  function KeepLast<T>(s: seq<T>, cap: nat): (r: seq<T>)
    ensures |r| <= cap && |r| <= |s|
    ensures |r| == |s| || |r| == cap
    ensures r == s[|s| - |r|..]
  {
    if |s| <= cap then s else s[|s| - cap..]
  }

  /** What the scripts' replies tell the submitter. */
  datatype Reply = Mutated(ahead: nat) | Unchanged(ahead: nat) | ErrorReply

  // ---- The scripts, as functions on the store ----

  /** The eviction loop at the end of the reserve script. */
  function Evict(s: Store): Store
    decreases |s.index|
  {
    if |s.index| <= INDEX_CAP then s
    else
      var oldest := s.index[0];
      if oldest !in s.records then Evict(s.(index := s.index[1..]))
      else if s.records[oldest].stage != Complete then s
      else Evict(s.(index := s.index[1..], records := s.records - {oldest}))
  }

  function Reserve(s: Store, u: int): (Store, Record) {
    if u in s.records then (s, s.records[u])
    else
      var blank := Record(Reserved, 0);
      (Evict(s.(records := s.records[u := blank], index := s.index + [u])), blank)
  }

  function AppendHistory(s: Store, u: int): (Store, Reply) {
    if u !in s.records then (s, ErrorReply)
    else if s.records[u].stage != Reserved then (s, Unchanged(0))
    else
      (s.(history := KeepLast(s.history + [FromUpdate(u)], HISTORY_CAP),
          records := s.records[u := s.records[u].(stage := Message)],
          appended := s.appended + multiset{u}), Mutated(0))
  }

  function CountQuery(s: Store, u: int): (Store, Reply) {
    if u !in s.records then (s, ErrorReply)
    else if s.records[u].stage != Message then (s, Unchanged(0))
    else
      (s.(queries := s.queries + 1,
          records := s.records[u := s.records[u].(stage := Stats)],
          counted := s.counted + multiset{u}), Mutated(0))
  }

  function EnqueueJob(s: Store, u: int): (Store, Reply) {
    if u !in s.records then (s, ErrorReply)
    else if s.records[u].stage != Stats then
      if s.records[u].stage in {Job, Complete} then (s, Unchanged(s.records[u].ahead)) else (s, ErrorReply)
    else
      var ahead := |s.interactive| + |s.scheduled| + (if s.inflight != [] then 1 else 0);
      (s.(interactive := s.interactive + [FromUpdate(u)],
          records := s.records[u := Record(Job, ahead)],
          queued := s.queued + multiset{u}), Mutated(ahead))
  }

  /** The last step is a plain SET: it does not look at the stored stage. */
  function MarkComplete(s: Store, u: int, ahead: nat): Store {
    s.(records := s.records[u := Record(Complete, ahead)])
  }

  // ---- One submission, one command at a time ----

  /** Where a submission stands: before its first command, between two commands with its own copy
      of the stage, or finished. */
  datatype Local = Start | At(stage: Stage, ahead: nat) | Done(ahead: nat, duplicate: bool) | Failed

  predicate Finished(l: Local) { l.Done? || l.Failed? }

  function SubmitStep(s: Store, u: int, l: Local): (Store, Local) {
    match l
    case Start =>
      var (s', r) := Reserve(s, u);
      (s', if r.stage == Complete then Done(r.ahead, true) else At(r.stage, r.ahead))
    case At(Reserved, ahead) =>
      var (s', reply) := AppendHistory(s, u);
      (s', if reply == ErrorReply then Failed else At(Message, ahead))
    case At(Message, ahead) =>
      var (s', reply) := CountQuery(s, u);
      (s', if reply == ErrorReply then Failed else At(Stats, ahead))
    case At(Stats, _) =>
      var (s', reply) := EnqueueJob(s, u);
      (s', if reply == ErrorReply then Failed else At(Job, reply.ahead))
    case At(Job, ahead) => (MarkComplete(s, u, ahead), Done(ahead, false))
    case At(Complete, _) => (s, Failed)
    case Done(_, _) => (s, l)
    case Failed => (s, l)
  }

  /** The store and the submission after `n` of its commands. */
  function SubmitRun(s: Store, u: int, l: Local, n: nat): (Store, Local)
    decreases n
  {
    if n == 0 then (s, l)
    else
      var (s', l') := SubmitStep(s, u, l);
      SubmitRun(s', u, l', n - 1)
  }

  // ---- What the store must satisfy ----

  /** History appends, query increments and queue appends performed for `u`. */
  function Counts(s: Store, u: int): (nat, nat, nat) {
    (s.appended[u], s.counted[u], s.queued[u])
  }

  /** The effects a record at this stage stands for. */
  function Owed(stage: Stage): (nat, nat, nat) {
    match stage
    case Reserved => (0, 0, 0)
    case Message => (1, 0, 0)
    case Stats => (1, 1, 0)
    case Job => (1, 1, 1)
    case Complete => (1, 1, 1)
  }

  /** `u` has, or once had, an ingress record. */
  predicate Known(s: Store, u: int) { u in s.records || s.appended[u] > 0 }

  ghost predicate EffectsMatchRecords(s: Store) {
    forall u <- s.records :: Counts(s, u) == Owed(s.records[u].stage)
  }

  /** An update without a record has had no effect yet, or all of them and lies below `bound`. */
  ghost predicate ForgottenBelow(s: Store, bound: int) {
    forall u | u !in s.records :: Counts(s, u) == (0, 0, 0) || (Counts(s, u) == (1, 1, 1) && u < bound)
  }

  ghost predicate IndexSound(s: Store) {
    && (forall i, j | 0 <= i < j < |s.index| :: s.index[i] != s.index[j])
    && (forall u <- s.index :: Known(s, u))
  }

  ghost predicate Consistent(s: Store, bound: int) {
    EffectsMatchRecords(s) && ForgottenBelow(s, bound) && IndexSound(s)
  }

  /** A submission's own copy of the stage is never ahead of the stored stage. */
  ghost predicate Behind(s: Store, u: int, l: Local) {
    match l
    case Start => true
    case At(stage, _) => Known(s, u) && stage != Complete && (u in s.records ==> Rank(stage) <= Rank(s.records[u].stage))
    case Done(_, _) => Counts(s, u) == (1, 1, 1)
    case Failed => true
  }

  // ---- Eviction ----

  /** Which records the eviction loop forgets: only complete ones, oldest first, never the newest
      entry, stopping at the cap or at the first incomplete record. */
  lemma {:induction false} EvictEffect(s: Store)
    ensures var r := Evict(s);
            && r == s.(index := r.index, records := r.records)
            && (|s.index| <= INDEX_CAP ==> r == s)
            && (|s.index| >= INDEX_CAP ==> |r.index| >= INDEX_CAP)
            && |r.index| <= |s.index|
            && r.index == s.index[|s.index| - |r.index|..]
            && r.records.Keys <= s.records.Keys
            && (forall u <- r.records :: r.records[u] == s.records[u])
            && (forall u | u in s.records && u !in r.records ::
                  s.records[u].stage == Complete && u in s.index[..|s.index| - |r.index|])
            && (forall u <- s.index[..|s.index| - |r.index|] :: u !in r.records)
            && (|r.index| > INDEX_CAP ==> r.index[0] in r.records && r.records[r.index[0]].stage != Complete)
    decreases |s.index|
  {
    if |s.index| > INDEX_CAP {
      var oldest := s.index[0];
      if oldest !in s.records || s.records[oldest].stage == Complete {
        var next := if oldest !in s.records then s.(index := s.index[1..])
                    else s.(index := s.index[1..], records := s.records - {oldest});
        EvictEffect(next);
        var r := Evict(s);
        var n := |s.index| - |r.index|;
        assert s.index[..n] == [oldest] + next.index[..n - 1];
        assert r.index == s.index[n..];
        forall u | u in s.index[..n] ensures u !in r.records {
          if u != oldest { assert u in next.index[..n - 1]; }
        }
      }
    }
  }

  // ---- Every command keeps the store consistent ----

  /** Only one update at or above the bound may be known: the one being processed. */
  ghost predicate OnlyAbove(s: Store, bound: int, u: int) {
    u >= bound && forall v :: Known(s, v) && v >= bound ==> v == u
  }

  function Indexed(s: Store, u: int): Store {
    s.(records := s.records[u := Record(Reserved, 0)], index := s.index + [u])
  }

  lemma FirstReservation(s: Store, u: int, bound: int)
    requires Consistent(s, bound) && OnlyAbove(s, bound, u) && u !in s.records
    ensures Counts(s, u) == (0, 0, 0) && u !in s.index && IndexSound(Indexed(s, u))
  {
    var mid := Indexed(s, u);
    assert !Known(s, u);
    forall v | v in mid.index ensures Known(mid, v) {
      if v != u { assert v in s.index; }
    }
  }

  /** What the reserve script changes: a fresh record for `u`, and only complete records of other
      updates, all below the bound, may disappear. */
  lemma ReserveFrame(s: Store, u: int, bound: int)
    requires Consistent(s, bound) && OnlyAbove(s, bound, u)
    ensures var (s', r) := Reserve(s, u);
            && s' == s.(records := s'.records, index := s'.index)
            && u in s'.records && s'.records[u] == r
            && (forall v | v in s'.records && v != u :: v in s.records && s'.records[v] == s.records[v])
            && (forall v | v in s.records && v !in s'.records ::
                  v != u && s.records[v].stage == Complete && v < bound)
  {
    if u !in s.records {
      var mid := Indexed(s, u);
      EvictEffect(mid);
      FirstReservation(s, u, bound);
      var s' := Evict(mid);
      var n := |mid.index| - |s'.index|;
      forall v | v in mid.records && v !in s'.records
        ensures v != u && v in s.records && s.records[v].stage == Complete && v < bound
      {
        assert v in mid.index[..n];
        assert v in s.index && Known(s, v);
      }
      assert u in mid.records;
    }
  }

  lemma ReserveIndex(s: Store, u: int, bound: int)
    requires Consistent(s, bound) && OnlyAbove(s, bound, u)
    requires EffectsMatchRecords(s)
    ensures IndexSound(Reserve(s, u).0)
  {
    if u !in s.records {
      var mid := Indexed(s, u);
      FirstReservation(s, u, bound);
      EvictEffect(mid);
      var s' := Evict(mid);
      var n := |mid.index| - |s'.index|;
      forall i, j | 0 <= i < j < |s'.index| ensures s'.index[i] != s'.index[j] {
        assert s'.index[i] == mid.index[n + i] && s'.index[j] == mid.index[n + j];
      }
      forall v | v in s'.index ensures Known(s', v) {
        assert v in mid.index && Known(mid, v);
        if v in mid.records && v !in s'.records {
          assert v in mid.index[..n];
        }
      }
    }
  }

  lemma ReserveKeeps(s: Store, u: int, bound: int)
    requires Consistent(s, bound) && OnlyAbove(s, bound, u)
    ensures var (s', r) := Reserve(s, u);
            && Consistent(s', bound)
            && (forall v | Known(s', v) :: Known(s, v) || v == u)
            && (forall v | Known(s, v) :: Known(s', v))
  {
    ReserveFrame(s, u, bound);
    ReserveIndex(s, u, bound);
    var (s', r) := Reserve(s, u);
    if u !in s.records { FirstReservation(s, u, bound); }
    forall v | v in s'.records ensures Counts(s', v) == Owed(s'.records[v].stage) {
      assert Counts(s', v) == Counts(s, v);
    }
    forall v | v !in s'.records
      ensures Counts(s', v) == (0, 0, 0) || (Counts(s', v) == (1, 1, 1) && v < bound)
    {
      assert Counts(s', v) == Counts(s, v);
    }
    forall v | Known(s, v) ensures Known(s', v) {
      if v in s.records && v !in s'.records { assert Counts(s, v) == (1, 1, 1); }
    }
  }

  /** The later commands write one record, keep the index, and add the effects the new stage owes. */
  ghost predicate Advances(s: Store, s': Store, u: int) {
    && s'.index == s.index && s'.offset == s.offset
    && u in s'.records && s'.records == s.records[u := s'.records[u]]
    && Counts(s', u) == Owed(s'.records[u].stage)
    && (u in s.records ==> Rank(s.records[u].stage) <= Rank(s'.records[u].stage))
    && (forall v | v != u :: Counts(s', v) == Counts(s, v))
  }

  lemma AdvanceKeeps(s: Store, s': Store, u: int, bound: int)
    requires Consistent(s, bound) && Known(s, u) && (s' == s || Advances(s, s', u))
    ensures Consistent(s', bound)
    ensures forall v :: Known(s', v) <==> Known(s, v)
  {
    if s' != s {
      assert forall v | v != u :: s'.appended[v] == s.appended[v] by {
        forall v | v != u ensures s'.appended[v] == s.appended[v] { assert Counts(s', v) == Counts(s, v); }
      }
      forall v | v in s'.index ensures Known(s', v) { assert Known(s, v); }
    }
  }

  lemma LaterStepAdvances(s: Store, u: int, l: Local, bound: int)
    requires Consistent(s, bound) && Behind(s, u, l) && !l.Start?
    ensures var (s', l') := SubmitStep(s, u, l);
            && (s' == s || Advances(s, s', u))
            && (l.At? ==> Known(s, u))
            && Behind(s', u, l')
  {
    if u in s.records { assert Counts(s, u) == Owed(s.records[u].stage); }
    else { assert Counts(s, u) == (0, 0, 0) || Counts(s, u) == (1, 1, 1); }
  }

  /** One command of one submission keeps the store consistent and its own copy of the stage behind. */
  lemma SubmitStepKeeps(s: Store, u: int, l: Local, bound: int)
    requires Consistent(s, bound) && Behind(s, u, l)
    requires l.Start? ==> OnlyAbove(s, bound, u)
    ensures var (s', l') := SubmitStep(s, u, l);
            && Consistent(s', bound)
            && Behind(s', u, l')
            && s'.offset == s.offset
            && (forall v | Known(s', v) :: Known(s, v) || v == u)
            && (forall v | Known(s, v) :: Known(s', v))
  {
    if l == Start {
      ReserveKeeps(s, u, bound);
      ReserveFrame(s, u, bound);
      var (s', r) := Reserve(s, u);
      assert Counts(s', u) == Owed(r.stage);
    } else {
      LaterStepAdvances(s, u, l, bound);
      if l.At? { AdvanceKeeps(s, SubmitStep(s, u, l).0, u, bound); }
    }
  }

  /** It also keeps every other submission's copy of the stage behind the stored one. */
  lemma SubmitStepKeepsOthers(s: Store, u: int, l: Local, bound: int, v: int, m: Local)
    requires Consistent(s, bound) && Behind(s, u, l) && Behind(s, v, m)
    requires l.Start? ==> OnlyAbove(s, bound, u)
    ensures Behind(SubmitStep(s, u, l).0, v, m)
  {
    if l == Start {
      ReserveFrame(s, u, bound);
      ReserveKeeps(s, u, bound);
      var s' := Reserve(s, u).0;
      assert Counts(s', v) == Counts(s, v);
    } else {
      LaterStepAdvances(s, u, l, bound);
      if u == v && u in s.records {
        assert Counts(s, u) == Owed(s.records[u].stage);
      }
    }
  }

  /** No effect of any update is ever undone or repeated beyond one. */
  lemma AtMostOnce(s: Store, bound: int, u: int)
    requires Consistent(s, bound)
    ensures s.queued[u] <= s.counted[u] <= s.appended[u] <= 1
  {
    if u in s.records { assert Counts(s, u) == Owed(s.records[u].stage); }
  }

  /** A submission nobody interrupts finishes within five commands, whatever a crashed one left
      behind, and leaves exactly one of each effect. */
  lemma {:induction false} UninterruptedRun(s: Store, u: int, l: Local, bound: int)
    requires Consistent(s, bound) && Behind(s, u, l)
    requires l.Start? ==> OnlyAbove(s, bound, u)
    requires l.At? ==> u in s.records
    requires !l.Failed?
    ensures var (s', l') := SubmitRun(s, u, l, Remaining(l));
            l'.Done? && Consistent(s', bound) && Counts(s', u) == (1, 1, 1)
    decreases Remaining(l)
  {
    if Remaining(l) > 0 {
      SubmitStepKeeps(s, u, l, bound);
      var (s', l') := SubmitStep(s, u, l);
      if l == Start { ReserveKeeps(s, u, bound); }
      UninterruptedRun(s', u, l', bound);
      RunOfFinished(s', u, l', Remaining(l'), Remaining(l) - 1);
    }
  }

  function Remaining(l: Local): nat {
    match l
    case Start => 5
    case At(stage, _) => 4 - Rank(stage)
    case Done(_, _) => 0
    case Failed => 0
  }

  lemma {:induction false} RunOfFinished(s: Store, u: int, l: Local, n: nat, m: nat)
    requires n <= m && Finished(SubmitRun(s, u, l, n).1)
    ensures SubmitRun(s, u, l, m) == SubmitRun(s, u, l, n)
    decreases m
  {
    if n > 0 {
      var (s', l') := SubmitStep(s, u, l);
      RunOfFinished(s', u, l', n - 1, m - 1);
    } else if m > 0 {
      RunOfFinished(s, u, l, 0, m - 1);
    }
  }
}
