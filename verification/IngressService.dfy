/** The ingress scripts and loops, as the program runs them. */
module IngressService {
  // The scripts, the submission and the poll loop as the program runs them, against the store.  Each
  // store command is lost once the command budget is spent: this is a crash, or a connection that never
  // comes back.  Any budget is allowed, so a run may end between any two commands.

  import opened IngressStore
  import opened IngressProtocol

  /** The newest 200 entries of the list. */
  function Newest200(s: seq<Entry>): seq<Entry> { if |s| <= 200 then s else s[|s| - 200..] }

  class Valkey {
    var records: map<int, Record>
    var index: seq<int>
    var history: seq<Entry>
    var queries: nat
    var interactive: seq<Entry>
    var scheduled: seq<Entry>
    var inflight: seq<Entry>
    var offset: int
    var budget: nat
    ghost var appended: multiset<int>
    ghost var counted: multiset<int>
    ghost var queued: multiset<int>

    ghost function Abs(): Store
      reads this
    {
      Store(records, index, history, queries, interactive, scheduled, inflight, offset, appended, counted, queued)
    }

    method EvictComplete()
      modifies this`records, this`index
      ensures Abs() == Evict(old(Abs()))
      ensures |index| <= |old(index)| && index == old(index)[|old(index)| - |index|..]
      ensures |old(index)| <= 1000 ==> index == old(index) && records == old(records)
      ensures forall u <- old(records) :: u in records || old(records)[u].stage == Complete
      ensures forall u <- records :: u in old(records) && records[u] == old(records)[u]
    {
      ghost var entry := Abs();
      while |index| > INDEX_CAP
        invariant Evict(Abs()) == Evict(entry)
        invariant Abs() == entry.(records := records, index := index)
        invariant |index| <= |entry.index| && index == entry.index[|entry.index| - |index|..]
        invariant forall u <- entry.records :: u in records || entry.records[u].stage == Complete
        invariant forall u <- records :: u in entry.records && records[u] == entry.records[u]
        invariant |entry.index| <= 1000 ==> index == entry.index && records == entry.records
        decreases |index|
      {
        var oldest := index[0];
        if oldest !in records {
          index := index[1..];
        } else {
          if records[oldest].stage != Complete { break; }
          index := index[1..];
          records := records - {oldest};
        }
      }
    }

    method ReserveScript(u: int) returns (ok: bool, record: Record)
      modifies this
      ensures ok == (old(budget) > 0) && budget == old(budget) - (if ok then 1 else 0)
      ensures ok ==> Reserve(old(Abs()), u) == (Abs(), record)
      ensures ok && u in old(records) ==> record == old(records)[u] && records == old(records) && index == old(index)
      ensures ok && u !in old(records) ==>
                && record == Record(Reserved, 0) && u in records && records[u] == record
                && |index| <= |old(index)| + 1 && index == (old(index) + [u])[|old(index)| + 1 - |index|..]
                && (|old(index)| < 1000 ==> index == old(index) + [u])
      ensures !ok ==> Abs() == old(Abs())
    {
      record := Record(Reserved, 0);
      ok := budget > 0;
      if !ok { return; }
      budget := budget - 1;
      if u in records { return true, records[u]; }
      records := records[u := record];
      index := index + [u];
      EvictComplete();
    }

    method HistoryScript(u: int) returns (ok: bool, reply: Reply)
      modifies this
      ensures ok == (old(budget) > 0) && budget == old(budget) - (if ok then 1 else 0)
      ensures ok ==> AppendHistory(old(Abs()), u) == (Abs(), reply)
      ensures reply.Mutated? <==> ok && u in old(records) && old(records)[u].stage == Reserved
      ensures reply.Mutated? ==>
                && history == Newest200(old(history) + [FromUpdate(u)])
                && records == old(records)[u := old(records)[u].(stage := Message)]
      ensures !reply.Mutated? ==> history == old(history) && records == old(records)
      ensures !ok ==> Abs() == old(Abs())
    {
      reply := ErrorReply;
      ok := budget > 0;
      if !ok { return; }
      budget := budget - 1;
      if u !in records { return; }
      if records[u].stage != Reserved { return true, Unchanged(0); }
      history := KeepLast(history + [FromUpdate(u)], HISTORY_CAP);
      appended := appended + multiset{u};
      records := records[u := records[u].(stage := Message)];
      reply := Mutated(0);
    }

    method StatsScript(u: int) returns (ok: bool, reply: Reply)
      modifies this
      ensures ok == (old(budget) > 0) && budget == old(budget) - (if ok then 1 else 0)
      ensures ok ==> CountQuery(old(Abs()), u) == (Abs(), reply)
      ensures reply.Mutated? <==> ok && u in old(records) && old(records)[u].stage == Message
      ensures reply.Mutated? ==>
                queries == old(queries) + 1 && records == old(records)[u := old(records)[u].(stage := Stats)]
      ensures !reply.Mutated? ==> queries == old(queries) && records == old(records)
      ensures !ok ==> Abs() == old(Abs())
    {
      reply := ErrorReply;
      ok := budget > 0;
      if !ok { return; }
      budget := budget - 1;
      if u !in records { return; }
      if records[u].stage != Message { return true, Unchanged(0); }
      queries := queries + 1;
      counted := counted + multiset{u};
      records := records[u := records[u].(stage := Stats)];
      reply := Mutated(0);
    }

    method EnqueueScript(u: int) returns (ok: bool, reply: Reply)
      modifies this
      ensures ok == (old(budget) > 0) && budget == old(budget) - (if ok then 1 else 0)
      ensures ok ==> EnqueueJob(old(Abs()), u) == (Abs(), reply)
      ensures reply.Mutated? <==> ok && u in old(records) && old(records)[u].stage == Stats
      ensures reply.Mutated? ==>
                && reply.ahead == |old(interactive)| + |old(scheduled)| + (if old(inflight) == [] then 0 else 1)
                && interactive == old(interactive) + [FromUpdate(u)]
                && records == old(records)[u := Record(Job, reply.ahead)]
      ensures reply.Unchanged? <==> ok && u in old(records) && old(records)[u].stage in {Job, Complete}
      ensures reply.Unchanged? ==> reply.ahead == old(records)[u].ahead
      ensures !reply.Mutated? ==> interactive == old(interactive) && records == old(records)
      ensures !ok ==> Abs() == old(Abs())
    {
      reply := ErrorReply;
      ok := budget > 0;
      if !ok { return; }
      budget := budget - 1;
      if u !in records { return; }
      var stage := records[u].stage;
      if stage != Stats {
        if stage == Job || stage == Complete { reply := Unchanged(records[u].ahead); }
        return;
      }
      var ahead := |interactive| + |scheduled|;
      if inflight != [] { ahead := ahead + 1; }
      interactive := interactive + [FromUpdate(u)];
      queued := queued + multiset{u};
      records := records[u := Record(Job, ahead)];
      reply := Mutated(ahead);
    }

    method SetComplete(u: int, ahead: nat) returns (ok: bool)
      modifies this
      ensures ok == (old(budget) > 0) && budget == old(budget) - (if ok then 1 else 0)
      ensures Abs() == if ok then MarkComplete(old(Abs()), u, ahead) else old(Abs())
      ensures records == if ok then old(records)[u := Record(Complete, ahead)] else old(records)
    {
      ok := budget > 0;
      if ok {
        budget := budget - 1;
        records := records[u := Record(Complete, ahead)];
      }
    }

    method SetOffset(candidate: int) returns (ok: bool)
      modifies this
      ensures ok == (old(budget) > 0) && budget == old(budget) - (if ok then 1 else 0)
      ensures Abs() == if ok then old(Abs()).(offset := candidate) else old(Abs())
    {
      ok := budget > 0;
      if ok {
        budget := budget - 1;
        offset := candidate;
      }
    }
  }

  datatype SubmitResult = Submitted(ahead: nat, duplicate: bool) | Invalid | Lost

  lemma {:induction false} RunAppend(s: Store, u: int, l: Local, n: nat)
    ensures var (s', l') := SubmitRun(s, u, l, n);
            SubmitRun(s, u, l, n + 1) == SubmitStep(s', u, l')
    decreases n
  {
    if n > 0 {
      var (s', l') := SubmitStep(s, u, l);
      RunAppend(s', u, l', n - 1);
    }
  }

  /** The store and the submission's own copy are what `n` commands make of them. */
  ghost predicate AfterCommands(entry: Store, u: int, n: nat, now: Store, l: Local) {
    SubmitRun(entry, u, Start, n) == (now, l)
  }

  lemma AfterNone(entry: Store, u: int)
    ensures AfterCommands(entry, u, 0, entry, Start)
  {
  }

  lemma ReserveCommand(entry: Store, u: int, now: Store, record: Record)
    requires Reserve(entry, u) == (now, record)
    ensures AfterCommands(entry, u, 1, now,
              if record.stage == Complete then Done(record.ahead, true) else At(record.stage, record.ahead))
  {
    RunAppend(entry, u, Start, 0);
  }

  lemma HistoryCommand(entry: Store, u: int, n: nat, before: Store, ahead: nat, now: Store, reply: Reply)
    requires AfterCommands(entry, u, n, before, At(Reserved, ahead)) && AppendHistory(before, u) == (now, reply)
    ensures AfterCommands(entry, u, n + 1, now, if reply == ErrorReply then Failed else At(Message, ahead))
  {
    RunAppend(entry, u, Start, n);
  }

  lemma StatsCommand(entry: Store, u: int, n: nat, before: Store, ahead: nat, now: Store, reply: Reply)
    requires AfterCommands(entry, u, n, before, At(Message, ahead)) && CountQuery(before, u) == (now, reply)
    ensures AfterCommands(entry, u, n + 1, now, if reply == ErrorReply then Failed else At(Stats, ahead))
  {
    RunAppend(entry, u, Start, n);
  }

  lemma EnqueueCommand(entry: Store, u: int, n: nat, before: Store, ahead: nat, now: Store, reply: Reply)
    requires AfterCommands(entry, u, n, before, At(Stats, ahead)) && EnqueueJob(before, u) == (now, reply)
    ensures AfterCommands(entry, u, n + 1, now, if reply == ErrorReply then Failed else At(Job, reply.ahead))
  {
    RunAppend(entry, u, Start, n);
  }

  lemma CompleteCommand(entry: Store, u: int, n: nat, before: Store, ahead: nat)
    requires AfterCommands(entry, u, n, before, At(Job, ahead))
    ensures AfterCommands(entry, u, n + 1, MarkComplete(before, u, ahead), Done(ahead, false))
  {
    RunAppend(entry, u, Start, n);
  }

  /** The result a submission in this local state reports; `Lost` when it was cut short. */
  predicate Reports(result: SubmitResult, l: Local) {
    match l
    case Done(ahead, duplicate) => result == Submitted(ahead, duplicate)
    case Failed => result == Invalid
    case _ => result == Lost
  }

  /** `submitTelegram`: performs a prefix of the commands of one submission, all of them unless a
      command is lost or the record turns out to be gone. */
  method SubmitTelegram(valkey: Valkey, u: int) returns (result: SubmitResult, ghost l: Local)
    modifies valkey
    ensures valkey.budget <= old(valkey.budget) <= valkey.budget + 5
    ensures AfterCommands(old(valkey.Abs()), u, old(valkey.budget) - valkey.budget, valkey.Abs(), l)
    ensures Reports(result, l) && (result.Lost? ==> valkey.budget == 0)
    ensures result.Submitted? ==> u in valkey.records && valkey.records[u] == Record(Complete, result.ahead)
    ensures result.Submitted? ==>
              (result.duplicate <==> u in old(valkey.records) && old(valkey.records)[u].stage == Complete)
  {
    hide AfterCommands, SubmitRun, SubmitStep, Reserve, AppendHistory, CountQuery, EnqueueJob, MarkComplete, Valkey.Abs;
    ghost var entry, n := valkey.Abs(), 0;
    AfterNone(entry, u);
    ghost var before := entry;
    l := Start;
    var ok, record := valkey.ReserveScript(u);
    if !ok { return Lost, l; }
    ReserveCommand(entry, u, valkey.Abs(), record);
    n := 1;
    if record.stage == Complete { return Submitted(record.ahead, true), Done(record.ahead, true); }
    var stage, ahead := record.stage, record.ahead;
    l := At(stage, ahead);
    if stage == Reserved {
      before := valkey.Abs();
      var ok, reply := valkey.HistoryScript(u);
      if !ok { return Lost, l; }
      HistoryCommand(entry, u, n, before, ahead, valkey.Abs(), reply);
      if reply == ErrorReply { return Invalid, Failed; }
      stage, n, l := Message, n + 1, At(Message, ahead);
    }
    if stage == Message {
      before := valkey.Abs();
      var ok, reply := valkey.StatsScript(u);
      if !ok { return Lost, l; }
      StatsCommand(entry, u, n, before, ahead, valkey.Abs(), reply);
      if reply == ErrorReply { return Invalid, Failed; }
      stage, n, l := Stats, n + 1, At(Stats, ahead);
    }
    if stage == Stats {
      before := valkey.Abs();
      var ok, reply := valkey.EnqueueScript(u);
      if !ok { return Lost, l; }
      EnqueueCommand(entry, u, n, before, ahead, valkey.Abs(), reply);
      if reply == ErrorReply { return Invalid, Failed; }
      stage, ahead, n, l := Job, reply.ahead, n + 1, At(Job, reply.ahead);
    }
    before := valkey.Abs();
    ok := valkey.SetComplete(u, ahead);
    if !ok { return Lost, l; }
    CompleteCommand(entry, u, n, before, ahead);
    return Submitted(ahead, false), Done(ahead, false);
  }

  // ---- The poll loop is a run of the protocol ----

  ghost predicate Reaches(s: State, t: State) {
    exists steps :: Runs(s, steps, t)
  }

  lemma {:induction false} RunsConcat(s: State, a: seq<Step>, m: State, b: seq<Step>, t: State)
    requires Runs(s, a, m) && Runs(m, b, t)
    ensures Runs(s, a + b, t)
    decreases |a|
  {
    if a == [] {
      assert a + b == b;
    } else {
      assert (a + b)[1..] == a[1..] + b;
      RunsConcat(Apply(s, a[0]), a[1..], m, b, t);
    }
  }

  lemma ReachesTransitive(s: State, m: State, t: State)
    requires Reaches(s, m) && Reaches(m, t)
    ensures Reaches(s, t)
  {
    var a :| Runs(s, a, m);
    var b :| Runs(m, b, t);
    RunsConcat(s, a, m, b, t);
  }

  lemma ReachesSelf(s: State)
    ensures Reaches(s, s)
  {
    assert Runs(s, [], s);
  }

  lemma ReachesStep(s: State, m: State, step: Step)
    requires Reaches(s, m) && Enabled(m, step)
    ensures Reaches(s, Apply(m, step))
  {
    var t := Apply(m, step);
    assert Runs(t, [step][1..], t);
    assert Runs(m, [step], t);
    ReachesTransitive(s, m, t);
  }

  lemma {:induction false} CommandsReach(s: State, u: int, l: Local, n: nat)
    requires s.submissions == map[0 := Submission(u, l)] && !l.Start?
    ensures var (store', l') := SubmitRun(s.store, u, l, n);
            Reaches(s, s.(store := store', submissions := map[0 := Submission(u, l')]))
    decreases n
  {
    if n == 0 {
      ReachesSelf(s);
    } else {
      var (store1, l1) := SubmitStep(s.store, u, l);
      ReachesSelf(s);
      ReachesStep(s, s, Command(0));
      var s1 := Apply(s, Command(0));
      assert s1.submissions == map[0 := Submission(u, l1)];
      CommandsReach(s1, u, l1, n - 1);
      var (store', l') := SubmitRun(s.store, u, l, n);
      ReachesTransitive(s, s1, s.(store := store', submissions := map[0 := Submission(u, l')]));
    }
  }

  /** A submission with `n` commands, accepted if it finished and then dropped. */
  lemma SubmissionReaches(s: State, n: nat)
    requires s.phase.Processing? && s.submissions == map[]
    ensures var (store', l) := SubmitRun(s.store, s.phase.u, Start, n);
            && Reaches(s, s.(store := store', phase := Idle))
            && (l.Done? ==> Reaches(s, s.(store := store', phase := Processed(s.phase.u, s.phase.rest, true))))
  {
    ReachesSelf(s);
    if n == 0 {
      ReachesStep(s, s, GiveUp);
    } else {
      var u := s.phase.u;
      var (store', l) := SubmitRun(s.store, u, Start, n);
      var (store1, l1) := SubmitStep(s.store, u, Start);
      ReachesStep(s, s, Submit(0));
      var s1 := Apply(s, Submit(0));
      assert s1.submissions == map[0 := Submission(u, l1)];
      CommandsReach(s1, u, l1, n - 1);
      var s2 := s1.(store := store', submissions := map[0 := Submission(u, l)]);
      ReachesTransitive(s, s1, s2);
      ReachesStep(s, s2, Abandon(0));
      var s3 := Apply(s2, Abandon(0));
      assert s3.submissions == map[];
      ReachesStep(s, s3, GiveUp);
      if l.Done? {
        ReachesStep(s, s2, Accept(0));
        var s4 := Apply(s2, Accept(0));
        ReachesStep(s, s4, Abandon(0));
        assert Apply(s4, Abandon(0)).submissions == map[];
      }
    }
  }

  /** An update as `process` classifies it: submitted, or given some other outcome. */
  datatype Update = Update(id: int, submits: bool)

  function Ids(updates: seq<Update>): (r: seq<int>)
    ensures |r| == |updates| && forall i | 0 <= i < |r| :: r[i] == updates[i].id
  {
    seq(|updates|, i requires 0 <= i < |updates| => updates[i].id)
  }

  class Poller {
    const valkey: Valkey
    var next: int
    ghost var available: set<int>
    ghost var accepted: set<int>
    ghost var ignored: set<int>

    constructor (valkey: Valkey)
      ensures this.valkey == valkey && next == valkey.offset && available == {}
    {
      this.valkey := valkey;
      next := valkey.offset;
      available, accepted, ignored := {}, {}, {};
    }

    ghost function Now(phase: Phase): State
      reads this, valkey
    {
      State(valkey.Abs(), next, phase, map[], available, accepted, ignored)
    }

    /** The token, the context and the generation may turn stale at any moment. */
    method GenerationCurrent() returns (current: bool)
    {
      current := *;
    }

    /** Appending the event of an update to the log may fail, whatever became of the update. */
    method AppendEvent() returns (ok: bool)
    {
      ok := *;
    }

    /** `process`: submits the update, or gives it another outcome without touching the records; then
        its event is logged, and if that fails the update is not passed even if it was accepted. */
    method Process(update: Update, ghost rest: seq<int>) returns (ok: bool)
      modifies valkey
      ensures unchanged(this)
      ensures Reaches(old(Now(Processing(update.id, rest))),
                      Now(if ok then Processed(update.id, rest, update.submits) else Idle))
    {
      ghost var begun := Now(Processing(update.id, rest));
      ReachesSelf(begun);
      if update.submits {
        ghost var n := valkey.budget;
        var result, l := SubmitTelegram(valkey, update.id);
        SubmissionReaches(begun, n - valkey.budget);
        if !result.Submitted? { return false; }
      } else {
        ReachesStep(begun, begun, Ignore);
        ReachesStep(begun, begun, GiveUp);
      }
      ok := AppendEvent();
    }

    /** Saves the offset and then publishes it, unless the store or the generation is lost. */
    method Save(update: Update, ghost rest: seq<int>) returns (ok: bool)
      modifies this, valkey
      ensures available == old(available) && old(accepted) <= accepted && old(ignored) <= ignored
      ensures Reaches(old(Now(Processed(update.id, rest, update.submits))), Now(if ok then Batch(rest) else Idle))
      ensures ok ==> next == valkey.offset == update.id + 1
      ensures ok ==> update.id in (if update.submits then accepted else ignored)
    {
      hide Reaches, Runs;
      var u := update.id;
      ghost var processed := Now(Processed(u, rest, update.submits));
      ReachesSelf(processed);
      ReachesStep(processed, processed, GiveUp);
      var current := GenerationCurrent();
      if !current { return false; }
      ok := valkey.SetOffset(u + 1);
      if !ok { return; }
      if update.submits { accepted := accepted + {u}; } else { ignored := ignored + {u}; }
      ghost var saved := Now(Saved(u, rest));
      ReachesStep(processed, processed, SaveOffset);
      assert saved == Apply(processed, SaveOffset);
      ReachesStep(processed, saved, GiveUp);
      current := GenerationCurrent();
      if !current { return false; }
      next := u + 1;
      ReachesStep(processed, saved, Publish);
    }

    /** The body of the poll loop for one response.  Whatever is lost and wherever the generation
        ends, the effect is a run of the protocol, and a complete pass leaves the offset just past
        the last update. */
    method ProcessBatch(updates: seq<Update>) returns (done: bool)
      requires PrefixFrom(Ids(updates), available, next)
      modifies this, valkey
      ensures available == old(available)
      ensures Reaches(old(Now(Idle)), Now(Idle))
      ensures done && updates != [] ==> next == valkey.offset == updates[|updates| - 1].id + 1
      ensures done ==> forall i | 0 <= i < |updates| ::
                         updates[i].id in (if updates[i].submits then accepted else ignored)
    {
      hide Reaches, Runs, Valkey.Abs, PrefixFrom, Ids;
      ghost var entry := Now(Idle);
      ReachesSelf(entry);
      ReachesStep(entry, entry, Poll(Ids(updates)));
      var i := 0;
      assert updates[0..] == updates;
      while i < |updates|
        invariant 0 <= i <= |updates|
        invariant available == entry.available
        invariant Reaches(entry, Now(Batch(Ids(updates[i..]))))
        invariant i > 0 ==> next == valkey.offset == updates[i - 1].id + 1
        invariant forall j | 0 <= j < i :: updates[j].id in (if updates[j].submits then accepted else ignored)
        decreases |updates| - i
      {
        ghost var rest := Ids(updates[i + 1..]);
        ghost var batch, begun := Now(Batch(Ids(updates[i..]))), Now(Processing(updates[i].id, rest));
        assert Ids(updates[i..])[1..] == rest;
        assert Apply(batch, Begin) == begun;
        ReachesStep(entry, batch, Begin);
        var ok := Process(updates[i], rest);
        ghost var processed := Now(if ok then Processed(updates[i].id, rest, updates[i].submits) else Idle);
        ReachesTransitive(entry, begun, processed);
        if !ok { return false; }
        ok := Save(updates[i], rest);
        ReachesTransitive(entry, processed, Now(if ok then Batch(rest) else Idle));
        if !ok { return false; }
        i := i + 1;
      }
      ReachesStep(entry, Now(Batch(Ids(updates[i..]))), GiveUp);
      return true;
    }
  }

  // ---- The in-memory copy of the history ----

  class History {
    var messages: seq<Entry>

    ghost predicate Valid()
      reads this
    {
      |messages| <= HISTORY_CAP && forall i, j | 0 <= i < j < |messages| :: messages[i] == messages[j] ==> messages[i] == Foreign
    }

    /** `ensureMessageMemory`: afterwards the message is there exactly once, however often a
        redelivered update asks for it, and only the oldest entry may have made room. */
    method EnsureMessage(u: int) returns (added: bool)
      requires Valid()
      modifies this
      ensures Valid() && FromUpdate(u) in messages
      ensures added <==> FromUpdate(u) !in old(messages)
      ensures !added ==> messages == old(messages)
      ensures added ==> messages == (if |old(messages)| == HISTORY_CAP then old(messages)[1..] else old(messages)) + [FromUpdate(u)]
    {
      var i := 0;
      while i < |messages|
        invariant 0 <= i <= |messages|
        invariant FromUpdate(u) !in messages[..i]
      {
        if messages[i] == FromUpdate(u) { return false; }
        i := i + 1;
      }
      assert messages[..|messages|] == messages;
      messages := messages + [FromUpdate(u)];
      if |messages| > HISTORY_CAP {
        messages := messages[|messages| - HISTORY_CAP..];
      }
      assert messages[|messages| - 1] == FromUpdate(u);
      return true;
    }
  }
}
