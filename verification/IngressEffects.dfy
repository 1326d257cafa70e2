/** What is written. */
module IngressEffects {
  // Each effect that is counted is a write to a stored list, and each write is counted: the record of
  // an update moves on exactly when its entry is written, and nothing else the poller does writes one.

  import opened IngressStore
  import opened IngressProtocol

  /** The list with one more entry, cut to the last 200. */
  function Pushed(history: seq<Entry>, u: int): seq<Entry> {
    var all := history + [FromUpdate(u)];
    if |all| <= 200 then all else all[|all| - 200..]
  }

  /** The record of the update moves from one stage to another. */
  predicate Moves(a: Store, b: Store, u: int, from: Stage, to: Stage) {
    u in a.records && u in b.records && a.records[u].stage == from && b.records[u].stage == to
  }

  predicate Moved(a: Store, b: Store, from: Stage, to: Stage) {
    exists u | u in a.records :: Moves(a, b, u, from, to)
  }

  /** The three lists and the three counts from one store to the next: each is as it was, unless the
      record of an update moves on, and then the entry of that update is written and counted. */
  ghost predicate Written(a: Store, b: Store) {
    && (forall u | Moves(a, b, u, Reserved, Message) ::
          b.history == Pushed(a.history, u) && b.appended == a.appended + multiset{u})
    && (!Moved(a, b, Reserved, Message) ==> b.history == a.history && b.appended == a.appended)
    && (forall u | Moves(a, b, u, Message, Stats) ::
          b.queries == a.queries + 1 && b.counted == a.counted + multiset{u})
    && (!Moved(a, b, Message, Stats) ==> b.queries == a.queries && b.counted == a.counted)
    && (forall u | Moves(a, b, u, Stats, Job) ::
          b.interactive == a.interactive + [FromUpdate(u)] && b.queued == a.queued + multiset{u})
    && (!Moved(a, b, Stats, Job) ==> b.interactive == a.interactive && b.queued == a.queued)
    && b.scheduled == a.scheduled && b.inflight == a.inflight
  }

  lemma Unmoved(s: Store, t: Store)
    requires forall u | u in s.records && u in t.records :: s.records[u].stage == t.records[u].stage
    requires t == s.(records := t.records, index := t.index, offset := t.offset)
    ensures Written(s, t)
  {
  }

  /** One command of a submission. */
  lemma CommandWrites(s: Store, u: int, l: Local)
    requires l.At? ==> u in s.records ==> Rank(l.stage) <= Rank(s.records[u].stage)
    ensures Written(s, SubmitStep(s, u, l).0)
  {
    var t := SubmitStep(s, u, l).0;
    if l.Start? {
      if u !in s.records { EvictEffect(Indexed(s, u)); }
      Unmoved(s, t);
    } else if l.At? && l.stage in {Reserved, Message, Stats} && u in s.records && s.records[u].stage == l.stage {
      assert Moves(s, t, u, l.stage, t.records[u].stage);
    }
  }

  /** Every step of the poller, its submissions and its crashes; only other work writes otherwise, and
      it counts nothing. */
  lemma StepWrites(s: State, step: Step)
    requires Inv(s) && Enabled(s, step)
    ensures !step.Others? ==> Written(s.store, Apply(s, step).store)
    ensures step.Others? ==>
              var a, b := s.store, Apply(s, step).store;
              b.appended == a.appended && b.counted == a.counted && b.queued == a.queued && b.records == a.records
  {
    hide SubmitStep, Written, Consistent, KnownBelow, OffsetSound, PhaseSound, OutcomesSound;
    match step
    case Submit(_) => CommandWrites(s.store, s.phase.u, Start);
    case Command(sid) => CommandWrites(s.store, s.submissions[sid].u, s.submissions[sid].local);
    case Others(_, _, _, _, _) =>
    case _ => Unmoved(s.store, Apply(s, step).store);
  }

  /** How often the record of the update makes this move, and its entry is written, in the run. */
  ghost function Writes(s: State, steps: seq<Step>, u: int, from: Stage, to: Stage): nat
    decreases |steps|
  {
    if steps == [] || !Enabled(s, steps[0]) then 0
    else
      var t := Apply(s, steps[0]);
      (if Moves(s.store, t.store, u, from, to) then 1 else 0) + Writes(t, steps[1..], u, from, to)
  }

  lemma StepCounts(s: State, step: Step, u: int)
    requires Inv(s) && Enabled(s, step)
    ensures var a, b := s.store, Apply(s, step).store;
            && b.appended[u] == a.appended[u] + (if Moves(a, b, u, Reserved, Message) then 1 else 0)
            && b.counted[u] == a.counted[u] + (if Moves(a, b, u, Message, Stats) then 1 else 0)
            && b.queued[u] == a.queued[u] + (if Moves(a, b, u, Stats, Job) then 1 else 0)
  {
    StepWrites(s, step);
    hide Inv, Apply;
    var a, b := s.store, Apply(s, step).store;
    if !step.Others? {
      if v :| v in a.records && Moves(a, b, v, Reserved, Message) {}
      if v :| v in a.records && Moves(a, b, v, Message, Stats) {}
      if v :| v in a.records && Moves(a, b, v, Stats, Job) {}
    }
  }

  lemma {:induction false} RunCounts(s: State, steps: seq<Step>, t: State, u: int)
    requires Inv(s) && Runs(s, steps, t)
    ensures t.store.appended[u] == s.store.appended[u] + Writes(s, steps, u, Reserved, Message)
    ensures t.store.counted[u] == s.store.counted[u] + Writes(s, steps, u, Message, Stats)
    ensures t.store.queued[u] == s.store.queued[u] + Writes(s, steps, u, Stats, Job)
    decreases |steps|
  {
    hide Inv, Apply, Moves;
    if steps != [] {
      StepKeepsInv(s, steps[0]);
      StepCounts(s, steps[0], u);
      RunCounts(Apply(s, steps[0]), steps[1..], t, u);
    }
  }

  /** In every run each update is written to the history, counted as a query and written to the job
      list at most once each, and an accepted one exactly once each. */
  lemma WrittenOnce(steps: seq<Step>, t: State, u: int)
    requires Runs(Init, steps, t)
    ensures Writes(Init, steps, u, Stats, Job) <= Writes(Init, steps, u, Message, Stats)
            <= Writes(Init, steps, u, Reserved, Message) <= 1
    ensures u in t.accepted ==>
              Writes(Init, steps, u, Reserved, Message) == Writes(Init, steps, u, Message, Stats)
              == Writes(Init, steps, u, Stats, Job) == 1
  {
    assert Inv(Init);
    RunCounts(Init, steps, t, u);
    ExactlyOnce(steps, t);
  }
}
