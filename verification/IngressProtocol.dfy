/** Runs of the poller. */
module IngressProtocol {
  // The poller, the submissions it starts, and every way they can be cut short.  A run is a sequence
  // of steps.  Between any two store commands the process may crash, a generation may be cancelled,
  // a submission may be abandoned, and other work may write to the shared lists.  Abandoned
  // submissions of earlier attempts may still issue commands later.

  import opened IngressStore

  datatype Phase =
    | Idle                                                  // about to ask for updates
    | Batch(updates: seq<int>)                              // sorted updates still to process
    | Processing(u: int, rest: seq<int>)
    | Processed(u: int, rest: seq<int>, accepted: bool)     // about to save the offset
    | Saved(u: int, rest: seq<int>)                         // offset stored, not yet in the status

  datatype Submission = Submission(u: int, local: Local)

  datatype State = State(
    store: Store,
    next: int,                            // the offset the poller will ask for
    phase: Phase,
    submissions: map<nat, Submission>,
    available: set<int>,                  // every update the server has ever held
    accepted: set<int>,                   // updates the offset passed after a successful submission
    ignored: set<int>)                    // updates the offset passed with any other outcome

  const Init := State(EmptyStore, 0, Idle, map[], {}, {}, {})

  datatype Step =
    | Arrive(u: int)
    | Poll(updates: seq<int>)
    | Begin
    | Submit(sid: nat)
    | Command(sid: nat)
    | Abandon(sid: nat)
    | Accept(sid: nat)
    | Ignore
    | SaveOffset
    | Publish
    | GiveUp
    | Crash
    | Others(history: seq<Entry>, queries: nat, interactive: seq<Entry>, scheduled: seq<Entry>, inflight: seq<Entry>)

  predicate Increasing(s: seq<int>) {
    forall i, j | 0 <= i < j < |s| :: s[i] < s[j]
  }

  /** `updates` is a prefix of the sorted available updates at or above `next`. */
  ghost predicate PrefixFrom(updates: seq<int>, available: set<int>, next: int) {
    && Increasing(updates)
    && (forall x <- updates :: x in available && x >= next)
    && (forall x, a | x in updates && a in available && next <= a <= x :: a in updates)
  }

  ghost predicate Enabled(s: State, step: Step) {
    match step
    case Arrive(u) => u > 0 && forall a <- s.available :: a < u
    case Poll(updates) => s.phase.Idle? && PrefixFrom(updates, s.available, s.next)
    case Begin => s.phase.Batch?
    case Submit(sid) => s.phase.Processing? && sid !in s.submissions
    case Command(sid) => sid in s.submissions && !s.submissions[sid].local.Start?
    case Abandon(sid) => sid in s.submissions
    case Accept(sid) =>
      s.phase.Processing? && sid in s.submissions && s.submissions[sid].u == s.phase.u && s.submissions[sid].local.Done?
    case Ignore => s.phase.Processing?
    case SaveOffset => s.phase.Processed?
    case Publish => s.phase.Saved?
    case GiveUp => true
    case Crash => true
    case Others(_, _, _, _, _) => true
  }

  ghost function Apply(s: State, step: Step): State
    requires Enabled(s, step)
  {
    match step
    case Arrive(u) => s.(available := s.available + {u})
    case Poll(updates) => s.(phase := Batch(updates))
    case Begin =>
      if s.phase.updates == [] then s.(phase := Idle)
      else s.(phase := Processing(s.phase.updates[0], s.phase.updates[1..]))
    case Submit(sid) =>
      var (store', l) := SubmitStep(s.store, s.phase.u, Start);
      s.(store := store', submissions := s.submissions[sid := Submission(s.phase.u, l)])
    case Command(sid) =>
      var sub := s.submissions[sid];
      var (store', l) := SubmitStep(s.store, sub.u, sub.local);
      s.(store := store', submissions := s.submissions[sid := Submission(sub.u, l)])
    case Abandon(sid) => s.(submissions := s.submissions - {sid})
    case Accept(sid) => s.(phase := Processed(s.phase.u, s.phase.rest, true))
    case Ignore => s.(phase := Processed(s.phase.u, s.phase.rest, false))
    case SaveOffset =>
      var u := s.phase.u;
      s.(store := s.store.(offset := u + 1), phase := Saved(u, s.phase.rest),
         accepted := if s.phase.accepted then s.accepted + {u} else s.accepted,
         ignored := if s.phase.accepted then s.ignored else s.ignored + {u})
    case Publish => s.(next := s.phase.u + 1, phase := Batch(s.phase.rest))
    case GiveUp => s.(phase := Idle)
    case Crash => s.(next := s.store.offset, phase := Idle)
    case Others(h, q, i, sch, inf) =>
      s.(store := s.store.(history := h, queries := q, interactive := i, scheduled := sch, inflight := inf))
  }

  /** A run: each step is enabled where it is taken. */
  ghost predicate Runs(s: State, steps: seq<Step>, t: State)
    decreases |steps|
  {
    if steps == [] then s == t
    else Enabled(s, steps[0]) && Runs(Apply(s, steps[0]), steps[1..], t)
  }

  // ---- The invariant ----

  ghost predicate IsFirst(available: set<int>, next: int, u: int) {
    u in available && u >= next && forall a <- available :: a >= next ==> u <= a
  }

  ghost predicate KnownBelow(s: State) {
    forall v | Known(s.store, v) :: v < s.next || IsFirst(s.available, s.next, v)
  }

  /** The stored offset is the poller's own, or one update ahead of it: a generation can end
      between saving the offset and publishing it to the status the next generation polls from. */
  ghost predicate OffsetSound(s: State) {
    && (s.store.offset == s.next || IsFirst(s.available, s.next, s.store.offset - 1))
    && (s.next == 0 || s.next - 1 in s.available)
    && (s.store.offset == 0 || s.store.offset - 1 in s.available)
    && 0 <= s.next
  }

  ghost predicate SubmissionsBehind(s: State) {
    forall sid <- s.submissions ::
      !s.submissions[sid].local.Start? && Behind(s.store, s.submissions[sid].u, s.submissions[sid].local)
  }

  function Remainder(phase: Phase): seq<int> {
    match phase
    case Idle => []
    case Batch(updates) => updates
    case Processing(u, rest) => [u] + rest
    case Processed(u, rest, _) => [u] + rest
    case Saved(u, rest) => [u] + rest
  }

  ghost predicate PhaseSound(s: State) {
    && PrefixFrom(Remainder(s.phase), s.available, s.next)
    && (s.phase.Processed? && s.phase.accepted ==> Counts(s.store, s.phase.u) == (1, 1, 1))
    && (s.phase.Saved? ==> s.store.offset == s.phase.u + 1)
  }

  /** Every update below the stored offset was handled, and every accepted one had each effect once. */
  ghost predicate OutcomesSound(s: State) {
    && (forall u <- s.accepted :: Counts(s.store, u) == (1, 1, 1) && u < s.store.offset)
    && (forall a <- s.available :: a < s.store.offset ==> a in s.accepted || a in s.ignored)
  }

  ghost predicate Inv(s: State) {
    && Consistent(s.store, s.next)
    && KnownBelow(s) && OffsetSound(s) && SubmissionsBehind(s) && PhaseSound(s) && OutcomesSound(s)
  }

  lemma HeadIsFirst(u: int, rest: seq<int>, available: set<int>, next: int)
    requires PrefixFrom([u] + rest, available, next)
    ensures IsFirst(available, next, u)
    ensures PrefixFrom(rest, available, u + 1)
  {
    var list := [u] + rest;
    assert u == list[0];
    forall x | x in rest ensures u < x && x in list {
      var i :| 0 <= i < |rest| && rest[i] == x;
      assert list[i + 1] == x;
    }
    forall a | a in available && a >= next ensures u <= a {
      assert u in list;
      assert a < u ==> a in list;
    }
    forall i, j | 0 <= i < j < |rest| ensures rest[i] < rest[j] {
      assert list[i + 1] == rest[i] && list[j + 1] == rest[j];
    }
  }

  /** A store command keeps every part of the invariant that looks at the store. */
  lemma CommandKeeps(s: State, u: int, l: Local)
    requires Inv(s) && Behind(s.store, u, l)
    requires l.Start? ==> s.phase.Processing? && s.phase.u == u
    ensures var (store', l') := SubmitStep(s.store, u, l);
            Inv(s.(store := store')) && Behind(store', u, l')
    ensures !SubmitStep(s.store, u, l).1.Start?
    ensures SubmitStep(s.store, u, l).0.offset == s.store.offset
  {
    if l.Start? {
      HeadIsFirst(u, s.phase.rest, s.available, s.next);
    }
    SubmitStepKeeps(s.store, u, l, s.next);
    var store' := SubmitStep(s.store, u, l).0;
    var t := s.(store := store');
    forall sid | sid in s.submissions ensures Behind(store', s.submissions[sid].u, s.submissions[sid].local) {
      SubmitStepKeepsOthers(s.store, u, l, s.next, s.submissions[sid].u, s.submissions[sid].local);
    }
    forall v | Counts(s.store, v) == (1, 1, 1) ensures Counts(store', v) == (1, 1, 1) {
      SubmitStepKeepsOthers(s.store, u, l, s.next, v, Done(0, true));
    }
    forall v | Known(store', v) ensures v < s.next || IsFirst(s.available, s.next, v) {
      assert Known(s.store, v) || v == u;
    }
  }

  lemma StepKeepsInv(s: State, step: Step)
    requires Inv(s) && Enabled(s, step)
    ensures Inv(Apply(s, step))
  {
    var t := Apply(s, step);
    match step
    case Arrive(u) => ArriveKeeps(s, u);
    case Poll(updates) =>
    case Begin =>
      if s.phase.updates != [] { assert [s.phase.updates[0]] + s.phase.updates[1..] == s.phase.updates; }
    case Submit(sid) => CommandKeeps(s, s.phase.u, Start);
    case Command(sid) => CommandKeeps(s, s.submissions[sid].u, s.submissions[sid].local);
    case Abandon(sid) =>
    case Accept(sid) =>
    case Ignore =>
    case SaveOffset => SaveKeeps(s);
    case Publish => PublishKeeps(s);
    case GiveUp =>
    case Crash => CrashKeeps(s);
    case Others(h, q, i, sch, inf) => OthersKeep(s, h, q, i, sch, inf);
  }

  lemma ArriveKeeps(s: State, u: int)
    requires Inv(s) && Enabled(s, Arrive(u))
    ensures Inv(Apply(s, Arrive(u)))
  {
    var t := Apply(s, Arrive(u));
    forall v | IsFirst(s.available, s.next, v) ensures IsFirst(t.available, t.next, v) {}
  }

  lemma SaveKeeps(s: State)
    requires Inv(s) && Enabled(s, SaveOffset)
    ensures Inv(Apply(s, SaveOffset))
    ensures s.store.offset <= s.phase.u + 1
  {
    var u := s.phase.u;
    HeadIsFirst(u, s.phase.rest, s.available, s.next);
    var t := Apply(s, SaveOffset);
    forall sid | sid in t.submissions ensures Behind(t.store, t.submissions[sid].u, t.submissions[sid].local) {
      assert Behind(s.store, s.submissions[sid].u, s.submissions[sid].local);
    }
    forall v | Known(t.store, v) ensures v < t.next || IsFirst(t.available, t.next, v) {
      assert Known(s.store, v);
    }
    assert forall v :: Counts(t.store, v) == Counts(s.store, v);
    assert forall v :: Known(t.store, v) == Known(s.store, v);
  }

  lemma PublishKeeps(s: State)
    requires Inv(s) && Enabled(s, Publish)
    ensures Inv(Apply(s, Publish))
    ensures s.next <= s.phase.u
  {
    HeadIsFirst(s.phase.u, s.phase.rest, s.available, s.next);
  }

  lemma CrashKeeps(s: State)
    requires Inv(s)
    ensures Inv(Apply(s, Crash))
    ensures s.next <= s.store.offset
  {
  }

  lemma OthersKeep(s: State, h: seq<Entry>, q: nat, i: seq<Entry>, sch: seq<Entry>, inf: seq<Entry>)
    requires Inv(s)
    ensures Inv(Apply(s, Others(h, q, i, sch, inf)))
  {
    var t := Apply(s, Others(h, q, i, sch, inf));
    assert forall v :: Counts(t.store, v) == Counts(s.store, v);
    assert forall v :: Known(t.store, v) == Known(s.store, v);
    forall sid | sid in t.submissions ensures Behind(t.store, t.submissions[sid].u, t.submissions[sid].local) {
      assert Behind(s.store, s.submissions[sid].u, s.submissions[sid].local);
    }
  }

  lemma {:induction false} RunKeepsInv(s: State, steps: seq<Step>, t: State)
    requires Inv(s) && Runs(s, steps, t)
    ensures Inv(t)
    decreases |steps|
  {
    if steps != [] {
      StepKeepsInv(s, steps[0]);
      RunKeepsInv(Apply(s, steps[0]), steps[1..], t);
    }
  }

  // ---- The main results ----

  /** In every run each update causes at most one history append, one query increment and one queue
      append; each accepted update the stored offset has passed caused exactly one of each; and no
      update the server held is ever skipped. */
  lemma ExactlyOnce(steps: seq<Step>, t: State)
    requires Runs(Init, steps, t)
    ensures forall u :: t.store.queued[u] <= t.store.counted[u] <= t.store.appended[u] <= 1
    ensures forall u <- t.accepted :: t.store.appended[u] == t.store.counted[u] == t.store.queued[u] == 1
    ensures forall a <- t.available :: a < t.store.offset ==> a in t.accepted || a in t.ignored
  {
    RunKeepsInv(Init, steps, t);
    forall u ensures t.store.queued[u] <= t.store.counted[u] <= t.store.appended[u] <= 1 {
      AtMostOnce(t.store, t.next, u);
    }
    forall u | u in t.accepted ensures t.store.appended[u] == t.store.counted[u] == t.store.queued[u] == 1 {
      assert Counts(t.store, u) == (1, 1, 1);
    }
  }

  /** In every run a record that was reserved and is gone belongs to an update below the offset the
      poller will next ask for, and was complete: bounding the index never lets an update run twice. */
  lemma EvictedBelowOffset(steps: seq<Step>, t: State, u: int)
    requires Runs(Init, steps, t)
    requires Known(t.store, u) && u !in t.store.records
    ensures u < t.next <= t.store.offset
    ensures Counts(t.store, u) == (1, 1, 1)
  {
    RunKeepsInv(Init, steps, t);
  }

  /** Neither offset ever moves back, across crashes and cancelled generations alike. */
  lemma OffsetsNeverDecrease(steps: seq<Step>, s: State, step: Step)
    requires Runs(Init, steps, s) && Enabled(s, step)
    ensures s.next <= Apply(s, step).next
    ensures s.store.offset <= Apply(s, step).store.offset
  {
    RunKeepsInv(Init, steps, s);
    match step
    case SaveOffset => SaveKeeps(s);
    case Publish => PublishKeeps(s);
    case Submit(_) => CommandKeeps(s, s.phase.u, Start);
    case Command(sid) => CommandKeeps(s, s.submissions[sid].u, s.submissions[sid].local);
    case _ =>
  }

  /** The offset the next generation polls from may lag the stored one, by one update at most. */
  lemma StatusLagsByOne(steps: seq<Step>, t: State)
    requires Runs(Init, steps, t)
    ensures t.next <= t.store.offset
    ensures forall a <- t.available :: t.next <= a < t.store.offset ==> a == t.store.offset - 1
    ensures t.next < t.store.offset ==> t.store.offset - 1 in t.available
  {
    RunKeepsInv(Init, steps, t);
  }

  /** Redelivery always succeeds: whatever earlier attempts left behind, one uninterrupted
      submission of the update in hand ends with exactly one of each effect. */
  lemma RedeliveryCompletes(steps: seq<Step>, s: State)
    requires Runs(Init, steps, s) && s.phase.Processing?
    ensures var (store', l) := SubmitRun(s.store, s.phase.u, Start, 5);
            l.Done? && Counts(store', s.phase.u) == (1, 1, 1)
  {
    RunKeepsInv(Init, steps, s);
    HeadIsFirst(s.phase.u, s.phase.rest, s.available, s.next);
    UninterruptedRun(s.store, s.phase.u, Start, s.next);
  }
}
