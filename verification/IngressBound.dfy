/** Index and status limits. */
module IngressBound {
  // The reserve script evicts complete records only, so the bound of 1000 entries depends on which
  // updates the poller passes over: it holds exactly as long as none with an incomplete record is.

  import opened IngressStore
  import opened IngressProtocol
  import opened IngressService

  // ---- Accepted updates have complete records ----

  /** The record, if it is still there, is complete. */
  predicate Settled(s: Store, u: int) { u in s.records ==> s.records[u].stage == Complete }

  ghost predicate OutcomesSettled(s: State) {
    && (forall u <- s.accepted :: Settled(s.store, u))
    && (forall sid <- s.submissions :: s.submissions[sid].local.Done? ==> Settled(s.store, s.submissions[sid].u))
    && (s.phase.Processed? && s.phase.accepted ==> Settled(s.store, s.phase.u))
  }

  ghost predicate KnownAvailable(s: State) {
    && (forall v | Known(s.store, v) :: v in s.available)
    && (forall a <- s.available :: a > 0)
  }

  ghost predicate Tidy(s: State) { Inv(s) && OutcomesSettled(s) && KnownAvailable(s) }

  /** A settled update with all its effects stays settled, and a submission that is done has settled. */
  lemma CommandSettles(s: Store, u: int, l: Local, bound: int, v: int)
    requires Consistent(s, bound) && Behind(s, u, l) && (l.Start? ==> OnlyAbove(s, bound, u))
    ensures Settled(s, v) && Counts(s, v) == (1, 1, 1) ==> Settled(SubmitStep(s, u, l).0, v)
    ensures SubmitStep(s, u, l).1.Done? && !l.Done? ==> Settled(SubmitStep(s, u, l).0, u)
    ensures l.Done? ==> SubmitStep(s, u, l) == (s, l)
  {
    if l.Start? {
      ReserveFrame(s, u, bound);
      if u !in s.records { FirstReservation(s, u, bound); }
    }
  }

  lemma CommandKeepsTidy(s: State, u: int, l: Local)
    requires Tidy(s) && Behind(s.store, u, l)
    requires l.Start? ==> s.phase.Processing? && s.phase.u == u
    requires l.Done? ==> Settled(s.store, u)
    ensures var (store', l') := SubmitStep(s.store, u, l);
            && Tidy(s.(store := store')) && (l'.Done? ==> Settled(store', u))
            && Behind(store', u, l') && !l'.Start?
  {
    CommandKeeps(s, u, l);
    var (store', l') := SubmitStep(s.store, u, l);
    var t := s.(store := store');
    if l.Start? { HeadIsFirst(u, s.phase.rest, s.available, s.next); }
    SubmitStepKeeps(s.store, u, l, s.next);
    hide SubmitStep, Settled, Counts;
    forall v | Settled(s.store, v) && Counts(s.store, v) == (1, 1, 1) ensures Settled(store', v) {
      CommandSettles(s.store, u, l, s.next, v);
    }
    CommandSettles(s.store, u, l, s.next, u);
    forall sid | sid in s.submissions && s.submissions[sid].local.Done? ensures Settled(store', s.submissions[sid].u) {
      assert Behind(s.store, s.submissions[sid].u, s.submissions[sid].local);
    }
    forall v | Known(store', v) ensures v in s.available {
      if v == u && !Known(s.store, u) { StartedIsAvailable(s, u, l); }
    }
  }

  lemma StartedIsAvailable(s: State, u: int, l: Local)
    requires Tidy(s) && Behind(s.store, u, l) && (l.Start? ==> s.phase.Processing? && s.phase.u == u)
    requires SubmitStep(s.store, u, l).0 != s.store || l.Start?
    ensures u in s.available
  {
    if l.Start? { HeadIsFirst(u, s.phase.rest, s.available, s.next); }
  }

  /** Steps that issue no store command leave the records as they are. */
  lemma QuietKeepsTidy(s: State, step: Step)
    requires Tidy(s) && Enabled(s, step) && !step.Submit? && !step.Command? && Inv(Apply(s, step))
    ensures Tidy(Apply(s, step))
  {
    hide Inv, PrefixFrom;
    assert forall v :: Known(Apply(s, step).store, v) == Known(s.store, v);
    assert forall v :: Settled(Apply(s, step).store, v) == Settled(s.store, v);
  }

  lemma StepKeepsTidy(s: State, step: Step)
    requires Tidy(s) && Enabled(s, step)
    ensures Tidy(Apply(s, step))
  {
    StepKeepsInv(s, step);
    hide SubmitStep, Counts, Consistent, KnownBelow, OffsetSound, PhaseSound, OutcomesSound, Settled;
    if step.Submit? {
      CommandKeepsTidy(s, s.phase.u, Start);
    } else if step.Command? {
      CommandKeepsTidy(s, s.submissions[step.sid].u, s.submissions[step.sid].local);
    } else {
      QuietKeepsTidy(s, step);
    }
  }

  // ---- The index ----

  /** Of the updates passed over, only these have an incomplete record. */
  ghost predicate OverlooksOnly(s: State, updates: set<int>) {
    forall u <- s.ignored :: u < s.next && !Settled(s.store, u) ==> u in updates
  }

  /** So it is all along the run. */
  ghost predicate AlwaysOverlooksOnly(s: State, steps: seq<Step>, updates: set<int>)
    decreases |steps|
  {
    OverlooksOnly(s, updates) && (steps != [] && Enabled(s, steps[0]) ==> AlwaysOverlooksOnly(Apply(s, steps[0]), steps[1..], updates))
  }

  /** An entry of the index other than the update in hand belongs to an update that is complete, or
      that was overlooked. */
  lemma EntryIsSettled(s: State, updates: set<int>, v: int)
    requires Tidy(s) && OverlooksOnly(s, updates) && (forall u <- updates :: u <= 0)
    requires s.phase.Processing? && v in s.store.index && v != s.phase.u
    ensures Settled(s.store, v)
  {
    HeadIsFirst(s.phase.u, s.phase.rest, s.available, s.next);
    assert Known(s.store, v);
    assert v in s.available && v < s.next <= s.store.offset;
    assert v in s.accepted || v in s.ignored;
  }

  lemma ReservationFits(s: State, updates: set<int>)
    requires Tidy(s) && OverlooksOnly(s, updates) && (forall u <- updates :: u <= 0)
    requires s.phase.Processing? && |s.store.index| <= INDEX_CAP
    ensures |Reserve(s.store, s.phase.u).0.index| <= INDEX_CAP
  {
    var u := s.phase.u;
    if u !in s.store.records && |s.store.index| == INDEX_CAP {
      HeadIsFirst(u, s.phase.rest, s.available, s.next);
      FirstReservation(s.store, u, s.next);
      var mid := Indexed(s.store, u);
      EvictEffect(mid);
      var oldest := s.store.index[0];
      assert oldest in s.store.index && mid.index[0] == oldest;
      EntryIsSettled(s, updates, oldest);
    }
  }

  lemma StepFits(s: State, step: Step, updates: set<int>)
    requires Tidy(s) && OverlooksOnly(s, updates) && (forall u <- updates :: u <= 0)
    requires Enabled(s, step) && |s.store.index| <= INDEX_CAP
    ensures |Apply(s, step).store.index| <= INDEX_CAP
  {
    if step.Submit? {
      ReservationFits(s, updates);
    } else if step.Command? {
      LaterStepAdvances(s.store, s.submissions[step.sid].u, s.submissions[step.sid].local, s.next);
    }
  }

  lemma {:induction false} RunFits(s: State, steps: seq<Step>, t: State, updates: set<int>)
    requires Tidy(s) && Runs(s, steps, t) && AlwaysOverlooksOnly(s, steps, updates)
    requires (forall u <- updates :: u <= 0) && |s.store.index| <= INDEX_CAP
    ensures |t.store.index| <= INDEX_CAP
    decreases |steps|
  {
    hide Tidy, Known, OverlooksOnly;
    if steps != [] {
      StepKeepsTidy(s, steps[0]);
      StepFits(s, steps[0], updates);
      RunFits(Apply(s, steps[0]), steps[1..], t, updates);
    }
  }

  /** In every run in which no update is passed over while its record is incomplete, the index keeps
      within its bound. */
  lemma IndexIsBounded(steps: seq<Step>, t: State)
    requires Runs(Init, steps, t) && AlwaysOverlooksOnly(Init, steps, {})
    ensures |t.store.index| <= 1000
  {
    assert Tidy(Init);
    RunFits(Init, steps, t, {});
  }

  // ---- One update passed over with a record, and the index grows without end ----

  lemma {:induction false} LaterRunKeeps(s: Store, u: int, l: Local, n: nat)
    requires !l.Start?
    ensures var s' := SubmitRun(s, u, l, n).0;
            && s'.index == s.index && s'.offset == s.offset
            && forall v | v in s.records && v != u :: v in s'.records && s'.records[v] == s.records[v]
    decreases n
  {
    if n > 0 {
      var (s1, l1) := SubmitStep(s, u, l);
      LaterRunKeeps(s1, u, l1, n - 1);
    }
  }

  /** The oldest entry of the index is the record of `v`, still at its first stage; nothing is in
      hand, and the next update is number `n`. */
  ghost predicate Stuck(s: State, v: int, n: int) {
    && IngressService.Reaches(Init, s) && s.phase.Idle? && s.submissions == map[] && s.ignored == {v}
    && s.next == s.store.offset == n && 0 < v < n && (forall a <- s.available :: a < n)
    && s.store.index != [] && s.store.index[0] == v
    && v in s.store.records && s.store.records[v].stage == Reserved
  }

  lemma Then(s: State, step: Step) returns (t: State)
    requires IngressService.Reaches(Init, s) && Enabled(s, step)
    ensures IngressService.Reaches(Init, t) && t == Apply(s, step)
  {
    t := Apply(s, step);
    ReachesStep(Init, s, step);
  }

  /** Update `n` arrives and is delivered. */
  lemma Delivered(s: State, n: int) returns (t: State)
    requires IngressService.Reaches(Init, s) && s.phase.Idle? && n > 0 && n >= s.next && forall a <- s.available :: a < n && a < s.next
    ensures IngressService.Reaches(Init, t) && t == s.(available := s.available + {n}, phase := Processing(n, []))
  {
    hide IngressService.Reaches;
    t := Then(s, Arrive(n));
    assert [n][1..] == [] && [n][0] == n;
    t := Then(t, Step.Poll([n]));
    assert t.phase == Batch([n]);
    t := Then(t, Begin);
  }

  lemma PassedOver(v: int) returns (t: State)
    requires v > 0
    ensures Stuck(t, v, v + 1)
  {
    ReachesSelf(Init);
    hide IngressService.Reaches;
    t := Delivered(Init, v);
    t := Then(t, Submit(0));
    t := Then(t, Abandon(0));
    t := Then(t, Ignore);
    t := Then(t, SaveOffset);
    t := Then(t, Publish);
    t := Then(t, Begin);
  }

  /** Number `n` is accepted, and joins the index behind the entry that is stuck. */
  lemma OneMore(s: State, v: int, n: int) returns (t: State)
    requires Stuck(s, v, n)
    ensures Stuck(t, v, n + 1) && |t.store.index| == |s.store.index| + 1
  {
    FreshIsUnknown(s, v, n);
    t := Delivered(s, n);
    t := Accepted(t, v, n);
    t := Then(t, SaveOffset);
    t := Then(t, Publish);
    t := Then(t, Begin);
  }

  lemma Accepted(s: State, v: int, n: int) returns (t: State)
    requires IngressService.Reaches(Init, s) && s.phase == Processing(n, []) && s.submissions == map[]
    requires n > v && s.store.index != [] && s.store.index[0] == v
    requires v in s.store.records && s.store.records[v].stage == Reserved && n !in s.store.records
    ensures IngressService.Reaches(Init, t) && t == s.(store := t.store, phase := Processed(n, [], true))
    ensures t.store.offset == s.store.offset && t.store.index == s.store.index + [n]
    ensures v in t.store.records && t.store.records[v].stage == Reserved
  {
    var steps :| Runs(Init, steps, s);
    RedeliveryCompletes(steps, s);
    SubmissionReaches(s, 5);
    var (store', l) := SubmitRun(s.store, n, Start, 5);
    t := s.(store := store', phase := Processed(n, [], true));
    ReachesTransitive(Init, s, t);
    var mid := Indexed(s.store, n);
    assert Evict(mid) == mid;
    var (s1, l1) := SubmitStep(s.store, n, Start);
    LaterRunKeeps(s1, n, l1, 4);
  }

  lemma FreshIsUnknown(s: State, v: int, n: int)
    requires Stuck(s, v, n)
    ensures n !in s.store.records
  {
    var steps :| Runs(Init, steps, s);
    ReachableIsTidy(steps, s);
    assert !Known(s.store, n);
  }

  lemma {:induction false} RunKeepsTidy(s: State, steps: seq<Step>, t: State)
    requires Tidy(s) && Runs(s, steps, t)
    ensures Tidy(t)
    decreases |steps|
  {
    hide Tidy;
    if steps != [] {
      StepKeepsTidy(s, steps[0]);
      RunKeepsTidy(Apply(s, steps[0]), steps[1..], t);
    }
  }

  lemma ReachableIsTidy(steps: seq<Step>, t: State)
    requires Runs(Init, steps, t)
    ensures Tidy(t)
  {
    assert Tidy(Init);
    RunKeepsTidy(Init, steps, t);
  }

  lemma {:induction false} Grows(s: State, v: int, n: int, size: nat) returns (t: State, m: int)
    requires Stuck(s, v, n)
    ensures Stuck(t, v, m) && |t.store.index| > size
    decreases size - |s.store.index|
  {
    if |s.store.index| > size {
      t, m := s, n;
    } else {
      t := OneMore(s, v, n);
      t, m := Grows(t, v, n + 1, size);
    }
  }

  /** For any update and any size there is a run that passes over this one update, its record being
      incomplete, and whose index is longer than that. */
  lemma IndexOutgrows(v: int, size: nat) returns (steps: seq<Step>, t: State)
    requires v > 0
    ensures Runs(Init, steps, t) && AlwaysOverlooksOnly(Init, steps, {v}) && |t.store.index| > size
  {
    var m;
    t := PassedOver(v);
    t, m := Grows(t, v, v + 1, size);
    steps :| Runs(Init, steps, t);
    OnlyIgnored(Init, steps, t, {v});
  }

  /** What was passed over stays passed over. */
  lemma {:induction false} IgnoredGrows(s: State, steps: seq<Step>, t: State)
    requires Runs(s, steps, t)
    ensures s.ignored <= t.ignored
    decreases |steps|
  {
    if steps != [] { IgnoredGrows(Apply(s, steps[0]), steps[1..], t); }
  }

  lemma {:induction false} OnlyIgnored(s: State, steps: seq<Step>, t: State, updates: set<int>)
    requires Runs(s, steps, t) && t.ignored <= updates
    ensures AlwaysOverlooksOnly(s, steps, updates)
    decreases |steps|
  {
    IgnoredGrows(s, steps, t);
    if steps != [] { OnlyIgnored(Apply(s, steps[0]), steps[1..], t, updates); }
  }

  lemma {:induction false} MoreOverlooked(s: State, steps: seq<Step>, fewer: set<int>, updates: set<int>)
    requires AlwaysOverlooksOnly(s, steps, fewer) && fewer <= updates
    ensures AlwaysOverlooksOnly(s, steps, updates)
    decreases |steps|
  {
    if steps != [] && Enabled(s, steps[0]) { MoreOverlooked(Apply(s, steps[0]), steps[1..], fewer, updates); }
  }

  /** No run that overlooks these updates only takes the index past its bound. */
  ghost predicate StaysBounded(updates: set<int>) {
    forall steps, t | Runs(Init, steps, t) && AlwaysOverlooksOnly(Init, steps, updates) :: |t.store.index| <= INDEX_CAP
  }

  /** Exactly when the index keeps within its bound: if updates may be passed over while their record
      is incomplete, whichever they are, then it does not, and otherwise it does, in every run. */
  lemma IndexBoundIff(updates: set<int>)
    ensures StaysBounded(updates) <==> forall u <- updates :: u <= 0
  {
    if u :| u in updates && u > 0 {
      var steps, t := IndexOutgrows(u, INDEX_CAP);
      MoreOverlooked(Init, steps, {u}, updates);
      assert !StaysBounded(updates);
    } else {
      assert Tidy(Init);
      forall steps, t | Runs(Init, steps, t) && AlwaysOverlooksOnly(Init, steps, updates) ensures |t.store.index| <= INDEX_CAP {
        RunFits(Init, steps, t, updates);
      }
    }
  }

  // ---- The offset in the status ----

  lemma LaggingAt(u: int) returns (t: State)
    requires u > 0
    ensures IngressService.Reaches(Init, t)
    ensures t.phase.Idle? && t.next == 0 && t.store.offset == u + 1 && t.available == {u}
  {
    ReachesSelf(Init);
    hide IngressService.Reaches;
    t := Delivered(Init, u);
    t := Then(t, Ignore);
    t := Then(t, SaveOffset);
    t := Then(t, GiveUp);
  }

  /** It does lag when a generation ends between saving the offset and publishing it. */
  lemma StatusCanLag(u: int) returns (steps: seq<Step>, t: State)
    requires u > 0
    ensures Runs(Init, steps, t) && t.phase.Idle? && t.next == 0 && t.store.offset == u + 1 && t.available == {u}
  {
    t := LaggingAt(u);
    steps :| Runs(Init, steps, t);
  }
}
