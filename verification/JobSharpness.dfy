/** The execution bound is attained. */
module JobSharpness {
  // For every number of retries and every number of crashes there is a run that reaches the bound of
  // `ExecutionBound`.

  import opened JobQueue
  import opened JobBounds
  import opened JobManager

  ghost predicate Reachable(t: State) { Reaches(Init, t) }

  lemma Then(s: State, step: Step) returns (t: State)
    requires Reachable(s) && Enabled(s, step)
    ensures Reachable(t) && t == Apply(s, step)
  {
    t := Apply(s, step);
    ReachesStep(Init, s, step);
  }

  function Copies(e: Envelope, n: nat): (s: seq<Envelope>)
    ensures |s| == n && forall i | 0 <= i < n :: s[i] == e
  {
    seq(n, _ => e)
  }

  /** Between two jobs, with only these scheduled jobs waiting. */
  predicate Resting(s: State, waiting: seq<Envelope>) {
    && s.pc == Poll(Interactive) && s.q.inflight == [] && s.q.interactive == []
    && s.q.scheduled == waiting
  }

  /** Scheduled jobs that are due at time 1 and not before. */
  predicate DueAtOne(s: seq<Envelope>) {
    forall e <- s :: e.notBefore == 1 && e.priority == Scheduled && e.attempts <= e.maxRetries
  }

  /** Nothing but the queue has changed, and no job has been executed. */
  predicate Untouched(s: State, t: State) { t == s.(q := t.q) && t.q.started == s.q.started }

  /** A job that is not due goes round to the back of its list. */
  lemma Rotate(s: State, e: Envelope, rest: seq<Envelope>) returns (t: State)
    requires Reachable(s) && Resting(s, [e] + rest) && e.notBefore == 1 && e.priority == Scheduled
    ensures Reachable(t) && Resting(t, rest + [e]) && Untouched(s, t)
  {
    hide Reachable;
    t := Then(s, Command(0));
    t := Then(t, Command(0));
    t := Then(t, Command(0));
    t := Then(t, Command(0));
    t := Then(t, Command(0));
  }

  lemma {:induction false} RotateAll(s: State, front: seq<Envelope>, back: seq<Envelope>) returns (t: State)
    requires Reachable(s) && Resting(s, front + back) && DueAtOne(front)
    ensures Reachable(t) && Resting(t, back + front) && Untouched(s, t)
    decreases |front|
  {
    if front == [] {
      t := s;
      assert front + back == back + front;
    } else {
      var e, rest := front[0], front[1..];
      assert front + back == [e] + (rest + back) && rest + back + [e] == rest + (back + [e]);
      t := Rotate(s, e, rest + back);
      t := RotateAll(t, rest, back + [e]);
      assert back + [e] + rest == back + front;
    }
  }

  /** The process crashes after a deferred job was put back and before the slot is cleared: after the
      restart there are two copies, one of them with an attempt on record. */
  lemma CrashDuringDeferral(s: State, e: Envelope, rest: seq<Envelope>) returns (t: State)
    requires Reachable(s) && Resting(s, [e] + rest)
    requires e.notBefore == 1 && e.priority == Scheduled && e.attempts < e.maxRetries
    ensures Reachable(t) && Resting(t, rest + [e, Attempted(e)]) && t.q.started == s.q.started
    ensures t == s.(q := t.q, crashes := s.crashes + 1)
  {
    hide Reachable;
    t := Then(s, Command(0));
    t := Then(t, Command(0));
    t := Then(t, Command(0));
    t := Then(t, Command(0));
    t := Then(t, Crash);
    t := Restarted(t, e);
    assert rest + [e] + [Attempted(e)] == rest + [e, Attempted(e)];
  }

  lemma Restarted(s: State, e: Envelope) returns (t: State)
    requires Reachable(s) && s.pc == Down && s.q.inflight == [e] && s.q.interactive == []
    requires e.priority == Scheduled && e.attempts < e.maxRetries
    ensures Reachable(t) && Resting(t, s.q.scheduled + [Attempted(e)]) && t.q.started == s.q.started
    ensures t == s.(q := t.q, pc := Poll(Interactive))
  {
    hide Reachable;
    t := Then(s, Boot);
    t := Then(t, Command(0));
    t := Then(t, Command(0));
    t := Then(t, Command(0));
  }

  /** With each crash the original gains one more copy with one attempt on record. */
  lemma {:induction false} CopiesMade(s: State, e: Envelope, n: nat) returns (t: State)
    requires Reachable(s) && Resting(s, [e] + Copies(Attempted(e), s.crashes))
    requires e.notBefore == 1 && e.priority == Scheduled && e.attempts < e.maxRetries && s.crashes <= n
    ensures Reachable(t) && Resting(t, [e] + Copies(Attempted(e), n)) && t.q.started == s.q.started
    ensures t == s.(q := t.q, crashes := n)
    decreases n - s.crashes
  {
    if s.crashes == n {
      t := s;
    } else {
      var copies, more := Copies(Attempted(e), s.crashes), Copies(Attempted(e), s.crashes + 1);
      t := CrashDuringDeferral(s, e, copies);
      t := RotateAll(t, copies, [e, Attempted(e)]);
      assert more == [Attempted(e)] + copies;
      assert [e, Attempted(e)] + copies == [e] + more;
      t := CopiesMade(t, e, n);
    }
  }

  /** A due job is taken and fails: one chance less, one execution more. */
  lemma RunsAndFails(s: State, e: Envelope, rest: seq<Envelope>) returns (t: State)
    requires Reachable(s) && Resting(s, [e] + rest) && DueAtOne([e] + rest) && e.attempts < e.maxRetries
    ensures Reachable(t) && Resting(t, rest + [Attempted(e)])
    ensures t == s.(q := t.q) && t.q.started == s.q.started + multiset{e.id}
  {
    hide Reachable;
    assert e in [e] + rest;
    t := Then(s, Command(1));
    t := Then(t, Command(1));
    t := Then(t, Command(1));
    t := Then(t, Command(1));
    t := Then(t, Finish(Failed));
    t := Then(t, Command(1));
    t := Then(t, Command(1));
  }

  /** The last attempt fails: the copy is recorded as dead and finished. */
  lemma RunsAndDies(s: State, e: Envelope, rest: seq<Envelope>) returns (t: State)
    requires Reachable(s) && Resting(s, [e] + rest) && DueAtOne([e] + rest) && e.attempts == e.maxRetries
    ensures Reachable(t) && Resting(t, rest)
    ensures t == s.(q := t.q) && t.q.started == s.q.started + multiset{e.id}
  {
    hide Reachable;
    assert e in [e] + rest;
    t := Then(s, Command(1));
    t := Then(t, Command(1));
    t := Then(t, Command(1));
    t := Then(t, Command(1));
    t := Then(t, Finish(Failed));
    t := Buried(t, Attempted(e));
  }

  lemma Buried(s: State, e: Envelope) returns (t: State)
    requires Reachable(s) && s.pc == WriteDead(e)
    ensures Reachable(t) && t == s.(q := t.q, pc := Poll(Interactive))
    ensures t.q.interactive == s.q.interactive && t.q.scheduled == s.q.scheduled && t.q.inflight == []
    ensures t.q.started == s.q.started
  {
    hide Reachable;
    t := Then(s, Command(1));
    t := Then(t, Command(1));
    t := Then(t, Command(1));
    t := Then(t, Command(1));
    t := Then(t, Command(1));
  }

  /** If every attempt fails, all chances are used up. */
  lemma {:induction false} AllFail(s: State, waiting: seq<Envelope>, id: nat) returns (t: State)
    requires Reachable(s) && Resting(s, waiting) && DueAtOne(waiting) && forall e <- waiting :: e.id == id
    ensures Reachable(t) && t == s.(q := t.q)
    ensures t.q.started[id] == s.q.started[id] + Chances(waiting, id)
    decreases Chances(waiting, id)
  {
    hide Reachable, Resting;
    if waiting == [] {
      t := s;
    } else {
      var e, rest := waiting[0], waiting[1..];
      assert waiting == [e] + rest && e in waiting;
      if e.attempts < e.maxRetries {
        t := RunsAndFails(s, e, rest);
        ChancesAppend(rest, [Attempted(e)], id);
        assert Chances([Attempted(e)], id) == Weight(Attempted(e), id);
        t := AllFail(t, rest + [Attempted(e)], id);
      } else {
        t := RunsAndDies(s, e, rest);
        t := AllFail(t, rest, id);
      }
    }
  }

  lemma {:induction false} ChancesOfCopies(e: Envelope, n: nat)
    requires e.attempts <= e.maxRetries
    ensures Chances(Copies(e, n), e.id) == n * (e.maxRetries + 1 - e.attempts)
    decreases n
  {
    if n > 0 {
      ChancesOfCopies(e, n - 1);
      assert Copies(e, n)[1..] == Copies(e, n - 1);
      var w := e.maxRetries + 1 - e.attempts;
      assert n * w == (n - 1) * w + w;
    }
  }

  lemma Queued(e: Envelope) returns (t: State)
    requires e.attempts == 0 && e.priority == Scheduled && e.maxRetries > 0
    ensures Reachable(t) && Resting(t, [e]) && t.q.started == multiset{} && t.crashes == 0 && t.jobs == map[e.id := e]
  {
    ReachesSelf(Init);
    t := Then(Init, Step.Enqueue(e));
    t := Then(t, Boot);
    t := Then(t, Command(0));
  }

  /** The bound of `ExecutionBound` is sharp for all M retries and all C crashes: a job deferred C
      times, with a crash each time between being put back and the slot being cleared, and failing
      whenever it is executed, is executed (C + 1) * M + 1 times. */
  lemma BoundIsAttained(maxRetries: nat, crashes: nat) returns (t: State, id: nat)
    requires maxRetries > 0
    ensures Reachable(t) && id in t.jobs && t.crashes == crashes && t.jobs[id].maxRetries == maxRetries
    ensures t.q.started[id] == (crashes + 1) * maxRetries + 1
  {
    hide Reachable, Resting, Chances;
    var e := Envelope(0, Scheduled, 1, 0, maxRetries, "", None);
    id := 0;
    t := Queued(e);
    assert [e] + Copies(Attempted(e), 0) == [e];
    t := CopiesMade(t, e, crashes);
    var waiting := [e] + Copies(Attempted(e), crashes);
    t := AllFail(t, waiting, id);
    ChancesAppend([e], Copies(Attempted(e), crashes), id);
    ChancesOfCopies(e, 1);
    assert Copies(e, 1) == [e];
    ChancesOfCopies(Attempted(e), crashes);
    assert (crashes + 1) * maxRetries == crashes * maxRetries + maxRetries;
  }
}
