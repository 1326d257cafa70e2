/** Bounds on every run. */
module JobBounds {
  // How often a job can be executed, and how long it can wait.

  import opened JobQueue

  // ---- The execution bound ----

  /** How many executions this copy can still lead to. */
  function Weight(e: Envelope, id: nat): nat {
    if e.id == id && e.attempts <= e.maxRetries then e.maxRetries + 1 - e.attempts else 0
  }

  function Chances(s: seq<Envelope>, id: nat): nat {
    if s == [] then 0 else Weight(s[0], id) + Chances(s[1..], id)
  }

  /** The executions the in-flight slot can still lead to, given what the worker has already done. */
  function Held(q: Queue, pc: Pc, id: nat): nat {
    match pc
    case Down => if q.inflight == [] then 0 else Spent(q.inflight[0], id)
    case Recover => if q.inflight == [] then 0 else Spent(q.inflight[0], id)
    case Moved(env, _) => Weight(env, id)
    case Stamped(env, _) => Weight(env, id)
    case Running(env) => Spent(env, id)
    case Retry(env) => Weight(env, id)
    case _ => 0
  }

  function Spent(e: Envelope, id: nat): nat {
    if Weight(e, id) > 0 then Weight(e, id) - 1 else 0
  }

  function Potential(s: State, id: nat): nat {
    s.q.started[id] + Chances(s.q.interactive, id) + Chances(s.q.scheduled, id) + Held(s.q, s.pc, id)
  }

  function Budget(maxRetries: nat, crashes: nat): nat { maxRetries + 1 + crashes * maxRetries }

  ghost predicate Bounded(s: State) {
    && (forall id <- s.jobs :: Potential(s, id) <= Budget(s.jobs[id].maxRetries, s.crashes))
    && (forall id | id !in s.jobs :: s.q.started[id] == 0)
  }

  lemma {:induction false} ChancesAppend(a: seq<Envelope>, b: seq<Envelope>, id: nat)
    ensures Chances(a + b, id) == Chances(a, id) + Chances(b, id)
  {
    if a == [] {
      assert a + b == b;
    } else {
      assert (a + b)[1..] == a[1..] + b;
      ChancesAppend(a[1..], b, id);
    }
  }

  lemma {:induction false} ChancesRemove(s: seq<Envelope>, env: Envelope, id: nat)
    ensures Chances(RemoveAll(s, env), id) <= Chances(s, id)
  {
    if s != [] {
      ChancesRemove(s[1..], env, id);
      ChancesAppend(if s[0] == env then [] else [s[0]], RemoveAll(s[1..], env), id);
      assert Chances([s[0]], id) == Weight(s[0], id);
    }
  }

  lemma {:induction false} NoChances(s: seq<Envelope>, id: nat)
    requires forall e <- s :: e.id != id
    ensures Chances(s, id) == 0
  {
    if s != [] { NoChances(s[1..], id); }
  }

  lemma PushChances(q: Queue, env: Envelope, id: nat)
    ensures var q' := Push(q, env);
            Chances(q'.interactive, id) + Chances(q'.scheduled, id)
            == Chances(q.interactive, id) + Chances(q.scheduled, id) + Weight(env, id)
  {
    ChancesAppend(Ready(q, env.priority), [env], id);
    assert Chances([env], id) == Weight(env, id);
  }

  lemma PushSpends(s: State, now: int, id: nat)
    requires Inv(s) && (s.pc.Retry? || (s.pc.Stamped? && now < s.pc.env.notBefore))
    ensures Potential(Apply(s, Command(now)), id) == Potential(s, id)
  {
    PushChances(s.q, s.pc.env, id);
  }

  /** A command never creates a chance to execute: it moves one, spends one, or drops some. */
  lemma CommandSpends(s: State, now: int, id: nat)
    requires Inv(s) && Enabled(s, Command(now))
    ensures Potential(Apply(s, Command(now)), id) <= Potential(s, id)
  {
    if s.pc.Poll? {
    } else if s.pc.Recover? {
    } else if s.pc.Retry? || (s.pc.Stamped? && now < s.pc.env.notBefore) {
      PushSpends(s, now, id);
    } else if s.pc.Stamped? {
      assert Genuine(s, s.q.inflight[0]);
    }
  }

  /** A crash can bring the copy in flight back to life: that is what the bound charges it for. */
  lemma CrashCharges(s: State, id: nat)
    requires Inv(s) && id in s.jobs
    ensures Potential(Apply(s, Crash), id) <= Potential(s, id) + s.jobs[id].maxRetries
  {
    if s.q.inflight != [] { assert Genuine(s, s.q.inflight[0]); }
  }

  lemma EnqueueGrants(s: State, env: Envelope)
    requires Inv(s) && Bounded(s) && Enabled(s, Enqueue(env))
    ensures Potential(Apply(s, Enqueue(env)), env.id) == Normalize(env).maxRetries + 1
    ensures forall id | id != env.id :: Potential(Apply(s, Enqueue(env)), id) == Potential(s, id)
  {
    var job, id := Normalize(env), env.id;
    forall e | e in s.q.interactive || e in s.q.scheduled || e in s.q.inflight ensures e.id != id {
      assert Genuine(s, e);
    }
    NoChances(s.q.interactive, id);
    NoChances(s.q.scheduled, id);
    PushChances(s.q, job, id);
    forall other | other != id
      ensures Potential(Apply(s, Enqueue(env)), other) == Potential(s, other)
    {
      PushChances(s.q, job, other);
    }
  }

  lemma OneMoreCrash(maxRetries: nat, crashes: nat)
    ensures Budget(maxRetries, crashes + 1) == Budget(maxRetries, crashes) + maxRetries
    ensures Budget(maxRetries, crashes) >= maxRetries + 1
  {
  }

  /** One step adds to a known job's potential only when it is a crash. */
  lemma StepPotential(s: State, step: Step, id: nat)
    requires Inv(s) && Bounded(s) && Enabled(s, step) && id in s.jobs
    ensures Potential(Apply(s, step), id)
            <= Potential(s, id) + (if step.Crash? then s.jobs[id].maxRetries else 0)
  {
    if step.Enqueue? {
      EnqueueGrants(s, step.env);
    } else if step.Command? {
      CommandSpends(s, step.now, id);
    } else if step.Finish? {
    } else if step.Remove? {
      ChancesRemove(Ready(s.q, step.list), step.env, id);
    } else if step.Crash? {
      CrashCharges(s, id);
    }
  }

  /** Jobs are only ever added, and only known jobs are executed. */
  lemma StepJobs(s: State, step: Step)
    requires Inv(s) && Bounded(s) && Enabled(s, step)
    ensures var t := Apply(s, step);
            && (forall id <- s.jobs :: id in t.jobs && t.jobs[id] == s.jobs[id])
            && (forall id <- t.jobs :: id in s.jobs || (step.Enqueue? && id == step.env.id && t.jobs[id] == Normalize(step.env)))
            && (forall id | id !in t.jobs :: t.q.started[id] == 0)
            && t.crashes == s.crashes + (if step.Crash? then 1 else 0)
  {
    if step.Command? && s.pc.Stamped? {
      assert Genuine(s, s.q.inflight[0]);
    }
  }

  lemma StepKeepsBounded(s: State, step: Step)
    requires Inv(s) && Bounded(s) && Enabled(s, step)
    ensures Bounded(Apply(s, step))
  {
    hide Budget, Potential, Inv, Exec, Push, Normalize, RemoveAll, Apply;
    var t := Apply(s, step);
    StepJobs(s, step);
    forall id | id in t.jobs ensures Potential(t, id) <= Budget(t.jobs[id].maxRetries, t.crashes) {
      OneMoreCrash(t.jobs[id].maxRetries, s.crashes);
      if id in s.jobs {
        StepPotential(s, step, id);
      } else {
        EnqueueGrants(s, step.env);
      }
    }
  }

  lemma {:induction false} RunKeepsBounded(s: State, steps: seq<Step>, t: State)
    requires Inv(s) && Bounded(s) && Runs(s, steps, t)
    ensures Bounded(t)
    decreases |steps|
  {
    if steps != [] {
      StepKeepsInv(s, steps[0]);
      StepKeepsBounded(s, steps[0]);
      RunKeepsBounded(Apply(s, steps[0]), steps[1..], t);
    }
  }

  lemma StartedWithinPotential(s: State, id: nat)
    ensures s.q.started[id] <= Potential(s, id)
  {
  }

  lemma BudgetForm(maxRetries: nat, crashes: nat)
    ensures Budget(maxRetries, crashes) == (crashes + 1) * maxRetries + 1
  {
  }

  /** In any run with C crashes a job with M retries is executed at most (C + 1) * M + 1 times. */
  lemma ExecutionBound(steps: seq<Step>, t: State, id: nat)
    requires Runs(Init, steps, t) && id in t.jobs
    ensures t.q.started[id] <= (t.crashes + 1) * t.jobs[id].maxRetries + 1
  {
    hide Inv, Potential, Budget, Runs;
    RunKeepsBounded(Init, steps, t);
    StartedWithinPotential(t, id);
    BudgetForm(t.jobs[id].maxRetries, t.crashes);
  }

  // ---- Rotation ----

  /** How often, along the run, the worker takes the head of the scheduled list: polls that found
      nothing due in the interactive list. */
  function ScheduledPolls(s: State, steps: seq<Step>): nat
    decreases |steps|
  {
    if steps == [] || !Enabled(s, steps[0]) then 0
    else
      (if steps[0].Command? && s.pc == Poll(Scheduled) then 1 else 0) + ScheduledPolls(Apply(s, steps[0]), steps[1..])
  }

  lemma {:induction false} RemoveAllPosition(s: seq<Envelope>, other: Envelope, j: nat) returns (j': nat)
    requires j < |s| && s[j] != other
    ensures j' <= j && j' < |RemoveAll(s, other)| && RemoveAll(s, other)[j'] == s[j]
  {
    var head := if s[0] == other then [] else [s[0]];
    if j == 0 {
      j' := 0;
    } else {
      var k := RemoveAllPosition(s[1..], other, j - 1);
      j' := |head| + k;
      assert RemoveAll(s, other) == head + RemoveAll(s[1..], other);
    }
  }

  /** One step never moves a waiting scheduled job back, and a poll that takes another job moves it
      one place forward. */
  lemma PositionAdvances(s: State, step: Step, k: nat) returns (k': nat)
    requires Inv(s) && Enabled(s, step) && k < |s.q.scheduled|
    requires !(step.Command? && s.pc == Poll(Scheduled) && k == 0)
    requires step != Remove(Scheduled, s.q.scheduled[k])
    ensures var t := Apply(s, step);
            && k' < |t.q.scheduled| && t.q.scheduled[k'] == s.q.scheduled[k]
            && k' + (if step.Command? && s.pc == Poll(Scheduled) then 1 else 0) <= k
  {
    if step.Command? && s.pc == Poll(Scheduled) {
      k' := k - 1;
    } else if step.Remove? && step.list == Scheduled {
      k' := RemoveAllPosition(s.q.scheduled, step.env, k);
    } else {
      k' := k;
    }
  }

  /** A scheduled job at position k is the one taken within k + 1 polls that reach its list,
      whatever mix of deferred and due jobs precedes it, whatever is enqueued, retried, removed or
      lost to a crash meanwhile, unless it is removed itself. */
  lemma {:induction false} TakenInTurn(s: State, steps: seq<Step>, t: State, k: nat) returns (n: nat, m: State)
    requires Inv(s) && Runs(s, steps, t) && k < |s.q.scheduled| && ScheduledPolls(s, steps) > k
    requires Remove(Scheduled, s.q.scheduled[k]) !in steps
    ensures n < |steps| && Runs(s, steps[..n], m) && ScheduledPolls(s, steps[..n]) <= k
    ensures steps[n].Command? && m.pc == Poll(Scheduled)
    ensures m.q.scheduled != [] && m.q.scheduled[0] == s.q.scheduled[k]
    decreases |steps|
  {
    var step, s1 := steps[0], Apply(s, steps[0]);
    var polls := step.Command? && s.pc == Poll(Scheduled);
    if polls && k == 0 {
      return 0, s;
    }
    StepKeepsInv(s, step);
    var k' := PositionAdvances(s, step, k);
    var n', m' := TakenInTurn(s1, steps[1..], t, k');
    n, m := n' + 1, m';
    assert steps[..n][1..] == steps[1..][..n'];
    assert steps[..n][0] == step;
  }

  /** The job just taken is executed before the worker looks at the scheduled list again. */
  lemma {:induction false} ExecutedBeforeNextPoll(s: State, steps: seq<Step>, t: State, env: Envelope)
    requires Runs(s, steps, t) && Crash !in steps && ScheduledPolls(s, steps) > 0
    requires s.pc == Moved(env, Scheduled) || s.pc == Stamped(env, Scheduled)
    requires forall now | Command(now) in steps :: now >= env.notBefore
    ensures t.q.started[env.id] > s.q.started[env.id]
    decreases |steps|
  {
    var s1 := Apply(s, steps[0]);
    assert steps[0] in steps;
    if s.pc.Stamped? && steps[0].Command? {
      StartedGrows(s1, steps[1..], t, env.id);
    } else {
      ExecutedBeforeNextPoll(s1, steps[1..], t, env);
    }
  }

  lemma {:induction false} StartedGrows(s: State, steps: seq<Step>, t: State, id: nat)
    requires Runs(s, steps, t)
    ensures s.q.started[id] <= t.q.started[id]
    decreases |steps|
  {
    if steps != [] { StartedGrows(Apply(s, steps[0]), steps[1..], t, id); }
  }

  lemma {:induction false} PollsSplit(s: State, steps: seq<Step>, t: State, n: nat, m: State)
    requires n <= |steps| && Runs(s, steps, t) && Runs(s, steps[..n], m)
    ensures Runs(m, steps[n..], t)
    ensures ScheduledPolls(s, steps) == ScheduledPolls(s, steps[..n]) + ScheduledPolls(m, steps[n..])
    decreases n
  {
    if n == 0 {
      assert steps[..0] == [] && steps[0..] == steps;
    } else {
      assert steps[..n][1..] == steps[1..][..n - 1] && steps[..n][0] == steps[0];
      PollsSplit(Apply(s, steps[0]), steps[1..], t, n - 1, m);
      assert steps[1..][n - 1..] == steps[n..];
    }
  }

  /** No starvation: without a crash a due scheduled job at position k has been executed by the time
      the worker has looked at its list k + 2 times, whatever else happens meanwhile. */
  lemma ExecutedInTurn(s: State, steps: seq<Step>, t: State, k: nat)
    requires Inv(s) && Runs(s, steps, t) && k < |s.q.scheduled| && ScheduledPolls(s, steps) > k + 1
    requires Remove(Scheduled, s.q.scheduled[k]) !in steps && Crash !in steps
    requires forall now | Command(now) in steps :: now >= s.q.scheduled[k].notBefore
    ensures t.q.started[s.q.scheduled[k].id] > s.q.started[s.q.scheduled[k].id]
  {
    var env := s.q.scheduled[k];
    var n, m := TakenInTurn(s, steps, t, k);
    PollsSplit(s, steps, t, n, m);
    var rest := steps[n..];
    assert rest[0] == steps[n];
    var m1 := Apply(m, rest[0]);
    forall step | step in rest[1..] ensures step in steps {
      var i :| 0 <= i < |rest| - 1 && rest[1..][i] == step;
      assert steps[n + 1 + i] == step;
    }
    ExecutedBeforeNextPoll(m1, rest[1..], t, env);
    StartedGrows(s, steps[..n], m, env.id);
  }
}
