/** Finished jobs. */
module JobOutcomes {
  // Without a crash there is one copy of each job at most, so that one which succeeded, or was
  // cancelled, is never started again.

  import opened JobQueue

  function Copies(s: seq<Envelope>, id: nat): nat {
    if s == [] then 0 else (if s[0].id == id then 1 else 0) + Copies(s[1..], id)
  }

  /** The copy the worker still has to deal with, if it is one of this job. */
  function InHand(pc: Pc, id: nat): nat {
    match pc
    case Moved(env, _) => if env.id == id then 1 else 0
    case Stamped(env, _) => if env.id == id then 1 else 0
    case Running(env) => if env.id == id then 1 else 0
    case Retry(env) => if env.id == id then 1 else 0
    case WriteDone(env, _) => if env.id == id then 1 else 0
    case WriteDead(env) => if env.id == id then 1 else 0
    case TrimDead(env) => if env.id == id then 1 else 0
    case _ => 0
  }

  function Alive(s: State, id: nat): nat {
    Copies(s.q.interactive, id) + Copies(s.q.scheduled, id) + InHand(s.pc, id)
  }

  /** A crash has never left anything in flight. */
  ghost predicate Clean(s: State) {
    && (s.pc.Down? || s.pc.Recover? ==> s.q.inflight == [])
    && (forall id :: Alive(s, id) <= 1)
    && (forall id | id !in s.jobs :: Alive(s, id) == 0)
  }

  lemma {:induction false} CopiesAppend(a: seq<Envelope>, b: seq<Envelope>, id: nat)
    ensures Copies(a + b, id) == Copies(a, id) + Copies(b, id)
  {
    if a == [] {
      assert a + b == b;
    } else {
      assert (a + b)[1..] == a[1..] + b;
      CopiesAppend(a[1..], b, id);
    }
  }

  lemma {:induction false} CopiesRemove(s: seq<Envelope>, env: Envelope, id: nat)
    ensures Copies(RemoveAll(s, env), id) <= Copies(s, id)
  {
    if s != [] {
      CopiesRemove(s[1..], env, id);
      CopiesAppend(if s[0] == env then [] else [s[0]], RemoveAll(s[1..], env), id);
    }
  }

  lemma PushCopies(q: Queue, env: Envelope, id: nat)
    ensures var q' := Push(q, env);
            Copies(q'.interactive, id) + Copies(q'.scheduled, id)
            == Copies(q.interactive, id) + Copies(q.scheduled, id) + (if env.id == id then 1 else 0)
  {
    CopiesAppend(Ready(q, env.priority), [env], id);
    assert Copies([env], id) == if env.id == id then 1 else 0;
  }

  /** No step makes a second copy but enqueuing a job that was not there. */
  lemma StepCopies(s: State, step: Step, id: nat)
    requires Clean(s) && Enabled(s, step) && !step.Crash?
    ensures Alive(Apply(s, step), id) <= Alive(s, id) + (if step.Enqueue? && step.env.id == id then 1 else 0)
  {
    match step
    case Enqueue(env) => PushCopies(s.q, Normalize(env), id);
    case Command(now) =>
      if s.pc.Retry? || (s.pc.Stamped? && now < s.pc.env.notBefore) { PushCopies(s.q, s.pc.env, id); }
    case Remove(list, env) => CopiesRemove(Ready(s.q, list), env, id);
    case _ =>
  }

  lemma StepKeepsClean(s: State, step: Step)
    requires Clean(s) && Enabled(s, step) && !step.Crash?
    ensures Clean(Apply(s, step))
  {
    forall id ensures Alive(Apply(s, step), id) <= Alive(s, id) + (if step.Enqueue? && step.env.id == id then 1 else 0) {
      StepCopies(s, step, id);
    }
    hide Alive, Push, RemoveAll, Normalize;
  }

  lemma {:induction false} RunKeepsClean(s: State, steps: seq<Step>, t: State)
    requires Clean(s) && Runs(s, steps, t) && Crash !in steps
    ensures Clean(t)
    decreases |steps|
  {
    hide Clean, Apply;
    if steps != [] {
      StepKeepsClean(s, steps[0]);
      RunKeepsClean(Apply(s, steps[0]), steps[1..], t);
    }
  }

  /** The only copy is about to be recorded, or has been. */
  predicate Over(s: State, id: nat) {
    && id in s.jobs && Copies(s.q.interactive, id) == 0 && Copies(s.q.scheduled, id) == 0
    && (InHand(s.pc, id) > 0 ==> s.pc.WriteDone?)
  }

  lemma StepKeepsOver(s: State, step: Step, id: nat)
    requires Clean(s) && Over(s, id) && Enabled(s, step) && !step.Crash?
    ensures Over(Apply(s, step), id) && Apply(s, step).q.started[id] == s.q.started[id]
  {
    match step
    case Enqueue(env) => PushCopies(s.q, Normalize(env), id);
    case Command(now) =>
      if s.pc.Retry? || (s.pc.Stamped? && now < s.pc.env.notBefore) { PushCopies(s.q, s.pc.env, id); }
    case Remove(list, env) => CopiesRemove(Ready(s.q, list), env, id);
    case _ =>
  }

  lemma {:induction false} RunKeepsOver(s: State, steps: seq<Step>, t: State, id: nat)
    requires Clean(s) && Over(s, id) && Runs(s, steps, t) && Crash !in steps
    ensures Over(t, id) && t.q.started[id] == s.q.started[id]
    decreases |steps|
  {
    hide Clean, Over, Apply;
    if steps != [] {
      StepKeepsOver(s, steps[0], id);
      StepKeepsClean(s, steps[0]);
      RunKeepsOver(Apply(s, steps[0]), steps[1..], t, id);
    }
  }

  /** Without a crash a job whose executor succeeded, or that was cancelled, is never started again:
      not after the next command, nor after any number of them. */
  lemma DoneIsDone(steps: seq<Step>, s: State, outcome: Outcome, more: seq<Step>, t: State)
    requires Runs(Init, steps, s) && Crash !in steps && s.pc.Running? && outcome != Failed
    requires Runs(Apply(s, Finish(outcome)), more, t) && Crash !in more
    ensures t.q.started[s.pc.env.id] == s.q.started[s.pc.env.id]
    ensures forall e | e in t.q.interactive + t.q.scheduled :: e.id != s.pc.env.id
  {
    var id := s.pc.env.id;
    assert Clean(Init);
    RunKeepsClean(Init, steps, s);
    var u := Apply(s, Finish(outcome));
    StepKeepsClean(s, Finish(outcome));
    assert Alive(s, id) == 1 && id in s.jobs;
    assert Over(u, id);
    RunKeepsOver(u, more, t, id);
    NoCopies(t.q.interactive, id);
    NoCopies(t.q.scheduled, id);
  }

  lemma {:induction false} NoCopies(s: seq<Envelope>, id: nat)
    requires Copies(s, id) == 0
    ensures forall e <- s :: e.id != id
  {
    if s != [] {
      NoCopies(s[1..], id);
      assert s == [s[0]] + s[1..];
    }
  }
}
