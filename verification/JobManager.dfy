/** The queue manager's own code, as runs of the queue. */
module JobManager {
  // Command by command, as runs of the queue.  A command is lost once the budget is spent: the process
  // has crashed and does nothing more.

  import opened JobQueue

  /** `n` commands of the worker from one position to another. */
  function ExecN(q: Queue, pc: Pc, now: int, n: nat): (Queue, Pc)
    decreases n
  {
    if n == 0 then (q, pc)
    else var (q', pc') := ExecN(q, pc, now, n - 1); Exec(q', pc', now)
  }

  ghost predicate Performs(q: Queue, pc: Pc, now: int, q': Queue, pc': Pc) {
    exists n: nat :: ExecN(q, pc, now, n) == (q', pc')
  }

  lemma PerformsNone(q: Queue, pc: Pc, now: int)
    ensures Performs(q, pc, now, q, pc)
  {
    assert ExecN(q, pc, now, 0) == (q, pc);
  }

  lemma PerformsOne(q: Queue, pc: Pc, now: int, q1: Queue, pc1: Pc, q2: Queue, pc2: Pc)
    requires Performs(q, pc, now, q1, pc1) && Exec(q1, pc1, now) == (q2, pc2)
    ensures Performs(q, pc, now, q2, pc2)
  {
    var n: nat :| ExecN(q, pc, now, n) == (q1, pc1);
    assert ExecN(q, pc, now, n + 1) == (q2, pc2);
  }

  ghost predicate Reaches(s: State, t: State) {
    exists steps :: Runs(s, steps, t)
  }

  lemma {:induction false} RunsExtend(s: State, steps: seq<Step>, t: State, step: Step)
    requires Runs(s, steps, t) && Enabled(t, step)
    ensures Runs(s, steps + [step], Apply(t, step))
    decreases |steps|
  {
    if steps == [] {
      assert [step][1..] == [];
      assert steps + [step] == [step];
    } else {
      assert (steps + [step])[1..] == steps[1..] + [step];
      RunsExtend(Apply(s, steps[0]), steps[1..], t, step);
    }
  }

  lemma ReachesSelf(s: State)
    ensures Reaches(s, s)
  {
    assert Runs(s, [], s);
  }

  lemma ReachesStep(s: State, t: State, step: Step)
    requires Reaches(s, t) && Enabled(t, step)
    ensures Reaches(s, Apply(t, step))
  {
    var steps :| Runs(s, steps, t);
    RunsExtend(s, steps, t, step);
  }

  lemma {:induction false} CommandsReach(s: State, t: State, now: int, n: nat)
    requires Reaches(s, t)
    ensures var (q', pc') := ExecN(t.q, t.pc, now, n); Reaches(s, t.(q := q', pc := pc'))
    decreases n
  {
    if n > 0 {
      CommandsReach(s, t, now, n - 1);
      var (q1, pc1) := ExecN(t.q, t.pc, now, n - 1);
      var m := t.(q := q1, pc := pc1);
      if Enabled(m, Command(now)) {
        ReachesStep(s, m, Command(now));
        assert Apply(m, Command(now)).pc == Exec(q1, pc1, now).1;
      }
    }
  }

  /** What the worker performs is a run of the queue. */
  lemma PerformedIsReached(s: State, t: State, now: int, q': Queue, pc': Pc)
    requires Reaches(s, t) && Performs(t.q, t.pc, now, q', pc')
    ensures Reaches(s, t.(q := q', pc := pc'))
  {
    var n: nat :| ExecN(t.q, t.pc, now, n) == (q', pc');
    CommandsReach(s, t, now, n);
  }

  /** The envelopes a withdrawal leaves. */
  function Without(s: seq<Envelope>, w: Withdrawal): seq<Envelope> {
    if s == [] then [] else (if Covers(w, s[0]) then [] else [s[0]]) + Without(s[1..], w)
  }

  /** Of the connection's jobs, all or those of the kind, no copy is left; of all others every copy. */
  ghost predicate AreKept(before: seq<Envelope>, after: seq<Envelope>, w: Withdrawal) {
    forall env: Envelope ::
      multiset(after)[env] ==
      if env.connection == Some(w.connection) && (w.kind.None? || w.kind == Some(env.kind)) then 0
      else multiset(before)[env]
  }

  lemma {:induction false} WithoutKeeps(s: seq<Envelope>, w: Withdrawal)
    ensures AreKept(s, Without(s, w), w)
  {
    if s != [] {
      WithoutKeeps(s[1..], w);
      assert s == [s[0]] + s[1..];
    }
  }

  function Drained(q: Queue, w: Withdrawal): Queue {
    q.(interactive := Without(q.interactive, w), scheduled := Without(q.scheduled, w))
  }

  /** The last `n` of a list, or all of it. */
  function LastUpTo<T>(s: seq<T>, n: nat): (r: seq<T>)
    ensures |r| == (if |s| <= n then |s| else n) && r == s[|s| - |r|..]
  {
    if |s| <= n then s else s[|s| - n..]
  }

  predicate InOwnList(interactive: seq<Envelope>, scheduled: seq<Envelope>) {
    (forall e <- interactive :: e.priority == Interactive) && forall e <- scheduled :: e.priority == Scheduled
  }

  /** The first one goes to the back. */
  function Rotated(s: seq<Envelope>): seq<Envelope> { if s == [] then [] else s[1..] + [s[0]] }

  class Manager {
    var interactive: seq<Envelope>
    var scheduled: seq<Envelope>
    var inflight: seq<Envelope>
    var since: Option<int>
    var done: seq<Terminal>
    var dead: seq<Envelope>
    var budget: nat
    var running: Option<Envelope>
    var cancelled: bool
    ghost var started: multiset<nat>
    ghost var finished: set<nat>

    ghost function Q(): Queue
      reads this
    {
      Queue(interactive, scheduled, inflight, since, done, dead, started, finished)
    }

    // ---- One Valkey command each ----

    method LMove(list: Priority, now: int) returns (ok: bool, moved: Option<Envelope>)
      modifies this
      ensures ok == (old(budget) > 0) && (!ok ==> Q() == old(Q()) && budget == 0)
      ensures ok ==> Exec(old(Q()), Poll(list), now)
                     == (Q(), if moved.Some? then Moved(moved.value, list) else Poll(After(list)))
      ensures ok ==> moved == if Ready(old(Q()), list) == [] then None else Some(Ready(old(Q()), list)[0])
      ensures moved.Some? ==>
                && inflight == [moved.value] + old(inflight)
                && interactive == (if list == Interactive then old(interactive)[1..] else old(interactive))
                && scheduled == (if list == Scheduled then old(scheduled)[1..] else old(scheduled))
      ensures moved.None? ==> unchanged(`inflight, `interactive, `scheduled)
      ensures unchanged(`since, `done, `dead, `started, `running, `cancelled)
    {
      ok, moved := budget > 0, None;
      if !ok { return; }
      budget := budget - 1;
      if list == Interactive && interactive != [] {
        moved := Some(interactive[0]);
        inflight := [interactive[0]] + inflight;
        interactive := interactive[1..];
      } else if list == Scheduled && scheduled != [] {
        moved := Some(scheduled[0]);
        inflight := [scheduled[0]] + inflight;
        scheduled := scheduled[1..];
      }
    }

    method SetSince(now: int, ghost env: Envelope, ghost list: Priority) returns (ok: bool)
      modifies this
      ensures ok == (old(budget) > 0) && (!ok ==> Q() == old(Q()) && budget == 0)
      ensures ok ==> Exec(old(Q()), Moved(env, list), now) == (Q(), Stamped(env, list))
      ensures since == if ok then Some(now) else old(since)
      ensures unchanged(`inflight, `interactive, `scheduled, `done, `dead, `started, `running, `cancelled)
    {
      ok := budget > 0;
      if ok { budget, since := budget - 1, Some(now); }
    }

    method RPushReady(env: Envelope) returns (ok: bool)
      modifies this
      ensures ok == (old(budget) > 0) && (!ok ==> Q() == old(Q()) && budget == 0)
      ensures ok ==> Q() == Push(old(Q()), env)
      ensures interactive == old(interactive) + (if ok && env.priority == Interactive then [env] else [])
      ensures scheduled == old(scheduled) + (if ok && env.priority == Scheduled then [env] else [])
      ensures unchanged(`inflight, `since, `done, `dead, `started, `running, `cancelled)
    {
      ok := budget > 0;
      if !ok { return; }
      budget := budget - 1;
      if env.priority == Scheduled { scheduled := scheduled + [env]; } else { interactive := interactive + [env]; }
    }

    method RPushDone(env: Envelope, succeeded: bool, ghost now: int) returns (ok: bool)
      modifies this
      ensures ok == (old(budget) > 0) && (!ok ==> Q() == old(Q()) && budget == 0)
      ensures ok ==> Exec(old(Q()), WriteDone(env, succeeded), now) == (Q(), TrimDone)
      ensures done == old(done) + (if ok then [Terminal(env, succeeded)] else [])
      ensures unchanged(`inflight, `since, `interactive, `scheduled, `dead, `started, `running, `cancelled)
    {
      ok := budget > 0;
      if !ok { return; }
      budget, done, finished := budget - 1, done + [Terminal(env, succeeded)], finished + {env.id};
    }

    method LTrimDone(ghost now: int) returns (ok: bool)
      modifies this
      ensures ok == (old(budget) > 0) && (!ok ==> Q() == old(Q()) && budget == 0)
      ensures ok ==> Exec(old(Q()), TrimDone, now) == (Q(), Clear(Interactive))
      ensures done == if ok then LastUpTo(old(done), 200) else old(done)
      ensures unchanged(`inflight, `since, `interactive, `scheduled, `dead, `started, `running, `cancelled)
    {
      ok := budget > 0;
      if ok { budget, done := budget - 1, Newest(done, DONE_CAP); }
    }

    method RPushDead(env: Envelope, ghost now: int) returns (ok: bool)
      modifies this
      ensures ok == (old(budget) > 0) && (!ok ==> Q() == old(Q()) && budget == 0)
      ensures ok ==> Exec(old(Q()), WriteDead(env), now) == (Q(), TrimDead(env))
      ensures dead == old(dead) + (if ok then [env] else [])
      ensures unchanged(`inflight, `since, `interactive, `scheduled, `done, `started, `running, `cancelled)
    {
      ok := budget > 0;
      if ok { budget, dead := budget - 1, dead + [env]; }
    }

    method LTrimDead(ghost env: Envelope, ghost now: int) returns (ok: bool)
      modifies this
      ensures ok == (old(budget) > 0) && (!ok ==> Q() == old(Q()) && budget == 0)
      ensures ok ==> Exec(old(Q()), TrimDead(env), now) == (Q(), WriteDone(env, false))
      ensures dead == if ok then LastUpTo(old(dead), 100) else old(dead)
      ensures unchanged(`inflight, `since, `interactive, `scheduled, `done, `started, `running, `cancelled)
    {
      ok := budget > 0;
      if ok { budget, dead := budget - 1, Newest(dead, DEAD_CAP); }
    }

    method DelInflight(ghost next: Priority, ghost now: int) returns (ok: bool)
      modifies this
      ensures ok == (old(budget) > 0) && (!ok ==> Q() == old(Q()) && budget == 0)
      ensures ok ==> Exec(old(Q()), Clear(next), now) == (Q(), Poll(next))
      ensures ok ==> inflight == [] && since == None
      ensures unchanged(`interactive, `scheduled, `done, `dead, `started, `running, `cancelled)
    {
      ok := budget > 0;
      if ok { budget, inflight, since := budget - 1, [], None; }
    }

    // ---- The manager ----

    /** One turn of the loop in `acquire`: a job that is not due yet goes to the back of its list. */
    method TryList(list: Priority, now: int) returns (lost: bool, got: Option<Envelope>, ghost pc: Pc)
      modifies this
      ensures Performs(old(Q()), Poll(list), now, Q(), pc)
      ensures lost ==> budget == 0 && !pc.Running? && !pc.Down? && got.None?
      ensures !lost ==> pc == if got.Some? then Running(got.value) else Poll(After(list))
      ensures var waiting := if list == Interactive then old(interactive) else old(scheduled);
              !lost ==>
                if waiting == [] then got.None? && unchanged(`interactive, `scheduled, `inflight, `since)
                else if now < waiting[0].notBefore then
                  && got.None? && inflight == [] && since == None
                  && interactive == (if list == Interactive then waiting[1..] else old(interactive))
                                    + (if waiting[0].priority == Interactive then [waiting[0]] else [])
                  && scheduled == (if list == Scheduled then waiting[1..] else old(scheduled))
                                  + (if waiting[0].priority == Scheduled then [waiting[0]] else [])
                else
                  && got == Some(waiting[0]) && inflight == [waiting[0]] + old(inflight) && since == Some(now)
                  && interactive == (if list == Interactive then waiting[1..] else old(interactive))
                  && scheduled == (if list == Scheduled then waiting[1..] else old(scheduled))
      ensures started == old(started) + (if got.Some? then multiset{got.value.id} else multiset{})
      ensures unchanged(`done, `dead, `running, `cancelled)
    {
      hide Performs, Exec;
      ghost var entry, first := Q(), Poll(list);
      PerformsNone(entry, first, now);
      var ok, moved := LMove(list, now);
      if !ok { return true, None, first; }
      pc := if moved.Some? then Moved(moved.value, list) else Poll(After(list));
      PerformsOne(entry, first, now, entry, first, Q(), pc);
      if moved.None? { return false, None, pc; }
      var env := moved.value;
      ghost var before := Q();
      ok := SetSince(now, env, list);
      if !ok { return true, None, pc; }
      PerformsOne(entry, first, now, before, pc, Q(), Stamped(env, list));
      pc := Stamped(env, list);
      before := Q();
      if now >= env.notBefore {
        started := started + multiset{env.id};
        Executes(before, env, list, now);
        PerformsOne(entry, first, now, before, pc, Q(), Running(env));
        return false, Some(env), Running(env);
      }
      ok := RPushReady(env);
      if !ok { return true, None, pc; }
      Defers(before, env, list, now);
      PerformsOne(entry, first, now, before, pc, Q(), Clear(After(list)));
      pc := Clear(After(list));
      before := Q();
      ok := DelInflight(After(list), now);
      if !ok { return true, None, pc; }
      PerformsOne(entry, first, now, before, pc, Q(), Poll(After(list)));
      return false, None, Poll(After(list));
    }

    /** `acquire`: looks at the interactive list, then at the scheduled one. */
    method Acquire(now: int) returns (lost: bool, got: Option<Envelope>, ghost pc: Pc)
      modifies this
      ensures Performs(old(Q()), Poll(Interactive), now, Q(), pc)
      ensures lost ==> budget == 0 && !pc.Running? && !pc.Down?
      ensures !lost ==> pc == if got.Some? then Running(got.value) else Poll(Interactive)
      ensures got.Some? ==> !lost && got.value.notBefore <= now && since == Some(now)
      ensures !lost && old(interactive) != [] && old(interactive)[0].notBefore <= now ==>
                && got == Some(old(interactive)[0]) && interactive == old(interactive)[1..] && unchanged(`scheduled)
                && inflight == [got.value] + old(inflight)
      ensures !lost && InOwnList(old(interactive), old(scheduled)) && got.None? ==>
                interactive == Rotated(old(interactive)) && scheduled == Rotated(old(scheduled))
      ensures !lost && InOwnList(old(interactive), old(scheduled)) && got.Some? && got.value.priority == Scheduled ==>
                interactive == Rotated(old(interactive)) && old(scheduled) == [got.value] + scheduled
      ensures !lost && InOwnList(old(interactive), old(scheduled)) && got.None? ==>
                (old(interactive) == [] || old(interactive)[0].notBefore > now)
                && (old(scheduled) == [] || old(scheduled)[0].notBefore > now)
      ensures started == old(started) + (if got.Some? then multiset{got.value.id} else multiset{})
      ensures unchanged(`done, `dead, `running, `cancelled)
    {
      hide Performs, Exec;
      ghost var entry := Q();
      lost, got, pc := false, None, Poll(Interactive);
      PerformsNone(entry, pc, now);
      var i := 0;
      while i < 2
        invariant 0 <= i <= 2
        invariant pc == Poll(if i == 1 then Scheduled else Interactive)
        invariant Performs(entry, Poll(Interactive), now, Q(), pc)
        invariant !lost && got.None?
        invariant i == 0 ==> Q() == entry
        invariant i > 0 ==> entry.interactive == [] || entry.interactive[0].notBefore > now
        invariant i > 0 && InOwnList(entry.interactive, entry.scheduled) ==> interactive == Rotated(entry.interactive)
        invariant InOwnList(entry.interactive, entry.scheduled) ==>
                    if i < 2 then scheduled == entry.scheduled
                    else scheduled == Rotated(entry.scheduled) && (entry.scheduled == [] || entry.scheduled[0].notBefore > now)
        invariant started == entry.started && unchanged(`done, `dead, `running, `cancelled)
      {
        var list := if i == 0 then Interactive else Scheduled;
        ghost var before, from := Q(), pc;
        lost, got, pc := TryList(list, now);
        PerformsAll(entry, Poll(Interactive), now, before, from, Q(), pc);
        if lost || got.Some? { return; }
        i := i + 1;
      }
    }

    /** `appendFinished` followed by clearing the slot. */
    method Ack(env: Envelope, succeeded: bool, ghost now: int) returns (lost: bool, ghost pc: Pc)
      modifies this
      ensures Performs(old(Q()), WriteDone(env, succeeded), now, Q(), pc)
      ensures if lost then budget == 0 && !pc.Running? && !pc.Down? else pc == Poll(Interactive)
      ensures !lost ==> done == LastUpTo(old(done) + [Terminal(env, succeeded)], 200) && inflight == [] && since == None
      ensures unchanged(`interactive, `scheduled, `dead, `started, `running, `cancelled)
    {
      hide Performs, Exec;
      ghost var entry, first := Q(), WriteDone(env, succeeded);
      pc := first;
      PerformsNone(entry, first, now);
      var ok := RPushDone(env, succeeded, now);
      if !ok { return true, pc; }
      PerformsOne(entry, first, now, entry, first, Q(), TrimDone);
      ghost var before := Q();
      ok := LTrimDone(now);
      if !ok { return true, TrimDone; }
      PerformsOne(entry, first, now, before, TrimDone, Q(), Clear(Interactive));
      before := Q();
      ok := DelInflight(Interactive, now);
      if !ok { return true, Clear(Interactive); }
      PerformsOne(entry, first, now, before, Clear(Interactive), Q(), Poll(Interactive));
      return false, Poll(Interactive);
    }

    method PutBack(env: Envelope, ghost now: int) returns (lost: bool, ghost pc: Pc)
      modifies this
      ensures Performs(old(Q()), Retry(env), now, Q(), pc)
      ensures if lost then budget == 0 && !pc.Running? && !pc.Down? else pc == Poll(Interactive)
      ensures !lost ==>
                && interactive == old(interactive) + (if env.priority == Interactive then [env] else [])
                && scheduled == old(scheduled) + (if env.priority == Scheduled then [env] else [])
                && inflight == [] && since == None
      ensures unchanged(`done, `dead, `started, `running, `cancelled)
    {
      hide Performs, Exec;
      ghost var entry := Q();
      PerformsNone(entry, Retry(env), now);
      var ok := RPushReady(env);
      if !ok { return true, Retry(env); }
      Retries(entry, env, now);
      PerformsOne(entry, Retry(env), now, entry, Retry(env), Q(), Clear(Interactive));
      ghost var before := Q();
      ok := DelInflight(Interactive, now);
      if !ok { return true, Clear(Interactive); }
      PerformsOne(entry, Retry(env), now, before, Clear(Interactive), Q(), Poll(Interactive));
      return false, Poll(Interactive);
    }

    method Bury(env: Envelope, ghost now: int) returns (lost: bool, ghost pc: Pc)
      modifies this
      ensures Performs(old(Q()), WriteDead(env), now, Q(), pc)
      ensures if lost then budget == 0 && !pc.Running? && !pc.Down? else pc == Poll(Interactive)
      ensures !lost ==>
                && dead == LastUpTo(old(dead) + [env], 100) && done == LastUpTo(old(done) + [Terminal(env, false)], 200)
                && inflight == [] && since == None
      ensures unchanged(`interactive, `scheduled, `started, `running, `cancelled)
    {
      hide Performs, Exec;
      ghost var entry := Q();
      PerformsNone(entry, WriteDead(env), now);
      var ok := RPushDead(env, now);
      if !ok { return true, WriteDead(env); }
      PerformsOne(entry, WriteDead(env), now, entry, WriteDead(env), Q(), TrimDead(env));
      ghost var before := Q();
      ok := LTrimDead(env, now);
      if !ok { return true, TrimDead(env); }
      PerformsOne(entry, WriteDead(env), now, before, TrimDead(env), Q(), WriteDone(env, false));
      before := Q();
      lost, pc := Ack(env, false, now);
      PerformsAll(entry, WriteDead(env), now, before, WriteDone(env, false), Q(), pc);
    }

    /** `nack`: one more attempt is on record; back to its list, or dead once the retries are used up. */
    method NackJob(env: Envelope, ghost now: int) returns (lost: bool, ghost pc: Pc)
      modifies this
      ensures Performs(old(Q()), Nack(env), now, Q(), pc)
      ensures if lost then budget == 0 && !pc.Running? && !pc.Down? else pc == Poll(Interactive)
      ensures !lost && env.attempts < env.maxRetries ==>
                var again := env.(attempts := env.attempts + 1);
                && interactive == old(interactive) + (if env.priority == Interactive then [again] else [])
                && scheduled == old(scheduled) + (if env.priority == Scheduled then [again] else [])
                && unchanged(`done, `dead) && inflight == [] && since == None
      ensures !lost && env.attempts >= env.maxRetries ==>
                var last := env.(attempts := env.attempts + 1);
                && dead == LastUpTo(old(dead) + [last], 100) && done == LastUpTo(old(done) + [Terminal(last, false)], 200)
                && unchanged(`interactive, `scheduled) && inflight == [] && since == None
      ensures unchanged(`started, `running, `cancelled)
    {
      hide Performs, Exec;
      var env' := env.(attempts := env.attempts + 1);
      if env'.attempts > env'.maxRetries {
        lost, pc := Bury(env', now);
      } else {
        lost, pc := PutBack(env', now);
      }
    }

    /** `recoverInflight`, run before the worker starts. */
    method RecoverInflight(ghost now: int) returns (lost: bool, ghost pc: Pc)
      modifies this
      ensures Performs(old(Q()), Recover, now, Q(), pc)
      ensures if lost then budget == 0 && !pc.Running? && !pc.Down? else pc == Poll(Interactive)
      ensures !lost && old(inflight) == [] ==> Q() == old(Q())
      ensures !lost && old(inflight) != [] ==>
                var env := old(inflight)[0];
                var again := env.(attempts := env.attempts + 1);
                && inflight == [] && since == None
                && if env.attempts < env.maxRetries then
                     && interactive == old(interactive) + (if env.priority == Interactive then [again] else [])
                     && scheduled == old(scheduled) + (if env.priority == Scheduled then [again] else [])
                     && unchanged(`done, `dead)
                   else
                     && dead == LastUpTo(old(dead) + [again], 100) && done == LastUpTo(old(done) + [Terminal(again, false)], 200)
                     && unchanged(`interactive, `scheduled)
      ensures unchanged(`started)
    {
      ghost var entry := Q();
      PerformsNone(entry, Recover, now);
      if budget == 0 { return true, Recover; }
      budget := budget - 1;
      if inflight == [] {
        PerformsOne(entry, Recover, now, entry, Recover, entry, Poll(Interactive));
        return false, Poll(Interactive);
      }
      ghost var next := Nack(inflight[0]);
      PerformsOne(entry, Recover, now, entry, Recover, entry, next);
      lost, pc := NackJob(inflight[0], now);
      PerformsAll(entry, Recover, now, entry, next, Q(), pc);
    }

    /** `runOne` once the executor has returned: a job that was cancelled meanwhile is finished,
        whatever the executor says. */
    method RunOne(env: Envelope, failed: bool, ghost now: int) returns (lost: bool, ghost pc: Pc)
      modifies this
      ensures Performs(old(Q()), Conclude(env, Verdict(old(cancelled), failed)), now, Q(), pc)
      ensures if lost then budget == 0 && !pc.Running? && !pc.Down? else pc == Poll(Interactive)
      ensures !lost ==> inflight == [] && since == None && running == None
      ensures !lost && (old(cancelled) || !failed) ==>
                && done == LastUpTo(old(done) + [Terminal(env, !old(cancelled))], 200)
                && unchanged(`interactive, `scheduled, `dead)
      ensures !lost && !old(cancelled) && failed && env.attempts < env.maxRetries ==>
                var again := env.(attempts := env.attempts + 1);
                && interactive == old(interactive) + (if env.priority == Interactive then [again] else [])
                && scheduled == old(scheduled) + (if env.priority == Scheduled then [again] else [])
                && unchanged(`done, `dead)
      ensures !lost && !old(cancelled) && failed && env.attempts >= env.maxRetries ==>
                var last := env.(attempts := env.attempts + 1);
                && dead == LastUpTo(old(dead) + [last], 100) && done == LastUpTo(old(done) + [Terminal(last, false)], 200)
                && unchanged(`interactive, `scheduled)
      ensures unchanged(`started)
    {
      running := None;
      if cancelled {
        lost, pc := Ack(env, false, now);
      } else if failed {
        lost, pc := NackJob(env, now);
      } else {
        lost, pc := Ack(env, true, now);
      }
    }

    /** One turn of the worker loop is a run of the queue; if it was cut short, the crash that cut
        it is the next step.  While the executor runs, somebody may cancel the job. */
    method WorkerTurn(now: int, failed: bool, ghost s: State) returns (lost: bool, ghost t: State)
      requires s.q == Q() && s.pc == Poll(Interactive)
      modifies this
      ensures Reaches(s, t) && t.q == Q() && t == s.(q := t.q, pc := t.pc, crashes := t.crashes)
      ensures if lost then t.pc.Down? && t.crashes == s.crashes + 1 else t.pc == Poll(Interactive) && t.crashes == s.crashes
    {
      ReachesSelf(s);
      var got;
      ghost var pc;
      lost, got, pc := Acquire(now);
      PerformedIsReached(s, s, now, Q(), pc);
      t := s.(q := Q(), pc := pc);
      if !lost && got.Some? {
        running, cancelled := got, *;
        ghost var outcome := Verdict(cancelled, failed);
        ReachesStep(s, t, Finish(outcome));
        t := Apply(t, Finish(outcome));
        lost, pc := RunOne(got.value, failed, now);
        PerformedIsReached(s, t, now, Q(), pc);
        t := t.(q := Q(), pc := pc);
      }
      if lost {
        ReachesStep(s, t, Crash);
        t := Apply(t, Crash);
      }
    }

    /** `Enqueue`: reports how many jobs are ahead and appends the envelope once. */
    method Enqueue(env: Envelope, ghost s: State) returns (ok: bool, ahead: nat, ghost t: State)
      requires s.q == Q() && Enabled(s, Step.Enqueue(env))
      modifies this
      ensures t.q == Q() && t == if ok then Apply(s, Step.Enqueue(env)) else s
      ensures ok ==> ahead == |old(interactive)| + |old(scheduled)| + (if old(running).Some? then 1 else 0)
    {
      var job := env;
      if job.maxRetries == 0 { job := job.(maxRetries := DEFAULT_RETRIES); }
      ahead := |interactive| + |scheduled|;
      if running.Some? { ahead := ahead + 1; }
      ok := RPushReady(job);
      t := if ok then Apply(s, Step.Enqueue(env)) else s;
    }

    method LRange(list: Priority) returns (ok: bool, items: seq<Envelope>)
      modifies this`budget
      ensures ok ==> items == Ready(Q(), list)
    {
      ok, items := budget > 0, if list == Interactive then interactive else scheduled;
      if ok { budget := budget - 1; }
    }

    method LRem(list: Priority, env: Envelope) returns (ok: bool)
      modifies this`budget, this`interactive, this`scheduled
      ensures Q() == if ok then PutReady(old(Q()), list, RemoveAll(Ready(old(Q()), list), env)) else old(Q())
    {
      ok := budget > 0;
      if !ok { return; }
      budget := budget - 1;
      if list == Interactive {
        interactive := RemoveAll(interactive, env);
      } else {
        scheduled := RemoveAll(scheduled, env);
      }
    }

    /** One ready list: exactly the envelopes the withdrawal covers go, in a run of removals, and
        everyone else's keep their order. */
    method DropFrom(list: Priority, w: Withdrawal, ghost s: State) returns (lost: bool, ghost t: State)
      requires s.q == Q() && w in s.withdrawals
      modifies this`budget, this`interactive, this`scheduled
      ensures !lost ==> Q() == PutReady(old(Q()), list, Without(Ready(old(Q()), list), w))
      ensures t.q == Q() && Reaches(s, t) && t == s.(q := t.q, removed := t.removed)
    {
      hide Reaches, Covers, Without, RemoveAll;
      t := s;
      ReachesSelf(s);
      var ok, items := LRange(list);
      if !ok { return true, t; }
      var i := 0;
      assert items[0..] == items;
      while i < |items|
        invariant 0 <= i <= |items|
        invariant Q() == PutReady(s.q, list, Ready(Q(), list))
        invariant Without(Ready(Q(), list), w) == Without(items, w)
        invariant forall e <- Ready(Q(), list) :: Covers(w, e) ==> e in items[i..]
        invariant t.q == Q() && Reaches(s, t) && t == s.(q := t.q, removed := t.removed)
      {
        var env := items[i];
        ghost var before := Ready(Q(), list);
        if Covers(w, env) {
          ok := LRem(list, env);
          if !ok { return true, t; }
          RemovalReaches(s, t, list, env, w);
          t := Removed(t, list, env);
          WithoutRemoved(before, env, w);
          RemoveAllMembers(before, env);
        }
        assert items[i..] == [env] + items[i + 1..];
        i := i + 1;
      }
      WithoutNone(Ready(Q(), list), w);
      return false, t;
    }

    /** `DropConnection`, and the pair of `CancelRunningConnection` and `DropQueued`: the running job
        is cancelled if the withdrawal covers it, and so are the waiting ones, in a run of the queue. */
    method Drop(w: Withdrawal, ghost s: State) returns (lost: bool, ghost t: State)
      requires s.q == Q()
      modifies this
      ensures cancelled == (old(cancelled) || (running.Some? && Covers(w, running.value))) && running == old(running)
      ensures !lost ==> Q() == Drained(old(Q()), w)
      ensures !lost ==> AreKept(old(interactive), interactive, w) && AreKept(old(scheduled), scheduled, w)
      ensures t.q == Q() && Reaches(s, t) && if lost then t.pc.Down? else t.pc == s.pc
    {
      hide Reaches, Covers, Without;
      if running.Some? && Covers(w, running.value) { cancelled := true; }
      WithoutKeeps(interactive, w);
      WithoutKeeps(scheduled, w);
      hide AreKept;
      ReachesSelf(s);
      ReachesStep(s, s, Withdraw(w));
      ghost var s1 := Apply(s, Withdraw(w));
      lost, t := DropFrom(Interactive, w, s1);
      ReachesAll(s, s1, t);
      if !lost {
        ghost var s2 := t;
        lost, t := DropFrom(Scheduled, w, s2);
        ReachesAll(s, s2, t);
      }
      if lost {
        ReachesStep(s, t, Crash);
        t := Apply(t, Crash);
      }
    }
  }

  function Verdict(cancelled: bool, failed: bool): Outcome {
    if cancelled then Cancelled else if failed then Failed else Succeeded
  }

  /** The queue once all copies of an envelope are gone from a list. */
  ghost function Removed(s: State, list: Priority, env: Envelope): State {
    s.(q := PutReady(s.q, list, RemoveAll(Ready(s.q, list), env)),
       removed := if env in Ready(s.q, list) then s.removed + {env.id} else s.removed)
  }

  lemma RemovalReaches(s: State, t: State, list: Priority, env: Envelope, w: Withdrawal)
    requires Reaches(s, t) && w in t.withdrawals && Covers(w, env)
    ensures Reaches(s, Removed(t, list, env))
  {
    hide Reaches, Covers;
    assert Withdrawn(t.withdrawals, env);
    ReachesStep(s, t, Remove(list, env));
  }

  lemma {:induction false} RunsConcat(s: State, a: seq<Step>, m: State, b: seq<Step>, t: State)
    requires Runs(s, a, m) && Runs(m, b, t)
    ensures Runs(s, a + b, t)
    decreases |a|
  {
    if a == [] {
      assert a + b == b;
    } else {
      assert (a + b)[1..] == a[1..] + b;
      RunsConcat(Apply(s, a[0]), a[1..], m, b, t);
    }
  }

  lemma ReachesAll(s: State, m: State, t: State)
    requires Reaches(s, m) && Reaches(m, t)
    ensures Reaches(s, t)
  {
    var a :| Runs(s, a, m);
    var b :| Runs(m, b, t);
    RunsConcat(s, a, m, b, t);
  }

  lemma PerformsAll(q: Queue, pc: Pc, now: int, q1: Queue, pc1: Pc, q2: Queue, pc2: Pc)
    requires Performs(q, pc, now, q1, pc1) && Performs(q1, pc1, now, q2, pc2)
    ensures Performs(q, pc, now, q2, pc2)
  {
    var n: nat :| ExecN(q, pc, now, n) == (q1, pc1);
    var m: nat :| ExecN(q1, pc1, now, m) == (q2, pc2);
    ExecSum(q, pc, now, n, m);
  }

  lemma {:induction false} ExecSum(q: Queue, pc: Pc, now: int, n: nat, m: nat)
    ensures var (q1, pc1) := ExecN(q, pc, now, n); ExecN(q, pc, now, n + m) == ExecN(q1, pc1, now, m)
    decreases m
  {
    if m > 0 { ExecSum(q, pc, now, n, m - 1); }
  }

  lemma Executes(q: Queue, env: Envelope, list: Priority, now: int)
    requires now >= env.notBefore
    ensures Exec(q, Stamped(env, list), now) == (q.(started := q.started + multiset{env.id}), Running(env))
  {
  }

  lemma Defers(q: Queue, env: Envelope, list: Priority, now: int)
    requires now < env.notBefore
    ensures Exec(q, Stamped(env, list), now) == (Push(q, env), Clear(After(list)))
  {
  }

  lemma Retries(q: Queue, env: Envelope, now: int)
    ensures Exec(q, Retry(env), now) == (Push(q, env), Clear(Interactive))
  {
  }

  lemma {:induction false} WithoutRemoved(s: seq<Envelope>, env: Envelope, w: Withdrawal)
    requires Covers(w, env)
    ensures Without(RemoveAll(s, env), w) == Without(s, w)
  {
    hide Covers;
    if s != [] {
      WithoutRemoved(s[1..], env, w);
      if s[0] == env {
        assert RemoveAll(s, env) == RemoveAll(s[1..], env);
      } else {
        assert RemoveAll(s, env) == [s[0]] + RemoveAll(s[1..], env);
        assert RemoveAll(s, env)[1..] == RemoveAll(s[1..], env);
      }
    }
  }

  lemma {:induction false} WithoutNone(s: seq<Envelope>, w: Withdrawal)
    requires forall e <- s :: !Covers(w, e)
    ensures Without(s, w) == s
  {
    if s != [] { WithoutNone(s[1..], w); }
  }
}
