/** Poller and worker together. */
module IngressJobs {
  // One system: the poller's scripts append to the list the worker takes from.  The job of an update
  // has an id made from the update's; everybody else's ids are odd.

  import S = IngressStore
  import P = IngressProtocol
  import B = IngressBound
  import I = IngressService
  import Q = JobQueue
  import M = JobManager
  import JobBounds

  function JobId(u: int): nat { if u < 0 then 0 else 2 * u }

  /** The envelope `submitTelegram` makes: no connection can withdraw it. */
  function TelegramJob(u: int): Q.Envelope {
    Q.Envelope(JobId(u), Q.Interactive, 0, 0, Q.DEFAULT_RETRIES, "chat", Q.None)
  }

  function EntryOf(env: Q.Envelope): S.Entry { if env.id % 2 == 0 then S.FromUpdate(env.id / 2) else S.Foreign }

  function Entries(s: seq<Q.Envelope>): (r: seq<S.Entry>)
    ensures |r| == |s| && forall i | 0 <= i < |s| :: r[i] == EntryOf(s[i])
  {
    seq(|s|, i requires 0 <= i < |s| => EntryOf(s[i]))
  }

  datatype System = System(poller: P.State, worker: Q.State)

  const Init := System(P.Init, Q.Init)

  datatype Move =
    | Poll(step: P.Step)
    | Work(action: Q.Step)
    | Elsewhere(history: seq<S.Entry>, queries: nat)   // messages from other channels
    | Crash

  ghost predicate Enabled(s: System, move: Move) {
    match move
    case Poll(step) => !step.Crash? && !step.Others? && P.Enabled(s.poller, step)
    case Work(step) => !step.Crash? && Q.Enabled(s.worker, step) && (step.Enqueue? ==> step.env.id % 2 == 1)
    case Elsewhere(_, _) => true
    case Crash => true
  }

  /** The update whose job this step of the poller appends. */
  predicate Queues(p: P.State, step: P.Step, u: int) {
    && step.Command? && step.sid in p.submissions && p.submissions[step.sid].u == u
    && p.submissions[step.sid].local.At? && p.submissions[step.sid].local.stage == S.Stats
    && u in p.store.records && p.store.records[u].stage == S.Stats
  }

  predicate QueuesSome(p: P.State, step: P.Step) {
    step.Command? && step.sid in p.submissions && Queues(p, step, p.submissions[step.sid].u)
  }

  /** The poller sees the lists as the worker has left them. */
  ghost function Seen(p: P.State, q: Q.Queue): P.State {
    P.Apply(p, P.Others(p.store.history, p.store.queries, Entries(q.interactive), Entries(q.scheduled), Entries(q.inflight)))
  }

  /** The worker's lists with the job of the update appended, if that is a new job. */
  function Given(w: Q.State, u: int): Q.State {
    var step := Q.Enqueue(TelegramJob(u));
    if Q.Enabled(w, step) then Q.Apply(w, step) else w
  }

  ghost function Apply(s: System, move: Move): System
    requires Enabled(s, move)
  {
    match move
    case Poll(step) =>
      System(P.Apply(s.poller, step),
             if QueuesSome(s.poller, step) then Given(s.worker, s.poller.submissions[step.sid].u) else s.worker)
    case Work(step) =>
      var w := Q.Apply(s.worker, step);
      System(Seen(s.poller, w.q), w)
    case Elsewhere(history, queries) =>
      var st := s.poller.store;
      System(P.Apply(s.poller, P.Others(history, queries, st.interactive, st.scheduled, st.inflight)), s.worker)
    case Crash => System(P.Apply(s.poller, P.Crash), Q.Apply(s.worker, Q.Crash))
  }

  ghost predicate Runs(s: System, moves: seq<Move>, t: System)
    decreases |moves|
  {
    if moves == [] then s == t else Enabled(s, moves[0]) && Runs(Apply(s, moves[0]), moves[1..], t)
  }

  // ---- What every run keeps ----

  ghost predicate Joined(s: System) {
    && s.poller.store.interactive == Entries(s.worker.q.interactive)
    && s.poller.store.scheduled == Entries(s.worker.q.scheduled)
    && s.poller.store.inflight == Entries(s.worker.q.inflight)
  }

  /** The jobs with even ids are those of the updates queued. */
  ghost predicate Linked(s: System) {
    && (forall u | s.poller.store.queued[u] > 0 :: JobId(u) in s.worker.jobs && s.worker.jobs[JobId(u)] == TelegramJob(u))
    && (forall id <- s.worker.jobs :: id % 2 == 0 ==> s.poller.store.queued[id / 2] > 0)
  }

  /** Each side is in a run of its own, and they agree. */
  ghost predicate Sound(s: System) {
    I.Reaches(P.Init, s.poller) && M.Reaches(Q.Init, s.worker) && Joined(s) && Linked(s)
  }

  lemma PollerIsTidy(s: System)
    requires Sound(s)
    ensures B.Tidy(s.poller)
  {
    var steps :| P.Runs(P.Init, steps, s.poller);
    B.ReachableIsTidy(steps, s.poller);
  }

  /** What one command does to the lists and to the count of jobs appended. */
  lemma CommandQueues(s: S.Store, u: int, l: S.Local)
    ensures var (s', l') := S.SubmitStep(s, u, l);
            && s'.scheduled == s.scheduled && s'.inflight == s.inflight
            && if l.At? && l.stage == S.Stats && u in s.records && s.records[u].stage == S.Stats then
                 s'.interactive == s.interactive + [S.FromUpdate(u)] && s'.queued == s.queued + multiset{u}
               else s'.interactive == s.interactive && s'.queued == s.queued
  {
    if l.Start? && u !in s.records { S.EvictEffect(S.Indexed(s, u)); }
  }

  lemma EntriesGrow(s: seq<Q.Envelope>, u: int)
    requires u > 0
    ensures Entries(s + [TelegramJob(u)]) == Entries(s) + [S.FromUpdate(u)]
  {
  }

  /** An update about to be queued has no job yet. */
  lemma NewJob(s: System, step: P.Step, u: int)
    requires Sound(s) && P.Enabled(s.poller, step) && Queues(s.poller, step, u)
    ensures u > 0 && JobId(u) !in s.worker.jobs && s.poller.store.queued[u] == 0
  {
    PollerIsTidy(s);
    assert S.Known(s.poller.store, u);
    assert S.Counts(s.poller.store, u) == S.Owed(S.Stats);
    hide I.Reaches, M.Reaches;
    assert JobId(u) % 2 == 0 && JobId(u) / 2 == u;
  }

  lemma GivenIs(w: Q.State, u: int)
    requires JobId(u) !in w.jobs
    ensures Q.Enabled(w, Q.Enqueue(TelegramJob(u)))
    ensures Given(w, u) == Q.Apply(w, Q.Enqueue(TelegramJob(u)))
    ensures Given(w, u).q == w.q.(interactive := w.q.interactive + [TelegramJob(u)])
    ensures Given(w, u).jobs == w.jobs[JobId(u) := TelegramJob(u)]
  {
  }

  lemma PollQueues(s: System, step: P.Step)
    requires Sound(s) && Enabled(s, Poll(step)) && QueuesSome(s.poller, step)
    ensures Sound(Apply(s, Poll(step)))
  {
    var u := s.poller.submissions[step.sid].u;
    NewJob(s, step, u);
    CommandQueues(s.poller.store, u, s.poller.submissions[step.sid].local);
    GivenIs(s.worker, u);
    EntriesGrow(s.worker.q.interactive, u);
    I.ReachesStep(P.Init, s.poller, step);
    M.ReachesStep(Q.Init, s.worker, Q.Enqueue(TelegramJob(u)));
    hide I.Reaches, M.Reaches, Given;
    var t := Apply(s, Poll(step));
    assert t.poller.store.queued == s.poller.store.queued + multiset{u};
    forall v | t.poller.store.queued[v] > 0
      ensures JobId(v) in t.worker.jobs && t.worker.jobs[JobId(v)] == TelegramJob(v)
    {
      if v != u { assert s.poller.store.queued[v] > 0; KnownIsPositive(s, v); }
    }
  }

  lemma KnownIsPositive(s: System, v: int)
    requires Sound(s) && s.poller.store.queued[v] > 0
    ensures v > 0
  {
    PollerIsTidy(s);
    S.AtMostOnce(s.poller.store, s.poller.next, v);
    assert S.Known(s.poller.store, v);
  }

  lemma PollQuietly(s: System, step: P.Step)
    requires Sound(s) && Enabled(s, Poll(step)) && !QueuesSome(s.poller, step)
    ensures Sound(Apply(s, Poll(step)))
  {
    I.ReachesStep(P.Init, s.poller, step);
    hide I.Reaches, M.Reaches;
    if step.Submit? {
      CommandQueues(s.poller.store, s.poller.phase.u, S.Start);
    } else if step.Command? {
      CommandQueues(s.poller.store, s.poller.submissions[step.sid].u, s.poller.submissions[step.sid].local);
    }
  }

  lemma WorkJobs(w: Q.State, step: Q.Step)
    requires Q.Enabled(w, step)
    ensures Q.Apply(w, step).jobs == if step.Enqueue? then w.jobs[step.env.id := Q.Normalize(step.env)] else w.jobs
  {
  }

  lemma SeenIs(p: P.State, q: Q.Queue)
    ensures Seen(p, q) == p.(store := p.store.(interactive := Entries(q.interactive), scheduled := Entries(q.scheduled),
                                               inflight := Entries(q.inflight)))
  {
  }

  lemma WorkReaches(s: System, step: Q.Step)
    requires Sound(s) && Enabled(s, Work(step))
    ensures M.Reaches(Q.Init, Q.Apply(s.worker, step)) && I.Reaches(P.Init, Seen(s.poller, Q.Apply(s.worker, step).q))
  {
    hide I.Reaches, M.Reaches, Q.Apply;
    var w := Q.Apply(s.worker, step);
    M.ReachesStep(Q.Init, s.worker, step);
    I.ReachesStep(P.Init, s.poller, P.Others(s.poller.store.history, s.poller.store.queries,
                                             Entries(w.q.interactive), Entries(w.q.scheduled), Entries(w.q.inflight)));
  }

  lemma LinkedStays(s: System, t: System, step: Q.Step)
    requires Linked(s) && t.poller.store.queued == s.poller.store.queued && (step.Enqueue? ==> step.env.id % 2 == 1)
    requires t.worker.jobs == if step.Enqueue? then s.worker.jobs[step.env.id := Q.Normalize(step.env)] else s.worker.jobs
    ensures Linked(t)
  {
    hide JobId, TelegramJob, Q.Normalize;
    forall u | t.poller.store.queued[u] > 0
      ensures JobId(u) in t.worker.jobs && t.worker.jobs[JobId(u)] == TelegramJob(u)
    {
      IsEven(u);
    }
    forall id | id in t.worker.jobs && id % 2 == 0 ensures s.poller.store.queued[id / 2] > 0 {
      assert id in s.worker.jobs;
    }
  }

  lemma IsEven(u: int)
    ensures JobId(u) % 2 == 0
  {
  }

  lemma WorkKeeps(s: System, step: Q.Step)
    requires Sound(s) && Enabled(s, Work(step))
    ensures Sound(Apply(s, Work(step)))
  {
    WorkReaches(s, step);
    var w := Q.Apply(s.worker, step);
    SeenIs(s.poller, w.q);
    WorkJobs(s.worker, step);
    hide I.Reaches, M.Reaches, Q.Apply, Q.Enabled, Entries, Seen, Linked;
    LinkedStays(s, System(Seen(s.poller, w.q), w), step);
  }

  lemma MoveKeeps(s: System, move: Move)
    requires Sound(s) && Enabled(s, move)
    ensures Sound(Apply(s, move))
  {
    match move
    case Poll(step) =>
      if QueuesSome(s.poller, step) { PollQueues(s, step); } else { PollQuietly(s, step); }
    case Work(step) => WorkKeeps(s, step);
    case Elsewhere(history, queries) =>
      var st := s.poller.store;
      I.ReachesStep(P.Init, s.poller, P.Others(history, queries, st.interactive, st.scheduled, st.inflight));
    case Crash =>
      I.ReachesStep(P.Init, s.poller, P.Crash);
      M.ReachesStep(Q.Init, s.worker, Q.Crash);
  }

  lemma {:induction false} RunKeepsSound(s: System, moves: seq<Move>, t: System)
    requires Sound(s) && Runs(s, moves, t)
    ensures Sound(t)
    decreases |moves|
  {
    hide Sound, Apply;
    if moves != [] {
      MoveKeeps(s, moves[0]);
      RunKeepsSound(Apply(s, moves[0]), moves[1..], t);
    }
  }

  /** End to end: in every run of poller and worker, with crashes between any two commands, the job of
      each accepted update is waiting, in flight or finished; nobody can withdraw it; and it is executed
      at most (C + 1) * 2 + 1 times. */
  lemma AcceptedIsWorked(moves: seq<Move>, t: System, u: int)
    requires Runs(Init, moves, t) && u in t.poller.accepted
    ensures JobId(u) in t.worker.jobs && t.worker.jobs[JobId(u)] == TelegramJob(u) && JobId(u) !in t.worker.removed
    ensures || (exists e :: e in t.worker.q.interactive + t.worker.q.scheduled + t.worker.q.inflight && e.id == JobId(u))
            || JobId(u) in t.worker.q.finished
    ensures t.worker.q.started[JobId(u)] <= (t.worker.crashes + 1) * Q.DEFAULT_RETRIES + 1
  {
    StartsSound();
    RunKeepsSound(Init, moves, t);
    PollerIsTidy(t);
    assert S.Counts(t.poller.store, u) == (1, 1, 1);
    var steps :| Q.Runs(Q.Init, steps, t.worker);
    Q.NoJobIsLost(steps, t.worker, JobId(u));
    JobBounds.ExecutionBound(steps, t.worker, JobId(u));
  }

  lemma StartsSound()
    ensures Sound(Init)
  {
    I.ReachesSelf(P.Init);
    M.ReachesSelf(Q.Init);
  }
}
