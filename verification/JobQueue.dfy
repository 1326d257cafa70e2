/** The reliable job queue. */
module JobQueue {
  // Two ready lists, one in-flight slot and a sequential worker.  One step is one Valkey command, so a
  // crash may fall between any two commands.  `started` counts executions per job, `finished` holds
  // the jobs for which a terminal record was ever written and `removed` the jobs taken out of a ready
  // list because the connection they belong to had ended, or had asked for it.

  const DONE_CAP: nat := 200
  const DEAD_CAP: nat := 100
  const DEFAULT_RETRIES: nat := 2

  datatype Option<T> = None | Some(value: T)

  datatype Priority = Interactive | Scheduled

  datatype Envelope = Envelope(
    id: nat,
    priority: Priority,
    notBefore: int,
    attempts: nat,
    maxRetries: nat,
    kind: string,
    connection: Option<nat>)       // the connection the job belongs to, if any

  datatype Terminal = Terminal(env: Envelope, ok: bool)

  datatype Queue = Queue(
    interactive: seq<Envelope>,
    scheduled: seq<Envelope>,
    inflight: seq<Envelope>,
    since: Option<int>,
    done: seq<Terminal>,
    dead: seq<Envelope>,
    started: multiset<nat>,
    finished: set<nat>)

  const EmptyQueue := Queue([], [], [], None, [], [], multiset{}, {})

  /** Where the worker stands: the command it issues next. */
  datatype Pc =
    | Down
    | Recover                                  // LRANGE inflight
    | Poll(list: Priority)                     // LMOVE list -> inflight
    | Moved(env: Envelope, list: Priority)     // SET inflight-since
    | Stamped(env: Envelope, list: Priority)   // due: execute; not yet: RPUSH back
    | Running(env: Envelope)
    | WriteDone(env: Envelope, ok: bool)       // RPUSH done
    | TrimDone                                 // LTRIM done
    | Retry(env: Envelope)                     // RPUSH ready
    | WriteDead(env: Envelope)                 // RPUSH dead
    | TrimDead(env: Envelope)                  // LTRIM dead
    | Clear(next: Priority)                    // DEL inflight

  function Ready(q: Queue, list: Priority): seq<Envelope> {
    if list == Interactive then q.interactive else q.scheduled
  }

  function PutReady(q: Queue, list: Priority, items: seq<Envelope>): Queue {
    if list == Interactive then q.(interactive := items) else q.(scheduled := items)
  }

  function Push(q: Queue, env: Envelope): Queue {
    PutReady(q, env.priority, Ready(q, env.priority) + [env])
  }

  function Newest<T>(s: seq<T>, cap: nat): seq<T> {
    if |s| <= cap then s else s[|s| - cap..]
  }

  /** The next list `acquire` looks at; after the scheduled list it gives up until the next poll. */
  function After(list: Priority): Priority { if list == Interactive then Scheduled else Interactive }

  function Attempted(env: Envelope): Envelope { env.(attempts := env.attempts + 1) }

  /** `nack`: another attempt, or the dead list once the retries are used up. */
  function Nack(env: Envelope): Pc {
    var env' := Attempted(env);
    if env'.attempts > env'.maxRetries then WriteDead(env') else Retry(env')
  }

  /** The worker's next command. */
  function Exec(q: Queue, pc: Pc, now: int): (Queue, Pc) {
    match pc
    case Down => (q, Down)
    case Recover => (q, if q.inflight == [] then Poll(Interactive) else Nack(q.inflight[0]))
    case Poll(list) =>
      var items := Ready(q, list);
      if items == [] then (q, Poll(After(list)))
      else (PutReady(q, list, items[1..]).(inflight := [items[0]] + q.inflight), Moved(items[0], list))
    case Moved(env, list) => (q.(since := Some(now)), Stamped(env, list))
    case Stamped(env, list) =>
      if now < env.notBefore then (Push(q, env), Clear(After(list)))
      else (q.(started := q.started + multiset{env.id}), Running(env))
    case Running(_) => (q, pc)
    case WriteDone(env, ok) =>
      (q.(done := q.done + [Terminal(env, ok)], finished := q.finished + {env.id}), TrimDone)
    case TrimDone => (q.(done := Newest(q.done, DONE_CAP)), Clear(Interactive))
    case Retry(env) => (Push(q, env), Clear(Interactive))
    case WriteDead(env) => (q.(dead := q.dead + [env]), TrimDead(env))
    case TrimDead(env) => (q.(dead := Newest(q.dead, DEAD_CAP)), WriteDone(env, false))
    case Clear(next) => (q.(inflight := [], since := None), Poll(next))
  }

  datatype Outcome = Succeeded | Failed | Cancelled

  /** What `runOne` does with the executor's outcome. */
  function Conclude(env: Envelope, outcome: Outcome): Pc {
    match outcome
    case Succeeded => WriteDone(env, true)
    case Cancelled => WriteDone(env, false)
    case Failed => Nack(env)
  }

  /** LREM key 0 item. */
  function RemoveAll(s: seq<Envelope>, env: Envelope): seq<Envelope> {
    if s == [] then [] else (if s[0] == env then [] else [s[0]]) + RemoveAll(s[1..], env)
  }

  function Normalize(env: Envelope): Envelope {
    if env.maxRetries == 0 then env.(maxRetries := DEFAULT_RETRIES) else env
  }

  // ---- Runs ----

  /** What a connection takes back: all its jobs when it ends, or those of one kind when it asks. */
  datatype Withdrawal = Withdrawal(connection: nat, kind: Option<string>)

  predicate Covers(w: Withdrawal, env: Envelope) {
    env.connection == Some(w.connection) && (w.kind.None? || w.kind == Some(env.kind))
  }

  predicate Withdrawn(withdrawals: set<Withdrawal>, env: Envelope) {
    exists w <- withdrawals :: Covers(w, env)
  }

  datatype State = State(
    q: Queue,
    pc: Pc,
    jobs: map<nat, Envelope>,      // every job ever enqueued, as enqueued
    withdrawals: set<Withdrawal>,  // every one there ever was
    removed: set<nat>,
    crashes: nat)

  const Init := State(EmptyQueue, Down, map[], {}, {}, 0)

  datatype Step =
    | Enqueue(env: Envelope)
    | Command(now: int)
    | Finish(outcome: Outcome)
    | Withdraw(withdrawal: Withdrawal)
    | Remove(list: Priority, env: Envelope)
    | Crash
    | Boot

  predicate Enabled(s: State, step: Step) {
    match step
    case Enqueue(env) => env.id !in s.jobs && env.attempts == 0
    case Command(_) => !s.pc.Down? && !s.pc.Running?
    case Finish(_) => s.pc.Running?
    case Withdraw(_) => true
    case Remove(_, env) => Withdrawn(s.withdrawals, env)
    case Crash => true
    case Boot => s.pc.Down?
  }

  function Apply(s: State, step: Step): State
    requires Enabled(s, step)
  {
    match step
    case Enqueue(env) =>
      var job := Normalize(env);
      s.(q := Push(s.q, job), jobs := s.jobs[job.id := job])
    case Command(now) =>
      var (q', pc') := Exec(s.q, s.pc, now);
      s.(q := q', pc := pc')
    case Finish(outcome) => s.(pc := Conclude(s.pc.env, outcome))
    case Withdraw(w) => s.(withdrawals := s.withdrawals + {w})
    case Remove(list, env) =>
      s.(q := PutReady(s.q, list, RemoveAll(Ready(s.q, list), env)),
         removed := if env in Ready(s.q, list) then s.removed + {env.id} else s.removed)
    case Crash => s.(pc := Down, crashes := s.crashes + 1)
    case Boot => s.(pc := Recover)
  }

  predicate Runs(s: State, steps: seq<Step>, t: State)
    decreases |steps|
  {
    if steps == [] then s == t
    else Enabled(s, steps[0]) && Runs(Apply(s, steps[0]), steps[1..], t)
  }

  // ---- Sequences of envelopes ----

  lemma {:induction false} RemoveAllMembers(s: seq<Envelope>, env: Envelope)
    ensures forall e :: e in RemoveAll(s, env) <==> e in s && e != env
  {
    if s != [] {
      RemoveAllMembers(s[1..], env);
      assert s == [s[0]] + s[1..];
    }
  }

  // ---- Conservation ----

  /** Every copy of a job is the enqueued envelope with its own attempt count, within the retries. */
  ghost predicate Genuine(s: State, e: Envelope) {
    && e.id in s.jobs
    && e == s.jobs[e.id].(attempts := e.attempts)
    && e.attempts <= e.maxRetries
  }

  ghost predicate AllGenuine(s: State) {
    && (forall id <- s.jobs :: s.jobs[id].id == id)
    && (forall e <- s.q.interactive :: Genuine(s, e))
    && (forall e <- s.q.scheduled :: Genuine(s, e))
    && (forall e <- s.q.inflight :: Genuine(s, e))
  }

  /** The job is waiting, or was finished, or was withdrawn by its own connection. */
  ghost predicate SafeOutsideInflight(s: State, id: nat) {
    || (exists e <- s.q.interactive :: e.id == id)
    || (exists e <- s.q.scheduled :: e.id == id)
    || id in s.q.finished
    || id in s.removed
  }

  ghost predicate Safe(s: State, id: nat) {
    SafeOutsideInflight(s, id) || exists e <- s.q.inflight :: e.id == id
  }

  /** What the worker's position says about the in-flight slot. */
  ghost predicate SlotSound(s: State) {
    && |s.q.inflight| <= 1
    && match s.pc
       case Down => true
       case Recover => true
       case Poll(_) => s.q.inflight == []
       case Moved(env, _) => s.q.inflight == [env]
       case Stamped(env, _) => s.q.inflight == [env]
       case Running(env) => s.q.inflight == [env]
       case WriteDone(env, _) => |s.q.inflight| == 1 && env.id == s.q.inflight[0].id
                                 && (env == s.q.inflight[0] || Nack(s.q.inflight[0]) == WriteDead(env))
       case TrimDone => |s.q.inflight| == 1 && s.q.inflight[0].id in s.q.finished
       case Retry(env) => |s.q.inflight| == 1 && Nack(s.q.inflight[0]) == Retry(env)
       case WriteDead(env) => |s.q.inflight| == 1 && Nack(s.q.inflight[0]) == WriteDead(env)
       case TrimDead(env) => |s.q.inflight| == 1 && Nack(s.q.inflight[0]) == WriteDead(env)
       case Clear(_) => |s.q.inflight| == 1 && SafeOutsideInflight(s, s.q.inflight[0].id)
  }

  ghost predicate RemovedByOwner(s: State) {
    forall id <- s.removed :: id in s.jobs && Withdrawn(s.withdrawals, s.jobs[id])
  }

  ghost predicate Inv(s: State) {
    && AllGenuine(s) && SlotSound(s) && RemovedByOwner(s)
    && (forall id <- s.jobs :: Safe(s, id))
  }

  lemma EnqueueKeeps(s: State, env: Envelope)
    requires Inv(s) && Enabled(s, Enqueue(env))
    ensures Inv(Apply(s, Enqueue(env)))
  {
    hide Withdrawn;
    var t := Apply(s, Enqueue(env));
    var job := Normalize(env);
    forall e | Genuine(s, e) ensures Genuine(t, e) {}
  }

  lemma PollKeeps(s: State, now: int)
    requires Inv(s) && s.pc.Poll?
    ensures Inv(Apply(s, Command(now)))
  {
    var t := Apply(s, Command(now));
    var items := Ready(s.q, s.pc.list);
    if items != [] {
      assert items == [items[0]] + items[1..];
      assert forall e :: e in t.q.interactive ==> e in s.q.interactive;
      assert forall e :: e in t.q.scheduled ==> e in s.q.scheduled;
      assert t.q.inflight == [items[0]] && Genuine(s, items[0]);
      forall e | Genuine(s, e) ensures Genuine(t, e) {}
      forall id | id in t.jobs ensures Safe(t, id) {
        assert Safe(s, id);
        if exists e <- items :: e.id == id {
          var e :| e in items && e.id == id;
          assert e == items[0] || e in items[1..];
        }
      }
    }
  }

  lemma PushingKeeps(s: State, now: int)
    requires Inv(s) && (s.pc.Retry? || (s.pc.Stamped? && now < s.pc.env.notBefore))
    ensures Inv(Apply(s, Command(now)))
  {
    var t := Apply(s, Command(now));
    assert s.q.inflight[0] in s.q.inflight;
  }

  lemma CommandKeeps(s: State, now: int)
    requires Inv(s) && Enabled(s, Command(now))
    ensures Inv(Apply(s, Command(now)))
  {
    if s.pc.Poll? {
      PollKeeps(s, now);
    } else if s.pc.Retry? || (s.pc.Stamped? && now < s.pc.env.notBefore) {
      PushingKeeps(s, now);
    } else {
      forall id | id in s.jobs ensures Safe(Apply(s, Command(now)), id) { assert Safe(s, id); }
    }
  }

  lemma RemoveKeeps(s: State, list: Priority, env: Envelope)
    requires Inv(s) && Enabled(s, Remove(list, env))
    ensures Inv(Apply(s, Remove(list, env)))
  {
    var t := Apply(s, Remove(list, env));
    RemoveAllMembers(Ready(s.q, list), env);
    forall id | SafeOutsideInflight(s, id) ensures SafeOutsideInflight(t, id) {
      if exists e <- Ready(s.q, list) :: e.id == id {
        var e :| e in Ready(s.q, list) && e.id == id;
        if e != env { assert e in Ready(t.q, list); }
      }
    }
    forall id | id in t.jobs ensures Safe(t, id) { assert Safe(s, id); }
  }

  lemma StepKeepsInv(s: State, step: Step)
    requires Inv(s) && Enabled(s, step)
    ensures Inv(Apply(s, step))
  {
    if step.Enqueue? {
      EnqueueKeeps(s, step.env);
    } else if step.Command? {
      CommandKeeps(s, step.now);
    } else if step.Remove? {
      RemoveKeeps(s, step.list, step.env);
    } else {
      forall id | id in s.jobs ensures Safe(Apply(s, step), id) { assert Safe(s, id); }
    }
  }

  lemma {:induction false} RunKeepsInv(s: State, steps: seq<Step>, t: State)
    requires Inv(s) && Runs(s, steps, t)
    ensures Inv(t)
    decreases |steps|
  {
    if steps != [] {
      StepKeepsInv(s, steps[0]);
      RunKeepsInv(Apply(s, steps[0]), steps[1..], t);
    }
  }

  /** Conservation: in every reachable state, whatever crashed between any two commands, each
      enqueued job is waiting, in flight, recorded as finished, or was removed; only jobs of a
      connection that ended, or that asked for jobs of that kind to be dropped, are ever removed; and
      at most one job is in flight. */
  lemma NoJobIsLost(steps: seq<Step>, t: State, id: nat)
    requires Runs(Init, steps, t) && id in t.jobs
    ensures |t.q.inflight| <= 1
    ensures || (exists e :: e in t.q.interactive + t.q.scheduled + t.q.inflight && e.id == id)
            || id in t.q.finished || id in t.removed
    ensures id in t.removed ==>
              exists w <- t.withdrawals ::
                t.jobs[id].connection == Some(w.connection) && (w.kind.None? || w.kind == Some(t.jobs[id].kind))
  {
    RunKeepsInv(Init, steps, t);
    assert Safe(t, id);
    if id !in t.q.finished && id !in t.removed {
      var e: Envelope :| e.id == id && (e in t.q.interactive || e in t.q.scheduled || e in t.q.inflight);
      assert e in t.q.interactive + t.q.scheduled + t.q.inflight;
    }
  }
}
