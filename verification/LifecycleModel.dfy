/** The lifecycle marker. */
module LifecycleModel {
  // The marker file and the notifications it accounts for.  The marker is replaced atomically and
  // notifications are created idempotently by id.  One step is one durable action, so a crash may fall
  // between any two.  The clock never goes back, ids are fresh, and a notification stays retained until
  // its marker has been replaced.

  datatype Option<T> = None | Some(value: T)

  const GRACE_MS: int := 300000
  const RESTART_MS: int := 120000

  datatype Kind = UncleanStartup | CleanShutdown | RestartShutdown | RestartComplete

  /** A notification, and the run it is about. */
  datatype Note = Note(id: nat, kind: Kind, run: nat, occurredAt: int, createdAt: int)

  datatype Phase = Running | PlannedRestart | CleanPending | Clean

  datatype Reason = NoReason | ContainerStop | ConfigRestart | UncleanRecovery | ConfigRestartStartup

  datatype Marker = Marker(
    phase: Phase,
    run: nat,
    startedAt: int,
    updatedAt: int,
    reason: Reason,
    deadline: int,
    notification: Option<nat>,
    pending: Option<Note>)

  function Announces(reason: Reason): Option<Kind> {
    match reason
    case UncleanRecovery => Some(UncleanStartup)
    case ContainerStop => Some(CleanShutdown)
    case ConfigRestart => Some(RestartShutdown)
    case ConfigRestartStartup => Some(RestartComplete)
    case NoReason => None
  }

  predicate ValidNote(n: Note) { n.createdAt > 0 && n.occurredAt <= n.createdAt + GRACE_MS }

  /** `validateLifecycleMarker`. */
  predicate ValidMarker(m: Marker) {
    && m.startedAt > 0 && m.updatedAt >= m.startedAt
    && match m.phase
       case Running => m.reason == NoReason && m.deadline == 0 && m.notification.None? && m.pending.None?
       case PlannedRestart =>
         m.reason == ConfigRestart && m.deadline == m.updatedAt + RESTART_MS && m.notification.None? && m.pending.None?
       case Clean =>
         m.reason in {ContainerStop, ConfigRestart} && m.deadline == 0 && m.notification.Some? && m.pending.None?
       case CleanPending =>
         && m.deadline == 0 && m.pending.Some? && m.notification == Some(m.pending.value.id)
         && ValidNote(m.pending.value) && Announces(m.reason) == Some(m.pending.value.kind)
  }

  // ---- The markers the program writes ----

  function RunningMarker(run: nat, now: int): Marker {
    Marker(Running, run, now, now, NoReason, 0, None, None)
  }

  function PlannedMarker(previous: Marker, now: int): Marker {
    previous.(phase := PlannedRestart, reason := ConfigRestart, updatedAt := now, deadline := now + RESTART_MS,
              notification := None, pending := None)
  }

  function PendingMarker(previous: Marker, reason: Reason, note: Note, now: int): Marker {
    Marker(CleanPending, previous.run, previous.startedAt, now, reason, 0, Some(note.id), Some(note))
  }

  /** `uncleanRecovery`: the note is dated by the previous marker unless that lies in the future. */
  function UncleanMarker(previous: Marker, id: nat, now: int): Marker {
    var occurred := if 0 < previous.updatedAt <= now + GRACE_MS then previous.updatedAt else now;
    PendingMarker(previous, UncleanRecovery, Note(id, UncleanStartup, previous.run, occurred, now), now)
  }

  /** `restartComplete`. */
  function RestartMarker(previous: Marker, id: nat, now: int): Marker {
    PendingMarker(previous, ConfigRestartStartup, Note(id, RestartComplete, previous.run, now, now), now)
  }

  predicate PlannedInTime(m: Marker, now: int) { m.phase == PlannedRestart && m.deadline >= now - GRACE_MS }

  /** `Shutdown`. */
  function StopMarker(m: Marker, id: nat, now: int): Marker {
    if PlannedInTime(m, now) then PendingMarker(m, ConfigRestart, Note(id, RestartShutdown, m.run, now, now), now)
    else PendingMarker(m, ContainerStop, Note(id, CleanShutdown, m.run, now, now), now)
  }

  // ---- Steps ----

  datatype Pc =
    | Down
    | Replay(previous: Marker, bootedAt: int)      // create the note the marker carries
    | WritePending(marker: Marker, bootedAt: int)  // replace the marker
    | CreatePending(note: Note, bootedAt: int)     // create the note just promised
    | WriteRunning(bootedAt: int)                  // replace the marker by a running one
    | Up
    | StopPending(marker: Marker)
    | StopCreate(marker: Marker)
    | StopClean(marker: Marker)

  datatype State = State(
    marker: Option<Marker>,
    created: map<nat, Note>,
    clock: int,
    nextId: nat,
    pc: Pc,
    emitted: multiset<(Kind, nat)>,   // notifications actually created, by kind and run
    runs: set<nat>,
    died: set<nat>,                   // the process ended while the marker said running
    lapsed: set<nat>,                 // a planned restart that came too late
    restarted: set<nat>,              // a configuration restart
    stopped: set<nat>)                // an ordinary clean stop

  datatype Step = Tick(ms: nat) | Boot | Act | PlanRestart | Shutdown | Crash

  function Create(s: State, note: Note): State {
    if note.id in s.created then s
    else s.(created := s.created[note.id := note], emitted := s.emitted + multiset{(note.kind, note.run)})
  }

  /** A run is in progress and has not yet promised its own end. */
  predicate Alive(pc: Pc) { pc == Up || pc.StopPending? }

  predicate Enabled(s: State, step: Step) {
    match step
    case Tick(_) => true
    case Boot => s.pc == Down
    case Act => s.pc != Down && s.pc != Up
    case PlanRestart => s.pc == Up && s.marker.Some? && s.marker.value.phase == Running
    case Shutdown => s.pc == Up && s.marker.Some?
    case Crash => s.pc != Down
  }

  /** The decision `Startup` takes. */
  function Decide(s: State): State {
    var now := s.clock;
    match s.marker
    case None => s.(pc := WriteRunning(now))
    case Some(m) =>
      if m.phase == CleanPending then s.(pc := Replay(m, now))
      else if m.phase == Clean && m.reason != ConfigRestart then s.(pc := WriteRunning(now))
      else if m.phase == Clean || PlannedInTime(m, now) then
        s.(pc := WritePending(RestartMarker(m, s.nextId, now), now), nextId := s.nextId + 1)
      else s.(pc := WritePending(UncleanMarker(m, s.nextId, now), now), nextId := s.nextId + 1)
  }

  /** The bookkeeping that goes with promising `m` in place of the current marker. */
  function Account(s: State, m: Marker): State {
    if s.marker.Some? && s.marker.value.phase == PlannedRestart then
      if m.reason == UncleanRecovery then s.(lapsed := s.lapsed + {m.run}) else s.(restarted := s.restarted + {m.run})
    else s
  }

  function Act1(s: State): State
    requires Enabled(s, Act)
  {
    match s.pc
    case Replay(previous, bootedAt) =>
      var t := if previous.pending.Some? then Create(s, previous.pending.value) else s;
      if previous.reason == ConfigRestart then
        t.(pc := WritePending(RestartMarker(previous, s.nextId, s.clock), bootedAt), nextId := s.nextId + 1)
      else t.(pc := WriteRunning(bootedAt))
    case WritePending(m, bootedAt) =>
      var next := if m.pending.Some? then CreatePending(m.pending.value, bootedAt) else WriteRunning(bootedAt);
      Account(s, m).(marker := Some(m), pc := next)
    case CreatePending(note, bootedAt) => Create(s, note).(pc := WriteRunning(bootedAt))
    case WriteRunning(bootedAt) =>
      s.(marker := Some(RunningMarker(s.nextId, bootedAt)), runs := s.runs + {s.nextId}, nextId := s.nextId + 1, pc := Up)
    case StopPending(m) =>
      var t := if m.reason == ConfigRestart then s.(restarted := s.restarted + {m.run})
               else s.(stopped := s.stopped + {m.run});
      t.(marker := Some(m), pc := StopCreate(m))
    case StopCreate(m) => (if m.pending.Some? then Create(s, m.pending.value) else s).(pc := StopClean(m))
    case StopClean(m) => s.(marker := Some(m.(phase := Clean, pending := None)), pc := Down)
  }

  function Apply(s: State, step: Step): State
    requires Enabled(s, step)
  {
    match step
    case Tick(ms) => s.(clock := s.clock + ms)
    case Boot => Decide(s)
    case Act => Act1(s)
    case PlanRestart => s.(marker := Some(PlannedMarker(s.marker.value, s.clock)))
    case Shutdown => s.(pc := StopPending(StopMarker(s.marker.value, s.nextId, s.clock)), nextId := s.nextId + 1)
    case Crash =>
      var t := s.(pc := Down);
      if Alive(s.pc) && s.marker.Some? && s.marker.value.phase == Running then
        t.(died := s.died + {s.marker.value.run})
      else t
  }

  predicate Runs(s: State, steps: seq<Step>, t: State)
    decreases |steps|
  {
    if steps == [] then s == t
    else Enabled(s, steps[0]) && Runs(Apply(s, steps[0]), steps[1..], t)
  }

  const Init := State(None, map[], 1, 0, Down, multiset{}, {}, {}, {}, {}, {})

  // ---- The invariant ----

  function Bit(b: bool): nat { if b then 1 else 0 }

  /** The run ended in exactly one way. */
  predicate EndedOnce(s: State, r: nat) {
    Bit(r in s.died) + Bit(r in s.lapsed) + Bit(r in s.restarted) + Bit(r in s.stopped) == 1
  }

  /** Every notification the run's end calls for was created exactly once, and no other. */
  predicate Settled(s: State, r: nat) {
    && EndedOnce(s, r)
    && s.emitted[(UncleanStartup, r)] == Bit(r in s.died || r in s.lapsed)
    && s.emitted[(RestartComplete, r)] == Bit(r in s.restarted)
    && s.emitted[(CleanShutdown, r)] == Bit(r in s.stopped)
  }

  predicate Unended(s: State, r: nat) {
    r !in s.died && r !in s.lapsed && r !in s.restarted && r !in s.stopped
  }

  predicate Counts(s: State, r: nat, unclean: nat, restart: nat, clean: nat) {
    s.emitted[(UncleanStartup, r)] == unclean && s.emitted[(RestartComplete, r)] == restart
    && s.emitted[(CleanShutdown, r)] == clean
  }

  function Created(s: State, m: Marker): nat {
    Bit(m.pending.Some? && m.pending.value.id in s.created)
  }

  /** What has been accounted for, for the run the marker is about. */
  predicate MarkerSound(s: State, m: Marker) {
    var r := m.run;
    match m.phase
    case Running =>
      && r !in s.lapsed && r !in s.restarted && r !in s.stopped && Counts(s, r, 0, 0, 0)
      && (r in s.died <==> !Alive(s.pc))
    case PlannedRestart => Unended(s, r) && Counts(s, r, 0, 0, 0)
    case CleanPending =>
      && EndedOnce(s, r)
      && (match m.reason
          case UncleanRecovery => (r in s.died || r in s.lapsed) && Counts(s, r, Created(s, m), 0, 0)
          case ContainerStop => r in s.stopped && Counts(s, r, 0, 0, Created(s, m))
          case ConfigRestart => r in s.restarted && Counts(s, r, 0, 0, 0)
          case ConfigRestartStartup => r in s.restarted && Counts(s, r, 0, Created(s, m), 0)
          case NoReason => false)
    case Clean =>
      && EndedOnce(s, r)
      && (if m.reason == ConfigRestart then r in s.restarted && Counts(s, r, 0, 0, 0) else Settled(s, r))
  }

  /** Ids are below the next one; a promised id belongs to the promised note alone. */
  predicate Promised(s: State, m: Marker) {
    m.pending.Some? && m.pending.value.id < s.nextId && m.pending.value.run == m.run
    && (m.pending.value.id in s.created ==> s.created[m.pending.value.id] == m.pending.value)
  }

  predicate FreshPromise(s: State, m: Marker) {
    && Promised(s, m) && m.phase == CleanPending && ValidMarker(m) && m.updatedAt <= s.clock
    && m.pending.value.id !in s.created
    && s.marker.Some? && s.marker.value.run == m.run
    && (s.marker.value.pending.Some? ==> s.marker.value.pending.value.id != m.pending.value.id)
  }

  predicate PcSound(s: State) {
    match s.pc
    case Down => true
    case Replay(previous, bootedAt) =>
      0 < bootedAt <= s.clock && s.marker == Some(previous) && previous.phase == CleanPending
    case WritePending(m, bootedAt) =>
      && 0 < bootedAt <= s.clock && FreshPromise(s, m)
      && (m.reason == UncleanRecovery ==> s.marker.value.phase in {Running, PlannedRestart})
      && (m.reason == ConfigRestartStartup ==>
            s.marker.value.phase != Running && s.marker.value.reason == ConfigRestart)
      && m.reason in {UncleanRecovery, ConfigRestartStartup}
    case CreatePending(note, bootedAt) =>
      && 0 < bootedAt <= s.clock && s.marker.Some?
      && s.marker.value.phase == CleanPending && s.marker.value.pending == Some(note)
      && s.marker.value.reason in {UncleanRecovery, ConfigRestartStartup}
    case WriteRunning(bootedAt) => 0 < bootedAt <= s.clock && (s.marker.Some? ==> Settled(s, s.marker.value.run))
    case Up => s.marker.Some? && s.marker.value.phase in {Running, PlannedRestart}
    case StopPending(m) =>
      && FreshPromise(s, m) && s.marker.value.phase in {Running, PlannedRestart}
      && m.reason in {ContainerStop, ConfigRestart}
    case StopCreate(m) => s.marker == Some(m) && m.phase == CleanPending && m.reason in {ContainerStop, ConfigRestart}
    case StopClean(m) =>
      && s.marker == Some(m) && m.phase == CleanPending && m.reason in {ContainerStop, ConfigRestart}
      && Created(s, m) == 1
  }

  ghost predicate IdsSound(s: State) {
    && s.clock > 0
    && (forall id <- s.created :: id < s.nextId)
    && (forall r <- s.runs :: r < s.nextId)
    && (forall r | r !in s.runs :: Unended(s, r) && Counts(s, r, 0, 0, 0))
  }

  ghost predicate OthersSettled(s: State) {
    forall r <- s.runs :: (s.marker.Some? && s.marker.value.run == r) || Settled(s, r)
  }

  ghost predicate MarkerInv(s: State) {
    match s.marker
    case None => s.runs == {}
    case Some(m) =>
      && ValidMarker(m) && m.updatedAt <= s.clock && m.run in s.runs && MarkerSound(s, m)
      && (m.phase == CleanPending ==> Promised(s, m))
  }

  ghost predicate Inv(s: State) {
    IdsSound(s) && OthersSettled(s) && PcSound(s) && MarkerInv(s)
  }

  /** The process moves on without touching anything durable. */
  lemma MovesKeep(s: State, t: State)
    requires Inv(s) && t == s.(pc := t.pc, nextId := t.nextId) && t.nextId >= s.nextId
    requires Alive(t.pc) == Alive(s.pc) && PcSound(t)
    ensures Inv(t)
  {
    hide PcSound, FreshPromise, ValidMarker;
    assert forall r :: Settled(t, r) == Settled(s, r);
  }

  /** Whatever marker the program writes next, it promises a note that does not exist yet. */
  lemma FreshMarkers(s: State, m: Marker)
    requires Inv(s) && s.marker == Some(m)
    ensures FreshPromise(s.(nextId := s.nextId + 1), UncleanMarker(m, s.nextId, s.clock))
    ensures FreshPromise(s.(nextId := s.nextId + 1), RestartMarker(m, s.nextId, s.clock))
    ensures FreshPromise(s.(nextId := s.nextId + 1), StopMarker(m, s.nextId, s.clock))
  {
    hide OthersSettled, PcSound, MarkerSound;
  }

  lemma FreshIgnoresPc(s: State, pc: Pc, m: Marker)
    requires FreshPromise(s, m)
    ensures FreshPromise(s.(pc := pc), m)
  {
  }

  lemma Reasons(m: Marker, id: nat, now: int)
    ensures RestartMarker(m, id, now).reason == ConfigRestartStartup && UncleanMarker(m, id, now).reason == UncleanRecovery
    ensures StopMarker(m, id, now).reason == if PlannedInTime(m, now) then ConfigRestart else ContainerStop
  {
  }

  lemma DecideRestart(s: State, m: Marker)
    requires Inv(s) && s.pc == Down && s.marker == Some(m)
    requires (m.phase == Clean && m.reason == ConfigRestart) || PlannedInTime(m, s.clock)
    ensures PcSound(Decide(s))
  {
    hide OthersSettled, FreshPromise, MarkerSound, RestartMarker;
    FreshMarkers(s, m);
    FreshIgnoresPc(s.(nextId := s.nextId + 1), Decide(s).pc, RestartMarker(m, s.nextId, s.clock));
    Reasons(m, s.nextId, s.clock);
  }

  lemma DecideUnclean(s: State, m: Marker)
    requires Inv(s) && s.pc == Down && s.marker == Some(m)
    requires m.phase == Running || (m.phase == PlannedRestart && !PlannedInTime(m, s.clock))
    ensures PcSound(Decide(s))
  {
    hide OthersSettled, FreshPromise, MarkerSound, UncleanMarker;
    FreshMarkers(s, m);
    FreshIgnoresPc(s.(nextId := s.nextId + 1), Decide(s).pc, UncleanMarker(m, s.nextId, s.clock));
    Reasons(m, s.nextId, s.clock);
  }

  lemma DecideQuiet(s: State)
    requires Inv(s) && s.pc == Down
    requires s.marker.Some? ==> s.marker.value.phase == CleanPending
                                || (s.marker.value.phase == Clean && s.marker.value.reason != ConfigRestart)
    ensures PcSound(Decide(s))
  {
    hide OthersSettled, FreshPromise, Counts;
  }

  lemma DecideKeeps(s: State)
    requires Inv(s) && s.pc == Down
    ensures Inv(Decide(s))
  {
    hide Inv, PcSound, UncleanMarker, RestartMarker;
    if s.marker.None? || s.marker.value.phase == CleanPending
       || (s.marker.value.phase == Clean && s.marker.value.reason != ConfigRestart) {
      DecideQuiet(s);
    } else if s.marker.value.phase == Clean || PlannedInTime(s.marker.value, s.clock) {
      DecideRestart(s, s.marker.value);
    } else {
      DecideUnclean(s, s.marker.value);
    }
    MovesKeep(s, Decide(s));
  }

  lemma ShutdownKeeps(s: State)
    requires Inv(s) && Enabled(s, Shutdown)
    ensures Inv(Apply(s, Shutdown))
  {
    hide OthersSettled, FreshPromise, MarkerSound, StopMarker, IdsSound, ValidMarker;
    var m := s.marker.value;
    var t := Apply(s, Shutdown);
    FreshMarkers(s, m);
    FreshIgnoresPc(s.(nextId := s.nextId + 1), t.pc, StopMarker(m, s.nextId, s.clock));
    assert StopMarker(m, s.nextId, s.clock).reason in {ContainerStop, ConfigRestart} by { Reasons(m, s.nextId, s.clock); }
    MovesKeep(s, t);
  }

  // ---- Durable actions ----

  lemma CreateEffect(s: State, m: Marker)
    requires Inv(s) && s.marker == Some(m) && m.phase == CleanPending
    ensures var note, t := m.pending.value, Create(s, m.pending.value);
            && note.run == m.run && note.id < s.nextId && Announces(m.reason) == Some(note.kind)
            && note.id in t.created && t.created[note.id] == note
            && t == s.(created := t.created, emitted := t.emitted)
            && t.emitted == (if note.id in s.created then s.emitted else s.emitted + multiset{(note.kind, m.run)})
            && (forall id :: id in t.created <==> id in s.created || id == note.id)
  {
    hide OthersSettled, PcSound, MarkerSound, Counts;
  }

  lemma CreateKeepsMarker(s: State, m: Marker)
    requires Inv(s) && s.marker == Some(m) && m.phase == CleanPending
    ensures MarkerInv(Create(s, m.pending.value)) && Created(Create(s, m.pending.value), m) == 1
  {
    hide OthersSettled, PcSound, IdsSound, Create;
    CreateEffect(s, m);
  }

  lemma CreateKeepsOthers(s: State, m: Marker)
    requires Inv(s) && s.marker == Some(m) && m.phase == CleanPending
    ensures IdsSound(Create(s, m.pending.value)) && OthersSettled(Create(s, m.pending.value))
  {
    hide PcSound, MarkerSound, Create;
    CreateEffect(s, m);
    var t := Create(s, m.pending.value);
    assert forall k, r | r != m.run :: t.emitted[(k, r)] == s.emitted[(k, r)];
  }

  /** Creating the promised note, whether or not an earlier attempt already did. */
  lemma CreateKeeps(s: State, m: Marker, pc: Pc)
    requires Inv(s) && s.marker == Some(m) && m.phase == CleanPending
    requires PcSound(Create(s, m.pending.value).(pc := pc))
    ensures Inv(Create(s, m.pending.value).(pc := pc))
  {
    hide PcSound, Create, Counts, Settled, EndedOnce;
    CreateKeepsMarker(s, m);
    CreateKeepsOthers(s, m);
    CreateEffect(s, m);
    var t := Create(s, m.pending.value);
    PcIrrelevant(t, pc);
  }

  lemma PcIrrelevant(s: State, pc: Pc)
    requires s.marker.Some? && s.marker.value.phase != Running
    ensures var t := s.(pc := pc);
            && (IdsSound(s) ==> IdsSound(t)) && (OthersSettled(s) ==> OthersSettled(t))
            && (MarkerInv(s) ==> MarkerInv(t))
  {
    var t := s.(pc := pc);
    assert forall r :: Settled(t, r) == Settled(s, r);
  }

  /** Once the promised note exists, the run is settled unless a restart is still to be announced. */
  lemma SettledOnceCreated(s: State, m: Marker)
    requires MarkerInv(s) && s.marker == Some(m) && m.phase == CleanPending && Created(s, m) == 1
    requires m.reason != ConfigRestart
    ensures Settled(s, m.run)
  {
  }

  /** What the invariant says at each place of the program. */
  lemma PcFacts(s: State)
    requires Inv(s)
    ensures s.pc.Replay? ==>
              && s.marker == Some(s.pc.previous) && s.pc.previous.phase == CleanPending && s.pc.previous.pending.Some?
              && 0 < s.pc.bootedAt <= s.clock
    ensures s.pc.CreatePending? ==>
              && s.marker.Some? && s.marker.value.phase == CleanPending && s.marker.value.pending == Some(s.pc.note)
              && s.marker.value.reason != ConfigRestart && 0 < s.pc.bootedAt <= s.clock
    ensures s.pc.StopCreate? ==> s.pc.marker.pending.Some? && PcSound(s)
    ensures s.pc.WritePending? ==> s.pc.marker.pending.Some?
  {
  }

  lemma ReplayKeeps(s: State)
    requires Inv(s) && s.pc.Replay?
    ensures Inv(Act1(s))
  {
    hide Inv, MarkerInv, PcSound, Create, RestartMarker, Settled;
    var m, at := s.pc.previous, s.pc.bootedAt;
    PcFacts(s);
    var t := Create(s, m.pending.value);
    CreateEffect(s, m);
    CreateKeepsMarker(s, m);
    if m.reason == ConfigRestart {
      RestingSound(t);
      CreateKeeps(s, m, Down);
      var u := t.(pc := Down);
      FreshMarkers(u, m);
      FreshIgnoresPc(u.(nextId := u.nextId + 1), Act1(s).pc, RestartMarker(m, u.nextId, u.clock));
      Reasons(m, u.nextId, u.clock);
      PendingPc(Act1(s), m, RestartMarker(m, u.nextId, u.clock), at);
      MovesKeep(u, Act1(s));
    } else {
      SettledOnceCreated(t, m);
      RunningPc(t, m, at);
      CreateKeeps(s, m, WriteRunning(at));
    }
  }

  lemma RestingSound(s: State)
    ensures PcSound(s.(pc := Down))
  {
  }

  lemma RunningPc(s: State, m: Marker, bootedAt: int)
    requires 0 < bootedAt <= s.clock && s.marker == Some(m) && Settled(s, m.run)
    ensures PcSound(s.(pc := WriteRunning(bootedAt)))
  {
  }

  lemma PendingPc(s: State, m: Marker, next: Marker, bootedAt: int)
    requires 0 < bootedAt <= s.clock && s.marker == Some(m) && s.pc == WritePending(next, bootedAt)
    requires m.phase == CleanPending && m.reason == ConfigRestart
    requires FreshPromise(s, next) && next.reason == ConfigRestartStartup
    ensures PcSound(s)
  {
  }

  lemma CreatePendingKeeps(s: State)
    requires Inv(s) && s.pc.CreatePending?
    ensures Inv(Act1(s))
  {
    hide Inv, MarkerInv, PcSound, Create, Settled;
    PcFacts(s);
    var m := s.marker.value;
    var t := Create(s, m.pending.value);
    CreateEffect(s, m);
    CreateKeepsMarker(s, m);
    SettledOnceCreated(t, m);
    RunningPc(t, m, s.pc.bootedAt);
    CreateKeeps(s, m, WriteRunning(s.pc.bootedAt));
  }

  lemma StopCreateKeeps(s: State)
    requires Inv(s) && s.pc.StopCreate?
    ensures Inv(Act1(s))
  {
    hide Inv, MarkerInv, Create, Created;
    PcFacts(s);
    CreateEffect(s, s.pc.marker);
    CreateKeepsMarker(s, s.pc.marker);
    CreatedIgnoresPc(Create(s, s.pc.marker.pending.value), s.pc.marker, StopClean(s.pc.marker));
    CreateKeeps(s, s.pc.marker, StopClean(s.pc.marker));
  }

  lemma CreatedIgnoresPc(s: State, m: Marker, pc: Pc)
    ensures Created(s.(pc := pc), m) == Created(s, m)
  {
  }

  lemma StopCleanKeeps(s: State)
    requires Inv(s) && s.pc.StopClean?
    ensures Inv(Act1(s))
  {
    hide FreshPromise, Promised;
    var t := Act1(s);
    assert forall r :: Settled(t, r) == Settled(s, r);
  }

  lemma PendingKeeps(s: State)
    requires Inv(s) && s.pc.WritePending?
    ensures Inv(Act1(s))
  {
    var m, t := s.pc.marker, Act1(s);
    assert MarkerInv(t) by { hide OthersSettled; }
    forall r | r != m.run ensures Settled(s, r) ==> Settled(t, r) {}
  }

  lemma StopPendingKeeps(s: State)
    requires Inv(s) && s.pc.StopPending?
    ensures Inv(Act1(s))
  {
    var m, t := s.pc.marker, Act1(s);
    assert MarkerInv(t) by { hide OthersSettled; }
    forall r | r != m.run ensures Settled(s, r) ==> Settled(t, r) {}
  }

  lemma WriteRunningKeeps(s: State)
    requires Inv(s) && s.pc.WriteRunning?
    ensures Inv(Act1(s))
  {
    var t := Act1(s);
    assert forall r :: Settled(t, r) == Settled(s, r);
  }

  lemma ActKeeps(s: State)
    requires Inv(s) && Enabled(s, Act)
    ensures Inv(Act1(s))
  {
    hide Inv, Act1;
    match s.pc
    case Replay(_, _) => ReplayKeeps(s);
    case WritePending(_, _) => PendingKeeps(s);
    case CreatePending(_, _) => CreatePendingKeeps(s);
    case WriteRunning(_) => WriteRunningKeeps(s);
    case StopPending(_) => StopPendingKeeps(s);
    case StopCreate(_) => StopCreateKeeps(s);
    case StopClean(_) => StopCleanKeeps(s);
  }

  lemma TickKeepsPc(s: State, ms: nat)
    requires PcSound(s)
    ensures PcSound(s.(clock := s.clock + ms))
  {
    hide ValidMarker;
    assert forall r :: Settled(s.(clock := s.clock + ms), r) == Settled(s, r);
  }

  lemma TickKeepsMarker(s: State, ms: nat)
    requires MarkerInv(s)
    ensures MarkerInv(s.(clock := s.clock + ms))
  {
    hide ValidMarker;
  }

  lemma TickKeeps(s: State, ms: nat)
    requires Inv(s)
    ensures Inv(Apply(s, Tick(ms)))
  {
    hide PcSound, MarkerInv;
    TickKeepsPc(s, ms);
    TickKeepsMarker(s, ms);
    assert forall r :: Settled(Apply(s, Tick(ms)), r) == Settled(s, r);
  }

  lemma PlanKeeps(s: State)
    requires Inv(s) && Enabled(s, PlanRestart)
    ensures Inv(Apply(s, PlanRestart))
  {
    hide FreshPromise, Promised;
    assert forall r :: Settled(Apply(s, PlanRestart), r) == Settled(s, r);
  }

  lemma CrashKeeps(s: State)
    requires Inv(s) && Enabled(s, Crash)
    ensures Inv(Apply(s, Crash))
  {
    hide FreshPromise;
    var t := Apply(s, Crash);
    forall r | s.marker.Some? ==> r != s.marker.value.run ensures Settled(t, r) == Settled(s, r) {}
    if s.marker.Some? && !(s.marker.value.phase == Running && Alive(s.pc)) {
      assert Settled(t, s.marker.value.run) == Settled(s, s.marker.value.run);
    }
  }

  lemma StepKeepsInv(s: State, step: Step)
    requires Inv(s) && Enabled(s, step)
    ensures Inv(Apply(s, step))
  {
    hide Inv, Decide, Act1;
    match step
    case Tick(ms) => TickKeeps(s, ms);
    case Boot => DecideKeeps(s);
    case Act => ActKeeps(s);
    case PlanRestart => PlanKeeps(s);
    case Shutdown => ShutdownKeeps(s);
    case Crash => CrashKeeps(s);
  }

  lemma {:induction false} RunKeepsInv(s: State, steps: seq<Step>, t: State)
    requires Inv(s) && Runs(s, steps, t)
    ensures Inv(t)
    decreases |steps|
  {
    hide Inv, Apply;
    if steps != [] {
      StepKeepsInv(s, steps[0]);
      RunKeepsInv(Apply(s, steps[0]), steps[1..], t);
    }
  }

  // ---- The main results ----

  /** In every run of boots, crashes, clean stops and planned restarts, once a controller is up every
      earlier run has ended in exactly one way and exactly the notifications its end calls for exist,
      once each: an unclean startup for a run that died while marked running or whose planned restart
      came too late, a restart-complete for a configuration restart, a clean shutdown for a stop. */
  lemma EveryRunAccountedOnce(steps: seq<Step>, t: State, r: nat)
    requires Runs(Init, steps, t) && t.pc == Up && t.marker.Some? && r in t.runs && r != t.marker.value.run
    ensures Settled(t, r)
  {
    RunKeepsInv(Init, steps, t);
    hide PcSound, MarkerSound, Settled;
  }

  /** At every moment, even between two durable actions of a recovery, no notification about the end
      of a run exists twice, none exists for a run that has not ended that way, and the marker file is
      one the next boot accepts. */
  lemma NeverTwice(steps: seq<Step>, t: State, r: nat)
    requires Runs(Init, steps, t)
    ensures t.emitted[(UncleanStartup, r)] <= Bit(r in t.died || r in t.lapsed)
    ensures t.emitted[(RestartComplete, r)] <= Bit(r in t.restarted)
    ensures t.emitted[(CleanShutdown, r)] <= Bit(r in t.stopped)
    ensures t.marker.Some? ==> ValidMarker(t.marker.value) && t.marker.value.updatedAt <= t.clock
  {
    RunKeepsInv(Init, steps, t);
    hide PcSound, Promised, ValidMarker;
    if r in t.runs && !(t.marker.Some? && t.marker.value.run == r) { assert Settled(t, r); }
    if r !in t.runs { assert Unended(t, r); }
  }

  /** A boot nobody interrupts is up after at most four durable actions. */
  function ActMany(s: State, n: nat): State
    decreases n
  {
    if n == 0 || s.pc == Down || s.pc == Up then s else ActMany(Act1(s), n - 1)
  }

  lemma BootCompletes(s: State)
    requires Inv(s) && s.pc == Down
    ensures ActMany(Decide(s), 4).pc == Up
  {
    hide Inv, Create, RestartMarker, UncleanMarker, Account, ValidMarker;
    DecideKeeps(s);
    PcFacts(Decide(s));
    if Decide(s).pc.Replay? {
      ReplayKeeps(Decide(s));
      PcFacts(Act1(Decide(s)));
    }
  }

  /** A configuration restart is told from a crash by its marker alone: a controller that died between
      planning and stopping announces exactly one thing when it is next up, a completed restart if it
      is back within the seven minutes that the deadline and the grace allow, and otherwise an unclean
      startup. */
  lemma PlannedCrashIsARestart(steps: seq<Step>, s: State)
    requires Runs(Init, steps, s) && s.pc == Down && s.marker.Some? && s.marker.value.phase == PlannedRestart
    ensures var m, t := s.marker.value, ActMany(Decide(s), 4);
            var kind := if s.clock <= m.updatedAt + 420000 then RestartComplete else UncleanStartup;
            t.pc == Up && t.emitted == s.emitted + multiset{(kind, m.run)}
  {
    RunKeepsInv(Init, steps, s);
    PlannedFacts(s);
    hide Inv, Runs, RestartMarker, UncleanMarker;
    PlannedNote(s);
    var d := Decide(s);
    var w := Act1(d);
    var c := Act1(w);
    var u := Act1(c);
    assert w.pc.CreatePending? && w.pc.note == d.pc.marker.pending.value && w.pc.note.id !in w.created;
    assert c.pc.WriteRunning? && u.pc == Up;
    assert ActMany(d, 4) == ActMany(w, 3) == ActMany(c, 2) == ActMany(u, 1) == u;
  }

  lemma PlannedNote(s: State)
    requires s.marker.Some?
    ensures var m := s.marker.value;
            && RestartMarker(m, s.nextId, s.clock).pending == Some(Note(s.nextId, RestartComplete, m.run, s.clock, s.clock))
            && UncleanMarker(m, s.nextId, s.clock).pending.Some?
            && UncleanMarker(m, s.nextId, s.clock).pending.value.id == s.nextId
            && UncleanMarker(m, s.nextId, s.clock).pending.value.kind == UncleanStartup
            && UncleanMarker(m, s.nextId, s.clock).pending.value.run == m.run
  {
  }

  lemma PlannedFacts(s: State)
    requires Inv(s) && s.marker.Some? && s.marker.value.phase == PlannedRestart
    ensures s.nextId !in s.created && s.marker.value.deadline == s.marker.value.updatedAt + RESTART_MS
  {
    hide OthersSettled, PcSound, MarkerSound;
  }
}
