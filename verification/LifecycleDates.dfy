/** What boots leave. */
module LifecycleDates {
  import opened LifecycleModel

  /** The notes after creating `n`, unless one with its id exists. */
  function With(created: map<nat, Note>, n: Note): map<nat, Note> {
    if n.id in created then created else created[n.id := n]
  }

  /** The notes an uninterrupted boot leaves.  What the last marker promised is created if it was not; a
      configuration restart is reported, seven minutes after it was planned at the latest; and any other
      run that did not end cleanly is reported as of the time its marker was last written. */
  function AfterBoot(s: State): map<nat, Note> {
    var now := s.clock;
    match s.marker
    case None => s.created
    case Some(m) =>
      var promised := if m.phase == CleanPending && m.pending.Some? then With(s.created, m.pending.value) else s.created;
      if (m.phase == CleanPending || m.phase == Clean) && m.reason != ConfigRestart then promised
      else if m.phase == CleanPending || m.phase == Clean || (m.phase == PlannedRestart && now <= m.updatedAt + 420000) then
        promised[s.nextId := Note(s.nextId, RestartComplete, m.run, now, now)]
      else promised[s.nextId := Note(s.nextId, UncleanStartup, m.run, m.updatedAt, now)]
  }

  /** A marker that says a new run began at `now`. */
  ghost predicate BeganAt(t: State, s: State, now: int) {
    && t.marker.Some? && t.marker.value.run !in s.runs
    && t.marker.value == Marker(Running, t.marker.value.run, now, now, NoReason, 0, None, None)
  }

  lemma BootLeaves(s: State)
    requires Inv(s) && s.pc == Down
    ensures var t := ActMany(Decide(s), 4); t.pc == Up && t.created == AfterBoot(s) && BeganAt(t, s, s.clock)
  {
    FreshIds(s);
    hide Inv;
    if s.marker.None? || (s.marker.value.phase == Clean && s.marker.value.reason != ConfigRestart) {
      RunningWritten(Decide(s), s.clock, 4);
    } else if s.marker.value.phase == CleanPending {
      PendingBoot(s, s.marker.value);
    } else {
      PromisingBoot(s, s.marker.value);
    }
  }

  lemma FreshIds(s: State)
    requires Inv(s)
    ensures (forall id <- s.created :: id < s.nextId) && (forall r <- s.runs :: r < s.nextId)
    ensures s.marker.Some? ==>
              var m := s.marker.value;
              && 0 < m.updatedAt <= s.clock && (m.phase == PlannedRestart ==> m.deadline == m.updatedAt + 120000)
              && (m.phase == CleanPending ==> m.pending.Some? && m.pending.value.id < s.nextId)
  {
    hide OthersSettled, PcSound, MarkerSound;
  }

  lemma RunningWritten(s: State, bootedAt: int, n: nat)
    requires s.pc == WriteRunning(bootedAt) && n > 0 && forall r <- s.runs :: r < s.nextId
    ensures var t := ActMany(s, n); t.pc == Up && t.created == s.created && BeganAt(t, s, bootedAt)
  {
    assert ActMany(s, n) == ActMany(Act1(s), n - 1) == Act1(s);
  }

  /** The marker is replaced and its note created, and then the next run begins. */
  lemma PromiseKept(s: State, bootedAt: int, n: nat)
    requires s.pc.WritePending? && s.pc.bootedAt == bootedAt && s.pc.marker.pending.Some? && n >= 3
    requires forall r <- s.runs :: r < s.nextId
    ensures var t := ActMany(s, n);
            t.pc == Up && t.created == With(s.created, s.pc.marker.pending.value) && BeganAt(t, s, bootedAt)
  {
    var w := Act1(s);
    var c := Act1(w);
    assert w.pc == CreatePending(s.pc.marker.pending.value, bootedAt) && c.pc == WriteRunning(bootedAt);
    assert ActMany(s, n) == ActMany(w, n - 1) == ActMany(c, n - 2);
    RunningWritten(c, bootedAt, n - 2);
  }

  lemma PromisingBoot(s: State, m: Marker)
    requires s.pc == Down && s.marker == Some(m) && m.phase != CleanPending && (m.phase == Clean ==> m.reason == ConfigRestart)
    requires (forall id <- s.created :: id < s.nextId) && (forall r <- s.runs :: r < s.nextId)
    requires 0 < m.updatedAt <= s.clock && (m.phase == PlannedRestart ==> m.deadline == m.updatedAt + 120000)
    ensures var t := ActMany(Decide(s), 4); t.pc == Up && t.created == AfterBoot(s) && BeganAt(t, s, s.clock)
  {
    PromiseKept(Decide(s), s.clock, 4);
  }

  lemma PendingBoot(s: State, m: Marker)
    requires s.pc == Down && s.marker == Some(m) && m.phase == CleanPending
    requires m.pending.Some? && m.pending.value.id < s.nextId
    requires (forall id <- s.created :: id < s.nextId) && (forall r <- s.runs :: r < s.nextId)
    ensures var t := ActMany(Decide(s), 4); t.pc == Up && t.created == AfterBoot(s) && BeganAt(t, s, s.clock)
  {
    var d := Decide(s);
    var r := Act1(d);
    assert d.pc == Replay(m, s.clock) && ActMany(d, 4) == ActMany(r, 3);
    if m.reason == ConfigRestart {
      PromiseKept(r, s.clock, 3);
    } else {
      RunningWritten(r, s.clock, 3);
    }
  }

  /** An uninterrupted shutdown leaves one note, of a restart if one was planned at most seven minutes
      before, and a clean marker that says which. */
  lemma ShutdownLeaves(s: State)
    requires Inv(s) && s.pc == Up && s.marker.Some?
    ensures var m, t := s.marker.value, ActMany(Apply(s, Shutdown), 3);
            var planned := m.phase == PlannedRestart && s.clock <= m.updatedAt + 420000;
            && t.pc == Down
            && t.created == s.created[s.nextId := Note(s.nextId, if planned then RestartShutdown else CleanShutdown, m.run, s.clock, s.clock)]
            && t.marker == Some(Marker(Clean, m.run, m.startedAt, s.clock, if planned then ConfigRestart else ContainerStop,
                                       0, Some(s.nextId), None))
  {
    FreshIds(s);
    hide Inv;
    var a := Apply(s, Shutdown);
    var b := Act1(a);
    var c := Act1(b);
    var d := Act1(c);
    assert b.pc.StopCreate? && c.pc.StopClean? && d.pc == Down;
    assert ActMany(a, 3) == ActMany(b, 2) == ActMany(c, 1) == d;
  }

  /** A restart is planned for two minutes. */
  lemma PlanLeaves(s: State)
    requires Enabled(s, PlanRestart)
    ensures var m := s.marker.value;
            Apply(s, PlanRestart)
            == s.(marker := Some(Marker(PlannedRestart, m.run, m.startedAt, s.clock, ConfigRestart, s.clock + 120000, None, None)))
  {
  }

  /** The date of an unclean startup: the time the marker was last written, unless that lies more than
      five minutes in the future. */
  lemma UncleanIsDated(previous: Marker, id: nat, now: int)
    requires previous.updatedAt > 0
    ensures UncleanMarker(previous, id, now).pending
            == Some(Note(id, UncleanStartup, previous.run, if previous.updatedAt - now <= 300000 then previous.updatedAt else now, now))
  {
  }

  // ---- The counts are of stored notes ----

  function Stored(created: map<nat, Note>, kind: Kind, run: nat): set<nat> {
    set id | id in created && created[id].kind == kind && created[id].run == run
  }

  ghost predicate Counted(s: State) {
    forall kind, run: nat :: s.emitted[(kind, run)] == |Stored(s.created, kind, run)|
  }

  lemma StoredWith(created: map<nat, Note>, note: Note, kind: Kind, run: nat)
    requires note.id !in created
    ensures |Stored(created[note.id := note], kind, run)|
            == |Stored(created, kind, run)| + if (kind, run) == (note.kind, note.run) then 1 else 0
  {
    var more := if (kind, run) == (note.kind, note.run) then {note.id} else {};
    assert Stored(created[note.id := note], kind, run) == Stored(created, kind, run) + more;
  }

  lemma CreateCounts(s: State, note: Note)
    requires Counted(s)
    ensures Counted(Create(s, note))
  {
    hide Stored;
    if note.id !in s.created {
      forall kind, run: nat ensures Create(s, note).emitted[(kind, run)] == |Stored(Create(s, note).created, kind, run)| {
        StoredWith(s.created, note, kind, run);
      }
    }
  }

  lemma StepCounts(s: State, step: Step)
    requires Counted(s) && Enabled(s, step)
    ensures Counted(Apply(s, step))
  {
    hide Counted, Create;
    if step == Act {
      match s.pc
      case Replay(previous, _) =>
        if previous.pending.Some? { CreateCounts(s, previous.pending.value); }
        var t := if previous.pending.Some? then Create(s, previous.pending.value) else s;
        SameCounts(t, Act1(s));
      case CreatePending(note, _) =>
        CreateCounts(s, note);
        SameCounts(Create(s, note), Act1(s));
      case StopCreate(m) =>
        if m.pending.Some? { CreateCounts(s, m.pending.value); }
        SameCounts(if m.pending.Some? then Create(s, m.pending.value) else s, Act1(s));
      case WritePending(_, _) => SameCounts(s, Act1(s));
      case WriteRunning(_) => SameCounts(s, Act1(s));
      case StopPending(_) => SameCounts(s, Act1(s));
      case StopClean(_) => SameCounts(s, Act1(s));
      case Down =>
      case Up =>
    } else {
      SameCounts(s, Apply(s, step));
    }
  }

  lemma SameCounts(s: State, t: State)
    requires t.emitted == s.emitted && t.created == s.created
    ensures Counted(s) ==> Counted(t)
  {
  }

  /** In every run the number of notes of each kind about each run is the number of stored ones. */
  lemma {:induction false} RunCounts(s: State, steps: seq<Step>, t: State)
    requires Counted(s) && Runs(s, steps, t)
    ensures Counted(t)
    decreases |steps|
  {
    hide Counted, Apply;
    if steps != [] {
      StepCounts(s, steps[0]);
      RunCounts(Apply(s, steps[0]), steps[1..], t);
    }
  }

  /** So of every run there is at most one stored note of each of these kinds, and none without cause. */
  lemma StoredOnce(steps: seq<Step>, t: State, r: nat)
    requires Runs(Init, steps, t)
    ensures |Stored(t.created, UncleanStartup, r)| <= Bit(r in t.died || r in t.lapsed)
    ensures |Stored(t.created, RestartComplete, r)| <= Bit(r in t.restarted)
    ensures |Stored(t.created, CleanShutdown, r)| <= Bit(r in t.stopped)
  {
    assert Counted(Init) by {
      forall kind, run: nat ensures Stored(Init.created, kind, run) == {} {}
    }
    RunCounts(Init, steps, t);
    NeverTwice(steps, t, r);
    hide Runs, Stored;
  }
}
