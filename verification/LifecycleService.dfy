/** Start-up, planned restart and shutdown, as they are run. */
module LifecycleService {
  // `Startup`, `PlanConfigRestart` and `Shutdown` as the program runs them.  A durable action is lost
  // once the budget is spent: the process has crashed.  Any budget is allowed.

  import opened LifecycleModel

  ghost predicate Reaches(s: State, t: State) {
    exists steps :: Runs(s, steps, t)
  }

  lemma {:induction false} RunsExtend(s: State, steps: seq<Step>, t: State, step: Step)
    requires Runs(s, steps, t) && Enabled(t, step)
    ensures Runs(s, steps + [step], Apply(t, step))
    decreases |steps|
  {
    hide Apply, Enabled;
    if steps == [] {
      assert steps + [step] == [step] && [step][1..] == [];
    } else {
      assert (steps + [step])[1..] == steps[1..] + [step];
      RunsExtend(Apply(s, steps[0]), steps[1..], t, step);
    }
  }

  lemma {:induction false} RunsConcat(s: State, a: seq<Step>, m: State, b: seq<Step>, t: State)
    requires Runs(s, a, m) && Runs(m, b, t)
    ensures Runs(s, a + b, t)
    decreases |a|
  {
    hide Apply, Enabled;
    if a == [] {
      assert a + b == b;
    } else {
      assert (a + b)[1..] == a[1..] + b;
      RunsConcat(Apply(s, a[0]), a[1..], m, b, t);
    }
  }

  lemma ReachesSelf(s: State)
    ensures Reaches(s, s)
  {
    assert Runs(s, [], s);
  }

  lemma ReachesStep(s: State, t: State, step: Step)
    requires Reaches(s, t) && Enabled(t, step)
    ensures Reaches(s, Apply(t, step))
  {
    hide Apply, Enabled;
    var steps :| Runs(s, steps, t);
    RunsExtend(s, steps, t, step);
  }

  lemma ReachesTransitive(s: State, m: State, t: State)
    requires Reaches(s, m) && Reaches(m, t)
    ensures Reaches(s, t)
  {
    hide Apply, Enabled;
    var a :| Runs(s, a, m);
    var b :| Runs(m, b, t);
    RunsConcat(s, a, m, b, t);
  }

  class Lifecycle {
    var marker: Option<Marker>
    var created: map<nat, Note>
    var clock: int
    var nextId: nat
    var budget: nat
    ghost var emitted: multiset<(Kind, nat)>
    ghost var runs: set<nat>
    ghost var died: set<nat>
    ghost var lapsed: set<nat>
    ghost var restarted: set<nat>
    ghost var stopped: set<nat>

    ghost function Now(pc: Pc): State
      reads this
    {
      State(marker, created, clock, nextId, pc, emitted, runs, died, lapsed, restarted, stopped)
    }

    /** `writeMarker`: the file is replaced as a whole, and only by a valid marker. */
    method WriteMarker(m: Marker) returns (ok: bool)
      modifies this`marker, this`budget
      ensures ok <==> ValidMarker(m) && old(budget) > 0
      ensures marker == if ok then Some(m) else old(marker)
    {
      ok := ValidMarker(m) && budget > 0;
      if ok { marker, budget := Some(m), budget - 1; }
    }

    /** `createExact`: creating the same note again changes nothing. */
    method CreateExact(note: Note) returns (ok: bool)
      modifies this`created, this`emitted, this`budget
      ensures ok <==> old(budget) > 0
      ensures ok ==> note.id in created && (note.id !in old(created) ==> created == old(created)[note.id := note])
      ensures !ok || note.id in old(created) ==> created == old(created)
      ensures forall pc :: Now(pc) == if ok then Create(old(Now(pc)), note) else old(Now(pc))
    {
      ok := budget > 0;
      if !ok { return; }
      budget := budget - 1;
      if note.id !in created {
        created := created[note.id := note];
        emitted := emitted + multiset{(note.kind, note.run)};
      }
    }

    /** Replaces the marker by one that promises a note, and then creates the note. */
    method PromiseAndCreate(m: Marker, bootedAt: int) returns (ok: bool, ghost pc: Pc)
      requires ValidMarker(m) && m.pending.Some?
      modifies this
      ensures Reaches(old(Now(WritePending(m, bootedAt))), Now(pc))
      ensures ok ==> pc == WriteRunning(bootedAt)
      ensures nextId == old(nextId) && clock == old(clock)
      ensures marker == old(marker) || marker == Some(m)
      ensures created == old(created) || (m.pending.value.id !in old(created) && created == old(created)[m.pending.value.id := m.pending.value])
      ensures ok ==> marker == Some(m) && m.pending.value.id in created
    {
      hide Reaches, ValidMarker;
      pc := WritePending(m, bootedAt);
      ghost var entry := Now(pc);
      ReachesSelf(entry);
      ok := WriteMarker(m);
      if !ok { return; }
      ghost var accounted := Account(entry, m);
      lapsed, restarted := accounted.lapsed, accounted.restarted;
      var note := m.pending.value;
      pc := CreatePending(note, bootedAt);
      ghost var promised := Now(pc);
      assert promised == Act1(entry);
      ReachesStep(entry, entry, Act);
      ok := CreateExact(note);
      if !ok { return; }
      assert Create(promised, note).(pc := WriteRunning(bootedAt)) == Now(WriteRunning(bootedAt));
      pc := WriteRunning(bootedAt);
      ReachesStep(entry, promised, Act);
    }

    method UncleanRecovery(previous: Marker, now: int) returns (ok: bool, ghost pc: Pc)
      requires ValidMarker(UncleanMarker(previous, nextId, now))
      modifies this
      ensures Reaches(old(Now(Down)).(pc := WritePending(UncleanMarker(previous, old(nextId), now), now), nextId := old(nextId) + 1), Now(pc))
      ensures ok ==> pc == WriteRunning(now)
      ensures clock == old(clock)
      ensures var dated := if 0 < previous.updatedAt <= now + 300000 then previous.updatedAt else now;
              var note := Note(old(nextId), UncleanStartup, previous.run, dated, now);
              && (marker == old(marker) ||
                  marker == Some(Marker(CleanPending, previous.run, previous.startedAt, now, Reason.UncleanRecovery, 0, Some(note.id), Some(note))))
              && (created == old(created) || created == old(created)[note.id := note])
              && (ok ==> note.id in created)
    {
      hide Reaches, ValidMarker;
      var occurred := now;
      if previous.updatedAt > 0 && previous.updatedAt <= now + GRACE_MS { occurred := previous.updatedAt; }
      var note := Note(nextId, UncleanStartup, previous.run, occurred, now);
      nextId := nextId + 1;
      ok, pc := PromiseAndCreate(
        Marker(CleanPending, previous.run, previous.startedAt, now, Reason.UncleanRecovery, 0, Some(note.id), Some(note)), now);
    }

    method RestartFinished(previous: Marker, bootedAt: int) returns (ok: bool, ghost pc: Pc)
      requires ValidMarker(RestartMarker(previous, nextId, clock))
      modifies this
      ensures Reaches(old(Now(Down)).(pc := WritePending(RestartMarker(previous, old(nextId), old(clock)), bootedAt), nextId := old(nextId) + 1), Now(pc))
      ensures ok ==> pc == WriteRunning(bootedAt)
      ensures clock == old(clock)
      ensures var note := Note(old(nextId), RestartComplete, previous.run, old(clock), old(clock));
              && (marker == old(marker) ||
                  marker == Some(Marker(CleanPending, previous.run, previous.startedAt, old(clock), ConfigRestartStartup, 0, Some(note.id), Some(note))))
              && (created == old(created) || created == old(created)[note.id := note])
              && (ok ==> note.id in created)
    {
      hide Reaches, ValidMarker;
      var note := Note(nextId, RestartComplete, previous.run, clock, clock);
      nextId := nextId + 1;
      ok, pc := PromiseAndCreate(
        Marker(CleanPending, previous.run, previous.startedAt, clock, ConfigRestartStartup, 0, Some(note.id), Some(note)), bootedAt);
    }

    /** The recovery part of `Startup`, up to the moment the running marker is written. */
    method Recover(now: int) returns (ok: bool, ghost pc: Pc)
      requires Inv(Now(Down)) && now == clock
      modifies this
      ensures Reaches(old(Now(Down)), Now(pc)) && clock == old(clock)
      ensures ok ==> pc == WriteRunning(now)
    {
      hide Reaches, Inv, ValidMarker, UncleanMarker, RestartMarker, Act1, Apply, FreshPromise;
      ghost var entry := Now(Down);
      ghost var decided := Decide(entry);
      ReachesSelf(entry);
      BootStep(entry);
      ReachesStep(entry, entry, Boot);
      if marker.None? { return true, WriteRunning(now); }
      var m := marker.value;
      MarkerFacts(entry, m);
      if m.phase == CleanPending {
        ok := CreateExact(m.pending.value);
        if !ok { return false, Replay(m, now); }
        ReplayStep(decided, m, now);
        ReachesStep(entry, decided, Act);
        if m.reason != ConfigRestart { return true, WriteRunning(now); }
        ghost var replayed := Act1(decided);
        ok, pc := RestartFinished(m, now);
        ReachesTransitive(entry, replayed, Now(pc));
      } else if m.phase == Clean && m.reason != ConfigRestart {
        return true, WriteRunning(now);
      } else if m.phase == Clean || PlannedInTime(m, now) {
        ok, pc := RestartFinished(m, now);
        ReachesTransitive(entry, decided, Now(pc));
      } else {
        ok, pc := UncleanRecovery(m, now);
        ReachesTransitive(entry, decided, Now(pc));
      }
    }

    /** `Startup`: a run of the lifecycle, complete unless a durable action was lost. */
    method Startup() returns (ok: bool, ghost pc: Pc)
      requires Inv(Now(Down))
      modifies this
      ensures Reaches(old(Now(Down)), Now(pc)) && Inv(Now(pc))
      ensures ok ==> pc == Up && marker.Some? && marker.value == RunningMarker(marker.value.run, clock)
    {
      hide Reaches, Inv;
      ghost var entry := Now(Down);
      var now := clock;
      ok, pc := Recover(now);
      ReachesKeepsInv(entry, Now(pc));
      if !ok { return; }
      ghost var ready := Now(pc);
      assert now > 0 by { RunningFacts(ready, now); }
      var running := Marker(Running, nextId, now, now, NoReason, 0, None, None);
      ok := WriteMarker(running);
      if !ok { return; }
      runs := runs + {nextId};
      nextId := nextId + 1;
      pc := Up;
      assert Now(Up) == Act1(ready);
      ReachesStep(entry, ready, Act);
      ReachesKeepsInv(entry, Now(pc));
    }

    /** `PlanConfigRestart`: one durable action, refused unless the marker says running. */
    method PlanConfigRestart() returns (ok: bool)
      requires Inv(Now(Up))
      modifies this
      ensures ok <==> old(marker).Some? && old(marker).value.phase == Running && old(budget) > 0
      ensures Inv(Now(Up)) && Now(Up) == if ok then Apply(old(Now(Up)), PlanRestart) else old(Now(Up))
    {
      hide Inv, ValidMarker;
      if marker.None? || marker.value.phase != Running { return false; }
      ghost var entry := Now(Up);
      var m := marker.value;
      var now := clock;
      MarkerFacts(entry, m);
      StepKeepsInv(entry, PlanRestart);
      ok := WriteMarker(m.(phase := PlannedRestart, reason := ConfigRestart, updatedAt := now,
                           deadline := now + RESTART_MS, notification := None, pending := None));
    }

    /** Replaces the marker by the one that promises the shutdown's note. */
    method PromiseStop(stop: Marker) returns (ok: bool)
      requires ValidMarker(stop)
      modifies this
      ensures ok ==> Now(StopCreate(stop)) == Apply(old(Now(StopPending(stop))), Act)
      ensures !ok ==> Now(StopPending(stop)) == old(Now(StopPending(stop)))
    {
      hide ValidMarker;
      ok := WriteMarker(stop);
      if !ok { return; }
      if stop.reason == ConfigRestart { restarted := restarted + {stop.run}; } else { stopped := stopped + {stop.run}; }
    }

    method CreateStop(stop: Marker) returns (ok: bool)
      requires stop.pending.Some?
      modifies this`created, this`emitted, this`budget
      ensures Now(StopCreate(stop)) == old(Now(StopCreate(stop))) || ok
      ensures ok ==> Now(StopClean(stop)) == Apply(old(Now(StopCreate(stop))), Act)
    {
      ghost var was := Now(StopCreate(stop));
      ok := CreateExact(stop.pending.value);
      if !ok { return; }
      assert Now(StopCreate(stop)) == Create(was, stop.pending.value);
    }

    method CleanStop(stop: Marker) returns (ok: bool)
      requires ValidMarker(stop.(phase := Clean, pending := None))
      modifies this`marker, this`budget
      ensures !ok ==> Now(StopClean(stop)) == old(Now(StopClean(stop)))
      ensures ok ==> Now(Down) == Apply(old(Now(StopClean(stop))), Act) && marker == Some(stop.(phase := Clean, pending := None))
    {
      hide ValidMarker;
      ok := WriteMarker(stop.(phase := Clean, pending := None));
    }

    /** `Shutdown`: promise, create, mark clean. */
    method Shutdown() returns (ok: bool, ghost pc: Pc)
      requires Inv(Now(Up))
      modifies this
      ensures Reaches(old(Now(Up)), Now(pc)) && Inv(Now(pc))
      ensures ok ==> pc == Down && marker.Some? && marker.value.phase == Clean
    {
      hide Reaches, Inv, ValidMarker, Apply, StopMarker, PendingMarker;
      ghost var entry := Now(Up);
      pc := Up;
      ReachesSelf(entry);
      if marker.None? { return false, Up; }
      var m, now := marker.value, clock;
      var stop := StopMarkerOf(m, nextId, now);
      StopFacts(entry);
      nextId := nextId + 1;
      pc := StopPending(stop);
      ReachesStep(entry, entry, Step.Shutdown);
      ReachesKeepsInv(entry, Now(pc));
      ghost var before := Now(pc);
      ok := PromiseStop(stop);
      if !ok { return; }
      pc := StopCreate(stop);
      ActReaches(entry, before);
      before := Now(pc);
      ok := CreateStop(stop);
      if !ok { return; }
      pc := StopClean(stop);
      ActReaches(entry, before);
      before := Now(pc);
      ok := CleanStop(stop);
      if !ok { return; }
      pc := Down;
      ActReaches(entry, before);
    }
  }

  /** The marker `Shutdown` writes first. */
  method StopMarkerOf(m: Marker, id: nat, now: int) returns (stop: Marker)
    ensures stop == StopMarker(m, id, now)
  {
    var reason, kind := ContainerStop, CleanShutdown;
    if m.phase == PlannedRestart && m.deadline >= now - GRACE_MS { reason, kind := ConfigRestart, RestartShutdown; }
    var note := Note(id, kind, m.run, now, now);
    stop := Marker(CleanPending, m.run, m.startedAt, now, reason, 0, Some(note.id), Some(note));
  }

  lemma ActReaches(entry: State, s: State)
    requires Inv(entry) && Reaches(entry, s) && s.pc != Down && s.pc != Up
    ensures Reaches(entry, Apply(s, Act)) && Inv(Apply(s, Act))
  {
    hide Inv, Reaches, Apply;
    ReachesStep(entry, s, Act);
    ReachesKeepsInv(entry, Apply(s, Act));
  }

  lemma StopFacts(s: State)
    requires Inv(s) && s.pc == Up && s.marker.Some?
    ensures var stop := StopMarker(s.marker.value, s.nextId, s.clock);
            && stop.pending.Some? && ValidMarker(stop) && ValidMarker(stop.(phase := Clean, pending := None))
            && Apply(s, Step.Shutdown) == s.(pc := StopPending(stop), nextId := s.nextId + 1)
  {
    MarkerFacts(s, s.marker.value);
    hide Inv;
  }

  lemma BootStep(s: State)
    requires s.pc == Down
    ensures Enabled(s, Boot) && Apply(s, Boot) == Decide(s)
  {
  }

  lemma ReplayStep(s: State, m: Marker, now: int)
    requires s.pc == Replay(m, now) && m.pending.Some?
    ensures Enabled(s, Act) && Apply(s, Act) == Act1(s)
    ensures Act1(s) == (if m.reason == ConfigRestart
                        then Create(s, m.pending.value).(pc := WritePending(RestartMarker(m, s.nextId, s.clock), now), nextId := s.nextId + 1)
                        else Create(s, m.pending.value).(pc := WriteRunning(now)))
  {
  }

  lemma MarkerFacts(s: State, m: Marker)
    requires Inv(s) && s.marker == Some(m)
    ensures m.phase == CleanPending ==> m.pending.Some?
    ensures ValidMarker(RestartMarker(m, s.nextId, s.clock)) && ValidMarker(UncleanMarker(m, s.nextId, s.clock))
    ensures ValidMarker(PlannedMarker(m, s.clock)) && ValidMarker(StopMarker(m, s.nextId, s.clock))
  {
    hide OthersSettled, PcSound, MarkerSound;
  }

  lemma RunningFacts(s: State, now: int)
    requires Inv(s) && s.pc == WriteRunning(now)
    ensures now > 0
  {
  }

  lemma ReachesKeepsInv(s: State, t: State)
    requires Inv(s) && Reaches(s, t)
    ensures Inv(t)
  {
    hide Inv, Apply;
    var steps :| Runs(s, steps, t);
    RunKeepsInv(s, steps, t);
  }
}
