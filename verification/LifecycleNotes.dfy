/** Restart-shutdown notes. */
module LifecycleNotes {
  // A shutdown within a planned restart promises one note more, about the run that ends.

  import opened LifecycleModel

  /** The step replaces the marker by one that promises a restart-shutdown note. */
  predicate Promises(s: State, step: Step) {
    step.Act? && s.pc.StopPending? && s.pc.marker.reason == ConfigRestart
  }

  /** The runs whose shutdown promised the note. */
  function Announced(s: State, steps: seq<Step>): set<nat>
    decreases |steps|
  {
    if steps == [] || !Enabled(s, steps[0]) then {}
    else (if Promises(s, steps[0]) then {s.pc.marker.run} else {}) + Announced(Apply(s, steps[0]), steps[1..])
  }

  /** The marker promises the note and it does not exist yet. */
  predicate Owes(s: State) {
    && s.marker.Some? && s.marker.value.phase == CleanPending && s.marker.value.reason == ConfigRestart
    && Created(s, s.marker.value) == 0
  }

  predicate Counted(s: State, announced: set<nat>, r: nat) {
    s.emitted[(RestartShutdown, r)] == Bit(r in announced && !(Owes(s) && s.marker.value.run == r))
  }

  ghost predicate NotesSound(s: State, announced: set<nat>) {
    && (forall r :: Counted(s, announced, r))
    && (Owes(s) ==> s.marker.value.run in announced)
    && (s.marker.Some? && s.marker.value.phase in {Running, PlannedRestart} ==> s.marker.value.run !in announced)
    && announced <= s.runs && announced <= s.restarted
    && (s.pc.WritePending? ==> !Owes(s))
  }

  /** Steps that leave the marker's promise and the notes alone. */
  lemma QuietStep(s: State, t: State, announced: set<nat>)
    requires NotesSound(s, announced) && t.emitted == s.emitted && s.runs <= t.runs && s.restarted <= t.restarted
    requires Owes(t) == Owes(s) && (Owes(s) ==> t.marker.value.run == s.marker.value.run)
    requires t.marker.Some? && t.marker.value.phase in {Running, PlannedRestart} ==> t.marker.value.run !in announced
    requires t.pc.WritePending? ==> !Owes(t)
    ensures NotesSound(t, announced)
  {
    hide Owes;
    forall r ensures Counted(t, announced, r) { assert Counted(s, announced, r); }
  }

  lemma BootKeeps(s: State, announced: set<nat>)
    requires NotesSound(s, announced) && s.pc == Down
    ensures NotesSound(Decide(s), announced)
  {
    QuietStep(s, Decide(s), announced);
  }

  /** Creating the promised note settles what the marker owes. */
  lemma CreateKeepsNotes(s: State, m: Marker, announced: set<nat>)
    requires Inv(s) && NotesSound(s, announced) && s.marker == Some(m) && m.phase == CleanPending
    ensures var t := Create(s, m.pending.value);
            !Owes(t) && forall pc :: NotesSound(t.(pc := pc), announced)
  {
    CreateEffect(s, m);
    var note, t := m.pending.value, Create(s, m.pending.value);
    assert Announces(m.reason) == Some(note.kind);
    hide Inv, Create;
    forall r ensures t.emitted[(RestartShutdown, r)] == Bit(r in announced) { assert Counted(s, announced, r); }
    forall pc ensures NotesSound(t.(pc := pc), announced) {
      forall r ensures Counted(t.(pc := pc), announced, r) {}
    }
  }

  lemma SettledOwesNothing(s: State)
    requires Inv(s) && s.pc.WriteRunning?
    ensures !Owes(s) && s.nextId !in s.runs
  {
    hide OthersSettled;
  }

  lemma WriteKeeps(s: State, announced: set<nat>)
    requires Inv(s) && NotesSound(s, announced) && (s.pc.WritePending? || s.pc.WriteRunning? || s.pc.StopClean?)
    ensures NotesSound(Act1(s), announced)
  {
    if s.pc.WriteRunning? { SettledOwesNothing(s); }
    PcReasons(s);
    hide Inv, Settled;
    QuietStep(s, Act1(s), announced);
  }

  lemma PcReasons(s: State)
    requires Inv(s)
    ensures s.pc.WritePending? ==> s.pc.marker.phase == CleanPending && s.pc.marker.reason != ConfigRestart
    ensures s.pc.StopClean? ==> s.marker == Some(s.pc.marker) && !Owes(s)
    ensures s.pc.StopPending? ==>
              && s.marker.Some? && s.marker.value.run == s.pc.marker.run && s.marker.value.run in s.runs
              && s.marker.value.phase in {Running, PlannedRestart} && s.pc.marker.phase == CleanPending
              && s.pc.marker.pending.Some? && s.pc.marker.pending.value.id !in s.created
    ensures s.pc.StopCreate? ==> s.marker == Some(s.pc.marker) && s.pc.marker.phase == CleanPending && s.pc.marker.pending.Some?
  {
    hide OthersSettled, Settled, MarkerSound;
  }

  /** A promise made at a shutdown. */
  lemma PromiseKeeps(s: State, announced: set<nat>)
    requires Inv(s) && NotesSound(s, announced) && s.pc.StopPending?
    ensures NotesSound(Act1(s), announced + (if s.pc.marker.reason == ConfigRestart then {s.pc.marker.run} else {}))
  {
    PcReasons(s);
    hide Inv;
    var t := Act1(s);
    var more := announced + (if s.pc.marker.reason == ConfigRestart then {s.pc.marker.run} else {});
    forall r ensures Counted(t, more, r) { assert Counted(s, announced, r); }
  }

  lemma ActKeepsNotes(s: State, announced: set<nat>)
    requires Inv(s) && NotesSound(s, announced) && Enabled(s, Act)
    ensures NotesSound(Act1(s), announced + (if Promises(s, Act) then {s.pc.marker.run} else {}))
  {
    PcFacts(s);
    PcReasons(s);
    hide Inv, NotesSound, Create, Owes, RestartMarker;
    assert announced + {} == announced;
    match s.pc
    case Replay(previous, _) =>
      CreateKeepsNotes(s, previous, announced);
      var t := Create(s, previous.pending.value);
      ReplayedKeeps(t, Act1(s), announced);
    case CreatePending(_, _) => CreateKeepsNotes(s, s.marker.value, announced);
    case StopCreate(m) => CreateKeepsNotes(s, m, announced);
    case StopPending(_) => PromiseKeeps(s, announced);
    case WritePending(_, _) => WriteKeeps(s, announced);
    case WriteRunning(_) => WriteKeeps(s, announced);
    case StopClean(_) => WriteKeeps(s, announced);
  }

  lemma ReplayedKeeps(s: State, t: State, announced: set<nat>)
    requires !Owes(s) && t == s.(pc := t.pc, nextId := t.nextId) && NotesSound(s.(pc := t.pc), announced)
    ensures NotesSound(t, announced)
  {
    QuietStep(s.(pc := t.pc), t, announced);
  }

  lemma StepKeepsNotes(s: State, step: Step, announced: set<nat>)
    requires Inv(s) && NotesSound(s, announced) && Enabled(s, step)
    ensures NotesSound(Apply(s, step), announced + (if Promises(s, step) then {s.pc.marker.run} else {}))
  {
    assert announced + {} == announced;
    match step
    case Boot => BootKeeps(s, announced);
    case Act => ActKeepsNotes(s, announced);
    case _ =>
      hide Inv;
      QuietStep(s, Apply(s, step), announced);
  }

  lemma {:induction false} RunKeepsNotes(s: State, steps: seq<Step>, t: State, announced: set<nat>)
    requires Inv(s) && NotesSound(s, announced) && Runs(s, steps, t)
    ensures Inv(t) && NotesSound(t, announced + Announced(s, steps))
    decreases |steps|
  {
    hide Inv, NotesSound, Apply;
    if steps == [] {
      assert announced + {} == announced;
    } else {
      var more := if Promises(s, steps[0]) then {s.pc.marker.run} else {};
      StepKeepsInv(s, steps[0]);
      StepKeepsNotes(s, steps[0], announced);
      RunKeepsNotes(Apply(s, steps[0]), steps[1..], t, announced + more);
      assert announced + more + Announced(Apply(s, steps[0]), steps[1..]) == announced + Announced(s, steps);
    }
  }

  /** In every run a restart-shutdown note about a run exists at most once, and only if its shutdown
      promised one; once a controller is up it exists exactly then.  Such a run ended by a restart. */
  lemma RestartShutdownOnce(steps: seq<Step>, t: State, r: nat)
    requires Runs(Init, steps, t)
    ensures t.emitted[(RestartShutdown, r)] <= Bit(r in Announced(Init, steps))
    ensures t.pc == Up ==> t.emitted[(RestartShutdown, r)] == Bit(r in Announced(Init, steps))
    ensures r in Announced(Init, steps) ==> r in t.restarted
  {
    assert NotesSound(Init, {}) by {
      forall k ensures Counted(Init, {}, k) {}
    }
    assert Inv(Init);
    RunKeepsNotes(Init, steps, t, {});
    assert {} + Announced(Init, steps) == Announced(Init, steps);
    if t.pc == Up { UpOwesNothing(t); }
    hide Inv, Announced, Owes;
    assert Counted(t, Announced(Init, steps), r);
  }

  lemma UpOwesNothing(s: State)
    requires Inv(s) && s.pc == Up
    ensures !Owes(s)
  {
    hide OthersSettled, MarkerInv, IdsSound;
  }
}
