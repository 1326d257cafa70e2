/** The project scheduler and its deduplication. */
module ProjectSchedule {
  // `Source`, `update`, and the record saved after a run.  Each is one step under the service's lock;
  // the process may crash between saving the token and enqueuing the job.

  import opened YamlText
  import opened Selector
  import opened SelectorNormal
  import opened SelectorTime

  /** `bucketToken`: the date and the bucket. */
  datatype Token = Token(day: nat, bucket: string)

  datatype Project = Project(name: string, task: string, selector: string, enabled: bool, lastRun: int, lastEnqueued: Option<Token>)

  /** The token under which a project is due, if it is. */
  function Due(p: Project, now: nat): (r: Option<Token>) {
    match Parse(p.selector)
    case Err => None
    case Ok(s) =>
      ParsedIsProper(p.selector);
      if p.enabled && TrimSpace(p.task) != "" && Matches(s, now) && p.lastEnqueued != Some(Token(Day(now), s.bucket))
      then Some(Token(Day(now), s.bucket)) else None
  }

  function Marked(p: Project, now: nat): Project {
    match Due(p, now) case None => p case Some(token) => p.(lastEnqueued := Some(token))
  }

  /** A scheduled job: which project it is for, and the token it was enqueued under. */
  datatype Envelope = Envelope(index: nat, selector: string, token: Token)

  function Envelopes(projects: seq<Project>, now: nat): seq<Envelope> {
    if projects == [] then []
    else
      var last := |projects| - 1;
      Envelopes(projects[..last], now) +
      match Due(projects[last], now) case None => [] case Some(token) => [Envelope(last, projects[last].selector, token)]
  }

  /** The project is enabled, has a task, its selector applies at `now`, and it was not last enqueued
      under this token, which is the date and the bucket. */
  predicate IsDue(p: Project, now: nat, token: Token) {
    && p.enabled && TrimSpace(p.task) != "" && Parse(p.selector).Ok? && |Parse(p.selector).value.days| == 7
    && Matches(Parse(p.selector).value, now)
    && token == Token(now / 86400000, Parse(p.selector).value.bucket) && p.lastEnqueued != Some(token)
  }

  lemma DueIff(p: Project, now: nat, token: Token)
    ensures Due(p, now) == Some(token) <==> IsDue(p, now, token)
  {
    if Parse(p.selector).Ok? { ParsedIsProper(p.selector); }
    hide Parse, Matches, TrimSpace;
  }

  /** One envelope for each project that is due, in order. */
  ghost predicate AreDue(es: seq<Envelope>, projects: seq<Project>, now: nat) {
    && (forall i, j | 0 <= i < j < |es| :: es[i].index < es[j].index)
    && (forall e <- es :: e.index < |projects| && e.selector == projects[e.index].selector && IsDue(projects[e.index], now, e.token))
    && forall i: nat, token | i < |projects| && IsDue(projects[i], now, token) :: Envelope(i, projects[i].selector, token) in es
  }

  lemma {:induction false} EnvelopesAre(projects: seq<Project>, now: nat)
    ensures AreDue(Envelopes(projects, now), projects, now)
  {
    hide IsDue, Due;
    if projects != [] {
      var last := |projects| - 1;
      EnvelopesAre(projects[..last], now);
      forall token ensures Due(projects[last], now) == Some(token) <==> IsDue(projects[last], now, token) {
        DueIff(projects[last], now, token);
      }
      var es, before := Envelopes(projects, now), Envelopes(projects[..last], now);
      forall i, j | 0 <= i < j < |es| ensures es[i].index < es[j].index {
        if i < |before| { assert before[i] in before; }
      }
      forall i: nat, token | i < |projects| && IsDue(projects[i], now, token)
        ensures Envelope(i, projects[i].selector, token) in es
      {
        if i < last { assert projects[..last][i] == projects[i]; }
      }
    }
  }

  /** Exactly the projects with an envelope are marked, each with its token, and nothing else of them
      changes. */
  ghost predicate AreMarked(es: seq<Envelope>, before: seq<Project>, after: seq<Project>) {
    && |after| == |before|
    && (forall e <- es :: e.index < |after| && after[e.index].lastEnqueued == Some(e.token))
    && forall i: nat | i < |after| ::
         after[i] == before[i] || (after[i] == before[i].(lastEnqueued := after[i].lastEnqueued) && exists e <- es :: e.index == i)
  }

  lemma MarkedOnce(before: seq<Project>, after: seq<Project>, now: nat)
    requires |after| == |before| && forall i | 0 <= i < |after| :: after[i] == Marked(before[i], now)
    ensures AreMarked(Envelopes(before, now), before, after)
  {
    EnvelopesAre(before, now);
    var es := Envelopes(before, now);
    hide Due, IsDue, Envelopes;
    forall e | e in es ensures e.index < |after| && after[e.index].lastEnqueued == Some(e.token) {
      DueIff(before[e.index], now, e.token);
    }
    forall i: nat | i < |after|
      ensures after[i] == before[i] || (after[i] == before[i].(lastEnqueued := after[i].lastEnqueued) && exists e <- es :: e.index == i)
    {
      if Due(before[i], now).Some? {
        var token := Due(before[i], now).value;
        DueIff(before[i], now, token);
        assert Envelope(i, before[i].selector, token) in es;
      }
    }
  }

  class Service {
    var projects: seq<Project>

    constructor (projects: seq<Project>)
      ensures this.projects == projects
    {
      this.projects := projects;
    }

    /** `Source`: marks each due project before its job is enqueued. */
    method Source(now: nat) returns (result: seq<Envelope>)
      modifies this
      ensures |projects| == |old(projects)| && forall i | 0 <= i < |projects| :: projects[i] == Marked(old(projects[i]), now)
      ensures result == Envelopes(old(projects), now) && AreDue(result, old(projects), now)
      ensures AreMarked(result, old(projects), projects)
    {
      EnvelopesAre(projects, now);
      hide Due, AreDue, AreMarked;
      var all := projects;
      result := [];
      for i := 0 to |all|
        invariant |projects| == |all|
        invariant forall k | 0 <= k < i :: projects[k] == Marked(all[k], now)
        invariant forall k | i <= k < |all| :: projects[k] == all[k]
        invariant result == Envelopes(all[..i], now)
      {
        assert all[..i + 1][..i] == all[..i];
        var token := DueToken(all[i], now);
        if token.Some? {
          projects := projects[i := all[i].(lastEnqueued := token)];
          result := result + [Envelope(i, all[i].selector, token.value)];
        } else {
          assert result + [] == result;
        }
      }
      assert all[..|all|] == all;
      MarkedOnce(all, projects, now);
    }

    /** The tests of `Source` for one project, in its order. */
    method DueToken(p: Project, now: nat) returns (token: Option<Token>)
      ensures token == Due(p, now)
    {
      var parsed := Parse(p.selector);
      if parsed.Err? || !p.enabled || TrimSpace(p.task) == "" { return None; }
      ParsedIsProper(p.selector);
      if !Matches(parsed.value, now) { return None; }
      var t := Token(Day(now), parsed.value.bucket);
      if p.lastEnqueued == Some(t) { return None; }
      token := Some(t);
    }
  }

  // ---- Runs ----

  /** What becomes of a due project at a tick: the record could not be saved; the process crashed, or
      the queue refused, after it was saved; or the job was enqueued. */
  datatype Fate = NotSaved | Lost | Enqueued

  datatype Request = Request(name: Option<string>, task: Option<string>, selector: Option<string>, enabled: Option<bool>)

  datatype Step = Tick(now: nat, fate: Fate) | Update(request: Request) | RunRecorded(at: int)

  /** One project, with every token it was marked with and those a job was enqueued under. */
  datatype State = State(project: Project, marked: seq<Token>, enqueued: seq<Token>)

  function Set<T>(value: Option<T>, otherwise: T): T { match value case Some(v) => v case None => otherwise }

  predicate ValidName(name: string) { 1 <= |TrimSpace(name)| <= 80 }

  /** `update`: validated, or refused as a whole. */
  function Updated(p: Project, r: Request): Project {
    if r.name.Some? && !ValidName(r.name.value) then p
    else if r.task.Some? && |r.task.value| > 4096 then p
    else if r.selector.Some? && Parse(r.selector.value).Err? then p
    else
      var q := p.(name := if r.name.Some? then TrimSpace(r.name.value) else p.name, task := Set(r.task, p.task),
                  selector := if r.selector.Some? then Normal(r.selector.value) else p.selector,
                  enabled := Set(r.enabled, p.enabled));
      if q.enabled && TrimSpace(q.task) == "" then p else q
  }

  function Apply(s: State, step: Step): State {
    match step
    case Tick(now, fate) =>
      (match Due(s.project, now)
       case None => s
       case Some(token) =>
         if fate == NotSaved then s
         else State(Marked(s.project, now), s.marked + [token], if fate == Enqueued then s.enqueued + [token] else s.enqueued))
    case Update(request) => s.(project := Updated(s.project, request))
    case RunRecorded(at) => s.(project := s.project.(lastRun := at))
  }

  predicate Runs(s: State, steps: seq<Step>, t: State)
    decreases |steps|
  {
    if steps == [] then s == t else Runs(Apply(s, steps[0]), steps[1..], t)
  }

  // ---- A token returns only after another one ----

  predicate Sub(a: seq<Token>, b: seq<Token>) {
    a == [] || (b != [] && (Sub(a, b[..|b| - 1]) || (a[|a| - 1] == b[|b| - 1] && Sub(a[..|a| - 1], b[..|b| - 1]))))
  }

  /** The record holds the last token marked, no token follows itself, and every job enqueued was marked. */
  predicate Good(s: State) {
    && (s.marked != [] ==> s.project.lastEnqueued == Some(s.marked[|s.marked| - 1]))
    && (forall i | 0 <= i < |s.marked| - 1 :: s.marked[i] != s.marked[i + 1])
    && Sub(s.enqueued, s.marked)
  }

  lemma DueIsNew(p: Project, now: nat)
    ensures Due(p, now).Some? ==> Due(p, now) != p.lastEnqueued && Due(p, now).value.day == Day(now)
    ensures Due(p, now).Some? ==> Parse(p.selector).Ok? && Due(p, now).value.bucket == Parse(p.selector).value.bucket
  {
    hide Parse, Matches;
  }

  lemma StepKeeps(s: State, step: Step)
    requires Good(s)
    ensures Good(Apply(s, step))
  {
    match step
    case Tick(now, fate) =>
      DueIsNew(s.project, now);
      hide Due, Parse, Sub;
      if Due(s.project, now).Some? && fate != NotSaved { SubAppend(s.enqueued, s.marked, Due(s.project, now).value); }
    case Update(_) => hide Parse, Normal, TrimSpace;
    case RunRecorded(_) =>
  }

  /** In every run, with updates, runs and crashes in between, between two marks of the same token
      there is a mark of another. */
  lemma {:induction false} RunKeeps(s: State, steps: seq<Step>, t: State)
    requires Good(s) && Runs(s, steps, t)
    ensures Good(t)
    decreases |steps|
  {
    hide Good, Apply;
    if steps != [] {
      StepKeeps(s, steps[0]);
      RunKeeps(Apply(s, steps[0]), steps[1..], t);
    }
  }

  lemma SubAppend(a: seq<Token>, b: seq<Token>, token: Token)
    requires Sub(a, b)
    ensures Sub(a, b + [token]) && Sub(a + [token], b + [token])
  {
    assert (b + [token])[..|b|] == b && (a + [token])[..|a|] == a;
  }

  // ---- At most once per date and bucket ----

  /** Both selectors apply on some day of the week, under different buckets one of which is the whole
      day. */
  predicate Clash(a: Selector, b: Selector) {
    && |a.days| == |b.days| == 7 && a.bucket != b.bucket && (a.bucket == "anytime" || b.bucket == "anytime")
    && exists d | 0 <= d < 7 :: a.days[d] && b.days[d]
  }

  predicate ClashingTexts(a: string, b: string) {
    Parse(a).Ok? && Parse(b).Ok? && Clash(Parse(a).value, Parse(b).value)
  }

  predicate Clashing(texts: set<string>) {
    exists a, b | a in texts && b in texts :: ClashingTexts(a, b)
  }

  /** Ticks do not go back past `from`, and every selector asked for is one of the texts. */
  predicate Steady(steps: seq<Step>, texts: set<string>, from: nat) {
    steps == [] ||
    match steps[0]
    case Tick(now, _) => now >= from && Steady(steps[1..], texts, now)
    case Update(request) => (request.selector.Some? ==> request.selector.value in texts) && Steady(steps[1..], texts, from)
    case RunRecorded(_) => Steady(steps[1..], texts, from)
  }

  /** The selector reads like one of the texts. */
  predicate InForce(selector: string, texts: set<string>) {
    exists text <- texts :: Parse(selector) == Parse(text)
  }

  /** The token is that of a text which applies at this time. */
  predicate Chosen(token: Token, texts: set<string>, now: nat) {
    exists text <- texts :: ChosenBy(token, text, now)
  }

  predicate ChosenBy(token: Token, text: string, now: nat) {
    && Parse(text).Ok? && |Parse(text).value.days| == 7 && Matches(Parse(text).value, now)
    && token == Token(Day(now), Parse(text).value.bucket)
  }

  predicate Ascending(at: seq<nat>, until: nat) {
    (forall i, j | 0 <= i < j < |at| :: at[i] <= at[j]) && forall t <- at :: t <= until
  }

  /** `at` are the times of the marks, each made under one of the texts. */
  ghost predicate Timed(s: State, at: seq<nat>, texts: set<string>, until: nat) {
    && Good(s) && InForce(s.project.selector, texts) && |at| == |s.marked| && Ascending(at, until)
    && forall i | 0 <= i < |at| :: Chosen(s.marked[i], texts, at[i])
  }

  lemma TickEffect(s: State, now: nat, fate: Fate)
    ensures var due, t := Due(s.project, now), Apply(s, Tick(now, fate));
            if due.None? || fate == NotSaved then t == s
            else
              && t.project == s.project.(lastEnqueued := due) && t.marked == s.marked + [due.value]
              && t.enqueued == if fate == Enqueued then s.enqueued + [due.value] else s.enqueued
  {
    hide Due;
  }

  lemma DueIsChosen(p: Project, texts: set<string>, now: nat)
    requires InForce(p.selector, texts) && Due(p, now).Some?
    ensures Chosen(Due(p, now).value, texts, now)
  {
    var text :| text in texts && Parse(p.selector) == Parse(text);
    ParsedIsProper(p.selector);
    hide Parse, Matches;
    assert ChosenBy(Due(p, now).value, text, now);
  }

  lemma TimedGrows(s: State, t: State, at: seq<nat>, texts: set<string>, from: nat, now: nat, token: Token)
    requires Timed(s, at, texts, from) && now >= from && Good(t) && t.project.selector == s.project.selector
    requires t.marked == s.marked + [token] && Chosen(token, texts, now)
    ensures Timed(t, at + [now], texts, now)
  {
    hide Good, InForce, Chosen;
    var times := at + [now];
    forall i, j | 0 <= i < j < |times| ensures times[i] <= times[j] {
      assert times[i] in at;
    }
    forall i | 0 <= i < |times| ensures Chosen(t.marked[i], texts, times[i]) {
      if i < |at| { assert t.marked[i] == s.marked[i]; }
    }
  }

  lemma TimedLater(s: State, at: seq<nat>, texts: set<string>, from: nat, now: nat)
    requires Timed(s, at, texts, from) && now >= from
    ensures Timed(s, at, texts, now)
  {
    hide Good, InForce, Chosen;
  }

  lemma ForceOfTimed(s: State, at: seq<nat>, texts: set<string>, from: nat)
    requires Timed(s, at, texts, from)
    ensures Good(s) && InForce(s.project.selector, texts)
  {
  }

  lemma TickTimed(s: State, at: seq<nat>, texts: set<string>, from: nat, now: nat, fate: Fate) returns (at': seq<nat>)
    requires Timed(s, at, texts, from) && now >= from
    ensures Timed(Apply(s, Tick(now, fate)), at', texts, now)
  {
    hide *;
    ForceOfTimed(s, at, texts, from);
    StepKeeps(s, Tick(now, fate));
    TickEffect(s, now, fate);
    if Due(s.project, now).Some? && fate != NotSaved {
      DueIsChosen(s.project, texts, now);
      at' := at + [now];
      TimedGrows(s, Apply(s, Tick(now, fate)), at, texts, from, now, Due(s.project, now).value);
    } else {
      at' := at;
      TimedLater(s, at, texts, from, now);
    }
  }

  lemma UpdateTimed(s: State, at: seq<nat>, texts: set<string>, from: nat, request: Request)
    requires Timed(s, at, texts, from) && (request.selector.Some? ==> request.selector.value in texts)
    ensures Timed(Apply(s, Update(request)), at, texts, from)
  {
    StepKeeps(s, Update(request));
    var p := s.project;
    if request.selector.Some? { NormalIsStable(request.selector.value); }
    hide Good, Chosen, Parse, Normal, TrimSpace;
    assert InForce(Updated(p, request).selector, texts);
  }

  lemma {:induction false} SteadyRunTimed(s: State, steps: seq<Step>, t: State, at: seq<nat>, texts: set<string>, from: nat)
      returns (at': seq<nat>, until: nat)
    requires Timed(s, at, texts, from) && Steady(steps, texts, from) && Runs(s, steps, t)
    ensures Timed(t, at', texts, until)
    decreases |steps|
  {
    hide Due, Parse, Timed;
    if steps == [] {
      at', until := at, from;
    } else {
      var next, times := from, at;
      match steps[0] {
        case Tick(now, fate) =>
          times := TickTimed(s, at, texts, from, now, fate);
          next := now;
        case Update(request) => UpdateTimed(s, at, texts, from, request);
        case RunRecorded(run) => RecordTimed(s, at, texts, from, run);
      }
      at', until := SteadyRunTimed(Apply(s, steps[0]), steps[1..], t, times, texts, next);
    }
  }

  /** Recording a run reads the record afresh, so it keeps the token. */
  lemma RecordTimed(s: State, at: seq<nat>, texts: set<string>, from: nat, run: int)
    requires Timed(s, at, texts, from)
    ensures Timed(Apply(s, RunRecorded(run)), at, texts, from)
  {
    StepKeeps(s, RunRecorded(run));
    hide Good, Chosen, InForce;
  }

  /** Two buckets that share a minute are one, or one of them is the whole day. */
  lemma SharedMinute(a: string, b: string, minute: nat)
    requires Hours(a).Some? && Hours(b).Some? && a != b
    requires Hours(a).value.0 * 60 <= minute < Hours(a).value.1 * 60
    requires Hours(b).value.0 * 60 <= minute < Hours(b).value.1 * 60
    ensures a == "anytime" || b == "anytime"
  {
  }

  lemma Between(t1: nat, t2: nat, t3: nat)
    requires t1 <= t2 <= t3 && Day(t1) == Day(t3)
    ensures Day(t1) == Day(t2) && t1 % DAY_MS / 60000 <= t2 % DAY_MS / 60000 <= t3 % DAY_MS / 60000
  {
    assert t1 / DAY_MS <= t2 / DAY_MS <= t3 / DAY_MS;
    assert t1 % DAY_MS <= t2 % DAY_MS <= t3 % DAY_MS;
  }

  /** A token that comes back after another one was chosen by texts that clash. */
  lemma ComingBackClashes(x: Token, y: Token, t1: nat, t2: nat, t3: nat, texts: set<string>)
    requires Chosen(x, texts, t1) && Chosen(y, texts, t2) && Chosen(x, texts, t3) && x != y && t1 <= t2 <= t3
    ensures Clashing(texts)
  {
    var a :| a in texts && ChosenBy(x, a, t1);
    var b :| b in texts && ChosenBy(y, b, t2);
    var c :| c in texts && ChosenBy(x, c, t3);
    var (p, q, r) := (Parse(a).value, Parse(b).value, Parse(c).value);
    hide Parse, Day, Weekday, Hours;
    Between(t1, t2, t3);
    SharedMinute(p.bucket, q.bucket, t2 % DAY_MS / 60000);
    var d := Weekday(Day(t2));
    assert p.days[d] && q.days[d];
    assert ClashingTexts(a, b);
  }

  lemma MarksDiffer(s: State, at: seq<nat>, texts: set<string>, until: nat, i: nat, j: nat)
    requires Timed(s, at, texts, until) && !Clashing(texts) && i < j < |s.marked|
    ensures s.marked[i] != s.marked[j]
  {
    hide Chosen, Clashing;
    if s.marked[i] == s.marked[j] {
      assert j > i + 1 && s.marked[i + 1] != s.marked[i];
      ComingBackClashes(s.marked[i], s.marked[i + 1], at[i], at[i + 1], at[j], texts);
    }
  }

  lemma {:induction false} SubCounts(a: seq<Token>, b: seq<Token>, x: Token)
    requires Sub(a, b)
    ensures multiset(a)[x] <= multiset(b)[x]
    decreases |b|
  {
    if a != [] {
      var b0 := b[..|b| - 1];
      assert b == b0 + [b[|b| - 1]];
      if Sub(a, b0) {
        SubCounts(a, b0, x);
      } else {
        assert a == a[..|a| - 1] + [a[|a| - 1]];
        SubCounts(a[..|a| - 1], b0, x);
      }
    }
  }

  lemma {:induction false} DifferingOnce(marks: seq<Token>, x: Token)
    requires forall i, j | 0 <= i < j < |marks| :: marks[i] != marks[j]
    ensures multiset(marks)[x] <= 1
  {
    if marks != [] {
      assert marks == [marks[0]] + marks[1..];
      DifferingOnce(marks[1..], x);
      if marks[0] == x { assert x !in marks[1..]; }
    }
  }

  /** At most one scheduled job per date and bucket, whatever updates, runs and crashes come between,
      as long as no two of the selectors asked for clash. */
  lemma AtMostOncePerBucket(p: Project, steps: seq<Step>, t: State, texts: set<string>, from: nat, x: Token)
    requires InForce(p.selector, texts) && !Clashing(texts)
    requires Steady(steps, texts, from) && Runs(State(p, [], []), steps, t)
    ensures multiset(t.enqueued)[x] <= 1
  {
    hide Clashing, InForce;
    var s := State(p, [], []);
    assert Timed(s, [], texts, from);
    var at, until := SteadyRunTimed(s, steps, t, [], texts, from);
    forall i, j | 0 <= i < j < |t.marked| ensures t.marked[i] != t.marked[j] {
      MarksDiffer(t, at, texts, until, i, j);
    }
    SubCounts(t.enqueued, t.marked, x);
    hide Sub;
    DifferingOnce(t.marked, x);
  }

  // ---- And at least once ----

  predicate Applies(p: Project, now: nat, token: Token) {
    && p.enabled && TrimSpace(p.task) != "" && Parse(p.selector).Ok? && |Parse(p.selector).value.days| == 7
    && Matches(Parse(p.selector).value, now) && token == Token(Day(now), Parse(p.selector).value.bucket)
  }

  /** Whatever is saved at a tick is also enqueued. */
  predicate NoneLost(steps: seq<Step>) { forall step <- steps :: step.Tick? ==> step.fate != Lost }

  /** Until a project is first marked its record keeps the token it started with. */
  lemma StepTokens(s: State, step: Step, first: Option<Token>)
    requires s.marked == [] ==> s.project.lastEnqueued == first
    ensures var t := Apply(s, step);
            && (t.marked == [] ==> t.project.lastEnqueued == first) && s.marked <= t.marked
            && (s.enqueued == s.marked && !(step.Tick? && step.fate == Lost) ==> t.enqueued == t.marked)
  {
    hide Due, Parse, Normal, TrimSpace;
  }

  lemma {:induction false} RunTokens(s: State, steps: seq<Step>, t: State, first: Option<Token>)
    requires (s.marked == [] ==> s.project.lastEnqueued == first) && Runs(s, steps, t)
    ensures (t.marked == [] ==> t.project.lastEnqueued == first) && s.marked <= t.marked
    ensures s.enqueued == s.marked && NoneLost(steps) ==> t.enqueued == t.marked
    decreases |steps|
  {
    if steps != [] {
      hide Apply;
      assert steps[0] in steps && forall step <- steps[1..] :: step in steps;
      StepTokens(s, steps[0], first);
      RunTokens(Apply(s, steps[0]), steps[1..], t, first);
    }
  }

  /** A tick that finds the selector applying leaves its token marked, now or before. */
  lemma TickMarks(s: State, now: nat, fate: Fate, token: Token)
    requires Good(s) && Applies(s.project, now, token) && fate != NotSaved
    requires s.marked == [] ==> s.project.lastEnqueued != Some(token)
    ensures token in Apply(s, Tick(now, fate)).marked
  {
    hide Parse, Matches, TrimSpace, Sub;
  }

  lemma {:induction false} RunsConcat(s: State, a: seq<Step>, m: State, b: seq<Step>, t: State)
    requires Runs(s, a, m) && Runs(m, b, t)
    ensures Runs(s, a + b, t)
    decreases |a|
  {
    hide Apply;
    if a == [] {
      assert a + b == b;
    } else {
      assert (a + b)[1..] == a[1..] + b;
      RunsConcat(Apply(s, a[0]), a[1..], m, b, t);
    }
  }

  lemma RunsTick(s: State, now: nat, fate: Fate, b: seq<Step>, t: State)
    requires Runs(Apply(s, Tick(now, fate)), b, t)
    ensures Runs(s, [Tick(now, fate)] + b, t)
  {
    hide Apply;
    assert ([Tick(now, fate)] + b)[1..] == b;
  }

  /** Exactly once: if nothing is lost to a crash between saving and enqueuing, a date and bucket at
      which some tick finds the project due or already marked gets one job and no more. */
  lemma ExactlyOncePerBucket(p: Project, a: seq<Step>, m: State, now: nat, b: seq<Step>, t: State, texts: set<string>,
                             from: nat, x: Token)
    requires InForce(p.selector, texts) && !Clashing(texts) && p.lastEnqueued != Some(x)
    requires Steady(a + [Tick(now, Enqueued)] + b, texts, from) && NoneLost(a) && NoneLost(b)
    requires Runs(State(p, [], []), a, m) && Applies(m.project, now, x)
    requires Runs(Apply(m, Tick(now, Enqueued)), b, t)
    ensures multiset(t.enqueued)[x] == 1
  {
    hide *;
    var s, m1, tail := State(p, [], []), Apply(m, Tick(now, Enqueued)), [Tick(now, Enqueued)] + b;
    RunTokens(s, a, m, p.lastEnqueued);
    FirstGood(p);
    RunKeeps(s, a, m);
    TickMarks(m, now, Enqueued, x);
    StepTokens(m, Tick(now, Enqueued), p.lastEnqueued);
    RunTokens(m1, b, t, p.lastEnqueued);
    assert x in t.marked;
    RunsTick(m, now, Enqueued, b, t);
    RunsConcat(s, a, m, tail, t);
    assert a + tail == a + [Tick(now, Enqueued)] + b;
    AtMostOncePerBucket(p, a + tail, t, texts, from, x);
    assert x in multiset(t.enqueued);
  }

  lemma FirstGood(p: Project)
    ensures Good(State(p, [], []))
  {
  }

  // ---- With selectors that clash it fails ----

  predicate Ready(p: Project, s: Selector, now: nat, token: Token) {
    && p.enabled && TrimSpace(p.task) != "" && p.lastEnqueued != Some(token) && Parse(p.selector) == Ok(s)
    && |s.days| == 7 && Matches(s, now) && token == Token(Day(now), s.bucket)
  }

  lemma TickEnqueues(s: State, selector: Selector, now: nat, token: Token)
    requires Ready(s.project, selector, now, token)
    ensures Apply(s, Tick(now, Enqueued)) ==
            State(s.project.(lastEnqueued := Some(token)), s.marked + [token], s.enqueued + [token])
  {
    hide Parse, Matches, TrimSpace;
  }

  function Reselect(selector: string): Step { Update(Request(None, None, Some(selector), None)) }

  lemma Reselected(s: State, selector: string)
    requires s.project.enabled && TrimSpace(s.project.task) != "" && Parse(selector).Ok?
    ensures Apply(s, Reselect(selector)) == s.(project := s.project.(selector := Normal(selector)))
    ensures Parse(Normal(selector)) == Parse(selector)
  {
    NormalIsStable(selector);
    hide Parse, TrimSpace, Normal;
  }

  /** Changing the selector to another that applies at the time, under another bucket, and back
      enqueues the first token twice. */
  lemma ChangingBackRepeats(p: Project, other: string, now: nat, x: Token, y: Token)
    requires Parse(p.selector).Ok? && Parse(other).Ok? && x != y
    requires Ready(p, Parse(p.selector).value, now, x)
    requires Ready(p.(selector := other, lastEnqueued := Some(x)), Parse(other).value, now, y)
    ensures var steps := [Tick(now, Enqueued), Reselect(other), Tick(now, Enqueued), Reselect(p.selector), Tick(now, Enqueued)];
            exists t :: Runs(State(p, [], []), steps, t) && t.enqueued == [x, y, x]
  {
    hide Parse, Matches, TrimSpace, Apply, Normal, Due;
    var steps := [Tick(now, Enqueued), Reselect(other), Tick(now, Enqueued), Reselect(p.selector), Tick(now, Enqueued)];
    var a, b := Parse(p.selector).value, Parse(other).value;
    var s0 := State(p, [], []);
    var s1 := Apply(s0, steps[0]);
    TickEnqueues(s0, a, now, x);
    var s2 := Apply(s1, steps[1]);
    Reselected(s1, other);
    var s3 := Apply(s2, steps[2]);
    TickEnqueues(s2, b, now, y);
    var s4 := Apply(s3, steps[3]);
    Reselected(s3, p.selector);
    var s5 := Apply(s4, steps[4]);
    TickEnqueues(s4, a, now, x);
    assert Runs(s5, steps[5..], s5) && Runs(s4, steps[4..], s5) && Runs(s3, steps[3..], s5);
    assert steps[3..][1..] == steps[4..] && steps[2..][1..] == steps[3..] && steps[1..][1..] == steps[2..];
    assert Runs(s2, steps[2..], s5) && Runs(s1, steps[1..], s5);
  }

  /** Selectors that clash apply at one time. */
  lemma CommonTime(a: Selector, b: Selector) returns (now: nat)
    requires Proper(a) && Proper(b) && Clash(a, b)
    ensures Matches(a, now) && Matches(b, now)
  {
    var d: nat :| d < 7 && a.days[d] && b.days[d];
    var hour := Hours(if a.bucket == "anytime" then b.bucket else a.bucket).value.0;
    now := (d + 3) * DAY_MS + hour * HOUR_MS;
    assert Hours("anytime") == Some((0, 24));
    hide Hours;
    assert Day(now) == d + 3 && Weekday(d + 3) == d && now % DAY_MS / 60000 == hour * 60;
  }

  lemma Worked()
    ensures TrimSpace("work") != ""
  {
  }

  lemma ClashRepeats(a: string, b: string) returns (p: Project, steps: seq<Step>, t: State, now: nat, x: Token)
    requires ClashingTexts(a, b)
    ensures p.selector == a && Steady(steps, {a, b}, now) && Runs(State(p, [], []), steps, t)
    ensures multiset(t.enqueued)[x] == 2
  {
    ParsedIsProper(a);
    ParsedIsProper(b);
    Worked();
    hide Parse, Matches, TrimSpace, Hours, Proper, Runs;
    now := CommonTime(Parse(a).value, Parse(b).value);
    p := Project("p", "work", a, true, 0, None);
    x := Token(Day(now), Parse(a).value.bucket);
    var y := Token(Day(now), Parse(b).value.bucket);
    ChangingBackRepeats(p, b, now, x, y);
    steps := [Tick(now, Enqueued), Reselect(b), Tick(now, Enqueued), Reselect(a), Tick(now, Enqueued)];
    t :| Runs(State(p, [], []), steps, t) && t.enqueued == [x, y, x];
    SameTime(now, a, b);
  }

  lemma SameTime(now: nat, a: string, b: string)
    ensures Steady([Tick(now, Enqueued), Reselect(b), Tick(now, Enqueued), Reselect(a), Tick(now, Enqueued)], {a, b}, now)
  {
    var steps := [Tick(now, Enqueued), Reselect(b), Tick(now, Enqueued), Reselect(a), Tick(now, Enqueued)];
    assert steps[1..] == [Reselect(b), Tick(now, Enqueued), Reselect(a), Tick(now, Enqueued)];
    assert steps[1..][1..] == [Tick(now, Enqueued), Reselect(a), Tick(now, Enqueued)];
    assert Steady([Reselect(a), Tick(now, Enqueued)], {a, b}, now) by {
      assert [Reselect(a), Tick(now, Enqueued)][1..] == [Tick(now, Enqueued)];
      assert [Tick(now, Enqueued)][1..] == [];
    }
    assert [Tick(now, Enqueued), Reselect(a), Tick(now, Enqueued)][1..] == [Reselect(a), Tick(now, Enqueued)];
  }

  /** Whatever is updated, with these selectors only, no job is enqueued twice for one date and bucket. */
  ghost predicate OnceEach(texts: set<string>) {
    forall p: Project, steps, t, from, x | InForce(p.selector, texts) && Steady(steps, texts, from) && Runs(State(p, [], []), steps, t) ::
      multiset(t.enqueued)[x] <= 1
  }

  /** Exactly which selectors may be changed for one another on the same day without a job being
      enqueued twice: those of which no two clash. */
  lemma OncePerBucketIff(texts: set<string>)
    ensures OnceEach(texts) <==> !Clashing(texts)
  {
    if Clashing(texts) {
      var a, b :| a in texts && b in texts && ClashingTexts(a, b);
      var p, steps, t, now, x := ClashRepeats(a, b);
      MoreTexts(steps, {a, b}, texts, now);
      assert !OnceEach(texts) by {
        hide Parse, Steady, Runs;
        assert InForce(p.selector, texts);
      }
    } else {
      forall p: Project, steps, t, from, x | InForce(p.selector, texts) && Steady(steps, texts, from) && Runs(State(p, [], []), steps, t)
        ensures multiset(t.enqueued)[x] <= 1
      {
        AtMostOncePerBucket(p, steps, t, texts, from, x);
      }
    }
  }

  lemma {:induction false} MoreTexts(steps: seq<Step>, fewer: set<string>, texts: set<string>, from: nat)
    requires Steady(steps, fewer, from) && fewer <= texts
    ensures Steady(steps, texts, from)
  {
    if steps != [] {
      MoreTexts(steps[1..], fewer, texts, if steps[0].Tick? then steps[0].now else from);
    }
  }
}
