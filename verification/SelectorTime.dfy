/** When a selector applies: `Matches` and `BucketWindow`. */
module SelectorTime {
  import opened YamlText
  import opened Selector

  function Day(t: nat): nat { t / DAY_MS }

  function Weekday(day: nat): (d: nat)
    ensures d < 7
  {
    (day + 4) % 7
  }

  /** `Matches`: an unknown bucket has no hours. */
  predicate Matches(s: Selector, t: nat)
    requires |s.days| == 7
  {
    var minute := t % DAY_MS / 60000;
    && s.days[Weekday(Day(t))]
    && (match Hours(s.bucket)
        case None => false
        case Some((from, to)) => from * 60 <= minute < to * 60)
  }

  /** The window of the selector on a day. */
  function Start(s: Selector, day: nat): nat
    requires Hours(s.bucket).Some?
  {
    day * DAY_MS + Hours(s.bucket).value.0 * HOUR_MS
  }

  function End(s: Selector, day: nat): nat
    requires Hours(s.bucket).Some?
  {
    day * DAY_MS + Hours(s.bucket).value.1 * HOUR_MS
  }

  predicate Occurs(s: Selector, day: nat)
    requires |s.days| == 7
  {
    s.days[Weekday(day)]
  }

  /** Some day of any seven is one of the selector's. */
  lemma DayWithinWeek(s: Selector, day: nat) returns (offset: nat)
    requires Proper(s)
    ensures 1 <= offset <= 7 && Occurs(s, day + offset)
  {
    var d: nat :| d < 7 && s.days[d];
    offset := if d > Weekday(day) then d - Weekday(day) else d + 7 - Weekday(day);
  }

  /** `BucketWindow`. */
  method BucketWindow(s: Selector, t: nat) returns (window: Option<(nat, nat)>)
    requires |s.days| == 7
    ensures Hours(s.bucket).None? ==> window == None
    ensures Hours(s.bucket).Some? ==>
              if window.None? then !Proper(s)
              else exists day :: Day(t) <= day < Day(t) + 8 && IsWindow(s, t, day, window.value)
  {
    var hours := Hours(s.bucket);
    if hours.None? { return None; }
    for offset := 0 to 8
      invariant forall day | Day(t) <= day < Day(t) + offset :: Occurs(s, day) ==> day == Day(t) && t >= End(s, day)
    {
      var day := Day(t) + offset;
      if !s.days[Weekday(day)] { continue; }
      var start, end := day * DAY_MS + hours.value.0 * HOUR_MS, day * DAY_MS + hours.value.1 * HOUR_MS;
      if offset > 0 || t < end {
        assert IsWindow(s, t, day, (start, end));
        return Some((start, end));
      }
    }
    if Proper(s) { ghost var offset := DayWithinWeek(s, Day(t)); }
    window := None;
  }

  /** The first day, from today on, whose window is not over. */
  predicate IsWindow(s: Selector, t: nat, day: nat, window: (nat, nat))
    requires |s.days| == 7 && Hours(s.bucket).Some?
  {
    && Occurs(s, day) && window == (Start(s, day), End(s, day)) && (day > Day(t) || t < End(s, day))
    && forall earlier | Day(t) <= earlier < day :: Occurs(s, earlier) ==> earlier == Day(t) && t >= End(s, earlier)
  }

  /** The window ends after `t` and starts within seven days; it is the earliest such window; and it
      contains `t` exactly when the selector matches. */
  lemma WindowIsEarliest(s: Selector, t: nat, day: nat, window: (nat, nat))
    requires Proper(s) && Day(t) <= day < Day(t) + 8 && IsWindow(s, t, day, window)
    ensures t < window.1 && window.0 < window.1 && window.0 < (Day(t) + 8) * DAY_MS
    ensures forall other: nat | Occurs(s, other) && End(s, other) > t :: window.0 <= Start(s, other)
    ensures window.0 <= t < window.1 <==> Matches(s, t)
  {
    forall other: nat | Occurs(s, other) && End(s, other) > t ensures window.0 <= Start(s, other) {
      assert other >= day;
    }
    ContainsIffMatches(s, t, day, window);
  }

  lemma ContainsIffMatches(s: Selector, t: nat, day: nat, window: (nat, nat))
    requires Proper(s) && Day(t) <= day < Day(t) + 8 && IsWindow(s, t, day, window)
    ensures window.0 <= t < window.1 <==> Matches(s, t)
  {
    var (from, to) := Hours(s.bucket).value;
    var ms := t % DAY_MS;
    assert from * 60 <= ms / 60000 < to * 60 <==> from * HOUR_MS <= ms < to * HOUR_MS;
    if Matches(s, t) && day > Day(t) {
      assert Occurs(s, Day(t));
    }
  }
}
