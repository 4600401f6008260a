/**
 * The date-window filter applied to projects before they are counted by month: a project is
 * kept when its start date lies between the window's first and last day, both included.
 */
module ProjectWindow {
  import opened Wrappers
  import opened Calendar
  import opened Records

  /** The start date exists and lies in [windowStart, windowEnd], both ends included. */
  predicate InWindow(start: Option<CalendarDate>, windowStart: CalendarDate, windowEnd: CalendarDate) {
    start.Some? && DateLe(windowStart, start.value) && DateLe(start.value, windowEnd)
  }

  /** `projects.filter(...)`: the projects whose start date is in the window, in their original order. */
  function FilterWindow(projects: seq<Project>, windowStart: CalendarDate, windowEnd: CalendarDate): (kept: seq<Project>)
    ensures |kept| <= |projects|
  {
    if projects == [] then []
    else
      var last := projects[|projects| - 1];
      assert projects == projects[..|projects| - 1] + [last];
      FilterWindow(projects[..|projects| - 1], windowStart, windowEnd)
        + (if InWindow(last.startDate, windowStart, windowEnd) then [last] else [])
  }

  /** A project is kept exactly when it is one of the input projects and its start date is in the window. */
  lemma {:induction false} FilterWindowMembers(projects: seq<Project>, lo: CalendarDate, hi: CalendarDate, p: Project)
    ensures p in FilterWindow(projects, lo, hi) <==> p in projects && InWindow(p.startDate, lo, hi)
    decreases |projects|
  {
    if projects != [] {
      var rest := projects[..|projects| - 1];
      assert projects == rest + [projects[|projects| - 1]];
      FilterWindowMembers(rest, lo, hi, p);
    }
  }

  /** A single project is kept or dropped by the window test alone. */
  lemma FilterWindowSingle(p: Project, lo: CalendarDate, hi: CalendarDate)
    ensures FilterWindow([p], lo, hi) == if InWindow(p.startDate, lo, hi) then [p] else []
  {
    assert [p][..0] == [];
  }

  /**
   * Filtering distributes over concatenation: with `FilterWindowSingle` this says that the
   * survivors keep their relative order and that nothing else is dropped.
   */
  lemma {:induction false} FilterWindowAppend(a: seq<Project>, b: seq<Project>, lo: CalendarDate, hi: CalendarDate)
    ensures FilterWindow(a + b, lo, hi) == FilterWindow(a, lo, hi) + FilterWindow(b, lo, hi)
    decreases |b|
  {
    if b == [] {
      assert a + b == a;
    } else {
      var b' := b[..|b| - 1];
      var last := b[|b| - 1];
      assert a + b == (a + b') + [last];
      assert (a + b)[..|a + b| - 1] == a + b';
      FilterWindowAppend(a, b', lo, hi);
      var tail := if InWindow(last.startDate, lo, hi) then [last] else [];
      calc {
        FilterWindow(a + b, lo, hi);
        FilterWindow(a + b', lo, hi) + tail;
        FilterWindow(a, lo, hi) + FilterWindow(b', lo, hi) + tail;
        FilterWindow(a, lo, hi) + FilterWindow(b, lo, hi);
      }
    }
  }

  /** Filtering a list whose projects all lie in the window changes nothing. */
  lemma {:induction false} FilterWindowKeepsAll(projects: seq<Project>, lo: CalendarDate, hi: CalendarDate)
    requires forall i :: 0 <= i < |projects| ==> InWindow(projects[i].startDate, lo, hi)
    ensures FilterWindow(projects, lo, hi) == projects
    decreases |projects|
  {
    if projects != [] {
      var p := projects[..|projects| - 1];
      var last := projects[|projects| - 1];
      FilterWindowKeepsAll(p, lo, hi);
      assert InWindow(last.startDate, lo, hi);
      assert projects == p + [last];
    }
  }

  /** Filtering twice is filtering once. */
  lemma FilterWindowIdempotent(projects: seq<Project>, lo: CalendarDate, hi: CalendarDate)
    ensures FilterWindow(FilterWindow(projects, lo, hi), lo, hi) == FilterWindow(projects, lo, hi)
  {
    var kept := FilterWindow(projects, lo, hi);
    forall i | 0 <= i < |kept| ensures InWindow(kept[i].startDate, lo, hi) {
      FilterWindowMembers(projects, lo, hi, kept[i]);
    }
    FilterWindowKeepsAll(kept, lo, hi);
  }

  /** A window whose last day is before its first day keeps nothing. */
  lemma {:induction false} FilterWindowEmptyWindow(projects: seq<Project>, lo: CalendarDate, hi: CalendarDate)
    requires DateLe(hi, lo) && hi != lo
    ensures FilterWindow(projects, lo, hi) == []
    decreases |projects|
  {
    if projects != [] {
      FilterWindowEmptyWindow(projects[..|projects| - 1], lo, hi);
    }
  }

  /**
   * The test of lines 59-65 as written: the start date parses to midnight of its day and is
   * compared to the millisecond with a lower bound that carries the current time of day and
   * an upper bound that is midnight of today, both ends included.
   */
  predicate InWindowAsWritten(start: Option<CalendarDate>, fiveMonthsAgo: Instant, currentDate: Instant) {
    start.Some? && InstantLe(fiveMonthsAgo, Midnight(start.value)) && InstantLe(Midnight(start.value), currentDate)
  }

  /**
   * As written, a project that starts on the window's first day is left out whenever the
   * lower bound is taken after midnight, although the inclusive window contains that day.
   */
  lemma AsWrittenDropsFirstDay(d: CalendarDate, millis: int, today: CalendarDate)
    requires millis > 0 && DateLe(d, today)
    ensures !InWindowAsWritten(Some(d), Instant(d, millis), Midnight(today))
    ensures InWindow(Some(d), d, today)
  {
  }

  /**
   * That first day is the only difference: with the lower bound taken after midnight the test
   * as written agrees with the inclusive date window on every other start date, and at
   * midnight exactly it agrees everywhere.
   */
  lemma AsWrittenAgreesElsewhere(start: Option<CalendarDate>, lo: CalendarDate, millis: int, hi: CalendarDate)
    requires millis >= 0
    ensures millis > 0 ==>
      (InWindowAsWritten(start, Instant(lo, millis), Midnight(hi)) <==> InWindow(start, lo, hi) && start != Some(lo))
    ensures millis == 0 ==>
      (InWindowAsWritten(start, Instant(lo, millis), Midnight(hi)) <==> InWindow(start, lo, hi))
  {
  }
}
