/** `countProjectsByMonth`: the number of projects per "MMM YYYY" start month. */
module MonthCount {
  import opened Wrappers
  import opened Calendar
  import opened Records
  import opened Counting
  import opened ProjectWindow

  /** The month key of each project, in input order. */
  function MonthLabels(projects: seq<Project>): (keys: seq<string>)
    ensures |keys| == |projects|
    ensures forall i :: 0 <= i < |projects| ==> keys[i] == MonthLabel(projects[i].startDate)
  {
    seq(|projects|, i requires 0 <= i < |projects| => MonthLabel(projects[i].startDate))
  }

  /**
   * Counts projects by the month label of their start date: the result holds each label once,
   * in order of first occurrence, with the number of projects carrying it.
   */
  method CountProjectsByMonth(projects: seq<Project>) returns (projectsByMonthData: seq<Entry<string>>)
    ensures projectsByMonthData == Tally(MonthLabels(projects))
  {
    projectsByMonthData := [];
    var i := 0;
    while i < |projects|
      invariant 0 <= i <= |projects|
      invariant projectsByMonthData == Tally(MonthLabels(projects[..i]))
    {
      var monthKey := MonthLabel(projects[i].startDate);
      MonthLabelsSnoc(projects, i);
      TallySnoc(MonthLabels(projects[..i]), monthKey);
      projectsByMonthData := Bump(projectsByMonthData, monthKey);
      i := i + 1;
    }
    assert projects[..i] == projects;
  }

  lemma MonthLabelsSnoc(projects: seq<Project>, i: nat)
    requires i < |projects|
    ensures MonthLabels(projects[..i + 1]) == MonthLabels(projects[..i]) + [MonthLabel(projects[i].startDate)]
  {
    assert projects[..i + 1] == projects[..i] + [projects[i]];
  }

  /** Number of projects whose start date lies in the given month of the given year. */
  function ProjectsInMonth(projects: seq<Project>, year: int, month: int): nat {
    if projects == [] then 0
    else
      var last := projects[|projects| - 1];
      ProjectsInMonth(projects[..|projects| - 1], year, month)
        + (if MonthOf(last.startDate) == Some((year, month)) then 1 else 0)
  }

  lemma {:induction false} LabelCountIsMonthCount(projects: seq<Project>, d: CalendarDate)
    ensures CountOf(MonthLabel(Some(d)), MonthLabels(projects)) == ProjectsInMonth(projects, d.year, d.month)
    decreases |projects|
  {
    if projects != [] {
      var p := projects[..|projects| - 1];
      var keys := MonthLabels(projects);
      assert keys[..|keys| - 1] == MonthLabels(p);
      LabelCountIsMonthCount(p, d);
      MonthLabelInjective(projects[|projects| - 1].startDate, Some(d));
    }
  }

  /**
   * The count stored under a month's label is the number of projects starting in that month;
   * a month in which no project starts has no entry.
   */
  lemma MonthCountMeaning(projects: seq<Project>, d: CalendarDate)
    ensures var n := ProjectsInMonth(projects, d.year, d.month);
      Lookup(Tally(MonthLabels(projects)), MonthLabel(Some(d))) == if n > 0 then Some(n) else None
  {
    LabelCountIsMonthCount(projects, d);
    TallyMeaning(MonthLabels(projects), MonthLabel(Some(d)));
  }

  /** The month counts add up to the number of projects counted; no projects, no entries. */
  lemma MonthCountSum(projects: seq<Project>)
    ensures SumCounts(Tally(MonthLabels(projects))) == |projects|
    ensures projects == [] <==> Tally(MonthLabels(projects)) == []
  {
    TallySum(MonthLabels(projects));
  }

  /** After the window filter no project is counted under the "Invalid date" label. */
  lemma WindowedMonthsAreDates(projects: seq<Project>, lo: CalendarDate, hi: CalendarDate)
    ensures InvalidDateLabel !in Keys(Tally(MonthLabels(FilterWindow(projects, lo, hi))))
  {
    var kept := FilterWindow(projects, lo, hi);
    var keys := MonthLabels(kept);
    TallyMeaning(keys, InvalidDateLabel);
    forall i | 0 <= i < |keys| ensures keys[i] != InvalidDateLabel {
      FilterWindowMembers(projects, lo, hi, kept[i]);
    }
  }

  /** Three projects, two starting in January 2024 and one in February 2024. */
  const ExampleProjects: seq<Project> := [
    Project("a", "A", Some(Date(2024, 1, 15))),
    Project("b", "B", Some(Date(2024, 1, 20))),
    Project("c", "C", Some(Date(2024, 2, 1)))
  ]

  /** The window [2024-01-01, 2024-02-28] keeps all three. */
  lemma JanuaryFebruaryWindow()
    ensures FilterWindow(ExampleProjects, Date(2024, 1, 1), Date(2024, 2, 28)) == ExampleProjects
  {
    var lo, hi := Date(2024, 1, 1), Date(2024, 2, 28);
    assert InWindow(ExampleProjects[0].startDate, lo, hi);
    assert InWindow(ExampleProjects[1].startDate, lo, hi);
    assert InWindow(ExampleProjects[2].startDate, lo, hi);
    FilterWindowKeepsAll(ExampleProjects, lo, hi);
  }

  /** The three are counted as {"Jan 2024": 2, "Feb 2024": 1}, January first. */
  lemma JanuaryFebruaryExample()
    ensures Tally(MonthLabels(ExampleProjects)) == [Entry("Jan 2024", 2), Entry("Feb 2024", 1)]
  {
    ExampleLabels();
    TallyTwiceThenOnce("Jan 2024", "Feb 2024");
  }

  /** The three start months label as "Jan 2024", "Jan 2024" and "Feb 2024". */
  lemma ExampleLabels()
    ensures MonthLabels(ExampleProjects) == ["Jan 2024", "Jan 2024", "Feb 2024"]
  {
    var keys := MonthLabels(ExampleProjects);
    Label2024(1, 15);
    Label2024(1, 20);
    Label2024(2, 1);
    assert keys[0] == "Jan 2024" && keys[1] == "Jan 2024" && keys[2] == "Feb 2024";
  }

  lemma Label2024(month: int, day: int)
    requires 1 <= month <= 12 && 1 <= day <= 31
    ensures MonthLabel(Some(Date(2024, month, day))) == MonthAbbreviations[month - 1] + " 2024"
  {
    assert PaddedDecimal(2024, 4) == "2024";
  }
}
