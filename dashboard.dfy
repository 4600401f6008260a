/**
 * The dashboard's state and the effect that recomputes it whenever the employee or project
 * snapshot changes; the charts are drawn from this state.
 */
module Dashboard {
  import opened Wrappers
  import opened Calendar
  import opened Records
  import opened Counting
  import opened ProjectWindow
  import opened MonthCount
  import opened SkillCount
  import opened Chart

  class DashboardState {
    var totalEmployees: nat
    var totalProjects: nat
    var projectsByMonth: seq<Entry<string>>
    var employeeTechnicalData: seq<Entry<string>>

    /** Both dictionaries hold each key once with a count of at least 1. */
    ghost predicate Valid()
      reads this
    {
      WellFormed(projectsByMonth) && WellFormed(employeeTechnicalData)
    }

    /** Initial state: zero totals and empty dictionaries. */
    constructor ()
      ensures Valid()
      ensures totalEmployees == 0 && totalProjects == 0
      ensures projectsByMonth == [] && employeeTechnicalData == []
    {
      totalEmployees := 0;
      totalProjects := 0;
      projectsByMonth := [];
      employeeTechnicalData := [];
    }

    /**
     * The effect run when `employees` or `projects` changes (`None` is a missing array).
     * The window is [windowStart, windowEnd], the first day five months back and today.
     * When the projects are present but the employees are not, counting the employees' skills
     * throws; `crashed` reports that, after the updates made before the throw.
     */
    method OnRecordsChanged(employees: Option<seq<Employee>>, projects: Option<seq<Project>>,
                            windowStart: CalendarDate, windowEnd: CalendarDate)
      returns (crashed: bool)
      requires Valid()
      modifies this
      ensures Valid()
      ensures crashed <==> projects.Some? && employees.None?
      ensures totalEmployees == if employees.Some? then |employees.value| else old(totalEmployees)
      ensures totalProjects == if projects.Some? then |projects.value| else old(totalProjects)
      ensures projectsByMonth ==
        if projects.Some? then Tally(MonthLabels(FilterWindow(projects.value, windowStart, windowEnd)))
        else old(projectsByMonth)
      ensures employeeTechnicalData ==
        if projects.Some? && employees.Some? then Tally(SkillNames(employees.value))
        else old(employeeTechnicalData)
    {
      crashed := false;
      if employees.Some? {
        totalEmployees := |employees.value|;
      }
      if projects.Some? {
        totalProjects := |projects.value|;
        var filteredProjects := FilterWindow(projects.value, windowStart, windowEnd);
        var projectsByMonthData := CountProjectsByMonth(filteredProjects);
        TallyMeaning(MonthLabels(filteredProjects), InvalidDateLabel);
        projectsByMonth := projectsByMonthData;
        if employees.None? {
          crashed := true;
          return;
        }
        var technicalData := CountEmployeesByTechnical(employees.value);
        TallyMeaning(SkillNames(employees.value), "");
        employeeTechnicalData := technicalData;
      }
    }

    /** The skills chart: `data[i]` is the number of technical entries naming `labels[i]`. */
    function BarChart(): (chart: ChartData)
      reads this
      requires Valid()
      ensures |chart.labels| == |chart.data| == |employeeTechnicalData|
      ensures forall i :: 0 <= i < |chart.labels| ==> Lookup(employeeTechnicalData, chart.labels[i]) == Some(chart.data[i])
      ensures forall k :: k in chart.labels <==> Lookup(employeeTechnicalData, k).Some?
      ensures chart.backgroundColor == [BarColour]
    {
      ChartParallel(employeeTechnicalData, [BarColour]);
      BarChartData(employeeTechnicalData)
    }

    /** The months chart: `data[i]` is the number of windowed projects starting in month `labels[i]`. */
    function PieChart(): (chart: ChartData)
      reads this
      requires Valid()
      ensures |chart.labels| == |chart.data| == |projectsByMonth|
      ensures forall i :: 0 <= i < |chart.labels| ==> Lookup(projectsByMonth, chart.labels[i]) == Some(chart.data[i])
      ensures forall k :: k in chart.labels <==> Lookup(projectsByMonth, k).Some?
      ensures chart.backgroundColor == PieColours
    {
      ChartParallel(projectsByMonth, PieColours);
      PieChartData(projectsByMonth)
    }
  }
}
