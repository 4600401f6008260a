/** The snapshots of employee and project records the dashboard receives from its stores. */
module Records {
  import opened Wrappers
  import opened Calendar

  /** A project; `startDate` is `None` when the stored value is null or cannot be parsed as a date. */
  datatype Project = Project(id: string, name: string, startDate: Option<CalendarDate>)

  /** A technical skill as referenced from an employee's `technical` list. */
  datatype Technical = Technical(id: string, name: string)

  /** One element of an employee's `technical` list; its `technicalId` is the populated skill. */
  datatype TechnicalEntry = TechnicalEntry(technicalId: Technical)

  datatype Employee = Employee(id: string, name: string, technical: seq<TechnicalEntry>)
}
