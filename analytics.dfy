/** The analytics page: a course selector ("all" or a course code) that
    picks the performance row shown in the metrics card, with fixed
    figures when there is none, and the rows of the attendance
    breakdown. */
module Analytics {
  import opened Util

  datatype PerformanceRow = PerformanceRow(course: string, average: int, highest: int, lowest: int, atRisk: int, excellent: int)

  datatype AttendanceRow = AttendanceRow(course: string, average: int, excellent: int, good: int, poor: int)

  /** `courseData`: `null` for "all", the first matching row, or
      `undefined` when no row matches. */
  datatype CourseData = AllCourses | NotFound | Found(row: PerformanceRow)

  function CourseDataFor(rows: seq<PerformanceRow>, selectedCourse: string): (r: CourseData)
    ensures selectedCourse == "all" <==> r.AllCourses?
    ensures r.NotFound? <==> selectedCourse != "all" && forall row :: row in rows ==> row.course != selectedCourse
    ensures r.Found? ==> r.row.course == selectedCourse
    ensures r.Found? ==>
      exists i :: 0 <= i < |rows| && rows[i] == r.row && forall j :: 0 <= j < i ==> rows[j].course != selectedCourse
  {
    if selectedCourse == "all" then AllCourses
    else match Find(rows, (row: PerformanceRow) => row.course == selectedCourse)
      case None => NotFound
      case Some(row) => Found(row)
  }

  /** The five figures of the metrics card. */
  datatype Metrics = Metrics(average: int, highest: int, lowest: int, atRisk: int, excellent: int)

  /** Shown when there is no course row ("all" or an unknown course). */
  const Fallback := Metrics(78, 95, 62, 16, 37)

  function ShownMetrics(data: CourseData): (r: Metrics)
    ensures data.Found? ==> r == Metrics(data.row.average, data.row.highest, data.row.lowest, data.row.atRisk, data.row.excellent)
    ensures !data.Found? ==> r == Metrics(78, 95, 62, 16, 37)
  {
    match data
    case Found(row) => Metrics(row.average, row.highest, row.lowest, row.atRisk, row.excellent)
    case _ => Fallback
  }

  /** "all" and a course code absent from the rows show the same card. */
  lemma UnknownCourseShowsFallback(rows: seq<PerformanceRow>, selectedCourse: string)
    requires forall row :: row in rows ==> row.course != selectedCourse
    ensures ShownMetrics(CourseDataFor(rows, selectedCourse)) == ShownMetrics(CourseDataFor(rows, "all"))
  {
  }

  /** The rows of the attendance breakdown: every row for "all", otherwise
      `[rows.find(...)].filter(Boolean)`, the first matching row if any. */
  function AttendanceBreakdown(rows: seq<AttendanceRow>, selectedCourse: string): (r: seq<AttendanceRow>)
    ensures selectedCourse == "all" ==> r == rows
    ensures selectedCourse != "all" ==> |r| <= 1
    ensures selectedCourse != "all" ==> (r == [] <==> forall row :: row in rows ==> row.course != selectedCourse)
    ensures selectedCourse != "all" && r != [] ==> r[0].course == selectedCourse
    ensures selectedCourse != "all" && r != [] ==>
      exists i :: 0 <= i < |rows| && rows[i] == r[0] && forall j :: 0 <= j < i ==> rows[j].course != selectedCourse
  {
    if selectedCourse == "all" then rows
    else match Find(rows, (row: AttendanceRow) => row.course == selectedCourse)
      case None => []
      case Some(row) => [row]
  }

  /** The breakdown only ever shows rows of the table. */
  lemma BreakdownFromTable(rows: seq<AttendanceRow>, selectedCourse: string)
    ensures forall row :: row in AttendanceBreakdown(rows, selectedCourse) ==> row in rows
  {
  }

  const MockPerformance: seq<PerformanceRow> := [
    PerformanceRow("CS301", 78, 95, 62, 5, 12),
    PerformanceRow("CS405", 82, 98, 65, 3, 15),
    PerformanceRow("CS210", 75, 92, 58, 8, 10)
  ]

  /** Selecting CS405 shows its row; selecting a course without a row
      shows the fixed figures. */
  lemma MockSelections()
    ensures ShownMetrics(CourseDataFor(MockPerformance, "CS405")) == Metrics(82, 98, 65, 3, 15)
    ensures ShownMetrics(CourseDataFor(MockPerformance, "CS999")) == Fallback
  {
    var d := CourseDataFor(MockPerformance, "CS405");
    assert MockPerformance[1].course == "CS405";
    assert d.Found?;
  }
}
