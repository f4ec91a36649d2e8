/** The course-management page: the enrolled-student table with its
    current-grade badge, and the add/edit-marks dialog whose `marks` map
    holds one text field per grade item of the selected course. */
module CourseManagement {
  import opened Util
  import opened Text
  import opened Grades
  import opened Classroom

  /** `enrolledStudents`: the roster restricted to the selected course. */
  function EnrolledStudents(students: seq<Student>, enrollments: Enrollments, selected: Option<string>): (r: seq<Student>)
    ensures !IsSelected(selected) ==> r == []
    ensures IsSelected(selected) ==> forall s :: s in r <==> s in students && IsEnrolled(enrollments, selected.value, s)
    ensures IsSubsequence(r, students)
  {
    if IsSelected(selected) then
      var enrolled := (s: Student) => IsEnrolled(enrollments, selected.value, s);
      FilterIsSubsequence(students, enrolled);
      Filter(students, enrolled)
    else []
  }

  /** `filteredStudents`: searched after the course restriction. It is the
      same list, in the same order, as the classroom page shows. */
  function SearchedStudents(students: seq<Student>, enrollments: Enrollments, selected: Option<string>, query: string): (r: seq<Student>)
    ensures r == FilteredStudents(students, enrollments, selected, query)
    ensures IsSubsequence(r, students)
  {
    Filter(EnrolledStudents(students, enrollments, selected), (s: Student) => MatchesSearch(s, query))
  }

  /** The current-grade cell (and the overall column of the grades tab):
      the course's items looked up with `|| []`, its scores with
      `?.[item.id] || {}`, then the realized-weight average. */
  method CurrentGrade(store: GradeStore, courseId: string, studentId: string) returns (r: OverallGrade)
    ensures r == Overall(CourseItems(store, courseId), CourseBook(store, courseId), studentId)
    ensures (forall it :: it in CourseItems(store, courseId) ==> !IsGraded(CourseBook(store, courseId), studentId, it))
      ==> r == Ungraded
    ensures r.Percent? && ScoresInRange(CourseItems(store, courseId), CourseBook(store, courseId), studentId)
      && (forall it :: it in CourseItems(store, courseId) ==> it.weight >= 0.0)
      ==> 0 <= r.value <= 100
  {
    var items, book := CourseItems(store, courseId), CourseBook(store, courseId);
    r := OverallPercentage(items, book, studentId);
    if forall it :: it in items ==> !IsGraded(book, studentId, it) {
      NothingGradedIsUngraded(items, book, studentId);
    }
    if ScoresInRange(items, book, studentId) && forall it :: it in items ==> it.weight >= 0.0 {
      PercentWithinRange(items, book, studentId);
    }
  }

  /** From this magnitude on, JavaScript writes a number in exponential
      notation ("1.23e+21") rather than as plain digits. */
  const ExponentialFrom := 1_000_000_000_000_000_000_000

  /** The first decimal digit of a positive integer. */
  function LeadingDigit(n: nat): (d: nat)
    requires n >= 1
    ensures 1 <= d <= 9
  {
    if n < 10 then n else LeadingDigit(n / 10)
  }

  function Pow10(k: nat): nat
  {
    if k == 0 then 1 else 10 * Pow10(k - 1)
  }

  /** A number between d·10^k and (d+1)·10^k starts with the digit d. */
  lemma {:induction false} LeadingDigitRange(n: nat, d: nat, k: nat)
    requires 1 <= d <= 9 && d * Pow10(k) <= n < (d + 1) * Pow10(k)
    ensures LeadingDigit(n) == d
  {
    if k > 0 {
      var m := Pow10(k - 1);
      assert Pow10(k) == 10 * m;
      ShiftFactor(d, m);
      ShiftFactor(d + 1, m);
      DivTenWithin(n, d * m, (d + 1) * m);
      LeadingDigitRange(n / 10, d, k - 1);
    }
  }

  lemma ShiftFactor(d: nat, m: nat)
    ensures d * (10 * m) == 10 * (d * m)
  {
  }

  lemma DivTenWithin(n: nat, lo: nat, hi: nat)
    requires 10 * lo <= n < 10 * hi
    ensures lo <= n / 10 < hi
  {
  }

  /** `Number.parseInt(p as string)` on the integer `Math.round` returned:
      below 10^21 in magnitude the text is plain digits and reads back as
      `p`; beyond it the text is exponential and the parse stops at the
      `.` or the `e`, keeping the sign and the leading digit. */
  function ParsedPercent(p: int): (r: int)
    ensures -ExponentialFrom < p < ExponentialFrom ==> r == p
    ensures p >= ExponentialFrom ==> 1 <= r <= 9
    ensures p <= -ExponentialFrom ==> -9 <= r <= -1
  {
    if p >= ExponentialFrom then LeadingDigit(p)
    else if p <= -ExponentialFrom then -(LeadingDigit(-p) as int)
    else p
  }

  /** The badge beside a current grade: the percentage is read back through
      its text, then success from 80, warning from 60, destructive below; the
      "-" marker gets no badge. A percentage of 10^21 or more reads back as a
      single digit and so gets the destructive badge. */
  function GradeBadge(g: OverallGrade): (r: Option<BadgeVariant>)
    ensures r.None? <==> g.Ungraded?
    ensures r == Some(Success) <==> g.Percent? && 80 <= g.value < ExponentialFrom
    ensures r == Some(Warning) <==> g.Percent? && 60 <= g.value < 80
    ensures r == Some(Destructive) <==> g.Percent? && (g.value < 60 || g.value >= ExponentialFrom)
  {
    match g
    case Ungraded => None
    case Percent(p) =>
      var n := ParsedPercent(p);
      Some(if n >= 80 then Success else if n >= 60 then Warning else Destructive)
  }

  /** 1.23e21 is written "1.23e+21", which reads back as 1. */
  lemma HugePercentReadsLeadingDigit()
    ensures ParsedPercent(1_230_000_000_000_000_000_000) == 1
    ensures GradeBadge(Percent(1_230_000_000_000_000_000_000)) == Some(Destructive)
  {
    assert Pow10(12) == 1_000_000_000_000;
    assert Pow10(21) == ExponentialFrom;
    LeadingDigitRange(1_230_000_000_000_000_000_000, 1, 21);
  }

  /** Below 10^21, a better grade never gets a worse badge. */
  lemma BadgeMonotone(a: int, b: int)
    requires a <= b < ExponentialFrom
    ensures BadgeRank(GradeBadge(Percent(a))) <= BadgeRank(GradeBadge(Percent(b)))
  {
  }

  function BadgeRank(v: Option<BadgeVariant>): int
  {
    match v
    case Some(Success) => 2
    case Some(Warning) => 1
    case _ => 0
  }

  /** The text a mark field starts with: the recorded score through
      `toString`, or "" when there is none (`grades[studentId]?.toString() || ""`). */
  function MarkText(book: GradeBook, itemId: string, studentId: string, numberToString: real -> string): string
  {
    match ScoreOf(book, itemId, studentId)
    case Some(score) => numberToString(score)
    case None => ""
  }

  function ItemIds(items: seq<GradeItem>): set<string>
  {
    set it | it in items :: it.id
  }

  /** `handleOpenAddMarks`' loop: one field per grade item of the selected
      course, holding the stored score as text or "" when ungraded; an empty
      map when no course is selected. */
  method InitialMarks(store: GradeStore, selected: Option<string>, studentId: string, numberToString: real -> string)
    returns (marks: map<string, string>)
    ensures !IsSelected(selected) ==> marks == map[]
    ensures IsSelected(selected) ==> marks.Keys == ItemIds(CourseItems(store, selected.value))
    ensures IsSelected(selected) ==> forall id :: id in marks ==>
      marks[id] == MarkText(CourseBook(store, selected.value), id, studentId, numberToString)
  {
    marks := map[];
    if IsSelected(selected) {
      var courseId := selected.value;
      var gradeItems := CourseItems(store, courseId);
      var book := CourseBook(store, courseId);
      var i := 0;
      while i < |gradeItems|
        invariant 0 <= i <= |gradeItems|
        invariant marks.Keys == ItemIds(gradeItems[..i])
        invariant forall id :: id in marks ==> marks[id] == MarkText(book, id, studentId, numberToString)
      {
        var item := gradeItems[i];
        var score := ScoreOf(book, item.id, studentId);
        marks := marks[item.id := if score.Some? then numberToString(score.value) else ""];
        assert gradeItems[..i + 1] == gradeItems[..i] + [item];
        i := i + 1;
      }
      assert gradeItems[..i] == gradeItems;
    }
  }

  /** The page's state, as far as the marks dialog uses it. */
  class CourseManagementPage {
    const store: GradeStore
    var selectedCourse: Option<string>
    var searchQuery: string
    var selectedStudent: Option<string>
    var marks: map<string, string>
    var showAddMarksDialog: bool

    constructor (store: GradeStore)
      ensures this.store == store && selectedCourse == None && searchQuery == ""
      ensures selectedStudent == None && marks == map[] && !showAddMarksDialog
    {
      this.store := store;
      selectedCourse := None;
      searchQuery := "";
      selectedStudent := None;
      marks := map[];
      showAddMarksDialog := false;
    }

    /** `handleCourseSelect` */
    method SelectCourse(courseId: string)
      modifies this
      ensures selectedCourse == Some(courseId) && searchQuery == ""
      ensures selectedStudent == old(selectedStudent) && marks == old(marks)
      ensures showAddMarksDialog == old(showAddMarksDialog)
    {
      selectedCourse := Some(courseId);
      searchQuery := "";
    }

    /** `handleOpenAddMarks`: select the student, refill the fields from
        the recorded scores and open the dialog. */
    method OpenAddMarks(studentId: string, numberToString: real -> string)
      modifies this
      ensures selectedStudent == Some(studentId) && showAddMarksDialog
      ensures selectedCourse == old(selectedCourse) && searchQuery == old(searchQuery)
      ensures !IsSelected(selectedCourse) ==> marks == map[]
      ensures IsSelected(selectedCourse) ==> marks.Keys == ItemIds(CourseItems(store, selectedCourse.value))
      ensures IsSelected(selectedCourse) ==> forall id :: id in marks ==>
        marks[id] == MarkText(CourseBook(store, selectedCourse.value), id, studentId, numberToString)
    {
      selectedStudent := Some(studentId);
      marks := InitialMarks(store, selectedCourse, studentId, numberToString);
      showAddMarksDialog := true;
    }

    /** `handleMarkChange`: the raw text replaces that one field; no numeric
        check, and every other field keeps its text. */
    method MarkChange(gradeItemId: string, value: string)
      modifies this`marks
      ensures gradeItemId in marks && marks[gradeItemId] == value
      ensures marks.Keys == old(marks).Keys + {gradeItemId}
      ensures forall id :: id != gradeItemId && id in old(marks) ==> marks[id] == old(marks)[id]
    {
      marks := marks[gradeItemId := value];
    }

    /** `handleSaveMarks`: closes the dialog; the grade store is a constant
        of the page and the fields keep their text. */
    method SaveMarks()
      modifies this`showAddMarksDialog
      ensures !showAddMarksDialog
    {
      showAddMarksDialog := false;
    }
  }
}
