/** The professor's course list: a search box and a semester filter over
    the course catalogue, and a statistics card totalled over the whole
    catalogue with `reduce`. */
module Courses {
  import opened Util
  import opened Text

  datatype Course = Course(
    id: string, code: string, name: string, semester: string, academicYear: string,
    credits: int, enrolledStudents: int, maxCapacity: int)

  predicate Kept(c: Course, query: string, semesterFilter: string)
  {
    (Matches(c.code, query) || Matches(c.name, query))
    && (semesterFilter == "all" || c.semester == semesterFilter)
  }

  /** `filteredCourses` */
  function FilteredCourses(courses: seq<Course>, query: string, semesterFilter: string): (r: seq<Course>)
    ensures forall c :: c in r <==> c in courses && Kept(c, query, semesterFilter)
    ensures IsSubsequence(r, courses)
  {
    var p := (c: Course) => Kept(c, query, semesterFilter);
    FilterIsSubsequence(courses, p);
    Filter(courses, p)
  }

  /** With an empty search box and "all" semesters every course is shown. */
  lemma NoFilterShowsAll(courses: seq<Course>)
    ensures FilteredCourses(courses, "", "all") == courses
  {
    forall c | c in courses ensures Kept(c, "", "all") {
      EmptyQueryMatches(c.code);
    }
    FilterAllKept(courses, (c: Course) => Kept(c, "", "all"));
  }

  /** The sum of one numeric field, as a reference definition. */
  function Sum(courses: seq<Course>, field: Course -> int): int
  {
    if courses == [] then 0 else field(courses[0]) + Sum(courses[1..], field)
  }

  /** `courses.reduce((acc, course) => acc + field(course), acc)`: a left
      fold from the first course to the last. */
  function Reduce(courses: seq<Course>, field: Course -> int, acc: int): (r: int)
    ensures r == acc + Sum(courses, field)
  {
    if courses == [] then acc else Reduce(courses[1..], field, acc + field(courses[0]))
  }

  /** The statistics card. */
  datatype CourseStats = CourseStats(totalCourses: int, totalStudents: int, creditHours: int)

  /** The card reads the whole catalogue; the search and semester controls
      are not among its inputs, so they cannot change it. */
  function Statistics(courses: seq<Course>): (r: CourseStats)
    ensures r.totalCourses == |courses|
    ensures r.totalStudents == Sum(courses, (c: Course) => c.enrolledStudents)
    ensures r.creditHours == Sum(courses, (c: Course) => c.credits)
  {
    CourseStats(|courses|,
      Reduce(courses, (c: Course) => c.enrolledStudents, 0),
      Reduce(courses, (c: Course) => c.credits, 0))
  }

  /** Dropping courses never raises a non-negative total, so whatever the
      filters show adds up to at most the card's figure. */
  lemma {:induction false} FilteredSumBounded(courses: seq<Course>, field: Course -> int, p: Course -> bool)
    requires forall c :: c in courses ==> field(c) >= 0
    ensures 0 <= Sum(Filter(courses, p), field) <= Sum(courses, field)
  {
    if courses != [] {
      FilteredSumBounded(courses[1..], field, p);
      assert Filter(courses, p) == (if p(courses[0]) then [courses[0]] else []) + Filter(courses[1..], p);
      var f := Filter(courses, p);
      assert courses[0] in courses;
      if p(courses[0]) {
        assert f[0] == courses[0] && f[1..] == Filter(courses[1..], p);
        assert Sum(f, field) == field(courses[0]) + Sum(Filter(courses[1..], p), field);
      } else {
        assert f == Filter(courses[1..], p);
      }
    }
  }

  const MockCourses: seq<Course> := [
    Course("1", "CS301", "Data Structures and Algorithms", "Spring", "2024-2025", 4, 45, 60),
    Course("2", "CS405", "Database Management Systems", "Spring", "2024-2025", 3, 38, 50),
    Course("3", "CS210", "Object-Oriented Programming", "Spring", "2024-2025", 4, 52, 55)
  ]

  /** The card on the catalogue: 3 courses, 135 students, 11 credit hours. */
  lemma MockStatistics()
    ensures Statistics(MockCourses) == CourseStats(3, 135, 11)
  {
    var students := (c: Course) => c.enrolledStudents;
    var credits := (c: Course) => c.credits;
    assert MockCourses[1..][1..][1..] == [];
    assert Sum(MockCourses, students) == 45 + 38 + 52;
    assert Sum(MockCourses, credits) == 4 + 3 + 4;
  }
}
