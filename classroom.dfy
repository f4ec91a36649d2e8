/** The classroom page: the enrolled-student list with its search box, the
    students who can still be added to the selected course, and the
    edit-grades dialog whose `editedGrades` map is filled from the grade
    table and then updated one student at a time. */
module Classroom {
  import opened Util
  import opened Text
  import opened Grades

  datatype Student = Student(id: string, name: string, studentId: string, email: string)

  datatype Enrollment = Enrollment(studentId: string)

  /** `mockEnrollments`: course id to its enrollment rows. */
  type Enrollments = map<string, seq<Enrollment>>

  /** A `string | null` course selection is truthy: present and non-empty. */
  predicate IsSelected(selected: Option<string>)
  {
    selected.Some? && selected.value != ""
  }

  /** `(mockEnrollments[course]?.map(e => e.studentId) || []).includes(student.id)` */
  predicate IsEnrolled(enrollments: Enrollments, courseId: string, s: Student)
  {
    courseId in enrollments && exists e | e in enrollments[courseId] :: e.studentId == s.id
  }

  /** The search box of the student list: name, institution id or e-mail. */
  predicate MatchesSearch(s: Student, query: string)
  {
    Matches(s.name, query) || Matches(s.studentId, query) || Matches(s.email, query)
  }

  /** `filteredStudents`: the enrolled students whose name, id or e-mail
      contains the query, in roster order; nothing without a course. */
  function FilteredStudents(students: seq<Student>, enrollments: Enrollments, selected: Option<string>, query: string): (r: seq<Student>)
    ensures !IsSelected(selected) ==> r == []
    ensures IsSelected(selected) ==>
      forall s :: s in r <==> s in students && IsEnrolled(enrollments, selected.value, s) && MatchesSearch(s, query)
    ensures IsSubsequence(r, students)
  {
    if IsSelected(selected) then
      var enrolled := (s: Student) => IsEnrolled(enrollments, selected.value, s);
      var search := (s: Student) => MatchesSearch(s, query);
      FilterFilter(students, enrolled, search, s => enrolled(s) && search(s));
      FilterIsSubsequence(students, s => enrolled(s) && search(s));
      Filter(Filter(students, enrolled), search)
    else []
  }

  /** `nonEnrolledStudents`: everyone not enrolled in the selected course. */
  function NonEnrolledStudents(students: seq<Student>, enrollments: Enrollments, selected: Option<string>): (r: seq<Student>)
    ensures !IsSelected(selected) ==> r == []
    ensures IsSelected(selected) ==>
      forall s :: s in r <==> s in students && !IsEnrolled(enrollments, selected.value, s)
    ensures IsSubsequence(r, students)
  {
    if IsSelected(selected) then
      var notEnrolled := (s: Student) => !IsEnrolled(enrollments, selected.value, s);
      FilterIsSubsequence(students, notEnrolled);
      Filter(students, notEnrolled)
    else []
  }

  /** The add-student dialog searches only name and institution id, and
      lists its matches in roster order. */
  function AddDialogStudents(students: seq<Student>, enrollments: Enrollments, selected: Option<string>, query: string): (r: seq<Student>)
    ensures forall s :: s in r <==>
      s in NonEnrolledStudents(students, enrollments, selected) && (Matches(s.name, query) || Matches(s.studentId, query))
    ensures forall s :: s in r ==> s in students
    ensures IsSubsequence(r, students)
  {
    var search := (s: Student) => Matches(s.name, query) || Matches(s.studentId, query);
    if IsSelected(selected) then
      var notEnrolled := (s: Student) => !IsEnrolled(enrollments, selected.value, s);
      FilterFilter(students, notEnrolled, search, s => notEnrolled(s) && search(s));
      FilterIsSubsequence(students, s => notEnrolled(s) && search(s));
      Filter(NonEnrolledStudents(students, enrollments, selected), search)
    else
      Filter(NonEnrolledStudents(students, enrollments, selected), search)
  }

  /** With an empty search box, the enrolled list and the add-student list
      split the roster: every student is in exactly one of them. */
  lemma EmptySearchPartitionsRoster(students: seq<Student>, enrollments: Enrollments, selected: Option<string>)
    requires IsSelected(selected)
    ensures multiset(FilteredStudents(students, enrollments, selected, ""))
          + multiset(NonEnrolledStudents(students, enrollments, selected)) == multiset(students)
    ensures forall s :: s in students ==>
      (s in FilteredStudents(students, enrollments, selected, "") <==> s !in NonEnrolledStudents(students, enrollments, selected))
  {
    var c := selected.value;
    var enrolled := (s: Student) => IsEnrolled(enrollments, c, s);
    var search := (s: Student) => MatchesSearch(s, "");
    forall s | s in Filter(students, enrolled) ensures search(s) {
      EmptyQueryMatches(s.name);
    }
    FilterAllKept(Filter(students, enrolled), search);
    FilterPartition(students, enrolled, s => !IsEnrolled(enrollments, c, s));
    forall s | s in students ensures MatchesSearch(s, "") {
      EmptyQueryMatches(s.name);
    }
  }

  /** `editedGrades` starts from an item's recorded scores:
      `mockGrades[course][itemId] || {}`. */
  function ItemGrades(book: GradeBook, itemId: string): (r: map<string, real>)
    ensures forall sid :: sid in r <==> ScoreOf(book, itemId, sid).Some?
    ensures forall sid :: sid in r ==> r[sid] == ScoreOf(book, itemId, sid).value
  {
    if itemId in book then book[itemId] else map[]
  }

  /** The page's state, as far as the student list and the edit-grades
      dialog use it. */
  class ClassroomPage {
    const students: seq<Student>
    const enrollments: Enrollments
    const store: GradeStore
    var selectedCourse: Option<string>
    var searchQuery: string
    var selectedGradeItem: Option<string>
    var editedGrades: map<string, real>
    var showEditGradesDialog: bool

    constructor (students: seq<Student>, enrollments: Enrollments, store: GradeStore)
      ensures this.students == students && this.enrollments == enrollments && this.store == store
      ensures selectedCourse == None && searchQuery == "" && selectedGradeItem == None
      ensures editedGrades == map[] && !showEditGradesDialog
    {
      this.students := students;
      this.enrollments := enrollments;
      this.store := store;
      selectedCourse := None;
      searchQuery := "";
      selectedGradeItem := None;
      editedGrades := map[];
      showEditGradesDialog := false;
    }

    /** The list the page renders for its current state. */
    function Listed(): (r: seq<Student>)
      reads this
      ensures IsSubsequence(r, students)
    {
      FilteredStudents(students, enrollments, selectedCourse, searchQuery)
    }

    /** `handleCourseSelect`: select the course and clear the search box. */
    method SelectCourse(courseId: string)
      modifies this
      ensures selectedCourse == Some(courseId) && searchQuery == ""
      ensures selectedGradeItem == old(selectedGradeItem) && editedGrades == old(editedGrades)
      ensures showEditGradesDialog == old(showEditGradesDialog)
    {
      selectedCourse := Some(courseId);
      searchQuery := "";
    }

    /** `handleOpenEditGrades`: remember the item, load its recorded scores
        (only when a course and a non-empty item id are given) and open the
        dialog. The page indexes the course's grade table without a guard,
        so that table must exist. */
    method OpenEditGrades(gradeItemId: string)
      requires IsSelected(selectedCourse) && gradeItemId != "" ==> selectedCourse.value in store.grades
      modifies this
      ensures selectedCourse == old(selectedCourse) && searchQuery == old(searchQuery)
      ensures selectedGradeItem == Some(gradeItemId) && showEditGradesDialog
      ensures IsSelected(selectedCourse) && gradeItemId != "" ==>
        editedGrades == ItemGrades(store.grades[selectedCourse.value], gradeItemId)
      ensures !(IsSelected(selectedCourse) && gradeItemId != "") ==> editedGrades == old(editedGrades)
    {
      selectedGradeItem := Some(gradeItemId);
      if IsSelected(selectedCourse) && gradeItemId != "" {
        editedGrades := ItemGrades(store.grades[selectedCourse.value], gradeItemId);
      }
      showEditGradesDialog := true;
    }

    /** `handleGradeChange`: a value that parses replaces that one student's
        entry; one that does not (NaN) leaves the map as it was.
        `parseFloat` stands for `Number.parseFloat`, `None` for NaN. */
    method GradeChange(studentId: string, value: string, parseFloat: string -> Option<real>)
      modifies this`editedGrades
      ensures parseFloat(value).None? ==> editedGrades == old(editedGrades)
      ensures parseFloat(value).Some? ==>
        studentId in editedGrades && editedGrades[studentId] == parseFloat(value).value
      ensures parseFloat(value).Some? ==> editedGrades.Keys == old(editedGrades).Keys + {studentId}
      ensures forall sid :: sid != studentId && sid in old(editedGrades) ==> editedGrades[sid] == old(editedGrades)[sid]
    {
      var numValue := parseFloat(value);
      if numValue.Some? {
        editedGrades := editedGrades[studentId := numValue.value];
      }
    }

    /** `handleSaveGrades`: only closes the dialog; no grade data changes. */
    method SaveGrades()
      modifies this`showEditGradesDialog
      ensures !showEditGradesDialog
    {
      showEditGradesDialog := false;
    }
  }
}
