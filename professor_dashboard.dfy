/** The professor's home dashboard: the at-risk student card and its
    search box, which matches a student's name or course code. */
module ProfessorDashboard {
  import opened Util
  import opened Text

  datatype AtRiskEntry = AtRiskEntry(id: int, name: string, course: string, riskScore: int, trend: string)

  predicate MatchesSearch(s: AtRiskEntry, query: string)
  {
    Matches(s.name, query) || Matches(s.course, query)
  }

  /** `filteredStudents` */
  function FilteredStudents(students: seq<AtRiskEntry>, query: string): (r: seq<AtRiskEntry>)
    ensures forall s :: s in r <==> s in students && MatchesSearch(s, query)
    ensures IsSubsequence(r, students)
  {
    var p := (s: AtRiskEntry) => MatchesSearch(s, query);
    FilterIsSubsequence(students, p);
    Filter(students, p)
  }

  /** An empty search box keeps the whole card. */
  lemma EmptyQueryKeepsAll(students: seq<AtRiskEntry>)
    ensures FilteredStudents(students, "") == students
  {
    forall s | s in students ensures MatchesSearch(s, "") {
      EmptyQueryMatches(s.name);
    }
    FilterAllKept(students, (s: AtRiskEntry) => MatchesSearch(s, ""));
  }

  const Emma := AtRiskEntry(1, "Emma Wilson", "CS301", 85, "up")
  const James := AtRiskEntry(2, "James Rodriguez", "CS201", 78, "down")
  const Sophia := AtRiskEntry(3, "Sophia Chen", "CS401", 72, "up")
  const Michael := AtRiskEntry(4, "Michael Johnson", "CS101", 68, "down")

  const MockAtRisk: seq<AtRiskEntry> := [Emma, James, Sophia, Michael]

  /** A student whose name and course both lack the digit '3' does not
      match "cs3". */
  lemma NoThreeNoMatch(s: AtRiskEntry)
    requires '3' !in s.name && '3' !in s.course
    ensures !MatchesSearch(s, "cs3")
  {
    NoMatchWithoutChar(s.name, "cs3", 2);
    NoMatchWithoutChar(s.course, "cs3", 2);
  }

  /** Searching "cs3" on the card keeps only Emma Wilson (CS301). */
  lemma SearchCs3()
    ensures forall s :: s in FilteredStudents(MockAtRisk, "cs3") <==> s == Emma
  {
    PrefixMatches(Emma.course, "cs3");
    OthersMissCs3();
  }

  lemma OthersMissCs3()
    ensures !MatchesSearch(James, "cs3") && !MatchesSearch(Sophia, "cs3") && !MatchesSearch(Michael, "cs3")
  {
    NoThreeNoMatch(James);
    NoThreeNoMatch(Sophia);
    NoThreeNoMatch(Michael);
  }
}
