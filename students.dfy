/** The professor's student list: a search box, a risk-band filter and a
    course filter, then a sort by name, institution id, GPA or risk score;
    risk scores are shown as a High/Medium/Low badge. */
module Students {
  import opened Util
  import opened Text

  datatype StudentRecord = StudentRecord(
    id: string, name: string, studentId: string, email: string,
    course: string, gpa: real, attendance: int, riskScore: real)

  datatype RiskLevel = High | Medium | Low

  /** `getRiskLevelText`: every score falls in exactly one band. */
  function RiskLevelText(riskScore: real): (r: RiskLevel)
    ensures r == High <==> riskScore >= 50.0
    ensures r == Medium <==> 25.0 <= riskScore < 50.0
    ensures r == Low <==> riskScore < 25.0
  {
    if riskScore >= 50.0 then High else if riskScore >= 25.0 then Medium else Low
  }

  /** `getRiskBadgeVariant`: the badge colour names the band. */
  function RiskBadgeVariant(riskScore: real): (r: BadgeVariant)
    ensures r == Destructive <==> RiskLevelText(riskScore) == High
    ensures r == Warning <==> RiskLevelText(riskScore) == Medium
    ensures r == Success <==> RiskLevelText(riskScore) == Low
  {
    if riskScore >= 50.0 then Destructive else if riskScore >= 25.0 then Warning else Success
  }

  /** The risk select: "all", or one band by its lower-case name; any
      other value keeps nobody. */
  predicate MatchesRisk(riskFilter: string, riskScore: real)
  {
    riskFilter == "all"
    || (riskFilter == "high" && riskScore >= 50.0)
    || (riskFilter == "medium" && riskScore >= 25.0 && riskScore < 50.0)
    || (riskFilter == "low" && riskScore < 25.0)
  }

  /** The select's value for a band. */
  function FilterName(level: RiskLevel): string
  {
    match level
    case High => "high"
    case Medium => "medium"
    case Low => "low"
  }

  /** The risk filter and the displayed band agree: a band's filter keeps a
      student exactly when the badge shows that band. */
  lemma RiskFilterFollowsLevel(riskFilter: string, riskScore: real)
    ensures MatchesRisk("all", riskScore)
    ensures forall level :: MatchesRisk(FilterName(level), riskScore) <==> RiskLevelText(riskScore) == level
    ensures riskFilter !in {"all", "high", "medium", "low"} ==> !MatchesRisk(riskFilter, riskScore)
  {
  }

  predicate MatchesSearch(s: StudentRecord, query: string)
  {
    Matches(s.name, query) || Matches(s.studentId, query) || Matches(s.email, query)
  }

  predicate MatchesCourse(courseFilter: string, s: StudentRecord)
  {
    courseFilter == "all" || s.course == courseFilter
  }

  /** The `filter` step: search, risk and course tests together, in roster
      order. */
  function FilteredStudents(students: seq<StudentRecord>, query: string, riskFilter: string, courseFilter: string): (r: seq<StudentRecord>)
    ensures forall s :: s in r <==>
      s in students && MatchesSearch(s, query) && MatchesRisk(riskFilter, s.riskScore) && MatchesCourse(courseFilter, s)
    ensures IsSubsequence(r, students)
  {
    var keep := (s: StudentRecord) =>
      MatchesSearch(s, query) && MatchesRisk(riskFilter, s.riskScore) && MatchesCourse(courseFilter, s);
    FilterIsSubsequence(students, keep);
    Filter(students, keep)
  }

  /** `a.localeCompare(b)` as character-code lexicographic order: negative,
      zero or positive. */
  function LexCompare(a: string, b: string): (r: int)
    ensures -1 <= r <= 1
    ensures r == 0 <==> a == b
    decreases |a|
  {
    if a == [] && b == [] then 0
    else if a == [] then -1
    else if b == [] then 1
    else if a[0] < b[0] then -1
    else if a[0] > b[0] then 1
    else
      var r := LexCompare(a[1..], b[1..]);
      assert r == 0 ==> a == [a[0]] + a[1..] && b == [b[0]] + b[1..];
      r
  }

  lemma {:induction false} LexAntisymmetric(a: string, b: string)
    ensures LexCompare(a, b) == -LexCompare(b, a)
    decreases |a|
  {
    if a != [] && b != [] && a[0] == b[0] {
      LexAntisymmetric(a[1..], b[1..]);
    }
  }

  lemma {:induction false} LexTransitive(a: string, b: string, c: string)
    requires LexCompare(a, b) <= 0 && LexCompare(b, c) <= 0
    ensures LexCompare(a, c) <= 0
    decreases |a|
  {
    if a != [] && b != [] && c != [] && a[0] == b[0] && b[0] == c[0] {
      LexTransitive(a[1..], b[1..], c[1..]);
    }
  }

  /** The sort comparator, by its sign: name and id ascend by
      `localeCompare`, GPA and risk descend (`b - a`), any other key keeps
      every pair equal. */
  function Compare(sortBy: string, a: StudentRecord, b: StudentRecord): (r: int)
    ensures -1 <= r <= 1
    ensures sortBy == "gpa" ==> (r <= 0 <==> a.gpa >= b.gpa)
    ensures sortBy == "risk" ==> (r <= 0 <==> a.riskScore >= b.riskScore)
    ensures sortBy !in {"name", "id", "gpa", "risk"} ==> r == 0
  {
    if sortBy == "name" then LexCompare(a.name, b.name)
    else if sortBy == "id" then LexCompare(a.studentId, b.studentId)
    else if sortBy == "gpa" then (if b.gpa > a.gpa then 1 else if b.gpa < a.gpa then -1 else 0)
    else if sortBy == "risk" then (if b.riskScore > a.riskScore then 1 else if b.riskScore < a.riskScore then -1 else 0)
    else 0
  }

  lemma CompareAntisymmetric(sortBy: string, a: StudentRecord, b: StudentRecord)
    ensures Compare(sortBy, a, b) == -Compare(sortBy, b, a)
  {
    LexAntisymmetric(a.name, b.name);
    LexAntisymmetric(a.studentId, b.studentId);
  }

  lemma CompareTransitive(sortBy: string, a: StudentRecord, b: StudentRecord, c: StudentRecord)
    requires Compare(sortBy, a, b) <= 0 && Compare(sortBy, b, c) <= 0
    ensures Compare(sortBy, a, c) <= 0
  {
    if sortBy == "name" {
      LexTransitive(a.name, b.name, c.name);
    } else if sortBy == "id" {
      LexTransitive(a.studentId, b.studentId, c.studentId);
    }
  }

  predicate Sorted(sortBy: string, r: seq<StudentRecord>)
  {
    forall i, j :: 0 <= i < j < |r| ==> Compare(sortBy, r[i], r[j]) <= 0
  }

  /** One step of the stable sort: `x` goes after every element not
      greater than it and before the first one that is. */
  function Insert(sortBy: string, t: seq<StudentRecord>, x: StudentRecord): (r: seq<StudentRecord>)
    ensures |r| == |t| + 1
    ensures multiset(r) == multiset(t) + multiset{x}
  {
    if t == [] then [x]
    else if Compare(sortBy, x, t[0]) < 0 then [x] + t
    else
      assert t == [t[0]] + t[1..];
      [t[0]] + Insert(sortBy, t[1..], x)
  }

  /** `Array.prototype.sort` with the comparator: a stable insertion sort
      that takes the elements in list order. */
  function Sort(sortBy: string, s: seq<StudentRecord>): (r: seq<StudentRecord>)
    ensures |r| == |s|
    ensures multiset(r) == multiset(s)
  {
    if s == [] then []
    else
      assert s == s[..|s| - 1] + [s[|s| - 1]];
      Insert(sortBy, Sort(sortBy, s[..|s| - 1]), s[|s| - 1])
  }

  lemma SortedCons(sortBy: string, h: StudentRecord, t: seq<StudentRecord>)
    requires Sorted(sortBy, t)
    requires forall k :: 0 <= k < |t| ==> Compare(sortBy, h, t[k]) <= 0
    ensures Sorted(sortBy, [h] + t)
  {
    var r := [h] + t;
    forall i, j | 0 <= i < j < |r| ensures Compare(sortBy, r[i], r[j]) <= 0 {
      assert r[j] == t[j - 1];
      if i > 0 {
        assert r[i] == t[i - 1];
      }
    }
  }

  lemma SortedTail(sortBy: string, t: seq<StudentRecord>)
    requires Sorted(sortBy, t) && t != []
    ensures Sorted(sortBy, t[1..])
  {
    forall i, j | 0 <= i < j < |t[1..]| ensures Compare(sortBy, t[1..][i], t[1..][j]) <= 0 {
      assert t[1..][i] == t[i + 1] && t[1..][j] == t[j + 1];
    }
  }

  /** Insertion adds `x` and nothing else. */
  lemma InInsert(sortBy: string, t: seq<StudentRecord>, x: StudentRecord, y: StudentRecord)
    requires y in Insert(sortBy, t, x)
    ensures y == x || y in t
  {
    assert y in multiset(Insert(sortBy, t, x));
  }

  lemma {:induction false} InsertSorted(sortBy: string, t: seq<StudentRecord>, x: StudentRecord)
    requires Sorted(sortBy, t)
    ensures Sorted(sortBy, Insert(sortBy, t, x))
  {
    if t == [] {
    } else if Compare(sortBy, x, t[0]) < 0 {
      forall k | 0 <= k < |t| ensures Compare(sortBy, x, t[k]) <= 0 {
        if k > 0 {
          CompareTransitive(sortBy, x, t[0], t[k]);
        }
      }
      SortedCons(sortBy, x, t);
    } else {
      SortedTail(sortBy, t);
      InsertSorted(sortBy, t[1..], x);
      var rest := Insert(sortBy, t[1..], x);
      forall k | 0 <= k < |rest| ensures Compare(sortBy, t[0], rest[k]) <= 0 {
        InInsert(sortBy, t[1..], x, rest[k]);
        if rest[k] == x {
          CompareAntisymmetric(sortBy, x, t[0]);
        } else {
          var m :| 0 <= m < |t[1..]| && t[1..][m] == rest[k];
          assert t[m + 1] == rest[k];
        }
      }
      SortedCons(sortBy, t[0], rest);
    }
  }

  lemma {:induction false} SortSorted(sortBy: string, s: seq<StudentRecord>)
    ensures Sorted(sortBy, Sort(sortBy, s))
  {
    if s != [] {
      SortSorted(sortBy, s[..|s| - 1]);
      InsertSorted(sortBy, Sort(sortBy, s[..|s| - 1]), s[|s| - 1]);
    }
  }

  /** The records that tie with `y` under the comparator. */
  function SameKey(sortBy: string, y: StudentRecord): StudentRecord -> bool
  {
    x => Compare(sortBy, x, y) == 0
  }

  /** A record that sorts after one strictly greater than `x` cannot tie
      with what `x` ties with. */
  lemma NoTieBehindGreater(sortBy: string, x: StudentRecord, g: StudentRecord, w: StudentRecord, y: StudentRecord)
    requires Compare(sortBy, x, g) < 0 && Compare(sortBy, g, w) <= 0
    requires Compare(sortBy, x, y) == 0
    ensures Compare(sortBy, w, y) != 0
  {
    if Compare(sortBy, w, y) == 0 {
      // x and w both tie with y, so they tie with each other ...
      CompareAntisymmetric(sortBy, x, y);
      CompareTransitive(sortBy, w, y, x);
      // ... so g, which sorts before w, sorts before x too.
      CompareTransitive(sortBy, g, w, x);
      CompareAntisymmetric(sortBy, x, g);
    }
  }

  /** When `x` goes in front of a sorted list, nothing in the list ties
      with what `x` ties with, so its ties still read `x` last. */
  lemma FrontFilter(sortBy: string, t: seq<StudentRecord>, x: StudentRecord, y: StudentRecord)
    requires Sorted(sortBy, t) && t != [] && Compare(sortBy, x, t[0]) < 0
    ensures Filter([x] + t, SameKey(sortBy, y)) ==
      Filter(t, SameKey(sortBy, y)) + (if Compare(sortBy, x, y) == 0 then [x] else [])
  {
    FilterCons(x, t, SameKey(sortBy, y));
    if Compare(sortBy, x, y) == 0 {
      NoTiesAfterFront(sortBy, t, x, y);
    }
  }

  lemma NoTiesAfterFront(sortBy: string, t: seq<StudentRecord>, x: StudentRecord, y: StudentRecord)
    requires Sorted(sortBy, t) && t != [] && Compare(sortBy, x, t[0]) < 0
    requires Compare(sortBy, x, y) == 0
    ensures Filter(t, SameKey(sortBy, y)) == []
  {
    forall w | w in t ensures !SameKey(sortBy, y)(w) {
      var k :| 0 <= k < |t| && t[k] == w;
      if k > 0 {
        assert Compare(sortBy, t[0], t[k]) <= 0;
      }
      NoTieBehindGreater(sortBy, x, t[0], w, y);
    }
    FilterNoneKept(t, SameKey(sortBy, y));
  }

  /** Inserting into a sorted list puts `x` after every record that ties
      with it, so within each group of ties `x` comes last. */
  lemma {:induction false} InsertFilter(sortBy: string, t: seq<StudentRecord>, x: StudentRecord, y: StudentRecord)
    requires Sorted(sortBy, t)
    ensures Filter(Insert(sortBy, t, x), SameKey(sortBy, y)) ==
      Filter(t, SameKey(sortBy, y)) + (if Compare(sortBy, x, y) == 0 then [x] else [])
  {
    var p := SameKey(sortBy, y);
    if t == [] {
      FilterCons(x, [], p);
    } else if Compare(sortBy, x, t[0]) < 0 {
      assert Insert(sortBy, t, x) == [x] + t;
      FrontFilter(sortBy, t, x, y);
    } else {
      SortedTail(sortBy, t);
      InsertFilter(sortBy, t[1..], x, y);
      assert Insert(sortBy, t, x) == [t[0]] + Insert(sortBy, t[1..], x);
      FilterCons(t[0], Insert(sortBy, t[1..], x), p);
      FilterCons(t[0], t[1..], p);
      assert [t[0]] + t[1..] == t;
      ConcatAssoc((if p(t[0]) then [t[0]] else []), Filter(t[1..], p), (if p(x) then [x] else []));
    }
  }

  /** The sort is stable: the records that tie under the comparator keep
      their relative order. */
  lemma {:induction false} SortStable(sortBy: string, s: seq<StudentRecord>)
    ensures forall y :: Filter(Sort(sortBy, s), SameKey(sortBy, y)) == Filter(s, SameKey(sortBy, y))
  {
    if s != [] {
      var a, x := s[..|s| - 1], s[|s| - 1];
      SortStable(sortBy, a);
      SortSorted(sortBy, a);
      assert s == a + [x];
      forall y ensures Filter(Sort(sortBy, s), SameKey(sortBy, y)) == Filter(s, SameKey(sortBy, y)) {
        var p := SameKey(sortBy, y);
        InsertFilter(sortBy, Sort(sortBy, a), x, y);
        FilterAppend(a, [x], p);
        assert [x][1..] == [];
        assert Filter([x], p) == (if p(x) then [x] else []);
      }
    }
  }

  /** What the sorted list promises per key: names and ids ascend, GPA and
      risk scores descend. */
  lemma SortOrder(sortBy: string, s: seq<StudentRecord>)
    ensures multiset(Sort(sortBy, s)) == multiset(s)
    ensures sortBy == "name" ==> forall i, j :: 0 <= i < j < |s| ==>
      LexCompare(Sort(sortBy, s)[i].name, Sort(sortBy, s)[j].name) <= 0
    ensures sortBy == "id" ==> forall i, j :: 0 <= i < j < |s| ==>
      LexCompare(Sort(sortBy, s)[i].studentId, Sort(sortBy, s)[j].studentId) <= 0
    ensures sortBy == "gpa" ==> forall i, j :: 0 <= i < j < |s| ==> Sort(sortBy, s)[i].gpa >= Sort(sortBy, s)[j].gpa
    ensures sortBy == "risk" ==> forall i, j :: 0 <= i < j < |s| ==>
      Sort(sortBy, s)[i].riskScore >= Sort(sortBy, s)[j].riskScore
  {
    SortSorted(sortBy, s);
  }

  lemma {:induction false} InsertAllEqual(sortBy: string, t: seq<StudentRecord>, x: StudentRecord)
    requires sortBy !in {"name", "id", "gpa", "risk"}
    ensures Insert(sortBy, t, x) == t + [x]
  {
    if t != [] {
      InsertAllEqual(sortBy, t[1..], x);
      assert t == [t[0]] + t[1..];
    }
  }

  /** An unknown sort key (the `default: return 0` branch) keeps the
      filtered order, because the sort is stable. */
  lemma {:induction false} UnknownKeyKeepsOrder(sortBy: string, s: seq<StudentRecord>)
    requires sortBy !in {"name", "id", "gpa", "risk"}
    ensures Sort(sortBy, s) == s
  {
    if s != [] {
      var a, x := s[..|s| - 1], s[|s| - 1];
      UnknownKeyKeepsOrder(sortBy, a);
      assert Sort(sortBy, s) == Insert(sortBy, Sort(sortBy, a), x);
      InsertAllEqual(sortBy, a, x);
      assert a + [x] == s;
    }
  }

  /** `filteredStudents`: the filter, then the sort. */
  function ListedStudents(students: seq<StudentRecord>, query: string, riskFilter: string, courseFilter: string, sortBy: string): (r: seq<StudentRecord>)
    ensures multiset(r) == multiset(FilteredStudents(students, query, riskFilter, courseFilter))
    ensures forall s :: s in r <==>
      s in students && MatchesSearch(s, query) && MatchesRisk(riskFilter, s.riskScore) && MatchesCourse(courseFilter, s)
    ensures Sorted(sortBy, r)
    ensures forall y :: Filter(r, SameKey(sortBy, y)) == Filter(FilteredStudents(students, query, riskFilter, courseFilter), SameKey(sortBy, y))
  {
    var f := FilteredStudents(students, query, riskFilter, courseFilter);
    SortSorted(sortBy, f);
    SortStable(sortBy, f);
    assert forall s :: s in Sort(sortBy, f) <==> s in multiset(f);
    Sort(sortBy, f)
  }

  /** `atRiskStudents`: exactly the High band, over the whole roster. */
  function AtRiskStudents(students: seq<StudentRecord>): (r: seq<StudentRecord>)
    ensures forall s :: s in r <==> s in students && RiskLevelText(s.riskScore) == High
  {
    Filter(students, (s: StudentRecord) => s.riskScore >= 50.0)
  }

  /** The at-risk count ignores the search, course and sort controls: it is
      what the list shows with an empty search, the "high" band and every
      course, before sorting. */
  lemma AtRiskIsHighFilter(students: seq<StudentRecord>)
    ensures AtRiskStudents(students) == FilteredStudents(students, "", "high", "all")
  {
    forall s | s in students
      ensures (s.riskScore >= 50.0) <==> (MatchesSearch(s, "") && MatchesRisk("high", s.riskScore) && MatchesCourse("all", s))
    {
      EmptyQueryMatches(s.name);
    }
    FilterAgree(students, (s: StudentRecord) => s.riskScore >= 50.0, (s: StudentRecord) =>
      MatchesSearch(s, "") && MatchesRisk("high", s.riskScore) && MatchesCourse("all", s));
  }
}
