/** The weighted overall-grade aggregation that the classroom page
    (overall column) and the course-management page (current-grade badge and
    grades tab) each compute inline for every listed student.

    For every grade item of the course that has a recorded score for the
    student, the page adds `(score / maxScore) * weight` to a running total
    and adds the item's weight to a running "realized" weight. The result is
    `Math.round(total / realized * 100)` when the realized weight is
    positive, and the marker "-" otherwise. Ungraded items are skipped
    entirely, so the divisor is the weight actually graded, not the
    course's nominal total.

    Arithmetic is exact (`real`); `Math.round` is `floor(x + 1/2)`. */
module Grades {
  import opened Util

  type PositiveReal = r: real | r > 0.0 witness 1.0

  /** One assessment of a course (an entry of `mockGradeItems[course]`).
      A maximum score of zero would make the page divide by zero; the model
      admits only positive maxima. */
  datatype GradeItem = GradeItem(id: string, title: string, kind: string, maxScore: PositiveReal, weight: real)

  /** The recorded scores of one course: grade-item id to student id to
      score (an entry of `mockGrades`). */
  type GradeBook = map<string, map<string, real>>

  /** The page's two fixture tables, keyed by course id. */
  datatype GradeStore = GradeStore(items: map<string, seq<GradeItem>>, grades: map<string, GradeBook>)

  /** `mockGradeItems[course] || []` */
  function CourseItems(store: GradeStore, courseId: string): (r: seq<GradeItem>)
    ensures courseId in store.items ==> r == store.items[courseId]
    ensures courseId !in store.items ==> r == []
  {
    if courseId in store.items then store.items[courseId] else []
  }

  /** `mockGrades[course]`, with an absent course read as an empty table
      (which is what `mockGrades[course]?.[item.id] || {}` amounts to). */
  function CourseBook(store: GradeStore, courseId: string): (r: GradeBook)
    ensures courseId in store.grades ==> r == store.grades[courseId]
    ensures courseId !in store.grades ==> r == map[]
  {
    if courseId in store.grades then store.grades[courseId] else map[]
  }

  /** `(book[itemId] || {})[studentId]`: the recorded score, or `undefined`. */
  function ScoreOf(book: GradeBook, itemId: string, studentId: string): (r: Option<real>)
    ensures r.Some? <==> itemId in book && studentId in book[itemId]
    ensures r.Some? ==> r.value == book[itemId][studentId]
  {
    if itemId in book && studentId in book[itemId] then Some(book[itemId][studentId]) else None
  }

  predicate IsGraded(book: GradeBook, studentId: string, item: GradeItem)
  {
    ScoreOf(book, item.id, studentId).Some?
  }

  /** What one item adds to the running weighted total. */
  function ItemScore(book: GradeBook, studentId: string, item: GradeItem): real
  {
    match ScoreOf(book, item.id, studentId)
    case Some(score) => score / item.maxScore * item.weight
    case None => 0.0
  }

  /** What one item adds to the running realized weight. */
  function ItemWeight(book: GradeBook, studentId: string, item: GradeItem): real
  {
    if IsGraded(book, studentId, item) then item.weight else 0.0
  }

  /** The weighted total over `items`, accumulated left to right. */
  function WeightedScore(items: seq<GradeItem>, book: GradeBook, studentId: string): real
  {
    if items == [] then 0.0
    else WeightedScore(items[..|items| - 1], book, studentId) + ItemScore(book, studentId, items[|items| - 1])
  }

  /** The sum of the weights of the graded items among `items`. */
  function RealizedWeight(items: seq<GradeItem>, book: GradeBook, studentId: string): real
  {
    if items == [] then 0.0
    else RealizedWeight(items[..|items| - 1], book, studentId) + ItemWeight(book, studentId, items[|items| - 1])
  }

  /** The overall column: a whole percentage, or the "-" marker. */
  datatype OverallGrade = Ungraded | Percent(value: int)

  /** `Math.round`: the nearest integer, halves rounded up. */
  function Round(x: real): (r: int)
    ensures r as real <= x + 0.5 < r as real + 1.0
  {
    (x + 0.5).Floor
  }

  /** The realized-weight average the pages compute. */
  function Overall(items: seq<GradeItem>, book: GradeBook, studentId: string): (r: OverallGrade)
    ensures r.Ungraded? <==> RealizedWeight(items, book, studentId) <= 0.0
  {
    var total := WeightedScore(items, book, studentId);
    var weight := RealizedWeight(items, book, studentId);
    if weight > 0.0 then Percent(Round(total / weight * 100.0)) else Ungraded
  }

  /** The page's `forEach` loop over the course's grade items. */
  method OverallPercentage(items: seq<GradeItem>, book: GradeBook, studentId: string) returns (r: OverallGrade)
    ensures r == Overall(items, book, studentId)
    ensures r.Ungraded? <==> RealizedWeight(items, book, studentId) <= 0.0
  {
    var totalWeightedScore := 0.0;
    var totalWeight := 0.0;
    var i := 0;
    while i < |items|
      invariant 0 <= i <= |items|
      invariant totalWeightedScore == WeightedScore(items[..i], book, studentId)
      invariant totalWeight == RealizedWeight(items[..i], book, studentId)
    {
      var item := items[i];
      var score := ScoreOf(book, item.id, studentId);
      if score.Some? {
        var weightedScore := score.value / item.maxScore * item.weight;
        totalWeightedScore := totalWeightedScore + weightedScore;
        totalWeight := totalWeight + item.weight;
      }
      assert items[..i + 1][..i] == items[..i];
      i := i + 1;
    }
    assert items[..i] == items;
    if totalWeight > 0.0 {
      r := Percent(Round(totalWeightedScore / totalWeight * 100.0));
    } else {
      r := Ungraded;
    }
  }

  // ---------------------------------------------------------------------
  // Properties of the aggregation

  lemma {:induction false} SumsAppend(a: seq<GradeItem>, b: seq<GradeItem>, book: GradeBook, studentId: string)
    ensures WeightedScore(a + b, book, studentId) == WeightedScore(a, book, studentId) + WeightedScore(b, book, studentId)
    ensures RealizedWeight(a + b, book, studentId) == RealizedWeight(a, book, studentId) + RealizedWeight(b, book, studentId)
  {
    if b == [] {
      assert a + b == a;
    } else {
      var b' := b[..|b| - 1];
      assert (a + b)[..|a + b| - 1] == a + b';
      assert (a + b)[|a + b| - 1] == b[|b| - 1];
      SumsAppend(a, b', book, studentId);
    }
  }

  /** The items the student has a recorded score for, in course order. */
  function GradedItems(items: seq<GradeItem>, book: GradeBook, studentId: string): (r: seq<GradeItem>)
    ensures forall it :: it in r <==> it in items && IsGraded(book, studentId, it)
  {
    if items == [] then []
    else
      var front := items[..|items| - 1];
      var last := items[|items| - 1];
      assert items == front + [last];
      GradedItems(front, book, studentId) + (if IsGraded(book, studentId, last) then [last] else [])
  }

  /** Ungraded items change neither the numerator nor the denominator. */
  lemma {:induction false} OnlyGradedItemsCount(items: seq<GradeItem>, book: GradeBook, studentId: string)
    ensures WeightedScore(items, book, studentId) == WeightedScore(GradedItems(items, book, studentId), book, studentId)
    ensures RealizedWeight(items, book, studentId) == RealizedWeight(GradedItems(items, book, studentId), book, studentId)
  {
    if items != [] {
      var front := items[..|items| - 1];
      var last := items[|items| - 1];
      var g := GradedItems(front, book, studentId);
      OnlyGradedItemsCount(front, book, studentId);
      if IsGraded(book, studentId, last) {
        var g' := g + [last];
        assert GradedItems(items, book, studentId) == g';
        assert g'[..|g'| - 1] == g && g'[|g'| - 1] == last;
        assert WeightedScore(g', book, studentId) == WeightedScore(g, book, studentId) + ItemScore(book, studentId, last);
        assert RealizedWeight(g', book, studentId) == RealizedWeight(g, book, studentId) + ItemWeight(book, studentId, last);
      } else {
        assert GradedItems(items, book, studentId) == g;
        assert ItemScore(book, studentId, last) == 0.0 && ItemWeight(book, studentId, last) == 0.0;
      }
    }
  }

  /** The result over all items equals the result over the graded ones. */
  lemma OverallOnGradedItems(items: seq<GradeItem>, book: GradeBook, studentId: string)
    ensures Overall(items, book, studentId) == Overall(GradedItems(items, book, studentId), book, studentId)
  {
    OnlyGradedItemsCount(items, book, studentId);
  }

  /** An item with no recorded score can be dropped from anywhere in the
      list without changing the result. */
  lemma UngradedItemIgnored(before: seq<GradeItem>, item: GradeItem, after: seq<GradeItem>, book: GradeBook, studentId: string)
    requires !IsGraded(book, studentId, item)
    ensures Overall(before + [item] + after, book, studentId) == Overall(before + after, book, studentId)
  {
    SumsAppend(before, [item], book, studentId);
    SumsAppend(before + [item], after, book, studentId);
    SumsAppend(before, after, book, studentId);
    assert [item][..0] == [];
  }

  /** With nothing graded the result is the "-" marker, never 0. */
  lemma {:induction false} NothingGradedIsUngraded(items: seq<GradeItem>, book: GradeBook, studentId: string)
    requires forall it :: it in items ==> !IsGraded(book, studentId, it)
    ensures RealizedWeight(items, book, studentId) == 0.0
    ensures Overall(items, book, studentId) == Ungraded
  {
    if items != [] {
      NothingGradedIsUngraded(items[..|items| - 1], book, studentId);
    }
  }

  /** A graded item of positive weight (with no negative weights elsewhere)
      always produces a percentage. */
  lemma {:induction false} SomeGradedIsPercent(items: seq<GradeItem>, book: GradeBook, studentId: string, k: nat)
    requires k < |items| && IsGraded(book, studentId, items[k]) && items[k].weight > 0.0
    requires forall it :: it in items ==> it.weight >= 0.0
    ensures RealizedWeight(items, book, studentId) >= items[k].weight
    ensures Overall(items, book, studentId).Percent?
  {
    var front := items[..|items| - 1];
    if k == |items| - 1 {
      WeightNonNegative(front, book, studentId);
    } else {
      assert front[k] == items[k];
      SomeGradedIsPercent(front, book, studentId, k);
    }
  }

  lemma {:induction false} WeightNonNegative(items: seq<GradeItem>, book: GradeBook, studentId: string)
    requires forall it :: it in items ==> it.weight >= 0.0
    ensures RealizedWeight(items, book, studentId) >= 0.0
  {
    if items != [] {
      WeightNonNegative(items[..|items| - 1], book, studentId);
    }
  }

  predicate FullMarks(items: seq<GradeItem>, book: GradeBook, studentId: string)
  {
    forall it :: it in items && IsGraded(book, studentId, it) ==>
      ScoreOf(book, it.id, studentId).value == it.maxScore
  }

  lemma {:induction false} FullMarksTotalIsWeight(items: seq<GradeItem>, book: GradeBook, studentId: string)
    requires FullMarks(items, book, studentId)
    ensures WeightedScore(items, book, studentId) == RealizedWeight(items, book, studentId)
  {
    if items != [] {
      var front := items[..|items| - 1];
      assert forall it :: it in front ==> it in items;
      FullMarksTotalIsWeight(front, book, studentId);
      var last := items[|items| - 1];
      if IsGraded(book, studentId, last) {
        assert last.maxScore / last.maxScore == 1.0;
      }
    }
  }

  /** Full marks on every graded item gives exactly 100, whichever subset
      of the course was graded. */
  lemma FullMarksIsHundred(items: seq<GradeItem>, book: GradeBook, studentId: string)
    requires FullMarks(items, book, studentId)
    requires RealizedWeight(items, book, studentId) > 0.0
    ensures Overall(items, book, studentId) == Percent(100)
  {
    FullMarksTotalIsWeight(items, book, studentId);
    var w := RealizedWeight(items, book, studentId);
    RatioOfItself(w);
    assert Round(100.0) == 100;
  }

  lemma RatioOfItself(w: real)
    requires w > 0.0
    ensures w / w * 100.0 == 100.0
  {
  }

  /** Every recorded score lies between 0 and the item's maximum. */
  predicate ScoresInRange(items: seq<GradeItem>, book: GradeBook, studentId: string)
  {
    forall it :: it in items && IsGraded(book, studentId, it) ==>
      0.0 <= ScoreOf(book, it.id, studentId).value <= it.maxScore
  }

  lemma ContributionBounded(book: GradeBook, studentId: string, item: GradeItem)
    requires IsGraded(book, studentId, item) ==> 0.0 <= ScoreOf(book, item.id, studentId).value <= item.maxScore
    requires item.weight >= 0.0
    ensures 0.0 <= ItemScore(book, studentId, item) <= ItemWeight(book, studentId, item)
  {
    if IsGraded(book, studentId, item) {
      var score := ScoreOf(book, item.id, studentId).value;
      var t := score / item.maxScore;
      assert t * item.maxScore == score;
      assert 0.0 <= t <= 1.0;
      assert item.weight - t * item.weight == (1.0 - t) * item.weight;
    }
  }

  lemma {:induction false} TotalWithinWeight(items: seq<GradeItem>, book: GradeBook, studentId: string)
    requires ScoresInRange(items, book, studentId)
    requires forall it :: it in items ==> it.weight >= 0.0
    ensures 0.0 <= WeightedScore(items, book, studentId) <= RealizedWeight(items, book, studentId)
  {
    if items != [] {
      var front := items[..|items| - 1];
      assert forall it :: it in front ==> it in items;
      TotalWithinWeight(front, book, studentId);
      ContributionBounded(book, studentId, items[|items| - 1]);
    }
  }

  /** Scores within range and non-negative weights keep the result within
      0..100. Scores are not clamped, so this needs the range condition. */
  lemma PercentWithinRange(items: seq<GradeItem>, book: GradeBook, studentId: string)
    requires ScoresInRange(items, book, studentId)
    requires forall it :: it in items ==> it.weight >= 0.0
    ensures Overall(items, book, studentId).Percent? ==> 0 <= Overall(items, book, studentId).value <= 100
  {
    TotalWithinWeight(items, book, studentId);
    var total := WeightedScore(items, book, studentId);
    var w := RealizedWeight(items, book, studentId);
    if w > 0.0 {
      RatioWithinOne(total, w);
    }
  }

  lemma RatioWithinOne(total: real, w: real)
    requires w > 0.0 && 0.0 <= total <= w
    ensures 0.0 <= total / w <= 1.0
    ensures 0.0 <= total / w * 100.0 <= 100.0
  {
    var t := total / w;
    assert t * w == total;
    assert (1.0 - t) * w == w - total >= 0.0;
  }

  // ---------------------------------------------------------------------
  // The fixture tables of course "1" (Data Structures and Algorithms)

  const Course1Items: seq<GradeItem> := [
    GradeItem("g1", "Assignment 1", "ASSIGNMENT", 100.0, 15.0),
    GradeItem("g2", "Quiz 1", "QUIZ", 50.0, 10.0),
    GradeItem("g3", "Midterm", "MIDTERM", 100.0, 30.0)
  ]

  const Course1Book: GradeBook := map[
    "g1" := map["1" := 85.0, "2" := 92.0, "3" := 78.0, "5" := 88.0],
    "g2" := map["1" := 90.0, "2" := 85.0, "3" := 80.0, "5" := 92.0],
    "g3" := map["1" := 78.0, "2" := 88.0, "3" := 72.0, "5" := 90.0]
  ]

  /** Student "5" scored 92 on the 50-point quiz, so the unclamped average
      is round(58.6 / 55 * 100) = 107. */
  lemma FixtureAboveHundred()
    ensures WeightedScore(Course1Items, Course1Book, "5") == 58.6
    ensures RealizedWeight(Course1Items, Course1Book, "5") == 55.0
    ensures Overall(Course1Items, Course1Book, "5") == Percent(107)
  {
    var items := Course1Items;
    assert items[..2][..1] == items[..1];
    assert items[..1][..0] == [];
    assert items[..|items| - 1] == items[..2];
    assert items[..2][..|items[..2]| - 1] == items[..1];
    assert items[..1][..|items[..1]| - 1] == [];
    assert ScoreOf(Course1Book, "g1", "5") == Some(88.0);
    assert ScoreOf(Course1Book, "g2", "5") == Some(92.0);
    assert ScoreOf(Course1Book, "g3", "5") == Some(90.0);
    assert WeightedScore(items[..1], Course1Book, "5") == 13.2;
    assert WeightedScore(items[..2], Course1Book, "5") == 13.2 + 18.4;
    assert RealizedWeight(items[..1], Course1Book, "5") == 15.0;
    assert RealizedWeight(items[..2], Course1Book, "5") == 25.0;
  }

  /** Student "4" is not graded in course "1": the marker, not 0. */
  lemma FixtureUngraded()
    ensures Overall(Course1Items, Course1Book, "4") == Ungraded
  {
    NothingGradedIsUngraded(Course1Items, Course1Book, "4");
  }
}
