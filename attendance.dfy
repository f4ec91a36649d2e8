/** The month view of attendance shown on the student and parent
    dashboards: one entry per day of the month, marked present, absent or
    no-class. Days are day numbers (days since 1970-01-01); the month is
    given by its first day and its length, as `startOfMonth`,
    `endOfMonth` and `eachDayOfInterval` produce it. */
module Attendance {

  datatype Status = Present | Absent | NoClass

  datatype DayEntry = DayEntry(date: int, status: Status)

  /** Present wins over absent; a day in neither list has no class. */
  function Classify(day: int, attendanceDays: seq<int>, absentDays: seq<int>): (r: Status)
    ensures r == Present <==> day in attendanceDays
    ensures r == Absent <==> day !in attendanceDays && day in absentDays
    ensures r == NoClass <==> day !in attendanceDays && day !in absentDays
  {
    if day in attendanceDays then Present
    else if day in absentDays then Absent
    else NoClass
  }

  /** `getDailyAttendanceData`: one entry per day of the month, in day
      order, classified against the two day lists. */
  function DailyAttendance(monthStart: int, daysInMonth: nat, attendanceDays: seq<int>, absentDays: seq<int>): (r: seq<DayEntry>)
    ensures |r| == daysInMonth
    ensures forall i :: 0 <= i < |r| ==> r[i].date == monthStart + i
    ensures forall i :: 0 <= i < |r| ==> (r[i].status == Present <==> r[i].date in attendanceDays)
    ensures forall i :: 0 <= i < |r| ==>
      (r[i].status == Absent <==> r[i].date in absentDays && r[i].date !in attendanceDays)
    ensures forall i :: 0 <= i < |r| ==>
      (r[i].status == NoClass <==> r[i].date !in absentDays && r[i].date !in attendanceDays)
  {
    var r := seq(daysInMonth, i requires 0 <= i < daysInMonth =>
      DayEntry(monthStart + i, Classify(monthStart + i, attendanceDays, absentDays)));
    assert forall i :: 0 <= i < |r| ==> r[i].status == Classify(r[i].date, attendanceDays, absentDays);
    r
  }

  /** How many entries carry status `s`. */
  function CountStatus(r: seq<DayEntry>, s: Status): (n: nat)
    ensures n <= |r|
  {
    if r == [] then 0
    else CountStatus(r[..|r| - 1], s) + (if r[|r| - 1].status == s then 1 else 0)
  }

  /** The three statuses are exclusive and exhaustive: their counts add up
      to the number of days. */
  lemma {:induction false} CountsAddUp(r: seq<DayEntry>)
    ensures CountStatus(r, Present) + CountStatus(r, Absent) + CountStatus(r, NoClass) == |r|
  {
    if r != [] {
      CountsAddUp(r[..|r| - 1]);
    }
  }

  predicate StrictlyIncreasing(days: seq<int>)
  {
    forall i, j :: 0 <= i < j < |days| ==> days[i] < days[j]
  }

  /** Each day before the next is enough for the whole list to be sorted. */
  lemma {:induction false} AdjacentIncreasing(days: seq<int>)
    requires forall i :: 0 <= i < |days| - 1 ==> days[i] < days[i + 1]
    ensures StrictlyIncreasing(days)
  {
    if |days| > 1 {
      AdjacentIncreasing(days[1..]);
      forall j | 1 <= j < |days| ensures days[0] < days[j] {
        if j > 1 {
          assert days[1..][0] < days[1..][j - 1];
        }
      }
    }
  }

  /** Counting one status over consecutive days: when the days that carry
      it are exactly the members of a sorted list of days inside the
      range, the count is the length of that list. */
  lemma {:induction false} CountMatches(r: seq<DayEntry>, start: int, s: Status, days: seq<int>)
    requires forall i :: 0 <= i < |r| ==> r[i].date == start + i
    requires forall i :: 0 <= i < |r| ==> (r[i].status == s <==> r[i].date in days)
    requires StrictlyIncreasing(days)
    requires forall k :: 0 <= k < |days| ==> start <= days[k] < start + |r|
    ensures CountStatus(r, s) == |days|
  {
    if r == [] {
    } else {
      var last := start + |r| - 1;
      var front := r[..|r| - 1];
      if days != [] && days[|days| - 1] == last {
        var rest := days[..|days| - 1];
        forall i | 0 <= i < |front| ensures (front[i].status == s <==> front[i].date in rest) {
          if front[i].date in days {
            var k :| 0 <= k < |days| && days[k] == front[i].date;
            assert k != |days| - 1;
            assert rest[k] == days[k];
          }
        }
        forall k | 0 <= k < |rest| ensures start <= rest[k] < start + |front| {
          assert rest[k] == days[k] < days[|days| - 1];
        }
        CountMatches(front, start, s, rest);
        assert r[|r| - 1].date == last;
      } else {
        forall k | 0 <= k < |days| ensures days[k] < last {
          assert days[k] <= days[|days| - 1];
        }
        assert last !in days;
        CountMatches(front, start, s, days);
      }
    }
  }

  /** With sorted day lists inside the month that do not overlap, the month
      has as many present days as listed attendance days, as many absent
      days as listed absences, and the rest have no class. */
  lemma MonthCounts(monthStart: int, daysInMonth: nat, attendanceDays: seq<int>, absentDays: seq<int>)
    requires StrictlyIncreasing(attendanceDays) && StrictlyIncreasing(absentDays)
    requires forall d :: d in attendanceDays ==> monthStart <= d < monthStart + daysInMonth
    requires forall d :: d in absentDays ==> monthStart <= d < monthStart + daysInMonth
    requires forall d :: d in absentDays ==> d !in attendanceDays
    ensures CountStatus(DailyAttendance(monthStart, daysInMonth, attendanceDays, absentDays), Present) == |attendanceDays|
    ensures CountStatus(DailyAttendance(monthStart, daysInMonth, attendanceDays, absentDays), Absent) == |absentDays|
    ensures CountStatus(DailyAttendance(monthStart, daysInMonth, attendanceDays, absentDays), NoClass)
      == daysInMonth - |attendanceDays| - |absentDays|
  {
    var r := DailyAttendance(monthStart, daysInMonth, attendanceDays, absentDays);
    assert forall k :: 0 <= k < |attendanceDays| ==> attendanceDays[k] in attendanceDays;
    assert forall k :: 0 <= k < |absentDays| ==> absentDays[k] in absentDays;
    CountMatches(r, monthStart, Present, attendanceDays);
    CountMatches(r, monthStart, Absent, absentDays);
    CountsAddUp(r);
  }

  /** Day number of 2025-04-01. */
  const April2025: int := 20179

  function April(dayOfMonth: int): int
  {
    April2025 + dayOfMonth - 1
  }

  /** The attendance list of the dashboards: April 2025 school days except
      the 22nd. */
  const MockAttendanceDays: seq<int> := [
    April(1), April(2), April(3), April(4), April(7), April(8), April(9), April(10),
    April(11), April(14), April(15), April(16), April(17), April(18), April(21),
    April(23), April(24), April(25), April(28), April(29), April(30)]

  const MockAbsentDays: seq<int> := [April(22)]

  /** April 2025 shows 21 present days, one absence (the 22nd) and 8 days
      without class. */
  lemma MockApril()
    ensures CountStatus(DailyAttendance(April2025, 30, MockAttendanceDays, MockAbsentDays), Present) == 21
    ensures CountStatus(DailyAttendance(April2025, 30, MockAttendanceDays, MockAbsentDays), Absent) == 1
    ensures CountStatus(DailyAttendance(April2025, 30, MockAttendanceDays, MockAbsentDays), NoClass) == 8
    ensures DailyAttendance(April2025, 30, MockAttendanceDays, MockAbsentDays)[21] == DayEntry(April(22), Absent)
  {
    AdjacentIncreasing(MockAttendanceDays);
    MonthCounts(April2025, 30, MockAttendanceDays, MockAbsentDays);
  }
}
