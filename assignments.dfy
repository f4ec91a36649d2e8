/** The assignments page: a searchable list filtered by course and stored
    status, and a status label and badge that also look at the clock.
    Instants are milliseconds since the epoch: `now` stands for
    `new Date()` and `due` for `parseISO(dueDate)`, the local midnight that
    starts the due day. */
module Assignments {
  import opened Util
  import opened Text

  datatype Assignment = Assignment(
    id: string, title: string, course: string, due: int,
    maxScore: int, weight: int, status: string)

  const MillisPerDay: int := 86_400_000

  /** `getStatusText`: "completed" wins over the date, a passed due instant
      wins over "upcoming", and everything else is "Active". */
  function StatusText(status: string, now: int, due: int): (r: string)
    ensures r == "Completed" <==> status == "completed"
    ensures r == "Overdue" <==> status != "completed" && now > due
    ensures r == "Upcoming" <==> status != "completed" && now <= due && status == "upcoming"
    ensures r == "Active" <==> status != "completed" && now <= due && status != "upcoming"
  {
    if status == "completed" then "Completed"
    else if now > due then "Overdue"
    else if status == "upcoming" then "Upcoming"
    else "Active"
  }

  /** The badge colour of each label. */
  function TextVariant(text: string): BadgeVariant
  {
    match text
    case "Completed" => Success
    case "Overdue" => Destructive
    case "Upcoming" => Outline
    case _ => Default
  }

  /** `getStatusBadgeVariant` follows the same precedence as the label, so
      the badge is always the colour of the label it carries. */
  function StatusBadgeVariant(status: string, now: int, due: int): (r: BadgeVariant)
    ensures r == TextVariant(StatusText(status, now, due))
  {
    if status == "completed" then Success
    else if now > due then Destructive
    else if status == "upcoming" then Outline
    else Default
  }

  /** Different labels never share a badge colour. */
  lemma TextVariantDistinct(t1: string, t2: string)
    requires t1 in {"Completed", "Overdue", "Upcoming", "Active"} && t2 in {"Completed", "Overdue", "Upcoming", "Active"}
    requires t1 != t2
    ensures TextVariant(t1) != TextVariant(t2)
  {
  }

  predicate Kept(a: Assignment, query: string, courseFilter: string, statusFilter: string)
  {
    Matches(a.title, query)
    && (courseFilter == "all" || a.course == courseFilter)
    && (statusFilter == "all" || a.status == statusFilter)
  }

  /** `filteredAssignments` */
  function FilteredAssignments(assignments: seq<Assignment>, query: string, courseFilter: string, statusFilter: string): (r: seq<Assignment>)
    ensures forall a :: a in r <==> a in assignments && Kept(a, query, courseFilter, statusFilter)
    ensures IsSubsequence(r, assignments)
  {
    var p := (a: Assignment) => Kept(a, query, courseFilter, statusFilter);
    FilterIsSubsequence(assignments, p);
    Filter(assignments, p)
  }

  /** The status filter reads the stored status, not the label: an active
      assignment past its due instant is shown as "Overdue" and is still
      listed under the "active" filter (with an empty search and every
      course). */
  lemma OverdueStillActive(assignments: seq<Assignment>, a: Assignment, now: int)
    requires a in assignments && a.status == "active" && now > a.due
    ensures StatusText(a.status, now, a.due) == "Overdue"
    ensures a in FilteredAssignments(assignments, "", "all", "active")
    ensures a !in FilteredAssignments(assignments, "", "all", "overdue")
  {
    EmptyQueryMatches(a.title);
  }

  /** Because `due` is the midnight that starts the due day, an assignment
      that is not completed already reads "Overdue" during its due day. */
  lemma OverdueOnDueDay(status: string, now: int, due: int)
    requires status != "completed" && due < now < due + MillisPerDay
    ensures StatusText(status, now, due) == "Overdue"
    ensures StatusBadgeVariant(status, now, due) == Destructive
  {
  }
}
