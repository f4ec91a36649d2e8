/** The alerts page: a list of alerts held in page state, a tab filter,
    and three updates that replace the list (mark one read, dismiss one,
    mark all read). */
module Alerts {
  import opened Util

  datatype Alert = Alert(
    id: string, kind: string, studentId: string, studentName: string,
    course: string, message: string, date: string, read: bool)

  /** The tab filter: "all" shows everything, "unread" the unread alerts,
      and any other value the alerts of that type. */
  predicate Shown(filter: string, a: Alert)
  {
    if filter == "all" then true
    else if filter == "unread" then !a.read
    else a.kind == filter
  }

  /** `filteredAlerts` */
  function FilteredAlerts(alerts: seq<Alert>, filter: string): (r: seq<Alert>)
    ensures forall a :: a in r <==> a in alerts && Shown(filter, a)
    ensures IsSubsequence(r, alerts)
    ensures filter == "all" ==> r == alerts
  {
    var p := (a: Alert) => Shown(filter, a);
    FilterIsSubsequence(alerts, p);
    if filter == "all" then FilterAllKept(alerts, p); Filter(alerts, p)
    else Filter(alerts, p)
  }

  /** The new list after `markAsRead(alertId)`. */
  function MarkRead(alerts: seq<Alert>, alertId: string): (r: seq<Alert>)
    ensures |r| == |alerts|
    ensures forall i :: 0 <= i < |r| ==> r[i] == alerts[i].(read := r[i].read)
    ensures forall i :: 0 <= i < |r| ==> (r[i].read <==> alerts[i].read || alerts[i].id == alertId)
  {
    seq(|alerts|, i requires 0 <= i < |alerts| =>
      if alerts[i].id == alertId then alerts[i].(read := true) else alerts[i])
  }

  /** Marking the same alert read twice is the same as once. */
  lemma MarkReadIdempotent(alerts: seq<Alert>, alertId: string)
    ensures MarkRead(MarkRead(alerts, alertId), alertId) == MarkRead(alerts, alertId)
  {
  }

  /** The new list after `dismissAlert(alertId)`. */
  function Dismissed(alerts: seq<Alert>, alertId: string): (r: seq<Alert>)
    ensures forall a :: a in r <==> a in alerts && a.id != alertId
    ensures IsSubsequence(r, alerts)
    ensures multiset(r) + multiset(Filter(alerts, (a: Alert) => a.id == alertId)) == multiset(alerts)
  {
    var keep := (a: Alert) => a.id != alertId;
    FilterIsSubsequence(alerts, keep);
    FilterPartition(alerts, keep, (a: Alert) => a.id == alertId);
    Filter(alerts, keep)
  }

  /** The new list after `markAllAsRead()`. */
  function AllRead(alerts: seq<Alert>): (r: seq<Alert>)
    ensures |r| == |alerts|
    ensures forall i :: 0 <= i < |r| ==> r[i].read && r[i] == alerts[i].(read := true)
  {
    seq(|alerts|, i requires 0 <= i < |alerts| => alerts[i].(read := true))
  }

  /** The count on the "Unread" tab. Its exact value, the length of the
      "unread" tab's list, is stated by `TabCounts`. */
  function UnreadCount(alerts: seq<Alert>): (r: nat)
    ensures r <= |alerts|
    ensures r == 0 <==> forall i :: 0 <= i < |alerts| ==> alerts[i].read
  {
    var unread := Filter(alerts, (a: Alert) => !a.read);
    assert unread != [] ==> unread[0] in alerts && !unread[0].read;
    assert forall i :: 0 <= i < |alerts| && !alerts[i].read ==> alerts[i] in unread;
    |unread|
  }

  /** The two tab counts are the lengths of what the two tabs list. */
  lemma TabCounts(alerts: seq<Alert>)
    ensures |FilteredAlerts(alerts, "all")| == |alerts|
    ensures |FilteredAlerts(alerts, "unread")| == UnreadCount(alerts)
  {
    FilterAgree(alerts, (a: Alert) => Shown("unread", a), (a: Alert) => !a.read);
  }

  /** After "Mark All as Read" nothing is unread. */
  lemma AllReadLeavesNoneUnread(alerts: seq<Alert>)
    ensures UnreadCount(AllRead(alerts)) == 0
  {
  }

  /** Marking the only unread alert read leaves nothing unread. */
  lemma MarkLastUnread(alerts: seq<Alert>, k: nat)
    requires k < |alerts| && forall i :: 0 <= i < |alerts| && !alerts[i].read ==> alerts[i].id == alerts[k].id
    ensures UnreadCount(MarkRead(alerts, alerts[k].id)) == 0
  {
  }

  /** "Mark All as Read" is disabled (`!alerts.some(a => !a.read)`). */
  function MarkAllDisabled(alerts: seq<Alert>): (r: bool)
    ensures r <==> UnreadCount(alerts) == 0
  {
    !exists i | 0 <= i < |alerts| :: !alerts[i].read
  }

  /** `getAlertBadgeVariant` */
  function AlertBadgeVariant(kind: string): (r: BadgeVariant)
    ensures kind == "risk" <==> r == Destructive
    ensures kind == "attendance" <==> r == Warning
    ensures kind == "system" <==> r == Outline
    ensures r == Default <==> kind !in {"risk", "attendance", "system"}
  {
    match kind
    case "risk" => Destructive
    case "attendance" => Warning
    case "grade" => Default
    case "system" => Outline
    case _ => Default
  }

  /** `getAlertTypeText`: a distinct label per known type, "Alert" for any
      other. */
  function AlertTypeText(kind: string): (r: string)
    ensures kind in {"risk", "attendance", "grade", "system"} <==> r != "Alert"
  {
    match kind
    case "risk" => "Risk Alert"
    case "attendance" => "Attendance Alert"
    case "grade" => "Grade Alert"
    case "system" => "System Notification"
    case _ => "Alert"
  }

  /** The four known types get four different labels. */
  lemma AlertTypeTextsDistinct(k1: string, k2: string)
    requires k1 in {"risk", "attendance", "grade", "system"} && k2 in {"risk", "attendance", "grade", "system"}
    requires k1 != k2
    ensures AlertTypeText(k1) != AlertTypeText(k2)
  {
  }

  /** The page's `alerts` and `filter` state. */
  class AlertsPage {
    var alerts: seq<Alert>
    var filter: string

    constructor (initial: seq<Alert>)
      ensures alerts == initial && filter == "all"
    {
      alerts := initial;
      filter := "all";
    }

    function Visible(): (r: seq<Alert>)
      reads this
      ensures IsSubsequence(r, alerts)
    {
      FilteredAlerts(alerts, filter)
    }

    method SetFilter(value: string)
      modifies this`filter
      ensures filter == value
    {
      filter := value;
    }

    method MarkAsRead(alertId: string)
      modifies this`alerts
      ensures alerts == MarkRead(old(alerts), alertId)
    {
      alerts := MarkRead(alerts, alertId);
    }

    method DismissAlert(alertId: string)
      modifies this`alerts
      ensures alerts == Dismissed(old(alerts), alertId)
    {
      alerts := Dismissed(alerts, alertId);
    }

    method MarkAllAsRead()
      modifies this`alerts
      ensures alerts == AllRead(old(alerts))
      ensures UnreadCount(alerts) == 0
    {
      alerts := AllRead(alerts);
    }
  }
}
