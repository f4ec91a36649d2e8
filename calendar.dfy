/** The professor's calendar: the events of the selected day, the badge
    colour and label of an event type, and the add-event form. Instants
    are local-time milliseconds since the epoch, so the local calendar day
    of an instant is its floor division by the length of a day. */
module Calendar {
  import opened Util
  import opened Text

  const MillisPerDay: int := 86_400_000

  datatype Event = Event(
    id: string, title: string, description: string, date: int,
    startTime: string, endTime: string, location: string, kind: string)

  /** The local calendar day an instant falls in. */
  function LocalDay(instant: int): int
  {
    instant / MillisPerDay
  }

  /** date-fns `isSameDay` */
  predicate SameDay(a: int, b: int)
  {
    LocalDay(a) == LocalDay(b)
  }

  /** Two instants less than a day apart on the same side of a midnight
      are on the same day; a full day apart never are. */
  lemma SameDayBounds(a: int, b: int)
    ensures SameDay(a, b) ==> -MillisPerDay < a - b < MillisPerDay
    ensures a - b >= MillisPerDay || b - a >= MillisPerDay ==> !SameDay(a, b)
  {
  }

  /** `eventsForSelectedDate`: nothing without a selected date, otherwise
      the events on the selected day in list order. */
  function EventsForDate(events: seq<Event>, date: Option<int>): (r: seq<Event>)
    ensures date.None? ==> r == []
    ensures date.Some? ==> forall e :: e in r <==> e in events && SameDay(e.date, date.value)
    ensures IsSubsequence(r, events)
  {
    match date
    case None => []
    case Some(d) =>
      var p := (e: Event) => SameDay(e.date, d);
      FilterIsSubsequence(events, p);
      Filter(events, p)
  }

  /** `getEventBadgeVariant` */
  function EventBadgeVariant(kind: string): (r: BadgeVariant)
    ensures kind == "office-hours" <==> r == Secondary
    ensures kind == "meeting" <==> r == Outline
    ensures kind == "exam" <==> r == Destructive
    ensures kind == "seminar" <==> r == Success
    ensures r == Default <==> kind !in {"office-hours", "meeting", "exam", "seminar"}
  {
    match kind
    case "lecture" => Default
    case "office-hours" => Secondary
    case "meeting" => Outline
    case "exam" => Destructive
    case "seminar" => Success
    case _ => Default
  }

  /** `s.indexOf(c)`: the first position of `c`, or -1. */
  function IndexOf(s: string, c: char): (r: int)
    ensures r == -1 <==> c !in s
    ensures r != -1 ==> 0 <= r < |s| && s[r] == c && c !in s[..r]
  {
    if s == [] then -1
    else if s[0] == c then 0
    else
      var k := IndexOf(s[1..], c);
      if k == -1 then -1
      else
        assert s[..k + 1] == [s[0]] + s[1..][..k];
        k + 1
  }

  /** `s.replace(from, to)` with a one-character string pattern: only the
      first occurrence is replaced. */
  function ReplaceFirst(s: string, from: char, to: char): (r: string)
    ensures |r| == |s|
    ensures forall i :: 0 <= i < |s| ==> r[i] == (if i == IndexOf(s, from) then to else s[i])
  {
    if s == [] then []
    else if s[0] == from then [to] + s[1..]
    else [s[0]] + ReplaceFirst(s[1..], from, to)
  }

  /** The badge text: `type.charAt(0).toUpperCase() + type.slice(1).replace("-", " ")`. */
  function TypeLabel(kind: string): (r: string)
    ensures |r| == |kind|
    ensures kind != [] ==> r[0] == UpperChar(kind[0])
    ensures forall i :: 1 <= i < |kind| ==>
      r[i] == (if i - 1 == IndexOf(kind[1..], '-') then ' ' else kind[i])
  {
    if kind == [] then [] else [UpperChar(kind[0])] + ReplaceFirst(kind[1..], '-', ' ')
  }

  /** Only the first hyphen after the first letter becomes a space; later
      hyphens stay. */
  lemma {:induction false} LaterHyphensStay(kind: string, i: int)
    requires 1 <= i < |kind| && kind[i] == '-' && '-' in kind[1..i]
    ensures TypeLabel(kind)[i] == '-'
  {
    var k := IndexOf(kind[1..], '-');
    assert kind[1..][..i - 1] == kind[1..i];
    assert k < i - 1;
  }

  /** The first position of `c` is the `k` before which `c` does not
      occur. */
  lemma IndexOfIs(s: string, c: char, k: int)
    requires 0 <= k < |s| && s[k] == c && forall j :: 0 <= j < k ==> s[j] != c
    ensures IndexOf(s, c) == k
  {
    assert s[k] in s;
  }

  /** A hyphenated type reads as two words with the first capitalised
      ("office-hours" gives "Office hours"). */
  lemma HyphenatedLabel(first: string, second: string)
    requires |first| >= 1 && '-' !in first[1..]
    ensures TypeLabel(first + "-" + second) == [UpperChar(first[0])] + first[1..] + " " + second
  {
    var kind := first + "-" + second;
    var expected := [UpperChar(first[0])] + first[1..] + " " + second;
    forall j | 0 <= j < |first| - 1 ensures kind[1..][j] != '-' {
      assert kind[1..][j] == first[1..][j];
    }
    IndexOfIs(kind[1..], '-', |first| - 1);
    var r := TypeLabel(kind);
    forall i | 0 <= i < |r| ensures r[i] == expected[i] {
      if 1 <= i < |first| {
        assert r[i] == kind[i] == first[i];
      } else if i > |first| {
        assert r[i] == kind[i] == second[i - |first| - 1];
      }
    }
  }

  /** The add-event form. */
  datatype EventForm = EventForm(
    title: string, description: string, date: int, startTime: string,
    endTime: string, location: string, kind: string)

  /** The blank form: empty fields, today's date, type "lecture". */
  function BlankForm(now: int): EventForm
  {
    EventForm("", "", now, "", "", "", "lecture")
  }

  class CalendarPage {
    const events: seq<Event>
    var date: Option<int>
    var showAddEventDialog: bool
    var newEvent: EventForm

    constructor (events: seq<Event>, now: int)
      ensures this.events == events && date == Some(now)
      ensures !showAddEventDialog && newEvent == BlankForm(now)
    {
      this.events := events;
      date := Some(now);
      showAddEventDialog := false;
      newEvent := BlankForm(now);
    }

    function Shown(): (r: seq<Event>)
      reads this
      ensures IsSubsequence(r, events)
    {
      EventsForDate(events, date)
    }

    /** `handleAddEvent`: close the dialog and reset the form; the event
        list is a constant of the page, so the new event is not added. */
    method AddEvent(now: int)
      modifies this`showAddEventDialog, this`newEvent
      ensures !showAddEventDialog && newEvent == BlankForm(now)
      ensures newEvent.title == "" && newEvent.kind == "lecture"
    {
      showAddEventDialog := false;
      newEvent := BlankForm(now);
    }
  }
}
