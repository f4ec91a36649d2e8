/** The dashboard sidebar: a fixed navigation table per role, and the rule
    that highlights the entry (and sub-entry) for the current path. */
module Sidebar {
  import opened Util

  datatype Role = Student | Professor | Parent

  datatype NavLink = NavLink(title: string, href: string)

  /** A top-level entry; the icon is left out. */
  datatype NavItem = NavItem(title: string, href: string, submenu: Option<seq<NavLink>>)

  function Item(title: string, href: string): NavItem
  {
    NavItem(title, href, None)
  }

  /** The five pages grouped under the professor's "Courses" entry. */
  const CoursesSubmenu: seq<NavLink> := [
    NavLink("My Courses", "/dashboard/professor/courses"),
    NavLink("Classroom", "/dashboard/professor/classroom"),
    NavLink("Course Management", "/dashboard/professor/course-management"),
    NavLink("Create Course", "/dashboard/professor/courses/create"),
    NavLink("Assignments", "/dashboard/professor/assignments")
  ]

  /** `navItems[role]` */
  function NavItems(role: Role): (r: seq<NavItem>)
    ensures role == Student ==> |r| == 5
    ensures role == Professor ==> |r| == 8
    ensures role == Parent ==> |r| == 4
  {
    match role
    case Student => [
      Item("Dashboard", "/dashboard/student"),
      Item("Courses", "/dashboard/student/courses"),
      Item("Grades", "/dashboard/student/grades"),
      Item("Calendar", "/dashboard/student/calendar"),
      Item("Messages", "/dashboard/student/messages")
    ]
    case Professor => [
      Item("Dashboard", "/dashboard/professor"),
      Item("Calendar", "/dashboard/professor/calendar"),
      Item("Students", "/dashboard/professor/students"),
      NavItem("Courses", "/dashboard/professor/courses", Some(CoursesSubmenu)),
      Item("Analytics", "/dashboard/professor/analytics"),
      Item("Alerts", "/dashboard/professor/alerts"),
      Item("Messages", "/dashboard/professor/messages"),
      Item("Settings", "/dashboard/professor/settings")
    ]
    case Parent => [
      Item("Dashboard", "/dashboard/parent"),
      Item("Students", "/dashboard/parent/students"),
      Item("Progress", "/dashboard/parent/progress"),
      Item("Messages", "/dashboard/parent/messages")
    ]
  }

  /** An entry with a submenu is active on any of its sub-pages (and not on
      its own href unless that is one of them); one without is active on
      its own href only. */
  predicate IsActive(item: NavItem, pathname: string)
  {
    match item.submenu
    case Some(links) => exists l | l in links :: pathname == l.href
    case None => pathname == item.href
  }

  /** A rendered sub-entry and whether it is highlighted. */
  datatype RenderedLink = RenderedLink(link: NavLink, highlighted: bool)

  /** A rendered entry: title, link target, highlight, and its sub-entries. */
  datatype RenderedItem = RenderedItem(title: string, href: string, active: bool, links: seq<RenderedLink>)

  function RenderLinks(links: seq<NavLink>, pathname: string): (r: seq<RenderedLink>)
    ensures |r| == |links|
    ensures forall j :: 0 <= j < |r| ==> r[j].link == links[j] && (r[j].highlighted <==> pathname == links[j].href)
  {
    seq(|links|, j requires 0 <= j < |links| => RenderedLink(links[j], pathname == links[j].href))
  }

  /** The `items.map(...)` of the navigation bar: one rendered entry per
      table entry, in table order. */
  function Render(role: Role, pathname: string): (r: seq<RenderedItem>)
    ensures |r| == |NavItems(role)|
    ensures forall i :: 0 <= i < |r| ==>
      r[i].title == NavItems(role)[i].title && r[i].href == NavItems(role)[i].href
      && (r[i].active <==> IsActive(NavItems(role)[i], pathname))
    ensures forall i :: 0 <= i < |r| ==>
      r[i].links == RenderLinks(match NavItems(role)[i].submenu case Some(ls) => ls case None => [], pathname)
  {
    var items := NavItems(role);
    seq(|items|, i requires 0 <= i < |items| =>
      RenderedItem(items[i].title, items[i].href, IsActive(items[i], pathname),
                   RenderLinks(match items[i].submenu case Some(ls) => ls case None => [], pathname)))
  }

  /** The hrefs each entry can be active on. */
  function ActiveHrefs(item: NavItem): (r: set<string>)
    ensures forall p :: IsActive(item, p) <==> p in r
  {
    match item.submenu
    case Some(links) => set l | l in links :: l.href
    case None => {item.href}
  }

  /** Top-level hrefs are distinct within each role, so they are usable
      as React keys. */
  lemma HrefsDistinct(role: Role)
    ensures forall i, j :: 0 <= i < j < |NavItems(role)| ==> NavItems(role)[i].href != NavItems(role)[j].href
  {
  }

  /** Which entry a path activates: two different entries never share an
      active path. */
  lemma {:induction false} OneActiveIn(items: seq<NavItem>, pathname: string, i: int, j: int)
    requires forall a, b :: 0 <= a < b < |items| ==> ActiveHrefs(items[a]) !! ActiveHrefs(items[b])
    requires 0 <= i < |items| && 0 <= j < |items|
    requires IsActive(items[i], pathname) && IsActive(items[j], pathname)
    ensures i == j
  {
  }

  const CoursesPaths: set<string> := {
    "/dashboard/professor/courses", "/dashboard/professor/classroom",
    "/dashboard/professor/course-management", "/dashboard/professor/courses/create",
    "/dashboard/professor/assignments"}

  lemma CoursesActiveHrefs()
    ensures ActiveHrefs(NavItems(Professor)[3]) == CoursesPaths
  {
    assert CoursesSubmenu[0] in CoursesSubmenu && CoursesSubmenu[1] in CoursesSubmenu
      && CoursesSubmenu[2] in CoursesSubmenu && CoursesSubmenu[3] in CoursesSubmenu
      && CoursesSubmenu[4] in CoursesSubmenu;
  }

  lemma OtherHrefsOutsideCourses()
    ensures forall a :: 0 <= a < |NavItems(Professor)| && a != 3 ==>
      NavItems(Professor)[a].href !in CoursesPaths && NavItems(Professor)[a].submenu.None?
  {
  }

  lemma ProfessorActiveSetsDisjoint()
    ensures forall a, b :: 0 <= a < b < |NavItems(Professor)| ==>
      ActiveHrefs(NavItems(Professor)[a]) !! ActiveHrefs(NavItems(Professor)[b])
  {
    CoursesActiveHrefs();
    OtherHrefsOutsideCourses();
    HrefsDistinct(Professor);
  }

  lemma FlatActiveSetsDisjoint(role: Role)
    requires role != Professor
    ensures forall a, b :: 0 <= a < b < |NavItems(role)| ==>
      ActiveHrefs(NavItems(role)[a]) !! ActiveHrefs(NavItems(role)[b])
  {
    HrefsDistinct(role);
  }

  /** For any path, at most one top-level entry is highlighted. */
  lemma AtMostOneActive(role: Role, pathname: string, i: int, j: int)
    requires 0 <= i < |NavItems(role)| && 0 <= j < |NavItems(role)|
    requires IsActive(NavItems(role)[i], pathname) && IsActive(NavItems(role)[j], pathname)
    ensures i == j
  {
    if role == Professor {
      ProfessorActiveSetsDisjoint();
    } else {
      FlatActiveSetsDisjoint(role);
    }
    OneActiveIn(NavItems(role), pathname, i, j);
  }

  /** The classroom page highlights "Courses" and its "Classroom"
      sub-entry, and no other entry. */
  lemma CoursesActiveOnClassroom()
    ensures IsActive(NavItems(Professor)[3], "/dashboard/professor/classroom")
    ensures NavItems(Professor)[3].title == "Courses"
    ensures forall i :: 0 <= i < |NavItems(Professor)| && i != 3 ==>
      !IsActive(NavItems(Professor)[i], "/dashboard/professor/classroom")
    ensures Render(Professor, "/dashboard/professor/classroom")[3].links[1].highlighted
  {
    assert CoursesSubmenu[1] in CoursesSubmenu;
    forall i | 0 <= i < |NavItems(Professor)| && i != 3
      ensures !IsActive(NavItems(Professor)[i], "/dashboard/professor/classroom")
    {
      if IsActive(NavItems(Professor)[i], "/dashboard/professor/classroom") {
        AtMostOneActive(Professor, "/dashboard/professor/classroom", i, 3);
      }
    }
  }
}
