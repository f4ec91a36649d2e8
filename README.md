# retentionedge dashboard rules, modelled in Dafny

retentionedge is a student-retention dashboard for professors, students and
parents. Its pages keep their behaviour inline in React components: small
classification rules, searches and filters over fixture lists, the
weighted overall-grade average, and state updates on lists and maps held
in page state. This project pulls each of these out and states what it
does.

The main piece is the weighted overall grade (module `Grades`), which the
classroom and course-management pages each compute inline. For every
grade item with a recorded score it adds `score / maxScore * weight` to a
total and the item's weight to a realized weight. The result is
`Math.round(total / realized * 100)`, or the marker "-" when nothing is
graded. The model computes this with a loop (`Grades.OverallPercentage`)
and proves it equal to a recursive definition (`Grades.Overall`). The
lemmas then show the following:

- ungraded items change neither sum;
- nothing graded gives the marker, never 0;
- full marks give exactly 100;
- in-range scores keep the result within 0..100;
- the fixture's unclamped quiz score gives 107.

One Dafny module models each page:

| module | page |
|---|---|
| `Classroom` | professor classroom |
| `CourseManagement` | course management |
| `Students` | student list |
| `Alerts` | alerts |
| `Messages` | messages |
| `Assignments` | assignments |
| `Sidebar` | navigation sidebar |
| `Courses` | course list |
| `Calendar` | calendar |
| `Attendance` | student and parent attendance calendars |
| `ProfessorDashboard` | professor home page |
| `Analytics` | analytics |

`Util` holds `Option`, the order-preserving filter, subsequences and
`find`. `Text` holds case-insensitive substring search and the blank-draft
test, which strips the same whitespace as JavaScript's `trim`.

State that a page changes through React setters becomes a class. The
fields are the page's state variables. Each method states the whole new
state:

- `Classroom.ClassroomPage` for the edit-grades dialog;
- `CourseManagement.CourseManagementPage` for the marks dialog;
- `Alerts.AlertsPage`;
- `Messages.MessagesPage`;
- `Calendar.CalendarPage`.

Modelling conventions:

- Arithmetic is exact: grades use `real`, and `Math.round` is `floor(x + 1/2)`.
- Text is compared by character code, with ASCII case folding.
- `Number.parseFloat` is a parameter of type `string -> Option<real>`, where `None` stands for NaN.
- Number-to-text conversion is a parameter of type `real -> string`.
- Dates are integers. Event, assignment and clock instants are local-time milliseconds. Attendance days are day numbers.

## Model

| member | source | states |
|---|---|---|
| Grades.CourseItems | app/dashboard/professor/course-management/page.tsx:220 | a course without a grade-item table has no items |
| Grades.CourseBook | app/dashboard/professor/course-management/page.tsx:223 | a course without a grade table reads as having no recorded scores |
| Grades.ScoreOf | app/dashboard/professor/classroom/page.tsx:537-538 | a score is present exactly when the item has an entry for that student, and is that entry |
| Grades.Round | app/dashboard/professor/classroom/page.tsx:547-548 | `Math.round`: the integer r with r <= x + 1/2 < r + 1 |
| Grades.Overall | app/dashboard/professor/classroom/page.tsx:533-548 | the result is the "-" marker exactly when the realized weight is not positive |
| Grades.OverallPercentage | app/dashboard/professor/classroom/page.tsx:533-548 | the page's accumulator loop computes exactly `Overall`; it is the marker iff the realized weight is not positive |
| Grades.SumsAppend | app/dashboard/professor/classroom/page.tsx:536-545 | both running sums are additive over concatenated item lists |
| Grades.GradedItems | app/dashboard/professor/classroom/page.tsx:538-540 | the graded items are exactly the items with a recorded score for the student |
| Grades.OnlyGradedItemsCount | app/dashboard/professor/classroom/page.tsx:536-548 | the weighted total and the divisor over all items equal those over the graded items only |
| Grades.OverallOnGradedItems | app/dashboard/professor/classroom/page.tsx:536-548 | the overall grade over all items equals the overall grade over the graded ones |
| Grades.UngradedItemIgnored | app/dashboard/professor/classroom/page.tsx:538-548 | removing an ungraded item from anywhere in the list leaves the result unchanged |
| Grades.NothingGradedIsUngraded | app/dashboard/professor/classroom/page.tsx:547-548 | with no item graded the result is the "-" marker, never 0 |
| Grades.SomeGradedIsPercent | app/dashboard/professor/classroom/page.tsx:547-548 | one graded item of positive weight (others non-negative) gives a percentage |
| Grades.WeightNonNegative | app/dashboard/professor/classroom/page.tsx:543 | non-negative weights give a non-negative realized weight |
| Grades.FullMarksTotalIsWeight | app/dashboard/professor/classroom/page.tsx:541-544 | full marks on every graded item make the weighted total equal the realized weight |
| Grades.FullMarksIsHundred | app/dashboard/professor/classroom/page.tsx:541-548 | full marks on every graded item give exactly 100, whichever subset is graded |
| Grades.ContributionBounded | app/dashboard/professor/classroom/page.tsx:541-544 | an in-range score adds between 0 and the item's weight |
| Grades.TotalWithinWeight | app/dashboard/professor/classroom/page.tsx:536-545 | in-range scores keep the total between 0 and the realized weight |
| Grades.RatioWithinOne | app/dashboard/professor/classroom/page.tsx:541-548 | a total within the weight gives a ratio in 0..1 and a percentage in 0..100 |
| Grades.PercentWithinRange | app/dashboard/professor/classroom/page.tsx:541-548 | in-range scores with non-negative weights give a percentage within 0..100 |
| Grades.FixtureAboveHundred | app/dashboard/professor/classroom/page.tsx:127-150 | student "5" of course "1" gets round(58.6 / 55 * 100) = 107, above 100, because scores are not clamped |
| Grades.FixtureUngraded | app/dashboard/professor/classroom/page.tsx:146-150 | student "4" has no score in course "1" and gets the marker |
| Classroom.FilteredStudents | app/dashboard/professor/classroom/page.tsx:182-194 | with no course selected the list is empty; otherwise a student is listed iff enrolled and name, id or e-mail contains the query; roster order is kept |
| Classroom.NonEnrolledStudents | app/dashboard/professor/classroom/page.tsx:197-202 | exactly the roster students not enrolled in the selected course, in order; empty without a course |
| Classroom.AddDialogStudents | app/dashboard/professor/classroom/page.tsx:652-657 | the add dialog lists the non-enrolled students whose name or id (not e-mail) contains the query, in roster order (a subsequence of the roster) |
| Classroom.EmptySearchPartitionsRoster | app/dashboard/professor/classroom/page.tsx:184-202 | with an empty search the enrolled list and the non-enrolled list split the roster: multiset sum, and each student is in exactly one |
| Classroom.ItemGrades | app/dashboard/professor/classroom/page.tsx:255 | the dialog's map holds exactly the item's recorded scores |
| Classroom.ClassroomPage.constructor | app/dashboard/professor/classroom/page.tsx:165-179 | no course, empty search, empty map, closed dialog |
| Classroom.ClassroomPage.Listed | app/dashboard/professor/classroom/page.tsx:182-194 | the rendered list is a subsequence of the roster |
| Classroom.ClassroomPage.SelectCourse | app/dashboard/professor/classroom/page.tsx:208-211 | the course is selected and the search cleared; nothing else changes |
| Classroom.ClassroomPage.OpenEditGrades | app/dashboard/professor/classroom/page.tsx:249-259 | remembers the item and opens the dialog; with a course and an item id, the map becomes the item's recorded scores, otherwise it is kept |
| Classroom.ClassroomPage.GradeChange | app/dashboard/professor/classroom/page.tsx:272-280 | unparsable input leaves the map unchanged; otherwise only that student's entry is set, and every other entry keeps its value |
| Classroom.ClassroomPage.SaveGrades | app/dashboard/professor/classroom/page.tsx:262-269 | only the dialog flag changes; it closes |
| CourseManagement.EnrolledStudents | app/dashboard/professor/course-management/page.tsx:40-45 | exactly the roster students enrolled in the selected course, in roster order (a subsequence of the roster); empty without a course |
| CourseManagement.SearchedStudents | app/dashboard/professor/course-management/page.tsx:40-53 | the searched enrolled students equal the classroom page's list for the same inputs, a subsequence of the roster |
| CourseManagement.CurrentGrade | app/dashboard/professor/course-management/page.tsx:217-234 | the current-grade cell computes `Overall` over the course's items and scores; nothing graded gives the marker; in-range scores give 0..100; the grades-tab copy at lines 400-417 is the same code, so both copies agree |
| CourseManagement.ParsedPercent | app/dashboard/professor/course-management/page.tsx:256-258 | `Number.parseInt` of the rounded percentage's text gives the number back below 10^21 in magnitude, and only a signed leading digit from there on |
| CourseManagement.LeadingDigitRange | app/dashboard/professor/course-management/page.tsx:256-258 | a number between d·10^k and (d+1)·10^k has leading digit d, which is what the parse keeps of an exponential text |
| CourseManagement.HugePercentReadsLeadingDigit | app/dashboard/professor/course-management/page.tsx:253-267 | 1.23·10^21 reads back as 1 and gets the destructive badge |
| CourseManagement.GradeBadge | app/dashboard/professor/course-management/page.tsx:253-267 | no badge iff the marker; success iff 80 <= p < 10^21, warning iff 60..79, destructive iff p < 60 or p >= 10^21 (the re-read text is exponential there) |
| CourseManagement.BadgeMonotone | app/dashboard/professor/course-management/page.tsx:253-267 | below 10^21, a higher percentage never gets a worse badge |
| CourseManagement.InitialMarks | app/dashboard/professor/course-management/page.tsx:62-77 | one key per grade item of the selected course, holding the stored score as text or "" when ungraded; empty without a course |
| CourseManagement.CourseManagementPage.constructor | app/dashboard/professor/course-management/page.tsx:29-34 | no course, no student, empty marks, closed dialog |
| CourseManagement.CourseManagementPage.SelectCourse | app/dashboard/professor/course-management/page.tsx:56-59 | the course is selected and the search cleared; marks and dialog stay |
| CourseManagement.CourseManagementPage.OpenAddMarks | app/dashboard/professor/course-management/page.tsx:62-77 | selects the student, fills the marks as `InitialMarks` does, opens the dialog |
| CourseManagement.CourseManagementPage.MarkChange | app/dashboard/professor/course-management/page.tsx:90-95 | only that item's field is overwritten with the raw text; other keys and values are unchanged |
| CourseManagement.CourseManagementPage.SaveMarks | app/dashboard/professor/course-management/page.tsx:80-87 | only closes the dialog; no grade data or marks change |
| Students.RiskLevelText | app/dashboard/professor/students/page.tsx:156-160 | High iff >= 50, Medium iff 25..49, Low iff < 25 |
| Students.RiskBadgeVariant | app/dashboard/professor/students/page.tsx:149-153 | destructive iff High, warning iff Medium, success iff Low |
| Students.RiskFilterFollowsLevel | app/dashboard/professor/students/page.tsx:121-125 | a band's filter keeps a student iff its level is that band; "all" keeps everyone; other values keep nobody |
| Students.FilteredStudents | app/dashboard/professor/students/page.tsx:112-131 | a student passes iff search, risk and course tests all hold; the survivors keep roster order (a subsequence of the roster) |
| Students.LexCompare | app/dashboard/professor/students/page.tsx:135-138 | `localeCompare` by character code: sign -1..1, zero iff equal |
| Students.LexAntisymmetric | app/dashboard/professor/students/page.tsx:135-138 | swapping the arguments negates the comparison |
| Students.LexTransitive | app/dashboard/professor/students/page.tsx:135-138 | the order is transitive |
| Students.Compare | app/dashboard/professor/students/page.tsx:132-146 | gpa and risk sort descending, an unknown key compares all equal |
| Students.CompareAntisymmetric | app/dashboard/professor/students/page.tsx:132-146 | the comparator is antisymmetric for every key |
| Students.CompareTransitive | app/dashboard/professor/students/page.tsx:132-146 | the comparator is transitive for every key |
| Students.Insert | app/dashboard/professor/students/page.tsx:132-146 | one insertion step adds exactly the new element |
| Students.Sort | app/dashboard/professor/students/page.tsx:132-146 | the sort is a permutation of its input |
| Students.InsertSorted | app/dashboard/professor/students/page.tsx:132-146 | inserting into a sorted list keeps it sorted |
| Students.SortSorted | app/dashboard/professor/students/page.tsx:132-146 | the sort's output is sorted under the comparator |
| Students.SortOrder | app/dashboard/professor/students/page.tsx:132-146 | a permutation with names and ids ascending, GPA and risk descending |
| Students.InsertFilter | app/dashboard/professor/students/page.tsx:132-146 | inserting into a sorted list places the new record after every record it ties with |
| Students.SortStable | app/dashboard/professor/students/page.tsx:132-146 | the sort is stable: for every record, the records that tie with it appear in the same order before and after sorting |
| Students.InsertAllEqual | app/dashboard/professor/students/page.tsx:143-144 | with an unknown key an insertion appends |
| Students.UnknownKeyKeepsOrder | app/dashboard/professor/students/page.tsx:143-144 | with an unknown key the sort keeps the filtered order |
| Students.ListedStudents | app/dashboard/professor/students/page.tsx:112-146 | the listed students are a sorted permutation of the filtered ones, and students that tie under the sort key appear in their filtered order |
| Students.AtRiskStudents | app/dashboard/professor/students/page.tsx:168 | exactly the students at level High |
| Students.AtRiskIsHighFilter | app/dashboard/professor/students/page.tsx:121-125 | the at-risk list ignores search and course; it equals the empty-search, "high", all-courses filter |
| Alerts.FilteredAlerts | app/dashboard/professor/alerts/page.tsx:88-92 | "all" keeps every alert, "unread" the unread, any other value that type; order kept |
| Alerts.MarkRead | app/dashboard/professor/alerts/page.tsx:95-101 | same length and order; only `read` changes, and it is set exactly on alerts with that id |
| Alerts.MarkReadIdempotent | app/dashboard/professor/alerts/page.tsx:95-101 | marking the same alert twice equals marking it once |
| Alerts.Dismissed | app/dashboard/professor/alerts/page.tsx:104-110 | removes exactly the alerts with that id; the rest keep their order; the removed and kept ones make up the old list |
| Alerts.AllRead | app/dashboard/professor/alerts/page.tsx:113-119 | every alert is read and no other field changes |
| Alerts.UnreadCount | app/dashboard/professor/alerts/page.tsx:209 | at most the list length; 0 iff every alert is read |
| Alerts.TabCounts | app/dashboard/professor/alerts/page.tsx:203-209 | the two badges equal the lengths of the "all" and "unread" tabs |
| Alerts.AllReadLeavesNoneUnread | app/dashboard/professor/alerts/page.tsx:113-119 | after "mark all as read" the unread count is 0 |
| Alerts.MarkLastUnread | app/dashboard/professor/alerts/page.tsx:95-101 | marking the only unread alert read leaves the count at 0 |
| Alerts.MarkAllDisabled | app/dashboard/professor/alerts/page.tsx:191 | the button is disabled iff the unread count is 0 |
| Alerts.AlertBadgeVariant | app/dashboard/professor/alerts/page.tsx:138-151 | destructive iff risk, warning iff attendance, outline iff system, default otherwise |
| Alerts.AlertTypeText | app/dashboard/professor/alerts/page.tsx:169-183 | the four known types get a label other than "Alert", any other gets "Alert" |
| Alerts.AlertTypeTextsDistinct | app/dashboard/professor/alerts/page.tsx:169-183 | the four known types get four different labels |
| Alerts.AlertsPage.constructor | app/dashboard/professor/alerts/page.tsx:84-85 | starts from the given alerts with the "all" tab |
| Alerts.AlertsPage.Visible | app/dashboard/professor/alerts/page.tsx:88-92 | the tab shows a subsequence of the list |
| Alerts.AlertsPage.SetFilter | app/dashboard/professor/alerts/page.tsx:85 | only the tab changes |
| Alerts.AlertsPage.MarkAsRead | app/dashboard/professor/alerts/page.tsx:95-101 | the list becomes `MarkRead` of the old list |
| Alerts.AlertsPage.DismissAlert | app/dashboard/professor/alerts/page.tsx:104-110 | the list becomes `Dismissed` of the old list |
| Alerts.AlertsPage.MarkAllAsRead | app/dashboard/professor/alerts/page.tsx:113-119 | the list becomes `AllRead` of the old list, with no unread alert left |
| Messages.FilteredConversations | app/dashboard/professor/messages/page.tsx:157-165 | listed iff the name contains the query and the filter is "all" or the user's role; order kept |
| Messages.EmptySearchListsAll | app/dashboard/professor/messages/page.tsx:157-165 | an empty search with "all" lists every conversation |
| Messages.ClearUnread | app/dashboard/professor/messages/page.tsx:204-210 | only `unread` changes, set to 0 exactly on that conversation |
| Messages.WithLastMessage | app/dashboard/professor/messages/page.tsx:226-240 | only `lastMessage` changes, replaced exactly on that conversation; its unread count stays |
| Messages.ClearUnreadIdempotent | app/dashboard/professor/messages/page.tsx:204-210 | opening twice clears no more than once |
| Messages.UpdatesKeepListing | app/dashboard/professor/messages/page.tsx:157-165 | neither update changes which conversations the search and filter list |
| Messages.MessagesPage.constructor | app/dashboard/professor/messages/page.tsx:149-154 | empty search, "all", first conversation selected, empty draft |
| Messages.MessagesPage.SelectConversation | app/dashboard/professor/messages/page.tsx:204-210 | unread is zeroed for that conversation only when it was positive; it becomes the selected one |
| Messages.MessagesPage.SendMessage | app/dashboard/professor/messages/page.tsx:213-243 | a blank draft changes nothing; otherwise one message (sender you, untrimmed draft) is appended, the selected conversation's last message becomes the draft, read, from you, and the draft is cleared |
| Assignments.StatusText | app/dashboard/professor/assignments/page.tsx:175-183 | Completed iff completed; Overdue iff not completed and past due; Upcoming iff not completed, not past due and upcoming; Active otherwise |
| Assignments.StatusBadgeVariant | app/dashboard/professor/assignments/page.tsx:164-172 | the badge is the colour of the label under the same precedence |
| Assignments.TextVariantDistinct | app/dashboard/professor/assignments/page.tsx:164-183 | the four labels get four different colours |
| Assignments.FilteredAssignments | app/dashboard/professor/assignments/page.tsx:100-111 | kept iff the title contains the query and the course and stored-status filters are "all" or equal; order kept |
| Assignments.OverdueStillActive | app/dashboard/professor/assignments/page.tsx:108 | an active assignment past due reads "Overdue" yet is listed under "active" and not under "overdue" |
| Assignments.OverdueOnDueDay | app/dashboard/professor/assignments/page.tsx:164-183 | during its due day a not-completed assignment is already Overdue, with the destructive badge |
| Sidebar.NavItems | components/sidebar-nav.tsx:26-140 | the professor table has 8 entries, the student one 5, the parent one 4 |
| Sidebar.RenderLinks | components/sidebar-nav.tsx:171 | a sub-entry is highlighted iff the path equals its href |
| Sidebar.Render | components/sidebar-nav.tsx:142-152 | exactly the role's entries, in order, with their titles and hrefs; each is active iff `IsActive` holds |
| Sidebar.ActiveHrefs | components/sidebar-nav.tsx:147-149 | an entry is active on exactly its submenu hrefs when it has one, else on its own href |
| Sidebar.HrefsDistinct | components/sidebar-nav.tsx:152 | top-level hrefs are distinct within each role |
| Sidebar.OneActiveIn | components/sidebar-nav.tsx:147-149 | entries with disjoint active sets are never active together |
| Sidebar.CoursesActiveHrefs | components/sidebar-nav.tsx:74-95 | "Courses" is active on exactly its five sub-pages |
| Sidebar.OtherHrefsOutsideCourses | components/sidebar-nav.tsx:26-140 | no other professor entry has a submenu or an href among those sub-pages |
| Sidebar.ProfessorActiveSetsDisjoint | components/sidebar-nav.tsx:26-140 | professor entries have pairwise disjoint active sets |
| Sidebar.FlatActiveSetsDisjoint | components/sidebar-nav.tsx:26-140 | student and parent entries have pairwise disjoint active sets |
| Sidebar.AtMostOneActive | components/sidebar-nav.tsx:147-149 | for any path at most one top-level entry is active |
| Sidebar.CoursesActiveOnClassroom | components/sidebar-nav.tsx:74-95 | on the classroom page "Courses" and its "Classroom" sub-entry are highlighted, and no other entry |
| Courses.FilteredCourses | app/dashboard/professor/courses/page.tsx:20-30 | kept iff code or name contains the query and the semester filter is "all" or equal; a subsequence |
| Courses.NoFilterShowsAll | app/dashboard/professor/courses/page.tsx:20-30 | an empty query with "all" shows every course |
| Courses.Reduce | app/dashboard/professor/courses/page.tsx:213 | the left fold equals the start value plus the field's sum |
| Courses.Statistics | app/dashboard/professor/courses/page.tsx:208-218 | course count, student total and credit total over the whole catalogue, whatever the filters |
| Courses.FilteredSumBounded | app/dashboard/professor/courses/page.tsx:20-30 | a filtered total of a non-negative field never exceeds the card's total |
| Courses.MockStatistics | lib/mock-data.ts:1-32 | the catalogue gives 3 courses, 135 students, 11 credit hours |
| Calendar.SameDayBounds | app/dashboard/professor/calendar/page.tsx:96 | same-day instants are less than a day apart |
| Calendar.EventsForDate | app/dashboard/professor/calendar/page.tsx:96 | no date gives nothing; otherwise exactly the events on that day, in order |
| Calendar.EventBadgeVariant | app/dashboard/professor/calendar/page.tsx:124-139 | secondary iff office-hours, outline iff meeting, destructive iff exam, success iff seminar, default otherwise |
| Calendar.IndexOf | app/dashboard/professor/calendar/page.tsx:195 | the first position of the character, or -1 iff absent |
| Calendar.ReplaceFirst | app/dashboard/professor/calendar/page.tsx:195 | only the first occurrence is replaced; the length is kept |
| Calendar.TypeLabel | app/dashboard/professor/calendar/page.tsx:195 | same length; first character upper-cased; only the first hyphen after it becomes a space; the details dialog (line 326) builds the same label |
| Calendar.LaterHyphensStay | app/dashboard/professor/calendar/page.tsx:195 | a second hyphen stays a hyphen |
| Calendar.IndexOfIs | app/dashboard/professor/calendar/page.tsx:195 | the first occurrence is the position before which the character does not occur |
| Calendar.HyphenatedLabel | app/dashboard/professor/calendar/page.tsx:195 | "first-second" reads as the capitalised first word, a space, then the second ("office-hours" gives "Office hours") |
| Calendar.CalendarPage.constructor | app/dashboard/professor/calendar/page.tsx:81-93 | today is selected, the dialog is closed and the form is blank |
| Calendar.CalendarPage.Shown | app/dashboard/professor/calendar/page.tsx:96 | the day's events are a subsequence of the events |
| Calendar.CalendarPage.AddEvent | app/dashboard/professor/calendar/page.tsx:99-115 | the dialog closes and the form resets to empty fields, today and "lecture"; the events stay |
| Attendance.Classify | app/dashboard/student/page.tsx:119-127 | present iff listed present; absent iff listed absent and not present; no-class otherwise |
| Attendance.DailyAttendance | app/dashboard/student/page.tsx:87-128 | one entry per day of the month, in day order, each classified as `Classify` says; the parent page (app/dashboard/parent/page.tsx, lines 101-142) applies the same rule |
| Attendance.CountStatus | app/dashboard/student/page.tsx:119-127 | a count of days never exceeds the month |
| Attendance.CountsAddUp | app/dashboard/student/page.tsx:125 | the three statuses are exclusive and exhaustive: their counts add up to the days |
| Attendance.AdjacentIncreasing | app/dashboard/student/page.tsx:93-117 | each day before the next makes the list sorted |
| Attendance.CountMatches | app/dashboard/student/page.tsx:119-127 | a status held exactly on a sorted in-range list of days is counted as that list's length |
| Attendance.MonthCounts | app/dashboard/student/page.tsx:87-128 | sorted, disjoint, in-month lists give as many present and absent days as listed, the rest no-class |
| Attendance.MockApril | app/dashboard/student/page.tsx:93-117 | April 2025 gives 21 present, 1 absent (the 22nd) and 8 no-class days |
| ProfessorDashboard.FilteredStudents | app/dashboard/professor/page.tsx:115-119 | kept iff name or course contains the query; a subsequence of the card |
| ProfessorDashboard.EmptyQueryKeepsAll | app/dashboard/professor/page.tsx:115-119 | an empty query keeps the whole card |
| ProfessorDashboard.NoThreeNoMatch | app/dashboard/professor/page.tsx:115-119 | a student with no '3' in name or course does not match "cs3" |
| ProfessorDashboard.OthersMissCs3 | app/dashboard/professor/page.tsx:53-86 | James, Sophia and Michael do not match "cs3" |
| ProfessorDashboard.SearchCs3 | app/dashboard/professor/page.tsx:53-119 | "cs3" keeps only Emma Wilson (CS301) |
| Analytics.CourseDataFor | app/dashboard/professor/analytics/page.tsx:45-47 | null iff "all"; otherwise the first row for that course, or undefined iff none has it |
| Analytics.ShownMetrics | app/dashboard/professor/analytics/page.tsx:174-204 | the row's five figures when there is one, otherwise 78/95/62/16/37 |
| Analytics.UnknownCourseShowsFallback | app/dashboard/professor/analytics/page.tsx:45-47 | an unknown course shows the same card as "all" |
| Analytics.AttendanceBreakdown | app/dashboard/professor/analytics/page.tsx:238 | all rows for "all"; otherwise at most one row, empty iff none matches, else the first match |
| Analytics.BreakdownFromTable | app/dashboard/professor/analytics/page.tsx:238 | the breakdown only shows rows of the table |
| Analytics.MockSelections | app/dashboard/professor/analytics/page.tsx:14-18 | CS405 shows 82/98/65/3/15; a course without a row shows the fallback |
| Util.Filter | app/dashboard/professor/classroom/page.tsx:182-194 | `Array.prototype.filter`: kept elements are exactly those satisfying the predicate, never more than the input |
| Util.FilterIsSubsequence | app/dashboard/professor/alerts/page.tsx:88-92 | a filter keeps the relative order |
| Util.FilterPartition | app/dashboard/professor/alerts/page.tsx:104-105 | a filter and its complement together hold each element as often as the list |
| Util.Find | app/dashboard/professor/analytics/page.tsx:47 | `Array.prototype.find`: undefined iff no element matches, else the first match |
| Text.Lower | app/dashboard/professor/classroom/page.tsx:188-191 | `toLowerCase` on ASCII letters, length kept |
| Text.UnicodeSpacesAreBlank | app/dashboard/professor/messages/page.tsx:214 | a draft of no-break, ideographic or byte-order-mark spaces is blank, as `trim` empties it; one letter makes it non-blank |
| Text.EmptyQueryMatches | app/dashboard/professor/classroom/page.tsx:188-191 | the empty query matches every field |
| Text.PrefixMatches | app/dashboard/professor/page.tsx:117-118 | a field starting with the query, ignoring case, matches it |
| Text.NoMatchWithoutChar | app/dashboard/professor/page.tsx:117-118 | a query with a non-letter the field lacks does not match |

## Left out

- IEEE-754 arithmetic: division, multiplication and `Math.round` are exact over `real`, with rounding as `floor(x + 1/2)`. The model has no float rounding error and no NaN or Infinity.
- Grades.GradeItem: `maxScore` is a positive real. The pages divide by it unguarded, so a zero maximum (a JavaScript Infinity or NaN) is not modelled.
- Text.Lower: `toLowerCase` maps ASCII letters only; Unicode case mapping is not modelled. The same holds for Text.LowerChar and for Text.UpperChar, which `Calendar.TypeLabel` uses for `toUpperCase`.
- Text.Matches: it searches over the ASCII-lowered text, and `includes` over UTF-16 code units is modelled over characters.
- Students.LexCompare: `localeCompare` is character-code order. Locale collation is not modelled.
- Students.Compare: only the comparator's sign is modelled. The GPA and risk comparators return `b - a`, and the sort uses only the sign.
- Students.Sort: `Array.prototype.sort` is modelled as a stable insertion sort. The engine's algorithm is not modelled, but with a consistent comparator a stable sort fixes the result.
- Classroom.ClassroomPage.GradeChange: `Number.parseFloat` is a parameter. Its grammar is not modelled, and `None` stands for NaN.
- CourseManagement.MarkText: number-to-text conversion is a parameter. JavaScript's number formatting is not modelled.
- CourseManagement.BadgeMonotone: it holds only below 10^21. From there on the badge re-reads the exponential text (`parseInt("1e+21")` is 1) and turns destructive.
- CourseManagement.ParsedPercent: the text of a percentage of 10^21 or more is taken to start with the integer's exact leading digit. A double's shortest decimal text can differ from it just below a power of ten, so that case is not modelled.
- Classroom.ClassroomPage.OpenEditGrades: requires the selected course to have a grade table. The page indexes that table without a guard and would throw otherwise.
- Messages.MessagesPage.constructor: requires at least one conversation, because the page starts with the first one selected.
- Dates: instants and day numbers are plain integers passed in as parameters. The following are not modelled: date-fns (`eachDayOfInterval`, `startOfMonth`, `endOfMonth`, `parseISO`, `isAfter`, `isSameDay`), `new Date()`, `Date.now()`, time zones, and `Intl` date formatting.
- The simulated reply of the messages page (`setTimeout`): it is a timer, so it is not modelled.
- Toasts, `alert`, `console.log`, `router.push`, JSX rendering, dialogs, icons and styling.
- The assignment page's add, edit and delete handlers: they only show a toast and toggle a dialog.
- Alert icons: `getAlertIcon` returns icon components only.
- The API routes and `lib/api.ts`: Prisma and `fetch` calls are not modelled.
- The settings, login, register, course-creation and layout pages: they are not part of this model.
- The analytics time-range select, risk factors and intervention charts: these are static fixtures with no rule over them.
- The fixture arrays are constants. Every page function here is pure, so a selection cannot change them.
- The calendar's add-event dialog: it does not add the event, because `mockEvents` is a module constant.
