/** The calendar page: the month grid padded to whole weeks, the sessions
    of each day, the session form and the quick statistics. */
module Calendar {
  import opened Wrappers
  import opened Seqs
  import opened Dates
  import opened Entities
  import opened Schedule

  // ---------------------------------------------------------------------
  // The month grid

  /** `eachDayOfInterval({ start, end })`: every day from `start` to `end`. */
  function DaysBetween(start: int, end: int): (r: seq<int>)
    requires start <= end + 1
    ensures |r| == end - start + 1
    ensures forall i :: 0 <= i < |r| ==> r[i] == start + i
  {
    seq(end - start + 1, i requires 0 <= i <= end - start => start + i)
  }

  /** The grid of the month whose first day is `monthStart` and which has
      `monthLength` days: the Sunday on or before the first day is moved
      back to (`setDate(getDate() - getDay())`), the Saturday on or after the
      last day forward to (`setDate(getDate() + (6 - getDay()))`). */
  method CalendarDays(monthStart: int, monthLength: nat) returns (days: seq<int>)
    requires monthLength > 0
    ensures |days| > 0 && days[0] == WeekStart(monthStart)
    ensures forall i :: 0 <= i < |days| ==> days[i] == days[0] + i
    ensures Weekday(days[0]) == 0 && Weekday(days[|days| - 1]) == 6
    ensures forall d :: monthStart <= d < monthStart + monthLength ==> d in days
    ensures days[0] <= monthStart && monthStart + monthLength - 1 <= days[|days| - 1]
    ensures |days| % 7 == 0
    ensures monthLength <= |days| <= monthLength + 12
  {
    var startOfWeekDate := monthStart;
    startOfWeekDate := startOfWeekDate - Weekday(startOfWeekDate);
    var endOfWeekDate := monthStart + monthLength - 1;
    endOfWeekDate := endOfWeekDate + (6 - Weekday(endOfWeekDate));
    GridBounds(monthStart, monthStart + monthLength - 1);
    days := DaysBetween(startOfWeekDate, endOfWeekDate);
    forall d | monthStart <= d < monthStart + monthLength
      ensures d in days
    {
      assert days[d - startOfWeekDate] == d;
    }
  }

  /** The padded bounds end on a Saturday and span whole weeks, at most
      six days added on each side. */
  lemma GridBounds(first: int, last: int)
    requires first <= last
    ensures var start := first - Weekday(first);
      var end := last + (6 - Weekday(last));
      && start == WeekStart(first)
      && Weekday(end) == 6
      && (end - start + 1) % 7 == 0
      && last - first + 1 <= end - start + 1 <= last - first + 13
  {
    var start := first - Weekday(first);
    var end := last + (6 - Weekday(last));
    var a := (first + 4) / 7;
    var b := (last + 4) / 7;
    assert first + 4 == 7 * a + Weekday(first);
    assert last + 4 == 7 * b + Weekday(last);
    assert end - start + 1 == 7 * (b - a + 1);
    assert end + 4 == 7 * b + 6;
  }

  /** `getSessionsForDate` */
  function SessionsForDate(sessions: seq<StudySession>, d: int): seq<StudySession>
  {
    Filter(sessions, SessionOnDay(d))
  }

  /** A day's sessions are exactly the sessions dated on that day, so a
      session shows in one grid cell at most. */
  lemma SessionsForDateCorrect(sessions: seq<StudySession>, d: int)
    ensures forall s :: multiset(SessionsForDate(sessions, d))[s] == if OnDay(s, d) then multiset(sessions)[s] else 0
    ensures forall s :: s in SessionsForDate(sessions, d) <==> s in sessions && OnDay(s, d)
    ensures forall s, d2 :: s in SessionsForDate(sessions, d) && s in SessionsForDate(sessions, d2) ==> d2 == d
  {
    FilterCounts(sessions, SessionOnDay(d));
    FilterMembership(sessions, SessionOnDay(d));
    forall s, d2 | s in SessionsForDate(sessions, d) && s in SessionsForDate(sessions, d2)
      ensures d2 == d
    {
      FilterMembership(sessions, SessionOnDay(d2));
    }
  }

  /** What a grid cell shows: the first two sessions, and how many more. */
  datatype Cell = Cell(shown: seq<StudySession>, more: nat)

  /** `sessionsForDay.slice(0, 2)` and the `+{length - 2} more` line. */
  function CellOf(daySessions: seq<StudySession>): (c: Cell)
    ensures |c.shown| <= 2 && |c.shown| <= |daySessions| && c.shown == daySessions[..|c.shown|]
    ensures |daySessions| <= 2 ==> c.shown == daySessions && c.more == 0
    ensures |daySessions| > 2 ==> |c.shown| == 2 && c.more == |daySessions| - 2
    ensures |c.shown| + c.more == |daySessions|
  {
    Cell(Take(daySessions, 2), if |daySessions| > 2 then |daySessions| - 2 else 0)
  }

  // ---------------------------------------------------------------------
  // Quick statistics and the upcoming list

  /** `sessionDate >= startOfWeek(now) && sessionDate <= endOfWeek(now)`,
      the week's end being the last millisecond of its Saturday. */
  predicate InWeekOf(s: StudySession, now: int)
  {
    var w := WeekStart(Day(now));
    Truthy(s.sessionDate) && StartOfDay(w) <= s.sessionDate.value.ms <= StartOfDay(w + 7) - 1
  }

  function ThisWeek(now: int): StudySession -> bool
  {
    (s: StudySession) => InWeekOf(s, now)
  }

  /** `session.isDeadline` */
  function IsDeadline(s: StudySession): bool
  {
    IsTrue(s.isDeadline)
  }

  /** A session counts for this week exactly when its day lies in the
      Sunday-to-Saturday week holding now. */
  lemma InWeekOfDays(s: StudySession, now: int)
    ensures InWeekOf(s, now) <==>
      Truthy(s.sessionDate) && WeekStart(Day(now)) <= Day(s.sessionDate.value.ms) <= WeekStart(Day(now)) + 6
  {
    if Truthy(s.sessionDate) {
      DayRange(s.sessionDate.value.ms, WeekStart(Day(now)), WeekStart(Day(now)) + 6);
    }
  }

  datatype QuickStats = QuickStats(total: nat, thisWeek: nat, deadlines: nat)

  function Stats(sessions: seq<StudySession>, now: int): (r: QuickStats)
    ensures r.total == |sessions|
    ensures r.thisWeek == Count(sessions, ThisWeek(now)) && r.thisWeek <= r.total
    ensures r.deadlines == Count(sessions, IsDeadline) && r.deadlines <= r.total
  {
    QuickStats(|sessions|, Count(sessions, ThisWeek(now)), Count(sessions, IsDeadline))
  }

  /** The sidebar's upcoming list: dated at or after now, ascending, at most five. */
  function UpcomingList(sessions: seq<StudySession>, now: int): (r: seq<StudySession>)
    ensures |r| <= 5
  {
    Upcoming(sessions, now, 5)
  }

  lemma UpcomingListCorrect(sessions: seq<StudySession>, now: int)
    ensures var r := UpcomingList(sessions, now);
      && (forall i :: 0 <= i < |r| ==> IsUpcoming(r[i], now) && SessionTime(r[i]) >= now)
      && (forall i, j :: 0 <= i < j < |r| ==> SessionTime(r[i]) <= SessionTime(r[j]))
      && |r| == (if Count(sessions, UpcomingPredicate(now)) < 5 then Count(sessions, UpcomingPredicate(now)) else 5)
  {
    UpcomingCorrect(sessions, now, 5);
  }

  // ---------------------------------------------------------------------
  // The session form

  datatype SessionForm = SessionForm(
    sessionName: string,
    sessionDate: string,
    startTime: string,
    endTime: string,
    subjectName: string,
    isDeadline: bool,
    notes: string)

  /** The record `handleCreateSession` creates; `parsedDate` is the instant
      of the form's date string. */
  function NewSession(form: SessionForm, freshId: string, parsedDate: int): (s: StudySession)
    ensures s.id == freshId
    ensures s.sessionName == Some(form.sessionName) && s.subjectName == Some(form.subjectName)
    ensures s.sessionDate == Some(Text(form.sessionDate, parsedDate))
    ensures s.startTime == Some(form.startTime) && s.endTime == Some(form.endTime)
    ensures s.isDeadline == Some(form.isDeadline) && s.notes == Some(form.notes)
  {
    StudySession(freshId, None, None, Some(form.sessionName), Some(Text(form.sessionDate, parsedDate)),
                 Some(form.startTime), Some(form.endTime), Some(form.subjectName),
                 Some(form.isDeadline), Some(form.notes))
  }

  /** The guard: nothing without a name, a date and a subject. */
  function SessionCreate(form: SessionForm, freshId: string, parsedDate: int): (w: Option<Write<StudySession>>)
    ensures w.None? <==> form.sessionName == "" || form.sessionDate == "" || form.subjectName == ""
    ensures w.Some? ==> w.value == Create(NewSession(form, freshId, parsedDate))
  {
    if form.sessionName == "" || form.sessionDate == "" || form.subjectName == "" then None
    else Some(Create(NewSession(form, freshId, parsedDate)))
  }

  /** A created session is dated, so it shows in the cell of its day. */
  lemma CreatedSessionShowsOnItsDay(form: SessionForm, freshId: string, parsedDate: int, sessions: seq<StudySession>)
    requires SessionCreate(form, freshId, parsedDate).Some?
    ensures NewSession(form, freshId, parsedDate) in SessionsForDate(sessions + [NewSession(form, freshId, parsedDate)], Day(parsedDate))
  {
    var s := NewSession(form, freshId, parsedDate);
    FilterAppend(sessions, [s], SessionOnDay(Day(parsedDate)));
    assert Filter([s], SessionOnDay(Day(parsedDate))) == [s];
  }

  /** The calendar's session list and form state, one field per form input. */
  class CalendarPage {
    var studySessions: seq<StudySession>
    var sessionName: string
    var sessionDate: string
    var startTime: string
    var endTime: string
    var subjectName: string
    var isDeadline: bool
    var notes: string
    var selectedDate: Option<int>
    var isDialogOpen: bool

    ghost predicate FormEmpty()
      reads this
    {
      && sessionName == "" && sessionDate == "" && startTime == "" && endTime == ""
      && subjectName == "" && !isDeadline && notes == ""
    }

    function Form(): SessionForm
      reads this
    {
      SessionForm(sessionName, sessionDate, startTime, endTime, subjectName, isDeadline, notes)
    }

    constructor (sessions: seq<StudySession>)
      ensures studySessions == sessions && FormEmpty() && selectedDate.None? && !isDialogOpen
    {
      studySessions := sessions;
      sessionName := "";
      sessionDate := "";
      startTime := "";
      endTime := "";
      subjectName := "";
      isDeadline := false;
      notes := "";
      selectedDate := None;
      isDialogOpen := false;
    }

    /** `handleCreateSession`: the guarded create; when the backend accepts
        it the seven fields are reset one by one and the dialog closed. */
    method CreateSession(freshId: string, parsedDate: int, created: bool) returns (w: Option<Write<StudySession>>)
      modifies this`sessionName, this`sessionDate, this`startTime, this`endTime,
               this`subjectName, this`isDeadline, this`notes, this`isDialogOpen
      ensures w == SessionCreate(old(Form()), freshId, parsedDate)
      ensures w.Some? && created ==> FormEmpty() && !isDialogOpen
      ensures !(w.Some? && created) ==> Form() == old(Form()) && isDialogOpen == old(isDialogOpen)
    {
      if sessionName == "" || sessionDate == "" || subjectName == "" {
        return None;
      }
      w := Some(Create(NewSession(Form(), freshId, parsedDate)));
      if created {
        sessionName := "";
        sessionDate := "";
        startTime := "";
        endTime := "";
        subjectName := "";
        isDeadline := false;
        notes := "";
        isDialogOpen := false;
      }
    }

    /** `handleDateClick`; `dayText` is what `format(date, 'yyyy-MM-dd')` gives. */
    method DateClick(day: int, dayText: string)
      modifies this`selectedDate, this`sessionDate, this`isDialogOpen
      ensures selectedDate == Some(day) && sessionDate == dayText && isDialogOpen
    {
      selectedDate := Some(day);
      sessionDate := dayText;
      isDialogOpen := true;
    }
  }
}
