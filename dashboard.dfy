/** The dashboard: upcoming sessions, recent mistakes, the summary metrics
    and the session status badges. */
module Dashboard {
  import opened Wrappers
  import opened Seqs
  import opened Dates
  import opened Entities
  import opened Schedule

  /** `upcomingSessions`, capped at three. */
  function UpcomingSessions(sessions: seq<StudySession>, now: int): (r: seq<StudySession>)
    ensures |r| <= 3
  {
    Upcoming(sessions, now, 3)
  }

  /** The three upcoming sessions are dated at or after now, ascending, as
      many as qualify up to three, and the earliest of those that qualify. */
  lemma UpcomingSessionsCorrect(sessions: seq<StudySession>, now: int)
    ensures var r := UpcomingSessions(sessions, now);
      var q := Filter(sessions, UpcomingPredicate(now));
      && (forall i :: 0 <= i < |r| ==> IsUpcoming(r[i], now))
      && (forall i, j :: 0 <= i < j < |r| ==> SessionTime(r[i]) <= SessionTime(r[j]))
      && |r| == (if |q| < 3 then |q| else 3)
      && multiset(r) <= multiset(q)
      && (forall x, y :: x in multiset(q) - multiset(r) && y in r ==> SessionTime(y) <= SessionTime(x))
  {
    UpcomingCorrect(sessions, now, 3);
    UpcomingEarliest(sessions, now, 3);
  }

  /** The three newest entries of a logbook order. */
  function RecentOf(entries: seq<LogbookEntry>): seq<LogbookEntry>
  {
    Take(NewestFirst(entries), 3)
  }

  /** At most three entries, newest first, a missing date counting as the
      epoch, and no entry left out is newer than one shown. */
  lemma RecentOfCorrect(entries: seq<LogbookEntry>)
    ensures var r := RecentOf(entries);
      && |r| == (if |entries| < 3 then |entries| else 3)
      && (forall i, j :: 0 <= i < j < |r| ==> EntryTime(r[i]) >= EntryTime(r[j]))
      && multiset(r) <= multiset(entries)
      && (forall x, y :: x in multiset(entries) - multiset(r) && y in r ==> EntryTime(x) <= EntryTime(y))
  {
    RecentOrdered(entries);
    RecentNewest(entries);
  }

  lemma RecentOrdered(entries: seq<LogbookEntry>)
    ensures var r := RecentOf(entries);
      forall i, j :: 0 <= i < j < |r| ==> EntryTime(r[i]) >= EntryTime(r[j])
  {
    var s := NewestFirst(entries);
    NewestFirstCorrect(entries);
    var r := RecentOf(entries);
    forall i, j | 0 <= i < j < |r|
      ensures EntryTime(r[i]) >= EntryTime(r[j])
    {
      assert r[i] == s[i] && r[j] == s[j];
    }
  }

  lemma RecentNewest(entries: seq<LogbookEntry>)
    ensures var r := RecentOf(entries);
      && |r| == (if |entries| < 3 then |entries| else 3)
      && multiset(r) <= multiset(entries)
      && (forall x, y :: x in multiset(entries) - multiset(r) && y in r ==> EntryTime(x) <= EntryTime(y))
  {
    var r := RecentOf(entries);
    SortedPrefixIsSmallest(entries, NewestFirstKey, 3);
    forall x, y | x in multiset(entries) - multiset(r) && y in r
      ensures EntryTime(x) <= EntryTime(y)
    {
      assert NewestFirstKey(y) <= NewestFirstKey(x);
    }
  }

  /** Sorting the logbook again on the next render leaves its order as it is. */
  lemma NewestFirstIdempotent(entries: seq<LogbookEntry>)
    ensures NewestFirst(NewestFirst(entries)) == NewestFirst(entries)
  {
    SortByCorrect(entries, NewestFirstKey);
    SortBySorted(NewestFirst(entries), NewestFirstKey);
  }

  function IsActiveSubject(s: Subject): bool
  {
    IsTrue(s.isActive)
  }

  datatype Metrics = Metrics(
    activeSubjects: nat,
    totalMistakes: nat,
    resolvedMistakes: nat,
    pendingMistakes: nat,
    resolutionRate: nat)

  /** The summary cards and the sidebar counts: the pending figure is
      `totalMistakes - resolvedMistakes` and the sidebar's `!isResolved` count. */
  function DashboardMetrics(subjects: seq<Subject>, entries: seq<LogbookEntry>): (m: Metrics)
    ensures m.activeSubjects == Count(subjects, IsActiveSubject)
    ensures m.totalMistakes == |entries| && m.resolvedMistakes == Count(entries, Resolved)
    ensures m.resolvedMistakes <= m.totalMistakes
    ensures m.pendingMistakes == m.totalMistakes - m.resolvedMistakes
    ensures m.pendingMistakes == Count(entries, Pending)
    ensures m.totalMistakes == 0 ==> m.resolutionRate == 0
    ensures m.resolutionRate <= 100
    ensures m.totalMistakes > 0 ==>
      2 * m.totalMistakes * m.resolutionRate <= 200 * m.resolvedMistakes + m.totalMistakes
                                              < 2 * m.totalMistakes * m.resolutionRate + 2 * m.totalMistakes
  {
    ResolvedPendingSplit(entries);
    Metrics(
      Count(subjects, IsActiveSubject),
      |entries|,
      Count(entries, Resolved),
      |entries| - Count(entries, Resolved),
      ResolutionRate(entries))
  }

  datatype SessionStatus = Scheduled | Today | Tomorrow | Later

  /** `getSessionStatus`, checked in order: no date, today, tomorrow,
      anything else (the 'upcoming' badge). */
  function StatusOf(s: StudySession, today: int): (r: SessionStatus)
    ensures r == Scheduled <==> !Truthy(s.sessionDate)
    ensures r == Today <==> OnDay(s, today)
    ensures r == Tomorrow <==> OnDay(s, today + 1)
    ensures r == Later <==> Truthy(s.sessionDate) && !OnDay(s, today) && !OnDay(s, today + 1)
  {
    if !Truthy(s.sessionDate) then Scheduled
    else if Day(s.sessionDate.value.ms) == today then Today
    else if Day(s.sessionDate.value.ms) == today + 1 then Tomorrow
    else Later
  }

  /** "Today's Sessions": today's sessions among the (at most three)
      upcoming ones, not among all sessions. */
  function TodaysSessions(sessions: seq<StudySession>, now: int): (n: nat)
    ensures n == Count(UpcomingSessions(sessions, now), SessionOnDay(Day(now)))
    ensures n <= |UpcomingSessions(sessions, now)| <= 3
  {
    Count(UpcomingSessions(sessions, now), SessionOnDay(Day(now)))
  }

  /** The dashboard's fetched lists. `recentMistakes` sorts the logbook
      array itself, so every render leaves the page's logbook newest first. */
  class DashboardPage {
    var studySessions: seq<StudySession>
    var logbookEntries: seq<LogbookEntry>
    var subjects: seq<Subject>

    constructor (sessions: seq<StudySession>, entries: seq<LogbookEntry>, subjects: seq<Subject>)
      ensures studySessions == sessions && logbookEntries == entries && this.subjects == subjects
    {
      studySessions := sessions;
      logbookEntries := entries;
      this.subjects := subjects;
    }

    /** `recentMistakes`: the in-place sort, then the first three. */
    method RecentMistakes() returns (r: seq<LogbookEntry>)
      modifies this`logbookEntries
      ensures logbookEntries == NewestFirst(old(logbookEntries))
      ensures r == RecentOf(old(logbookEntries))
    {
      logbookEntries := NewestFirst(logbookEntries);
      r := Take(logbookEntries, 3);
    }
  }
}
