/** The three record kinds of the backend collections `subjects`,
    `studysessions` and `logbookentries`, with every `?` field optional. */
module Entities {
  import opened Wrappers
  import opened Dates
  import opened Seqs
  import opened Percent

  /** One entry of a subject's content-module list. */
  datatype ContentModule = ContentModule(
    id: string,
    title: string,
    description: string,
    completed: bool,
    order: int)

  /** The `contentModules` text field: the JSON that `JSON.stringify` wrote
      for a module list, or text that `JSON.parse` rejects. */
  datatype ModuleList = Encoded(modules: seq<ContentModule>) | Unparsable(text: string)

  /** Created/updated dates are timestamps. */
  datatype Subject = Subject(
    id: string,
    createdDate: Option<int>,
    updatedDate: Option<int>,
    completedContentItems: Option<int>,
    subjectName: Option<string>,
    totalContentItems: Option<int>,
    completionStatus: Option<bool>,
    progressPercentage: Option<int>,
    contentModules: Option<ModuleList>,
    subjectCode: Option<string>,
    description: Option<string>,
    subjectImage: Option<string>,
    studyMaterialsLink: Option<string>,
    additionalResourcesLink: Option<string>,
    isActive: Option<bool>,
    difficultyLevel: Option<int>)

  datatype StudySession = StudySession(
    id: string,
    createdDate: Option<int>,
    updatedDate: Option<int>,
    sessionName: Option<string>,
    sessionDate: Option<DateValue>,
    startTime: Option<string>,
    endTime: Option<string>,
    subjectName: Option<string>,
    isDeadline: Option<bool>,
    notes: Option<string>)

  datatype LogbookEntry = LogbookEntry(
    id: string,
    createdDate: Option<int>,
    updatedDate: Option<int>,
    mistakeDescription: Option<string>,
    dateRecorded: Option<DateValue>,
    relatedSubject: Option<string>,
    severityLevel: Option<int>,
    correctionAction: Option<string>,
    isResolved: Option<bool>)

  /** A call the page issues to the backend collaborator. */
  datatype Write<T> = Create(record: T) | Update(record: T) | Delete(id: string)

  /** `entry.isResolved` as a condition. */
  predicate Resolved(e: LogbookEntry)
  {
    IsTrue(e.isResolved)
  }

  predicate Pending(e: LogbookEntry)
  {
    !Resolved(e)
  }

  /** `subject.difficultyLevel || 1`: missing and 0 both read as 1. */
  function Difficulty(s: Subject): (d: int)
    ensures s.difficultyLevel.None? ==> d == 1
    ensures d != 0
    ensures s.difficultyLevel.Some? && s.difficultyLevel.value != 0 ==> d == s.difficultyLevel.value
  {
    if s.difficultyLevel.None? || s.difficultyLevel.value == 0 then 1 else s.difficultyLevel.value
  }

  /** `total > 0 ? Math.round(resolved / total * 100) : 0` over a list of
      logbook entries, as the logbook, insights and dashboard pages show it. */
  function ResolutionRate(entries: seq<LogbookEntry>): (r: nat)
    ensures |entries| == 0 ==> r == 0
    ensures r <= 100
    ensures |entries| > 0 ==>
      2 * |entries| * r <= 200 * Count(entries, Resolved) + |entries| < 2 * |entries| * r + 2 * |entries|
  {
    Rate(Count(entries, Resolved), |entries|)
  }

  /** Every entry is resolved or pending, never both. */
  lemma ResolvedPendingSplit(entries: seq<LogbookEntry>)
    ensures Count(entries, Resolved) + Count(entries, Pending) == |entries|
  {
    CountSplit(entries, Resolved, Pending);
  }

  /** A logbook entry's recorded instant, the epoch when it has none. */
  function EntryTime(e: LogbookEntry): int
  {
    TimeOrEpoch(e.dateRecorded)
  }

  /** The key that makes an ascending sort newest-first:
      `(a, b) => dateB - dateA` is `(a, b) => key(a) - key(b)` for this key. */
  function NewestFirstKey(e: LogbookEntry): int
  {
    -EntryTime(e)
  }

  /** The newest-first stable sort shared by the logbook and the dashboard. */
  function NewestFirst(entries: seq<LogbookEntry>): seq<LogbookEntry>
  {
    SortBy(entries, NewestFirstKey)
  }

  lemma NewestFirstCorrect(entries: seq<LogbookEntry>)
    ensures multiset(NewestFirst(entries)) == multiset(entries)
    ensures |NewestFirst(entries)| == |entries|
    ensures var r := NewestFirst(entries);
      forall i, j :: 0 <= i < j < |r| ==> EntryTime(r[i]) >= EntryTime(r[j])
  {
    SortByCorrect(entries, NewestFirstKey);
    var r := NewestFirst(entries);
    forall i, j | 0 <= i < j < |r|
      ensures EntryTime(r[i]) >= EntryTime(r[j])
    {
      assert NewestFirstKey(r[i]) <= NewestFirstKey(r[j]);
    }
  }

  /** Entries recorded at instant t. */
  function RecordedAt(t: int): LogbookEntry -> bool
  {
    e => EntryTime(e) == t
  }

  /** Entries recorded at the same instant keep their original order. */
  lemma NewestFirstStable(entries: seq<LogbookEntry>, t: int)
    ensures Filter(NewestFirst(entries), RecordedAt(t)) == Filter(entries, RecordedAt(t))
  {
    SortByStable(entries, NewestFirstKey, -t, RecordedAt(t));
  }

  /** A session's instant, the epoch when it has none. */
  function SessionTime(s: StudySession): int
  {
    TimeOrEpoch(s.sessionDate)
  }

  /** The day a session falls on, if it has a date. */
  predicate OnDay(s: StudySession, d: int)
  {
    Truthy(s.sessionDate) && Day(s.sessionDate.value.ms) == d
  }

  /** The day a logbook entry was recorded on, if it has a date. */
  predicate RecordedOnDay(e: LogbookEntry, d: int)
  {
    Truthy(e.dateRecorded) && Day(e.dateRecorded.value.ms) == d
  }

  /** `isSameDay(sessionDate, day)` for a dated session. */
  function SessionOnDay(d: int): StudySession -> bool
  {
    (s: StudySession) => OnDay(s, d)
  }

  function EntryOnDay(d: int): LogbookEntry -> bool
  {
    (e: LogbookEntry) => RecordedOnDay(e, d)
  }
}

/** "Upcoming sessions", shared by the dashboard (capped at 3) and the
    calendar (capped at 5): dated sessions at or after now, earliest first. */
module Schedule {
  import opened Wrappers
  import opened Dates
  import opened Seqs
  import opened Entities

  /** `sessionDate && parse(sessionDate) >= now` */
  predicate IsUpcoming(s: StudySession, now: int)
  {
    Truthy(s.sessionDate) && s.sessionDate.value.ms >= now
  }

  function UpcomingPredicate(now: int): StudySession -> bool
  {
    s => IsUpcoming(s, now)
  }

  /** `sessions.filter(upcoming).sort(ascending).slice(0, cap)` */
  function Upcoming(sessions: seq<StudySession>, now: int, cap: nat): seq<StudySession>
  {
    Take(SortBy(Filter(sessions, UpcomingPredicate(now)), SessionTime), cap)
  }

  /** The upcoming list holds only sessions dated at or after now, in
      ascending order, as many as the cap allows of those. */
  lemma UpcomingCorrect(sessions: seq<StudySession>, now: int, cap: nat)
    ensures var r := Upcoming(sessions, now, cap);
      && (forall i :: 0 <= i < |r| ==> IsUpcoming(r[i], now) && SessionTime(r[i]) >= now)
      && (forall i, j :: 0 <= i < j < |r| ==> SessionTime(r[i]) <= SessionTime(r[j]))
      && |r| == (if cap < Count(sessions, UpcomingPredicate(now)) then cap else Count(sessions, UpcomingPredicate(now)))
  {
    var q := Filter(sessions, UpcomingPredicate(now));
    var srt := SortBy(q, SessionTime);
    SortByCorrect(q, SessionTime);
    var r := Upcoming(sessions, now, cap);
    assert r == srt[..|r|];
    forall i | 0 <= i < |r|
      ensures IsUpcoming(r[i], now)
    {
      assert r[i] == srt[i];
      assert srt[i] in multiset(q);
      var k :| 0 <= k < |q| && q[k] == srt[i];
    }
  }

  /** The upcoming list consists of the earliest upcoming sessions: no
      qualifying session left out is earlier than one that was kept. */
  lemma UpcomingEarliest(sessions: seq<StudySession>, now: int, cap: nat)
    ensures var r := Upcoming(sessions, now, cap);
      var q := Filter(sessions, UpcomingPredicate(now));
      && multiset(r) <= multiset(q)
      && (forall x, y :: x in multiset(q) - multiset(r) && y in r ==> SessionTime(y) <= SessionTime(x))
  {
    SortedPrefixIsSmallest(Filter(sessions, UpcomingPredicate(now)), SessionTime, cap);
  }
}
