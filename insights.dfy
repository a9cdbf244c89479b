/** The insights page: everything is derived from the records dated inside
    the chosen time window. */
module Insights {
  import opened Wrappers
  import opened Seqs
  import opened Percent
  import opened Dates
  import opened Entities

  // ---------------------------------------------------------------------
  // The time window

  /** The window's first instant for `timeRange`: one week back, or the
      instants one and three calendar months back (`subMonths`), the month
      being the default. */
  function WindowStart(timeRange: string, now: int, monthAgo: int, quarterAgo: int): (start: int)
    ensures timeRange == "week" ==> start == now - 7 * MsPerDay
    ensures timeRange == "quarter" ==> start == quarterAgo
    ensures timeRange != "week" && timeRange != "quarter" ==> start == monthAgo
  {
    if timeRange == "week" then now - 7 * MsPerDay
    else if timeRange == "quarter" then quarterAgo
    else monthAgo
  }

  predicate SessionInWindow(s: StudySession, start: int)
  {
    Truthy(s.sessionDate) && s.sessionDate.value.ms >= start
  }

  predicate EntryInWindow(e: LogbookEntry, start: int)
  {
    Truthy(e.dateRecorded) && e.dateRecorded.value.ms >= start
  }

  function SessionWindow(start: int): StudySession -> bool
  {
    (s: StudySession) => SessionInWindow(s, start)
  }

  function EntryWindow(start: int): LogbookEntry -> bool
  {
    (e: LogbookEntry) => EntryInWindow(e, start)
  }

  /** `getFilteredData` */
  function FilteredSessions(sessions: seq<StudySession>, start: int): seq<StudySession>
  {
    Filter(sessions, SessionWindow(start))
  }

  function FilteredEntries(entries: seq<LogbookEntry>, start: int): seq<LogbookEntry>
  {
    Filter(entries, EntryWindow(start))
  }

  /** The window keeps exactly the dated records at or after its start, in
      their order and multiplicity; records in the future are kept too. */
  lemma FilteredDataCorrect(sessions: seq<StudySession>, entries: seq<LogbookEntry>, start: int)
    ensures forall s :: multiset(FilteredSessions(sessions, start))[s]
                        == if SessionInWindow(s, start) then multiset(sessions)[s] else 0
    ensures forall e :: multiset(FilteredEntries(entries, start))[e]
                        == if EntryInWindow(e, start) then multiset(entries)[e] else 0
    ensures IsSubsequence(FilteredSessions(sessions, start), sessions)
    ensures IsSubsequence(FilteredEntries(entries, start), entries)
  {
    FilterCounts(sessions, SessionWindow(start));
    FilterCounts(entries, EntryWindow(start));
    FilterIsSubsequence(sessions, SessionWindow(start));
    FilterIsSubsequence(entries, EntryWindow(start));
  }

  // ---------------------------------------------------------------------
  // Subject performance

  datatype PerformanceRow = PerformanceRow(
    name: string,
    sessions: nat,
    mistakes: nat,
    resolved: nat,
    resolutionRate: nat,
    difficulty: int)

  /** `session.subjectName === subject.subjectName`: strict equality of the
      optional fields, so a nameless subject collects the nameless sessions. */
  function SessionOfSubject(name: Option<string>): StudySession -> bool
  {
    (s: StudySession) => s.subjectName == name
  }

  function MistakeOfSubject(name: Option<string>): LogbookEntry -> bool
  {
    (e: LogbookEntry) => e.relatedSubject == name
  }

  /** `subject.subjectName || 'Unknown'` */
  function NameOrUnknown(name: Option<string>): (r: string)
    ensures name.Some? && name.value != "" ==> r == name.value
    ensures name.None? || name.value == "" ==> r == "Unknown"
  {
    if name.Some? && name.value != "" then name.value else "Unknown"
  }

  /** One subject's row over the filtered records. */
  function RowFor(fs: seq<StudySession>, fe: seq<LogbookEntry>, subject: Subject): (r: PerformanceRow)
    ensures r.sessions == Count(fs, SessionOfSubject(subject.subjectName))
    ensures r.mistakes == Count(fe, MistakeOfSubject(subject.subjectName))
    ensures r.resolved == Count(Filter(fe, MistakeOfSubject(subject.subjectName)), Resolved)
    ensures r.resolved <= r.mistakes
    ensures r.mistakes == 0 ==> r.resolutionRate == 0
    ensures r.resolutionRate <= 100
    ensures r.mistakes > 0 ==>
      2 * r.mistakes * r.resolutionRate <= 200 * r.resolved + r.mistakes
                                        < 2 * r.mistakes * r.resolutionRate + 2 * r.mistakes
    ensures r.difficulty == Difficulty(subject) && r.name == NameOrUnknown(subject.subjectName)
  {
    var mistakes := Filter(fe, MistakeOfSubject(subject.subjectName));
    PerformanceRow(
      NameOrUnknown(subject.subjectName),
      Count(fs, SessionOfSubject(subject.subjectName)),
      |mistakes|,
      Count(mistakes, Resolved),
      ResolutionRate(mistakes),
      Difficulty(subject))
  }

  function RowOf(fs: seq<StudySession>, fe: seq<LogbookEntry>): Subject -> PerformanceRow
  {
    (subject: Subject) => RowFor(fs, fe, subject)
  }

  function HasActivity(r: PerformanceRow): bool
  {
    r.sessions > 0 || r.mistakes > 0
  }

  /** `getSubjectPerformanceData` */
  function PerformanceData(subjects: seq<Subject>, fs: seq<StudySession>, fe: seq<LogbookEntry>): seq<PerformanceRow>
  {
    Filter(Map(subjects, RowOf(fs, fe)), HasActivity)
  }

  /** The rows follow the subjects, at most one each, in subject order; a
      subject's row is dropped exactly when it has neither sessions nor
      mistakes; every row that stays has coherent counts. */
  lemma PerformanceDataCorrect(subjects: seq<Subject>, fs: seq<StudySession>, fe: seq<LogbookEntry>)
    ensures var r := PerformanceData(subjects, fs, fe);
      && IsSubsequence(r, Map(subjects, RowOf(fs, fe)))
      && |r| <= |subjects|
      && (forall i :: 0 <= i < |subjects| ==>
            (RowFor(fs, fe, subjects[i]) in r <==> HasActivity(RowFor(fs, fe, subjects[i]))))
      && (forall i :: 0 <= i < |r| ==>
            && HasActivity(r[i]) && r[i].resolved <= r[i].mistakes && r[i].resolutionRate <= 100
            && exists k :: 0 <= k < |subjects| && r[i] == RowFor(fs, fe, subjects[k]))
  {
    FilterIsSubsequence(Map(subjects, RowOf(fs, fe)), HasActivity);
    PerformanceRowsKept(subjects, fs, fe);
    PerformanceRowsOrigin(subjects, fs, fe);
  }

  lemma PerformanceRowsKept(subjects: seq<Subject>, fs: seq<StudySession>, fe: seq<LogbookEntry>)
    ensures var r := PerformanceData(subjects, fs, fe);
      forall i :: 0 <= i < |subjects| ==>
        (RowFor(fs, fe, subjects[i]) in r <==> HasActivity(RowFor(fs, fe, subjects[i])))
  {
    var rows := Map(subjects, RowOf(fs, fe));
    FilterMembership(rows, HasActivity);
    forall i | 0 <= i < |subjects|
      ensures RowFor(fs, fe, subjects[i]) in rows
    {
      assert rows[i] == RowFor(fs, fe, subjects[i]);
    }
  }

  lemma PerformanceRowsOrigin(subjects: seq<Subject>, fs: seq<StudySession>, fe: seq<LogbookEntry>)
    ensures var r := PerformanceData(subjects, fs, fe);
      forall i :: 0 <= i < |r| ==>
        && HasActivity(r[i]) && r[i].resolved <= r[i].mistakes && r[i].resolutionRate <= 100
        && exists k :: 0 <= k < |subjects| && r[i] == RowFor(fs, fe, subjects[k])
  {
    var rows := Map(subjects, RowOf(fs, fe));
    var r := PerformanceData(subjects, fs, fe);
    FilterMembership(rows, HasActivity);
    forall i | 0 <= i < |r|
      ensures r[i].resolved <= r[i].mistakes && r[i].resolutionRate <= 100
      ensures exists k :: 0 <= k < |subjects| && r[i] == RowFor(fs, fe, subjects[k])
    {
      assert r[i] in r;
      var k :| 0 <= k < |rows| && rows[k] == r[i];
    }
  }

  /** `reduce((prev, current) => prev.resolutionRate > current.resolutionRate ? prev : current)`,
      a left fold over the non-empty rows: a tie goes to `current`. */
  function TopPerformer(rows: seq<PerformanceRow>): PerformanceRow
    requires |rows| > 0
  {
    if |rows| == 1 then rows[0]
    else
      var prev := TopPerformer(rows[..|rows| - 1]);
      var current := rows[|rows| - 1];
      if prev.resolutionRate > current.resolutionRate then prev else current
  }

  /** The top performer is a row with the highest rate, and among the rows
      with that rate it is the last one. */
  lemma TopPerformerCorrect(rows: seq<PerformanceRow>)
    requires |rows| > 0
    ensures forall j :: 0 <= j < |rows| ==> rows[j].resolutionRate <= TopPerformer(rows).resolutionRate
    ensures exists k :: (0 <= k < |rows| && rows[k] == TopPerformer(rows)
                         && forall j :: k < j < |rows| ==> rows[j].resolutionRate < TopPerformer(rows).resolutionRate)
  {
    TopPerformerIsMax(rows);
    TopPerformerIsLast(rows);
  }

  lemma {:induction false} TopPerformerIsMax(rows: seq<PerformanceRow>)
    requires |rows| > 0
    ensures forall j :: 0 <= j < |rows| ==> rows[j].resolutionRate <= TopPerformer(rows).resolutionRate
  {
    var n := |rows|;
    if n > 1 {
      var front := rows[..n - 1];
      TopPerformerIsMax(front);
      var top := TopPerformer(rows);
      assert top.resolutionRate >= TopPerformer(front).resolutionRate;
      assert top.resolutionRate >= rows[n - 1].resolutionRate;
      forall j | 0 <= j < n - 1
        ensures rows[j].resolutionRate <= top.resolutionRate
      {
        assert rows[j] == front[j];
      }
    }
  }

  lemma {:induction false} TopPerformerIsLast(rows: seq<PerformanceRow>)
    requires |rows| > 0
    ensures exists k :: (0 <= k < |rows| && rows[k] == TopPerformer(rows)
                         && forall j :: k < j < |rows| ==> rows[j].resolutionRate < TopPerformer(rows).resolutionRate)
  {
    var n := |rows|;
    if n == 1 {
      assert rows[0] == TopPerformer(rows);
    } else {
      var front := rows[..n - 1];
      TopPerformerIsLast(front);
      var prev := TopPerformer(front);
      var top := TopPerformer(rows);
      var k :| 0 <= k < |front| && front[k] == prev
        && forall j :: k < j < |front| ==> front[j].resolutionRate < prev.resolutionRate;
      if prev.resolutionRate > rows[n - 1].resolutionRate {
        assert top == prev && rows[k] == top;
        forall j | k < j < n
          ensures rows[j].resolutionRate < top.resolutionRate
        {
          if j < n - 1 { assert rows[j] == front[j]; }
        }
      } else {
        assert rows[n - 1] == top;
      }
    }
  }

  // ---------------------------------------------------------------------
  // Severity distribution

  datatype SeverityBucket = SeverityBucket(level: int, count: nat)

  const Levels: seq<int> := [1, 2, 3, 4, 5]

  /** `entry.severityLevel === level` */
  function HasSeverity(level: int): LogbookEntry -> bool
  {
    (e: LogbookEntry) => e.severityLevel == Some(level)
  }

  function BucketOf(fe: seq<LogbookEntry>): int -> SeverityBucket
  {
    (level: int) => SeverityBucket(level, Count(fe, HasSeverity(level)))
  }

  function NonEmptyBucket(b: SeverityBucket): bool
  {
    b.count > 0
  }

  function BucketLevel(b: SeverityBucket): int
  {
    b.level
  }

  /** `getMistakeSeverityData` */
  function SeverityData(fe: seq<LogbookEntry>): seq<SeverityBucket>
  {
    Filter(Map(Levels, BucketOf(fe)), NonEmptyBucket)
  }

  function BucketTotal(buckets: seq<SeverityBucket>): nat
  {
    if buckets == [] then 0 else buckets[0].count + BucketTotal(buckets[1..])
  }

  function SeverityInRange(e: LogbookEntry): bool
  {
    e.severityLevel.Some? && 1 <= e.severityLevel.value <= 5
  }

  /** The buckets come in ascending level order within 1..5, each with a
      positive count that is its exact number of entries; a level has a
      bucket exactly when some entry has it. */
  lemma SeverityDataCorrect(fe: seq<LogbookEntry>)
    ensures var r := SeverityData(fe);
      && (forall i, j :: 0 <= i < j < |r| ==> r[i].level < r[j].level)
      && (forall i :: 0 <= i < |r| ==>
            1 <= r[i].level <= 5 && r[i].count > 0 && r[i].count == Count(fe, HasSeverity(r[i].level)))
      && (forall level :: 1 <= level <= 5 ==>
            (SeverityBucket(level, Count(fe, HasSeverity(level))) in r <==> Count(fe, HasSeverity(level)) > 0))
  {
    SeverityOrdered(fe);
    SeverityBucketsExact(fe);
    SeverityLevelsPresent(fe);
  }

  lemma SeverityOrdered(fe: seq<LogbookEntry>)
    ensures var r := SeverityData(fe);
      forall i, j :: 0 <= i < j < |r| ==> r[i].level < r[j].level
  {
    var all := Map(Levels, BucketOf(fe));
    assert StrictlyIncreasing(all, BucketLevel);
    FilterIncreasing(all, NonEmptyBucket, BucketLevel);
    var r := SeverityData(fe);
    forall i, j | 0 <= i < j < |r|
      ensures r[i].level < r[j].level
    {
      assert BucketLevel(r[i]) < BucketLevel(r[j]);
    }
  }

  lemma SeverityBucketsExact(fe: seq<LogbookEntry>)
    ensures var r := SeverityData(fe);
      forall i :: 0 <= i < |r| ==>
        1 <= r[i].level <= 5 && r[i].count > 0 && r[i].count == Count(fe, HasSeverity(r[i].level))
  {
    var all := Map(Levels, BucketOf(fe));
    var r := SeverityData(fe);
    FilterMembership(all, NonEmptyBucket);
    forall i | 0 <= i < |r|
      ensures 1 <= r[i].level <= 5 && r[i].count == Count(fe, HasSeverity(r[i].level))
    {
      assert r[i] in r;
      var k :| 0 <= k < |all| && all[k] == r[i];
    }
  }

  lemma SeverityLevelsPresent(fe: seq<LogbookEntry>)
    ensures var r := SeverityData(fe);
      forall level :: 1 <= level <= 5 ==>
        (SeverityBucket(level, Count(fe, HasSeverity(level))) in r <==> Count(fe, HasSeverity(level)) > 0)
  {
    var all := Map(Levels, BucketOf(fe));
    FilterMembership(all, NonEmptyBucket);
    forall level | 1 <= level <= 5
      ensures SeverityBucket(level, Count(fe, HasSeverity(level))) in all
    {
      assert all[level - 1] == SeverityBucket(level, Count(fe, HasSeverity(level)));
    }
  }

  /** The counts of the distribution add up to the filtered entries whose
      severity is one of the five levels. */
  lemma SeverityDataTotal(fe: seq<LogbookEntry>)
    ensures BucketTotal(SeverityData(fe)) == Count(fe, SeverityInRange)
  {
    var all := Map(Levels, BucketOf(fe));
    BucketTotalDropsEmpty(all);
    assert all == [BucketOf(fe)(1), BucketOf(fe)(2), BucketOf(fe)(3), BucketOf(fe)(4), BucketOf(fe)(5)];
    assert all[4..][1..] == [];
    assert BucketTotal(all[4..]) == all[4].count;
    assert all[3..][1..] == all[4..];
    assert BucketTotal(all[3..]) == all[3].count + all[4].count;
    assert all[2..][1..] == all[3..];
    assert BucketTotal(all[2..]) == all[2].count + all[3].count + all[4].count;
    assert all[1..][1..] == all[2..];
    assert BucketTotal(all[1..]) == all[1].count + all[2].count + all[3].count + all[4].count;
    LevelCounts(fe);
  }

  lemma {:induction false} BucketTotalDropsEmpty(buckets: seq<SeverityBucket>)
    ensures BucketTotal(Filter(buckets, NonEmptyBucket)) == BucketTotal(buckets)
  {
    if buckets != [] {
      BucketTotalDropsEmpty(buckets[1..]);
      FilterCons(buckets, NonEmptyBucket);
      if NonEmptyBucket(buckets[0]) {
        var t := [buckets[0]] + Filter(buckets[1..], NonEmptyBucket);
        assert t[1..] == Filter(buckets[1..], NonEmptyBucket);
      }
    }
  }

  lemma {:induction false} LevelCounts(fe: seq<LogbookEntry>)
    ensures Count(fe, HasSeverity(1)) + Count(fe, HasSeverity(2)) + Count(fe, HasSeverity(3))
          + Count(fe, HasSeverity(4)) + Count(fe, HasSeverity(5)) == Count(fe, SeverityInRange)
  {
    if fe != [] {
      LevelCounts(fe[1..]);
      CountCons(fe, HasSeverity(1));
      CountCons(fe, HasSeverity(2));
      CountCons(fe, HasSeverity(3));
      CountCons(fe, HasSeverity(4));
      CountCons(fe, HasSeverity(5));
      CountCons(fe, SeverityInRange);
    }
  }

  // ---------------------------------------------------------------------
  // Consistency and weekly activity

  /** The distinct days on which the sessions fall: the `yyyy-MM-dd` strings
      of `format` name exactly one local day each. */
  function DaysOf(fs: seq<StudySession>): set<int>
  {
    if fs == [] then {}
    else (if Truthy(fs[0].sessionDate) then {Day(fs[0].sessionDate.value.ms)} else {}) + DaysOf(fs[1..])
  }

  /** A day is counted exactly when a session falls on it, and there are
      never more distinct days than sessions. */
  lemma DaysOfCorrect(fs: seq<StudySession>)
    ensures forall d :: d in DaysOf(fs) <==> exists i :: 0 <= i < |fs| && OnDay(fs[i], d)
    ensures |DaysOf(fs)| <= |fs|
  {
    DaysOfMembership(fs);
    DaysOfSize(fs);
  }

  lemma {:induction false} DaysOfMembership(fs: seq<StudySession>)
    ensures forall d :: d in DaysOf(fs) <==> exists i :: 0 <= i < |fs| && OnDay(fs[i], d)
  {
    if fs != [] {
      DaysOfMembership(fs[1..]);
      var rest := DaysOf(fs[1..]);
      forall d
        ensures d in DaysOf(fs) <==> exists i :: 0 <= i < |fs| && OnDay(fs[i], d)
      {
        if d in rest {
          var i :| 0 <= i < |fs[1..]| && OnDay(fs[1..][i], d);
          assert fs[i + 1] == fs[1..][i];
        }
        if exists i :: 0 <= i < |fs| && OnDay(fs[i], d) {
          var i :| 0 <= i < |fs| && OnDay(fs[i], d);
          if i > 0 {
            assert fs[1..][i - 1] == fs[i];
          }
        }
      }
    }
  }

  lemma {:induction false} DaysOfSize(fs: seq<StudySession>)
    ensures |DaysOf(fs)| <= |fs|
  {
    if fs != [] {
      DaysOfSize(fs[1..]);
      var rest := DaysOf(fs[1..]);
      if Truthy(fs[0].sessionDate) {
        var h := {Day(fs[0].sessionDate.value.ms)};
        if h <= rest {
          assert h + rest == rest;
        } else {
          assert |h + rest| == |rest| + 1;
        }
      }
    }
  }

  /** The window's length in days for the score. */
  function TotalDays(timeRange: string): (n: nat)
    ensures n > 0
  {
    if timeRange == "week" then 7 else if timeRange == "month" then 30 else 90
  }

  /** `getConsistencyScore`: 0 without sessions, otherwise distinct days
      over the window length as a rounded percentage. The window reaches back
      a whole number of days from `now`, so it touches one calendar day more
      than its length and the score can exceed 100. */
  function ConsistencyScore(fs: seq<StudySession>, timeRange: string): (r: nat)
    ensures |fs| == 0 ==> r == 0
    ensures |fs| > 0 ==>
      2 * TotalDays(timeRange) * r <= 200 * |DaysOf(fs)| + TotalDays(timeRange)
                                   < 2 * TotalDays(timeRange) * r + 2 * TotalDays(timeRange)
  {
    if |fs| == 0 then 0 else RoundPercent(|DaysOf(fs)|, TotalDays(timeRange))
  }

  /** More distinct days than the window is long gives a score above 100. */
  lemma ConsistencyAboveHundred(fs: seq<StudySession>, timeRange: string)
    requires |DaysOf(fs)| > TotalDays(timeRange)
    ensures ConsistencyScore(fs, timeRange) > 100
  {
    DaysOfSize(fs);
    var n := TotalDays(timeRange);
    var r := ConsistencyScore(fs, timeRange);
    if r <= 100 {
      MulMonotone(2 * n, r, 100);
      assert false;
    }
  }

  /** A session dated at the given instant and nothing else. */
  function DatedSession(ms: int): StudySession
  {
    StudySession("", None, None, None, Some(Instant(ms)), None, None, None, None, None)
  }

  /** Eight past sessions, one at the last millisecond of each of the days
      0 to 7. */
  function EightDays(): (fs: seq<StudySession>)
    ensures |fs| == 8
    ensures forall i :: 0 <= i < 8 ==> fs[i] == DatedSession(StartOfDay(i + 1) - 1)
  {
    seq(8, i requires 0 <= i < 8 => DatedSession(StartOfDay(i + 1) - 1))
  }

  /** The week window `now - 7 days` touches eight calendar days: with now
      the last millisecond of day 7, the eight sessions of `EightDays` are
      all in the past, all in the window, and they score 114. */
  lemma ConsistencyCanExceedHundred()
    ensures var now := StartOfDay(8) - 1;
      var kept := FilteredSessions(EightDays(), WindowStart("week", now, 0, 0));
      && (forall i :: 0 <= i < |EightDays()| ==> SessionTime(EightDays()[i]) <= now)
      && kept == EightDays()
      && ConsistencyScore(kept, "week") == 114
  {
    EightDaysInWeekWindow(StartOfDay(8) - 1);
    EightDaysScore();
  }

  lemma EightDaysScore()
    ensures ConsistencyScore(EightDays(), "week") == 114
  {
    EightDaysAreDistinct();
    var r := ConsistencyScore(EightDays(), "week");
    assert TotalDays("week") == 7;
    assert 14 * r <= 1607 < 14 * r + 14;
  }

  lemma EightDaysInWeekWindow(now: int)
    requires now == StartOfDay(8) - 1
    ensures forall i :: 0 <= i < |EightDays()| ==> SessionTime(EightDays()[i]) <= now
    ensures FilteredSessions(EightDays(), WindowStart("week", now, 0, 0)) == EightDays()
  {
    var fs := EightDays();
    var start := WindowStart("week", now, 0, 0);
    assert start == StartOfDay(1) - 1;
    forall i | 0 <= i < 8
      ensures SessionInWindow(fs[i], start) && SessionTime(fs[i]) <= now
    {
      MonotoneDays(i + 1, 8);
      MonotoneDays(1, i + 1);
    }
    FilterAll(fs, SessionWindow(start));
  }

  lemma EightDaysAreDistinct()
    ensures |DaysOf(EightDays())| == 8
  {
    var fs := EightDays();
    forall i | 0 <= i < 8
      ensures Truthy(fs[i].sessionDate) && Day(SessionTime(fs[i])) == i
    {
      DayOfLastMs(i);
    }
    DistinctDaysCount(fs);
  }

  /** Dated sessions on pairwise different days count as that many days. */
  lemma {:induction false} DistinctDaysCount(fs: seq<StudySession>)
    requires forall i :: 0 <= i < |fs| ==> Truthy(fs[i].sessionDate)
    requires forall i, j :: 0 <= i < j < |fs| ==>
      Day(SessionTime(fs[i])) != Day(SessionTime(fs[j]))
    ensures |DaysOf(fs)| == |fs|
  {
    if fs != [] {
      var rest := fs[1..];
      assert forall i :: 0 <= i < |rest| ==> rest[i] == fs[i + 1];
      DistinctDaysCount(rest);
      DaysOfMembership(rest);
      var d := Day(SessionTime(fs[0]));
      assert d !in DaysOf(rest);
    }
  }

  lemma DayOfLastMs(d: int)
    ensures Day(StartOfDay(d + 1) - 1) == d
  {
    var t := StartOfDay(d + 1) - 1;
    assert t == d * MsPerDay + (MsPerDay - 1);
    DayBounds(t);
    if Day(t) < d {
      MonotoneDays(Day(t) + 1, d);
    }
    if Day(t) > d {
      MonotoneDays(d + 1, Day(t));
    }
  }

  datatype DayActivity = DayActivity(day: string, sessions: nat, mistakes: nat)

  /** `format(day, 'EEE')` by weekday. */
  const DayNames: seq<string> := ["Sun", "Mon", "Tue", "Wed", "Thu", "Fri", "Sat"]

  /** `getWeeklyActivityData`: one entry per day of the Sunday-to-Saturday
      week holding `now`, with same-day counts over the filtered records. */
  function WeeklyActivity(fs: seq<StudySession>, fe: seq<LogbookEntry>, now: int): (r: seq<DayActivity>)
    ensures |r| == 7
    ensures forall i :: 0 <= i < 7 ==>
      && r[i].day == DayNames[i]
      && r[i].sessions == Count(fs, SessionOnDay(WeekStart(Day(now)) + i))
      && r[i].mistakes == Count(fe, EntryOnDay(WeekStart(Day(now)) + i))
  {
    var w := WeekStart(Day(now));
    WeekDays(w);
    seq(7, i requires 0 <= i < 7 =>
      DayActivity(DayNames[Weekday(w + i)], Count(fs, SessionOnDay(w + i)), Count(fe, EntryOnDay(w + i))))
  }

  /** The seven days are the days of one week, today among them, each on
      its own weekday. */
  lemma WeeklyActivityDays(now: int)
    ensures var w := WeekStart(Day(now));
      && (forall d :: w <= d < w + 7 ==> Weekday(d) == d - w && WeekStart(d) == w)
      && w <= Day(now) < w + 7
  {
    WeekDays(WeekStart(Day(now)));
  }

  // ---------------------------------------------------------------------
  // Overall rate

  /** The overall resolution rate over the filtered entries. */
  function OverallRate(fe: seq<LogbookEntry>): (r: nat)
    ensures |fe| == 0 ==> r == 0
    ensures r <= 100
    ensures |fe| > 0 ==>
      2 * |fe| * r <= 200 * Count(fe, Resolved) + |fe| < 2 * |fe| * r + 2 * |fe|
  {
    ResolutionRate(fe)
  }
}
