/** The mistake logbook: the three combined filters with the newest-first
    sort, the entry form and its save guard, the resolved toggle, the
    severity labels and the statistics cards. */
module Logbook {
  import opened Wrappers
  import opened Seqs
  import opened Percent
  import opened Dates
  import opened Text
  import opened Entities

  // ---------------------------------------------------------------------
  // Filters

  /** `field?.toLowerCase().includes(term.toLowerCase())`: a missing field never matches. */
  predicate FieldMatches(field: Option<string>, term: string)
  {
    field.Some? && Contains(Lower(field.value), Lower(term))
  }

  /** The search predicate: description, related subject or correction action. */
  predicate MatchesSearch(e: LogbookEntry, term: string)
  {
    FieldMatches(e.mistakeDescription, term) || FieldMatches(e.relatedSubject, term)
    || FieldMatches(e.correctionAction, term)
  }

  /** `entry.relatedSubject === filterSubject` */
  predicate MatchesSubject(e: LogbookEntry, subject: string)
  {
    e.relatedSubject == Some(subject)
  }

  /** `filterStatus === 'resolved' ? entry.isResolved : !entry.isResolved`:
      any status other than 'resolved' selects the pending entries. */
  predicate MatchesStatus(e: LogbookEntry, status: string)
  {
    if status == "resolved" then Resolved(e) else !Resolved(e)
  }

  /** The search ignores the case of the term. */
  lemma SearchIgnoresTermCase(e: LogbookEntry, term: string)
    ensures MatchesSearch(e, Lower(term)) == MatchesSearch(e, term)
  {
    LowerIdempotent(term);
  }

  /** An entry whose description holds the term verbatim is found. */
  lemma SearchFindsVerbatim(e: LogbookEntry, term: string)
    requires e.mistakeDescription.Some? && Contains(e.mistakeDescription.value, term)
    ensures MatchesSearch(e, term)
  {
    ContainsLowered(e.mistakeDescription.value, term);
  }

  function SearchPredicate(term: string): LogbookEntry -> bool
  {
    (e: LogbookEntry) => MatchesSearch(e, term)
  }

  function SubjectPredicate(subject: string): LogbookEntry -> bool
  {
    (e: LogbookEntry) => MatchesSubject(e, subject)
  }

  function StatusPredicate(status: string): LogbookEntry -> bool
  {
    (e: LogbookEntry) => MatchesStatus(e, status)
  }

  /** The criteria in force; an empty search and the selector value 'all'
      switch a filter off. */
  datatype Criteria = Criteria(searchTerm: string, filterSubject: string, filterStatus: string)

  predicate NoFilters(c: Criteria)
  {
    c.searchTerm == "" && c.filterSubject == "all" && c.filterStatus == "all"
  }

  /** The three active filters combined with AND. */
  predicate Passes(e: LogbookEntry, c: Criteria)
  {
    && (c.searchTerm == "" || MatchesSearch(e, c.searchTerm))
    && (c.filterSubject == "all" || MatchesSubject(e, c.filterSubject))
    && (c.filterStatus == "all" || MatchesStatus(e, c.filterStatus))
  }

  function SearchStep(entries: seq<LogbookEntry>, term: string): seq<LogbookEntry>
  {
    if term == "" then entries else Filter(entries, SearchPredicate(term))
  }

  function SubjectStep(entries: seq<LogbookEntry>, subject: string): seq<LogbookEntry>
  {
    if subject == "all" then entries else Filter(entries, SubjectPredicate(subject))
  }

  function StatusStep(entries: seq<LogbookEntry>, status: string): seq<LogbookEntry>
  {
    if status == "all" then entries else Filter(entries, StatusPredicate(status))
  }

  /** What `filterEntries` stores in `filteredEntries`. */
  function EntriesView(entries: seq<LogbookEntry>, c: Criteria): seq<LogbookEntry>
  {
    NewestFirst(StatusStep(SubjectStep(SearchStep(entries, c.searchTerm), c.filterSubject), c.filterStatus))
  }

  /** Each entry occurs in the view as often as in the logbook when it passes
      every active filter, and not at all otherwise. */
  lemma EntriesViewCounts(entries: seq<LogbookEntry>, c: Criteria)
    ensures forall e :: multiset(EntriesView(entries, c))[e] == if Passes(e, c) then multiset(entries)[e] else 0
  {
    var a := SearchStep(entries, c.searchTerm);
    var b := SubjectStep(a, c.filterSubject);
    var d := StatusStep(b, c.filterStatus);
    SearchStepCounts(entries, c.searchTerm);
    SubjectStepCounts(a, c.filterSubject);
    StatusStepCounts(b, c.filterStatus);
    NewestFirstCorrect(d);
    forall e
      ensures multiset(EntriesView(entries, c))[e] == if Passes(e, c) then multiset(entries)[e] else 0
    {
      assert multiset(EntriesView(entries, c))[e] == multiset(d)[e];
    }
  }

  lemma SearchStepCounts(entries: seq<LogbookEntry>, term: string)
    ensures forall e :: multiset(SearchStep(entries, term))[e]
                        == if term == "" || MatchesSearch(e, term) then multiset(entries)[e] else 0
  {
    if term != "" { FilterCounts(entries, SearchPredicate(term)); }
  }

  lemma SubjectStepCounts(entries: seq<LogbookEntry>, subject: string)
    ensures forall e :: multiset(SubjectStep(entries, subject))[e]
                        == if subject == "all" || MatchesSubject(e, subject) then multiset(entries)[e] else 0
  {
    if subject != "all" { FilterCounts(entries, SubjectPredicate(subject)); }
  }

  lemma StatusStepCounts(entries: seq<LogbookEntry>, status: string)
    ensures forall e :: multiset(StatusStep(entries, status))[e]
                        == if status == "all" || MatchesStatus(e, status) then multiset(entries)[e] else 0
  {
    if status != "all" { FilterCounts(entries, StatusPredicate(status)); }
  }

  /** The view holds exactly the logbook entries that pass the active filters,
      newest first, a missing date counting as the epoch. */
  lemma EntriesViewCorrect(entries: seq<LogbookEntry>, c: Criteria)
    ensures forall e :: e in EntriesView(entries, c) <==> e in entries && Passes(e, c)
    ensures var r := EntriesView(entries, c);
      forall i, j :: 0 <= i < j < |r| ==> EntryTime(r[i]) >= EntryTime(r[j])
  {
    EntriesViewCounts(entries, c);
    var r := EntriesView(entries, c);
    forall e
      ensures e in r <==> e in entries && Passes(e, c)
    {
      assert e in r <==> e in multiset(r);
      assert e in entries <==> e in multiset(entries);
    }
    NewestFirstCorrect(StatusStep(SubjectStep(SearchStep(entries, c.searchTerm), c.filterSubject), c.filterStatus));
  }

  /** With no filter active the view is a reordering of the whole logbook. */
  lemma EntriesViewUnfiltered(entries: seq<LogbookEntry>, c: Criteria)
    requires NoFilters(c)
    ensures multiset(EntriesView(entries, c)) == multiset(entries)
    ensures |EntriesView(entries, c)| == |entries|
  {
    NewestFirstCorrect(entries);
  }

  // ---------------------------------------------------------------------
  // Labels and statistics

  /** `getSeverityLabel` */
  function SeverityLabel(level: int): (text: string)
    ensures text != "Unknown" <==> 1 <= level <= 5
  {
    if level == 1 then "Minor"
    else if level == 2 then "Low"
    else if level == 3 then "Medium"
    else if level == 4 then "High"
    else if level == 5 then "Critical"
    else "Unknown"
  }

  /** The level a severity label names. */
  function SeverityOfLabel(text: string): (level: Option<int>)
    ensures level.Some? ==> SeverityLabel(level.value) == text
  {
    if text == "Minor" then Some(1)
    else if text == "Low" then Some(2)
    else if text == "Medium" then Some(3)
    else if text == "High" then Some(4)
    else if text == "Critical" then Some(5)
    else None
  }

  /** The five labels are distinct: each level's label names that level. */
  lemma SeverityLabelRoundTrip(level: int)
    requires 1 <= level <= 5
    ensures SeverityOfLabel(SeverityLabel(level)) == Some(level)
  {
  }

  datatype LogbookStats = LogbookStats(total: nat, resolved: nat, pending: nat, resolutionRate: nat)

  /** The four statistics cards, over the whole logbook. */
  function Stats(entries: seq<LogbookEntry>): (r: LogbookStats)
    ensures r.total == |entries|
    ensures r.resolved == Count(entries, Resolved) && r.pending == Count(entries, Pending)
    ensures r.resolved + r.pending == r.total
    ensures r.total == 0 ==> r.resolutionRate == 0
    ensures r.resolutionRate <= 100
    ensures r.total > 0 ==>
      2 * r.total * r.resolutionRate <= 200 * r.resolved + r.total < 2 * r.total * r.resolutionRate + 2 * r.total
  {
    ResolvedPendingSplit(entries);
    LogbookStats(|entries|, Count(entries, Resolved), Count(entries, Pending), ResolutionRate(entries))
  }

  // ---------------------------------------------------------------------
  // Editing

  /** `{ ...entry, isResolved: !entry.isResolved }`: a missing flag becomes true. */
  function ToggledResolved(e: LogbookEntry): (r: LogbookEntry)
    ensures Resolved(r) == !Resolved(e)
    ensures r.isResolved.Some?
    ensures r.(isResolved := e.isResolved) == e
  {
    e.(isResolved := Some(!Resolved(e)))
  }

  /** Toggling twice gives the entry back once its flag is present; an entry
      without one comes back marked unresolved. */
  lemma ToggleResolvedTwice(e: LogbookEntry)
    ensures e.isResolved.Some? ==> ToggledResolved(ToggledResolved(e)) == e
    ensures e.isResolved.None? ==> ToggledResolved(ToggledResolved(e)) == e.(isResolved := Some(false))
  {
    if e.isResolved.Some? {
      assert Resolved(e) == e.isResolved.value;
    }
  }

  /** `handleToggleResolved`: one update of the toggled record. */
  function ToggleResolvedWrite(e: LogbookEntry): (w: Write<LogbookEntry>)
    ensures w.Update? && w.record.id == e.id && Resolved(w.record) == !Resolved(e)
  {
    Update(ToggledResolved(e))
  }

  /** `handleDeleteEntry`: a delete call only when the user confirms. */
  function DeleteEntryWrite(id: string, confirmed: bool): (w: Option<Write<LogbookEntry>>)
    ensures w.Some? <==> confirmed
    ensures w.Some? ==> w.value == Delete(id)
  {
    if confirmed then Some(Delete(id)) else None
  }

  /** The entry form's fields. */
  datatype EntryForm = EntryForm(
    mistakeDescription: string,
    dateRecorded: string,
    relatedSubject: string,
    severityLevel: int,
    correctionAction: string,
    isResolved: bool)

  /** `resetForm`, given `format(new Date(), 'yyyy-MM-dd')`. */
  function EmptyEntryForm(today: string): (f: EntryForm)
    ensures f.dateRecorded == today && f.severityLevel == 1 && !f.isResolved
    ensures f.mistakeDescription == "" && f.relatedSubject == "" && f.correctionAction == ""
  {
    EntryForm("", today, "", 1, "", false)
  }

  /** The form's date when an entry is edited: a string date cut before its
      first 'T', a `Date` formatted (`formatted` is what `format` gives for
      it), and today's date when the entry has none. */
  function EditedDate(d: Option<DateValue>, today: string, formatted: string): (r: string)
    ensures !Truthy(d) ==> r == today
    ensures Truthy(d) && d.value.Instant? ==> r == formatted
    ensures Truthy(d) && d.value.Text? ==>
      && 'T' !in r && |r| <= |d.value.text| && r == d.value.text[..|r|]
      && (|r| < |d.value.text| ==> d.value.text[|r|] == 'T')
      && ('T' !in d.value.text ==> r == d.value.text)
  {
    if !Truthy(d) then today
    else match d.value
      case Text(text, _) => CalendarDatePart(text)
      case Instant(_) => formatted
  }

  /** `entry.severityLevel || 1` */
  function SeverityOrMinor(e: LogbookEntry): (level: int)
    ensures level != 0
    ensures e.severityLevel.None? ==> level == 1
    ensures e.severityLevel == Some(0) ==> level == 1
    ensures e.severityLevel.Some? && e.severityLevel.value != 0 ==> level == e.severityLevel.value
  {
    if e.severityLevel.None? || e.severityLevel.value == 0 then 1 else e.severityLevel.value
  }

  /** The record `handleCreateOrUpdateEntry` writes; `parsedDate` is the
      instant of the form's date string. */
  function EntryRecord(form: EntryForm, editing: Option<LogbookEntry>, freshId: string, parsedDate: int): (r: LogbookEntry)
    ensures r.id == if editing.Some? && editing.value.id != "" then editing.value.id else freshId
    ensures r.mistakeDescription == Some(form.mistakeDescription)
      && r.relatedSubject == Some(form.relatedSubject)
      && r.severityLevel == Some(form.severityLevel)
      && r.correctionAction == Some(form.correctionAction)
      && r.isResolved == Some(form.isResolved)
    ensures r.dateRecorded == Some(Text(form.dateRecorded, parsedDate))
  {
    LogbookEntry(
      if editing.Some? && editing.value.id != "" then editing.value.id else freshId,
      None, None,
      Some(form.mistakeDescription),
      Some(Text(form.dateRecorded, parsedDate)),
      Some(form.relatedSubject),
      Some(form.severityLevel),
      Some(form.correctionAction),
      Some(form.isResolved))
  }

  /** The guard and the choice of call: nothing without a description and a
      related subject; an update of the edited entry, under its id; or a create. */
  function EntrySave(form: EntryForm, editing: Option<LogbookEntry>, freshId: string, parsedDate: int): (w: Option<Write<LogbookEntry>>)
    ensures w.None? <==> form.mistakeDescription == "" || form.relatedSubject == ""
    ensures w.Some? ==>
      && !w.value.Delete?
      && (w.value.Update? <==> editing.Some?)
      && w.value.record == EntryRecord(form, editing, freshId, parsedDate)
    ensures w.Some? && editing.Some? && editing.value.id != "" ==> w.value.record.id == editing.value.id
  {
    if form.mistakeDescription == "" || form.relatedSubject == "" then None
    else if editing.Some? then Some(Update(EntryRecord(form, editing, freshId, parsedDate)))
    else Some(Create(EntryRecord(form, editing, freshId, parsedDate)))
  }

  // ---------------------------------------------------------------------
  // The page's state

  class LogbookPage {
    var logbookEntries: seq<LogbookEntry>
    var filteredEntries: seq<LogbookEntry>
    var criteria: Criteria
    var form: EntryForm
    var editing: Option<LogbookEntry>
    var isDialogOpen: bool

    constructor (entries: seq<LogbookEntry>, today: string)
      ensures logbookEntries == entries && filteredEntries == []
      ensures criteria == Criteria("", "all", "all")
      ensures form == EmptyEntryForm(today) && editing.None? && !isDialogOpen
    {
      logbookEntries := entries;
      filteredEntries := [];
      criteria := Criteria("", "all", "all");
      form := EmptyEntryForm(today);
      editing := None;
      isDialogOpen := false;
    }

    /** `filterEntries`. With no filter active `filtered` is the logbook
        array itself, so the in-place sort reorders the logbook too. */
    method FilterEntries()
      modifies this`logbookEntries, this`filteredEntries
      ensures filteredEntries == EntriesView(old(logbookEntries), criteria)
      ensures logbookEntries == if NoFilters(criteria) then filteredEntries else old(logbookEntries)
    {
      var filtered := logbookEntries;
      var aliased := true;
      if criteria.searchTerm != "" {
        filtered := Filter(filtered, SearchPredicate(criteria.searchTerm));
        aliased := false;
      }
      if criteria.filterSubject != "all" {
        filtered := Filter(filtered, SubjectPredicate(criteria.filterSubject));
        aliased := false;
      }
      if criteria.filterStatus != "all" {
        filtered := Filter(filtered, StatusPredicate(criteria.filterStatus));
        aliased := false;
      }
      filtered := NewestFirst(filtered);
      if aliased {
        logbookEntries := filtered;
      }
      filteredEntries := filtered;
    }

    /** `resetForm` */
    method ResetForm(today: string)
      modifies this`form, this`editing
      ensures form == EmptyEntryForm(today) && editing.None?
    {
      form := EmptyEntryForm(today);
      editing := None;
    }

    /** `handleCreateOrUpdateEntry`: the guarded call; when the backend
        accepts it the form is reset and the dialog closed. */
    method CreateOrUpdateEntry(freshId: string, parsedDate: int, today: string, saved: bool) returns (w: Option<Write<LogbookEntry>>)
      modifies this`form, this`editing, this`isDialogOpen
      ensures w == EntrySave(old(form), old(editing), freshId, parsedDate)
      ensures w.Some? && saved ==> form == EmptyEntryForm(today) && editing.None? && !isDialogOpen
      ensures !(w.Some? && saved) ==>
        form == old(form) && editing == old(editing) && isDialogOpen == old(isDialogOpen)
    {
      w := EntrySave(form, editing, freshId, parsedDate);
      if w.Some? && saved {
        ResetForm(today);
        isDialogOpen := false;
      }
    }

    /** `handleEditEntry` */
    method EditEntry(entry: LogbookEntry, today: string, formatted: string)
      modifies this`form, this`editing, this`isDialogOpen
      ensures editing == Some(entry) && isDialogOpen
      ensures form == EntryForm(
        entry.mistakeDescription.GetOr(""), EditedDate(entry.dateRecorded, today, formatted),
        entry.relatedSubject.GetOr(""), SeverityOrMinor(entry),
        entry.correctionAction.GetOr(""), Resolved(entry))
    {
      editing := Some(entry);
      form := EntryForm(
        entry.mistakeDescription.GetOr(""), EditedDate(entry.dateRecorded, today, formatted),
        entry.relatedSubject.GetOr(""), SeverityOrMinor(entry),
        entry.correctionAction.GetOr(""), Resolved(entry));
      isDialogOpen := true;
    }
  }
}
