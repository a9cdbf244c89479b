/** The subjects page: progress tracking over content modules, the pinned
    subjects list, the tab filters with pinned subjects first, and the
    per-subject statistics panel. */
module Subjects {
  import opened Wrappers
  import opened Seqs
  import opened Percent
  import opened Text
  import opened Entities

  // ---------------------------------------------------------------------
  // Content modules and progress

  /** `parseContentModules`: a missing field, an empty string or text that
      `JSON.parse` rejects all give the empty list. */
  function ParseContentModules(field: Option<ModuleList>): (r: seq<ContentModule>)
    ensures field.None? ==> r == []
    ensures field.Some? && field.value.Unparsable? ==> r == []
  {
    if field.Some? && field.value.Encoded? then field.value.modules else []
  }

  /** Parsing what `JSON.stringify(modules)` wrote gives the modules back. */
  lemma ParseAfterStringify(modules: seq<ContentModule>)
    ensures ParseContentModules(Some(Encoded(modules))) == modules
  {
  }

  function IsCompleted(m: ContentModule): bool
  {
    m.completed
  }

  function CompletedCount(modules: seq<ContentModule>): (n: nat)
    ensures n <= |modules|
  {
    Count(modules, IsCompleted)
  }

  /** `calculateProgress`: 0 for no modules, otherwise the completed share
      as a rounded percentage. */
  function CalculateProgress(modules: seq<ContentModule>): (r: nat)
    ensures |modules| == 0 ==> r == 0
    ensures r <= 100
    ensures |modules| > 0 ==>
      2 * |modules| * r <= 200 * CompletedCount(modules) + |modules| < 2 * |modules| * r + 2 * |modules|
  {
    Rate(CompletedCount(modules), |modules|)
  }

  /** The two records agree on every field that progress tracking does not write. */
  predicate SameExceptProgress(a: Subject, b: Subject)
  {
    && a.id == b.id && a.createdDate == b.createdDate && a.updatedDate == b.updatedDate
    && a.subjectName == b.subjectName && a.subjectCode == b.subjectCode
    && a.description == b.description && a.subjectImage == b.subjectImage
    && a.studyMaterialsLink == b.studyMaterialsLink
    && a.additionalResourcesLink == b.additionalResourcesLink
    && a.isActive == b.isActive && a.difficultyLevel == b.difficultyLevel
  }

  /** The invariant a saved subject record keeps: its cached counts,
      percentage and completion flag are those of its module list. */
  predicate ProgressConsistent(s: Subject)
  {
    var modules := ParseContentModules(s.contentModules);
    && s.totalContentItems == Some(|modules|)
    && s.completedContentItems == Some(CompletedCount(modules))
    && s.progressPercentage == Some(CalculateProgress(modules))
    && s.completionStatus == Some(CalculateProgress(modules) == 100)
  }

  /** The record `updateSubjectProgress` writes back: the subject with its
      module list and the four progress fields replaced. */
  function ProgressRecord(subject: Subject, modules: seq<ContentModule>): (r: Subject)
    ensures SameExceptProgress(r, subject)
    ensures ParseContentModules(r.contentModules) == modules
    ensures ProgressConsistent(r)
  {
    var pct := CalculateProgress(modules);
    subject.(contentModules := Some(Encoded(modules)),
             totalContentItems := Some(|modules|),
             completedContentItems := Some(CompletedCount(modules)),
             progressPercentage := Some(pct),
             completionStatus := Some(pct == 100))
  }

  /** The written record counts the modules, and it is marked complete exactly
      when the rounded percentage is 100, which happens as soon as 199 of
      every 200 modules are done, not only when all of them are. */
  lemma ProgressRecordCompletion(subject: Subject, modules: seq<ContentModule>)
    ensures var r := ProgressRecord(subject, modules);
      && r.totalContentItems == Some(|modules|)
      && r.completedContentItems == Some(|Filter(modules, IsCompleted)|)
      && (r.completionStatus == Some(true) <==>
            |modules| > 0 && 200 * CompletedCount(modules) >= 199 * |modules|)
  {
    if |modules| > 0 {
      PercentIsHundred(CompletedCount(modules), |modules|);
    }
  }

  /** `subjects.find(s => s._id === id)`: the first subject with that id. */
  function FindById(subjects: seq<Subject>, id: string): (r: Option<Subject>)
    ensures r.None? <==> forall i :: 0 <= i < |subjects| ==> subjects[i].id != id
    ensures r.Some? ==> (exists i :: 0 <= i < |subjects| && subjects[i] == r.value
                                    && forall j :: 0 <= j < i ==> subjects[j].id != id)
    ensures r.Some? ==> r.value.id == id
  {
    if subjects == [] then None
    else if subjects[0].id == id then Some(subjects[0])
    else
      var r := FindById(subjects[1..], id);
      assert r.Some? ==> (exists i :: 0 <= i < |subjects| && subjects[i] == r.value
                                     && forall j :: 0 <= j < i ==> subjects[j].id != id) by {
        if r.Some? {
          var i :| 0 <= i < |subjects[1..]| && subjects[1..][i] == r.value
            && forall j :: 0 <= j < i ==> subjects[1..][j].id != id;
          assert subjects[i + 1] == r.value;
          assert forall j :: 0 <= j < i + 1 ==> subjects[j].id != id by {
            forall j | 0 <= j < i + 1
              ensures subjects[j].id != id
            {
              if j > 0 { assert subjects[j] == subjects[1..][j - 1]; }
            }
          }
        }
      }
      r
  }

  /** `updateSubjectProgress`: an update of the first subject with the given
      id, or no call at all when no subject has it. */
  function ProgressUpdate(subjects: seq<Subject>, id: string, modules: seq<ContentModule>): (w: Option<Write<Subject>>)
    ensures w.None? <==> forall i :: 0 <= i < |subjects| ==> subjects[i].id != id
    ensures w.Some? ==>
      && w.value.Update? && w.value.record.id == id
      && ProgressConsistent(w.value.record)
      && ParseContentModules(w.value.record.contentModules) == modules
      && exists i :: 0 <= i < |subjects| && SameExceptProgress(w.value.record, subjects[i])
  {
    match FindById(subjects, id)
    case None => None
    case Some(s) => Some(Update(ProgressRecord(s, modules)))
  }

  /** `!newModuleTitle.trim()` */
  predicate Blank(title: string)
  {
    Trim(title) == ""
  }

  /** `handleAddModule` on the module list: a blank title changes nothing;
      otherwise one incomplete module is appended, numbered after the others. */
  function ModulesAfterAdd(modules: seq<ContentModule>, freshId: string, title: string, description: string): (r: seq<ContentModule>)
    ensures Blank(title) ==> r == modules
    ensures !Blank(title) ==>
      && |r| == |modules| + 1 && r[..|modules|] == modules
      && r[|modules|] == ContentModule(freshId, title, description, false, |modules| + 1)
  {
    if Blank(title) then modules
    else modules + [ContentModule(freshId, title, description, false, |modules| + 1)]
  }

  /** Adding a module with a real title leaves the number of completed modules
      as it was and grows the list by one, so progress can only drop. */
  lemma AddModuleKeepsCompleted(modules: seq<ContentModule>, freshId: string, title: string, description: string)
    requires !Blank(title)
    ensures CompletedCount(ModulesAfterAdd(modules, freshId, title, description)) == CompletedCount(modules)
    ensures |ModulesAfterAdd(modules, freshId, title, description)| == |modules| + 1
  {
    var m := ContentModule(freshId, title, description, false, |modules| + 1);
    FilterAppend(modules, [m], IsCompleted);
  }

  function ToggleIfId(id: string): ContentModule -> ContentModule
  {
    (m: ContentModule) => if m.id == id then m.(completed := !m.completed) else m
  }

  /** `handleToggleModuleCompletion`: same modules in the same order, the
      completion flag flipped on exactly those whose id matches. */
  function ModulesAfterToggle(modules: seq<ContentModule>, id: string): (r: seq<ContentModule>)
    ensures |r| == |modules|
    ensures forall i :: 0 <= i < |r| ==>
      && r[i].id == modules[i].id && r[i].title == modules[i].title
      && r[i].description == modules[i].description && r[i].order == modules[i].order
      && r[i].completed == (if modules[i].id == id then !modules[i].completed else modules[i].completed)
  {
    Map(modules, ToggleIfId(id))
  }

  /** Toggling the same module twice restores the list. */
  lemma ToggleModuleTwice(modules: seq<ContentModule>, id: string)
    ensures ModulesAfterToggle(ModulesAfterToggle(modules, id), id) == modules
  {
    var r := ModulesAfterToggle(ModulesAfterToggle(modules, id), id);
    assert forall i :: 0 <= i < |modules| ==> r[i] == modules[i];
  }

  function HasOtherId(id: string): ContentModule -> bool
  {
    (m: ContentModule) => m.id != id
  }

  /** `handleDeleteModule`: exactly the modules with that id go, the rest keep their order. */
  function ModulesAfterDelete(modules: seq<ContentModule>, id: string): (r: seq<ContentModule>)
    ensures forall i :: 0 <= i < |r| ==> r[i].id != id
  {
    Filter(modules, HasOtherId(id))
  }

  lemma DeleteModuleCorrect(modules: seq<ContentModule>, id: string)
    ensures var r := ModulesAfterDelete(modules, id);
      && (forall m :: m in r <==> m in modules && m.id != id)
      && (forall m :: multiset(r)[m] == if m.id == id then 0 else multiset(modules)[m])
      && IsSubsequence(r, modules)
  {
    FilterMembership(modules, HasOtherId(id));
    FilterCounts(modules, HasOtherId(id));
    FilterIsSubsequence(modules, HasOtherId(id));
  }

  // ---------------------------------------------------------------------
  // Pinned subjects

  function IsOtherId(id: string): string -> bool
  {
    (x: string) => x != id
  }

  /** `pinnedSubjects.filter(x => x !== id)`, also used when a subject is deleted. */
  function Unpin(pinned: seq<string>, id: string): (r: seq<string>)
    ensures id !in r
  {
    FilterMembership(pinned, IsOtherId(id));
    Filter(pinned, IsOtherId(id))
  }

  /** `handleTogglePin`: remove every occurrence of a pinned id, append an unpinned one. */
  function TogglePinned(pinned: seq<string>, id: string): seq<string>
  {
    if id in pinned then Unpin(pinned, id) else pinned + [id]
  }

  /** Deleting a subject takes its id out of the pinned list and leaves the
      other ids as they were, in their order. */
  lemma {:induction false} UnpinCorrect(pinned: seq<string>, id: string)
    ensures id !in Unpin(pinned, id)
    ensures forall x :: x != id ==> (x in Unpin(pinned, id) <==> x in pinned)
    ensures Filter(Unpin(pinned, id), IsOtherId(id)) == Filter(pinned, IsOtherId(id))
  {
    FilterMembership(pinned, IsOtherId(id));
    FilterAll(Filter(pinned, IsOtherId(id)), IsOtherId(id));
  }

  /** Toggling an absent id appends it; toggling a present id removes all its
      occurrences; the other ids keep their membership and relative order. */
  lemma TogglePinnedCorrect(pinned: seq<string>, id: string)
    ensures id !in pinned ==> TogglePinned(pinned, id) == pinned + [id]
    ensures id in pinned ==> id !in TogglePinned(pinned, id)
    ensures forall x :: x != id ==> (x in TogglePinned(pinned, id) <==> x in pinned)
    ensures Filter(TogglePinned(pinned, id), IsOtherId(id)) == Filter(pinned, IsOtherId(id))
  {
    UnpinCorrect(pinned, id);
    if id !in pinned {
      FilterAppend(pinned, [id], IsOtherId(id));
      assert Filter([id], IsOtherId(id)) == [];
    }
  }

  /** Toggling twice restores which ids are pinned. */
  lemma TogglePinnedTwice(pinned: seq<string>, id: string)
    ensures forall x :: x in TogglePinned(TogglePinned(pinned, id), id) <==> x in pinned
  {
    TogglePinnedCorrect(pinned, id);
    TogglePinnedCorrect(TogglePinned(pinned, id), id);
  }

  // ---------------------------------------------------------------------
  // Tabs

  /** The predicate of each tab of `getFilteredSubjects`; any other tab
      (including 'all') keeps every subject. */
  predicate InTab(tab: string, pinned: seq<string>, s: Subject)
  {
    if tab == "pinned" then s.id in pinned
    else if tab == "active" then IsTrue(s.isActive)
    else if tab == "inactive" then !IsTrue(s.isActive)
    else if tab == "beginner" then Difficulty(s) <= 2
    else if tab == "intermediate" then Difficulty(s) == 3
    else if tab == "advanced" then Difficulty(s) >= 4
    else true
  }

  predicate IsFilterTab(tab: string)
  {
    tab in {"pinned", "active", "inactive", "beginner", "intermediate", "advanced"}
  }

  function TabPredicate(tab: string, pinned: seq<string>): Subject -> bool
  {
    (s: Subject) => InTab(tab, pinned, s)
  }

  /** The switch of `getFilteredSubjects`: a filtered copy, or the subjects array itself. */
  function TabSelection(subjects: seq<Subject>, tab: string, pinned: seq<string>): (r: seq<Subject>)
    ensures !IsFilterTab(tab) ==> r == subjects
  {
    if IsFilterTab(tab) then Filter(subjects, TabPredicate(tab, pinned)) else subjects
  }

  /** The comparator `pinned(a) && !pinned(b) ? -1 : !pinned(a) && pinned(b) ? 1 : 0`
      is the difference of these keys. */
  function PinKey(pinned: seq<string>): Subject -> int
  {
    (s: Subject) => if s.id in pinned then 0 else 1
  }

  function IsPinned(pinned: seq<string>): Subject -> bool
  {
    (s: Subject) => s.id in pinned
  }

  function IsUnpinned(pinned: seq<string>): Subject -> bool
  {
    (s: Subject) => s.id !in pinned
  }

  /** `getFilteredSubjects`: the tab's selection, stably sorted pinned-first
      on every tab but 'pinned'. */
  function FilteredSubjects(subjects: seq<Subject>, tab: string, pinned: seq<string>): seq<Subject>
  {
    var selected := TabSelection(subjects, tab, pinned);
    if tab == "pinned" then selected else SortBy(selected, PinKey(pinned))
  }

  /** The stable sort by the pin key is the stable partition: the pinned
      subjects in their order, then the unpinned ones in theirs. */
  lemma PinnedFirstIsPartition(s: seq<Subject>, pinned: seq<string>)
    ensures SortBy(s, PinKey(pinned)) == Filter(s, IsPinned(pinned)) + Filter(s, IsUnpinned(pinned))
  {
    SortByTwoValuedKey(s, PinKey(pinned), IsPinned(pinned), IsUnpinned(pinned));
  }

  /** On every tab but 'pinned' the result holds exactly the subjects of the
      tab, every pinned one before every unpinned one, each group in its
      original order. On 'pinned' it is the tab's selection as filtered. */
  lemma FilteredSubjectsCorrect(subjects: seq<Subject>, tab: string, pinned: seq<string>)
    ensures var r := FilteredSubjects(subjects, tab, pinned);
      forall s :: multiset(r)[s] == if InTab(tab, pinned, s) then multiset(subjects)[s] else 0
    ensures var r := FilteredSubjects(subjects, tab, pinned);
      tab != "pinned" ==>
        && (forall i, j :: 0 <= i < j < |r| && r[j].id in pinned ==> r[i].id in pinned)
        && Filter(r, IsPinned(pinned)) == Filter(TabSelection(subjects, tab, pinned), IsPinned(pinned))
        && Filter(r, IsUnpinned(pinned)) == Filter(TabSelection(subjects, tab, pinned), IsUnpinned(pinned))
  {
    var sel := TabSelection(subjects, tab, pinned);
    SelectionCounts(subjects, tab, pinned);
    if tab != "pinned" {
      SortByCorrect(sel, PinKey(pinned));
      PinnedFirstIsPartition(sel, pinned);
      PartitionOrder(sel, pinned);
    }
  }

  lemma SelectionCounts(subjects: seq<Subject>, tab: string, pinned: seq<string>)
    ensures forall s :: multiset(TabSelection(subjects, tab, pinned))[s]
                        == if InTab(tab, pinned, s) then multiset(subjects)[s] else 0
  {
    if IsFilterTab(tab) {
      FilterCounts(subjects, TabPredicate(tab, pinned));
    }
  }

  /** The partition puts pinned before unpinned and splits back into its parts. */
  lemma PartitionOrder(sel: seq<Subject>, pinned: seq<string>)
    ensures var r := Filter(sel, IsPinned(pinned)) + Filter(sel, IsUnpinned(pinned));
      && (forall i, j :: 0 <= i < j < |r| && r[j].id in pinned ==> r[i].id in pinned)
      && Filter(r, IsPinned(pinned)) == Filter(sel, IsPinned(pinned))
      && Filter(r, IsUnpinned(pinned)) == Filter(sel, IsUnpinned(pinned))
  {
    var p := Filter(sel, IsPinned(pinned));
    var u := Filter(sel, IsUnpinned(pinned));
    var r := p + u;
    forall i, j | 0 <= i < j < |r| && r[j].id in pinned
      ensures r[i].id in pinned
    {
      if j < |p| {
        assert r[i] == p[i];
        assert IsPinned(pinned)(p[i]);
      }
    }
    FilterAppend(p, u, IsPinned(pinned));
    FilterAll(p, IsPinned(pinned));
    FilterNone(u, IsPinned(pinned));
    FilterAppend(p, u, IsUnpinned(pinned));
    FilterNone(p, IsUnpinned(pinned));
    FilterAll(u, IsUnpinned(pinned));
  }

  /** With whole-number difficulties, beginner, intermediate and advanced
      together cover every subject exactly once, and so do active and inactive. */
  lemma TabsCoverAll(subjects: seq<Subject>, pinned: seq<string>)
    ensures Count(subjects, TabPredicate("beginner", pinned))
          + Count(subjects, TabPredicate("intermediate", pinned))
          + Count(subjects, TabPredicate("advanced", pinned)) == |subjects|
    ensures Count(subjects, TabPredicate("active", pinned))
          + Count(subjects, TabPredicate("inactive", pinned)) == |subjects|
  {
    LevelTabsCoverAll(subjects, pinned);
    ActivityTabsCoverAll(subjects, pinned);
  }

  lemma {:induction false} LevelTabsCoverAll(subjects: seq<Subject>, pinned: seq<string>)
    ensures Count(subjects, TabPredicate("beginner", pinned))
          + Count(subjects, TabPredicate("intermediate", pinned))
          + Count(subjects, TabPredicate("advanced", pinned)) == |subjects|
  {
    if subjects != [] {
      LevelTabsCoverAll(subjects[1..], pinned);
    }
  }

  lemma {:induction false} ActivityTabsCoverAll(subjects: seq<Subject>, pinned: seq<string>)
    ensures Count(subjects, TabPredicate("active", pinned))
          + Count(subjects, TabPredicate("inactive", pinned)) == |subjects|
  {
    if subjects != [] {
      ActivityTabsCoverAll(subjects[1..], pinned);
    }
  }

  // ---------------------------------------------------------------------
  // Statistics and labels

  datatype SubjectStats = SubjectStats(
    totalSessions: nat,
    totalMistakes: nat,
    resolvedMistakes: nat,
    resolutionRate: nat)

  function SessionOf(name: string): StudySession -> bool
  {
    (s: StudySession) => s.subjectName == Some(name)
  }

  function EntryOf(name: string): LogbookEntry -> bool
  {
    (e: LogbookEntry) => e.relatedSubject == Some(name)
  }

  function ResolvedEntryOf(name: string): LogbookEntry -> bool
  {
    (e: LogbookEntry) => e.relatedSubject == Some(name) && Resolved(e)
  }

  /** `getSubjectStats`: sessions and mistakes linked by exact name equality,
      the resolved ones among those mistakes, and the zero-guarded rate. */
  function GetSubjectStats(sessions: seq<StudySession>, entries: seq<LogbookEntry>, name: string): (r: SubjectStats)
    ensures r.totalSessions == Count(sessions, SessionOf(name))
    ensures r.totalMistakes == Count(entries, EntryOf(name))
    ensures r.resolvedMistakes == Count(entries, ResolvedEntryOf(name))
    ensures r.resolvedMistakes <= r.totalMistakes
    ensures r.totalMistakes == 0 ==> r.resolutionRate == 0
    ensures r.resolutionRate <= 100
    ensures r.totalMistakes > 0 ==>
      (2 * r.totalMistakes * r.resolutionRate
         <= 200 * r.resolvedMistakes + r.totalMistakes
         < 2 * r.totalMistakes * r.resolutionRate + 2 * r.totalMistakes)
  {
    var mistakes := Filter(entries, EntryOf(name));
    var resolved := Filter(mistakes, Resolved);
    FilterFilter(entries, EntryOf(name), Resolved, ResolvedEntryOf(name));
    SubjectStats(|Filter(sessions, SessionOf(name))|, |mistakes|, |resolved|, Rate(|resolved|, |mistakes|))
  }

  /** `getDifficultyLabel` */
  function DifficultyLabel(level: int): (text: string)
    ensures text != "Unknown" <==> 1 <= level <= 5
  {
    if level == 1 then "Beginner"
    else if level == 2 then "Easy"
    else if level == 3 then "Medium"
    else if level == 4 then "Hard"
    else if level == 5 then "Expert"
    else "Unknown"
  }

  /** The level a difficulty label names. */
  function DifficultyOfLabel(text: string): (level: Option<int>)
    ensures level.Some? ==> DifficultyLabel(level.value) == text
  {
    if text == "Beginner" then Some(1)
    else if text == "Easy" then Some(2)
    else if text == "Medium" then Some(3)
    else if text == "Hard" then Some(4)
    else if text == "Expert" then Some(5)
    else None
  }

  /** The five labels are distinct: each level's label names that level. */
  lemma DifficultyLabelRoundTrip(level: int)
    requires 1 <= level <= 5
    ensures DifficultyOfLabel(DifficultyLabel(level)) == Some(level)
  {
  }

  // ---------------------------------------------------------------------
  // The subject form

  datatype SubjectForm = SubjectForm(
    subjectName: string,
    subjectCode: string,
    description: string,
    subjectImage: string,
    studyMaterialsLink: string,
    additionalResourcesLink: string,
    isActive: bool,
    difficultyLevel: int)

  /** `resetForm` */
  const EmptySubjectForm := SubjectForm("", "", "", "", "", "", true, 1)

  /** `n || 0`: a missing number reads as 0, any other is kept. */
  function NumberOr0(n: Option<int>): (r: int)
    ensures n.None? ==> r == 0
    ensures n.Some? ==> r == n.value
  {
    if n.None? then 0 else n.value
  }

  /** `editingSubject?.contentModules || '[]'`: JSON is never the empty string. */
  function ModulesOrEmpty(field: Option<ModuleList>): (m: ModuleList)
    ensures field.None? || (field.value.Unparsable? && field.value.text == "") ==> m == Encoded([])
    ensures field.Some? && !(field.value.Unparsable? && field.value.text == "") ==> m == field.value
  {
    if field.Some? && !(field.value.Unparsable? && field.value.text == "") then field.value else Encoded([])
  }

  /** The record `handleCreateOrUpdateSubject` writes: the form's fields,
      the edited record's id (a fresh one when there is none), and the
      edited record's progress fields, defaulted to an empty module list. */
  function SubjectRecord(form: SubjectForm, editing: Option<Subject>, freshId: string): (r: Subject)
    ensures r.id == if editing.Some? && editing.value.id != "" then editing.value.id else freshId
    ensures r.subjectName == Some(form.subjectName) && r.isActive == Some(form.isActive)
      && r.difficultyLevel == Some(form.difficultyLevel)
    ensures r.subjectCode == Some(form.subjectCode) && r.description == Some(form.description)
      && r.subjectImage == Some(form.subjectImage) && r.studyMaterialsLink == Some(form.studyMaterialsLink)
      && r.additionalResourcesLink == Some(form.additionalResourcesLink)
    ensures r.createdDate.None? && r.updatedDate.None?
    ensures editing.Some? ==>
      && r.contentModules == Some(ModulesOrEmpty(editing.value.contentModules))
      && r.totalContentItems == Some(NumberOr0(editing.value.totalContentItems))
      && r.completedContentItems == Some(NumberOr0(editing.value.completedContentItems))
      && r.progressPercentage == Some(NumberOr0(editing.value.progressPercentage))
      && r.completionStatus == Some(IsTrue(editing.value.completionStatus))
    ensures editing.None? ==>
      && r.contentModules == Some(Encoded([])) && r.totalContentItems == Some(0)
      && r.completedContentItems == Some(0) && r.progressPercentage == Some(0)
      && r.completionStatus == Some(false)
    ensures editing.None? ==> ParseContentModules(r.contentModules) == [] && ProgressConsistent(r)
  {
    var previous := if editing.Some? then editing.value.contentModules else None;
    Subject(
      if editing.Some? && editing.value.id != "" then editing.value.id else freshId,
      None, None,
      Some(if editing.Some? then NumberOr0(editing.value.completedContentItems) else 0),
      Some(form.subjectName),
      Some(if editing.Some? then NumberOr0(editing.value.totalContentItems) else 0),
      Some(editing.Some? && IsTrue(editing.value.completionStatus)),
      Some(if editing.Some? then NumberOr0(editing.value.progressPercentage) else 0),
      Some(ModulesOrEmpty(previous)),
      Some(form.subjectCode), Some(form.description), Some(form.subjectImage),
      Some(form.studyMaterialsLink), Some(form.additionalResourcesLink),
      Some(form.isActive), Some(form.difficultyLevel))
  }

  /** Saving from the form keeps the progress invariant of the edited record. */
  lemma SubjectRecordKeepsProgress(form: SubjectForm, editing: Option<Subject>, freshId: string)
    requires editing.Some? ==> ProgressConsistent(editing.value)
    ensures ProgressConsistent(SubjectRecord(form, editing, freshId))
    ensures editing.Some? ==> ParseContentModules(SubjectRecord(form, editing, freshId).contentModules)
                               == ParseContentModules(editing.value.contentModules)
  {
  }

  /** The guard and the choice of call in `handleCreateOrUpdateSubject`. */
  function SubjectSave(form: SubjectForm, editing: Option<Subject>, freshId: string): (w: Option<Write<Subject>>)
    ensures form.subjectName == "" <==> w.None?
    ensures w.Some? ==>
      && (w.value.Update? <==> editing.Some?) && !w.value.Delete?
      && w.value.record == SubjectRecord(form, editing, freshId)
  {
    if form.subjectName == "" then None
    else if editing.Some? then Some(Update(SubjectRecord(form, editing, freshId)))
    else Some(Create(SubjectRecord(form, editing, freshId)))
  }

  // ---------------------------------------------------------------------
  // The page's state

  /** The state of the subjects page that its handlers update. */
  class SubjectsPage {
    var subjects: seq<Subject>
    var studySessions: seq<StudySession>
    var logbookEntries: seq<LogbookEntry>
    var pinned: seq<string>
    /** The `pinnedSubjects` key of local storage. */
    var storedPins: Option<seq<string>>
    var activeTab: string
    var form: SubjectForm
    var editing: Option<Subject>
    var isDialogOpen: bool
    var managing: Option<Subject>
    var modules: seq<ContentModule>
    var newModuleTitle: string
    var newModuleDescription: string
    var isContentDialogOpen: bool

    /** Mounting the page: the fetched lists, then `loadPinnedSubjects`. */
    constructor (subjects: seq<Subject>, sessions: seq<StudySession>, entries: seq<LogbookEntry>, stored: Option<seq<string>>)
      ensures this.subjects == subjects && studySessions == sessions && logbookEntries == entries
      ensures storedPins == stored
      ensures pinned == if stored.Some? then stored.value else []
      ensures activeTab == "all" && form == EmptySubjectForm && editing.None? && managing.None?
      ensures modules == [] && newModuleTitle == "" && newModuleDescription == ""
      ensures !isDialogOpen && !isContentDialogOpen
    {
      this.subjects := subjects;
      studySessions := sessions;
      logbookEntries := entries;
      storedPins := stored;
      pinned := if stored.Some? then stored.value else [];
      activeTab := "all";
      form := EmptySubjectForm;
      editing := None;
      isDialogOpen := false;
      managing := None;
      modules := [];
      newModuleTitle := "";
      newModuleDescription := "";
      isContentDialogOpen := false;
    }

    /** `loadPinnedSubjects`: a stored list replaces the pinned list. */
    method LoadPinned()
      modifies this`pinned
      ensures pinned == if storedPins.Some? then storedPins.value else old(pinned)
    {
      if storedPins.Some? {
        pinned := storedPins.value;
      }
    }

    /** `savePinnedSubjects` */
    method SavePinned(newPinned: seq<string>)
      modifies this`pinned, this`storedPins
      ensures pinned == newPinned && storedPins == Some(newPinned)
    {
      storedPins := Some(newPinned);
      pinned := newPinned;
    }

    /** `handleTogglePin`; the list is written to storage, so a reload reads it back. */
    method TogglePin(id: string)
      modifies this`pinned, this`storedPins
      ensures pinned == TogglePinned(old(pinned), id)
      ensures storedPins == Some(pinned)
    {
      var newPinned: seq<string>;
      if id in pinned {
        newPinned := Unpin(pinned, id);
      } else {
        newPinned := pinned + [id];
      }
      SavePinned(newPinned);
    }

    /** `handleDeleteSubject`: nothing without confirmation; otherwise the
        delete call, and when it succeeds the id leaves the pinned list. */
    method DeleteSubject(id: string, confirmed: bool, deleted: bool) returns (w: Option<Write<Subject>>)
      modifies this`pinned, this`storedPins
      ensures w == if confirmed then Some(Delete(id)) else None
      ensures confirmed && deleted ==> pinned == Unpin(old(pinned), id) && storedPins == Some(pinned)
      ensures !(confirmed && deleted) ==> pinned == old(pinned) && storedPins == old(storedPins)
    {
      w := None;
      if confirmed {
        w := Some(Delete(id));
        if deleted {
          SavePinned(Unpin(pinned, id));
        }
      }
    }

    /** `handleManageContent` */
    method ManageContent(subject: Subject)
      modifies this`managing, this`modules, this`isContentDialogOpen
      ensures managing == Some(subject) && modules == ParseContentModules(subject.contentModules)
      ensures isContentDialogOpen
    {
      managing := Some(subject);
      modules := ParseContentModules(subject.contentModules);
      isContentDialogOpen := true;
    }

    /** `handleAddModule`, with the id `crypto.randomUUID` would give. */
    method AddModule(freshId: string)
      modifies this`modules, this`newModuleTitle, this`newModuleDescription
      ensures modules == ModulesAfterAdd(old(modules), freshId, old(newModuleTitle), old(newModuleDescription))
      ensures Blank(old(newModuleTitle)) ==>
        newModuleTitle == old(newModuleTitle) && newModuleDescription == old(newModuleDescription)
      ensures !Blank(old(newModuleTitle)) ==> newModuleTitle == "" && newModuleDescription == ""
    {
      if Blank(newModuleTitle) {
        return;
      }
      var m := ContentModule(freshId, newModuleTitle, newModuleDescription, false, |modules| + 1);
      modules := modules + [m];
      newModuleTitle := "";
      newModuleDescription := "";
    }

    /** `handleToggleModuleCompletion` */
    method ToggleModuleCompletion(id: string)
      modifies this`modules
      ensures modules == ModulesAfterToggle(old(modules), id)
    {
      modules := Map(modules, ToggleIfId(id));
    }

    /** `handleDeleteModule` */
    method DeleteModule(id: string)
      modifies this`modules
      ensures modules == ModulesAfterDelete(old(modules), id)
    {
      modules := Filter(modules, HasOtherId(id));
    }

    /** `handleSaveContent`: writes the progress record of the managed
        subject (found by id among the fetched subjects) and closes the dialog. */
    method SaveContent() returns (w: Option<Write<Subject>>)
      modifies this`managing, this`modules, this`isContentDialogOpen
      ensures old(managing).None? ==>
        && w.None? && managing == old(managing)
        && modules == old(modules) && isContentDialogOpen == old(isContentDialogOpen)
      ensures old(managing).Some? ==>
        && w == ProgressUpdate(subjects, old(managing).value.id, old(modules))
        && managing.None? && modules == [] && !isContentDialogOpen
    {
      if managing.None? {
        return None;
      }
      w := ProgressUpdate(subjects, managing.value.id, modules);
      isContentDialogOpen := false;
      managing := None;
      modules := [];
    }

    /** `handleEditSubject`: loads the form, with '' for missing text,
        `?? true` for the active flag and `|| 1` for the difficulty. */
    method EditSubject(subject: Subject)
      modifies this`editing, this`form, this`isDialogOpen
      ensures editing == Some(subject) && isDialogOpen
      ensures form == SubjectForm(
        subject.subjectName.GetOr(""), subject.subjectCode.GetOr(""),
        subject.description.GetOr(""), subject.subjectImage.GetOr(""),
        subject.studyMaterialsLink.GetOr(""), subject.additionalResourcesLink.GetOr(""),
        subject.isActive.GetOr(true), Difficulty(subject))
    {
      editing := Some(subject);
      form := SubjectForm(
        subject.subjectName.GetOr(""), subject.subjectCode.GetOr(""),
        subject.description.GetOr(""), subject.subjectImage.GetOr(""),
        subject.studyMaterialsLink.GetOr(""), subject.additionalResourcesLink.GetOr(""),
        subject.isActive.GetOr(true), Difficulty(subject));
      isDialogOpen := true;
    }

    /** `handleCreateOrUpdateSubject`: the guarded call; when the backend
        accepts it the form is reset and the dialog closed. */
    method CreateOrUpdateSubject(freshId: string, saved: bool) returns (w: Option<Write<Subject>>)
      modifies this`form, this`editing, this`isDialogOpen
      ensures w == SubjectSave(old(form), old(editing), freshId)
      ensures w.Some? && saved ==> form == EmptySubjectForm && editing.None? && !isDialogOpen
      ensures !(w.Some? && saved) ==>
        form == old(form) && editing == old(editing) && isDialogOpen == old(isDialogOpen)
    {
      w := SubjectSave(form, editing, freshId);
      if w.Some? && saved {
        form := EmptySubjectForm;
        editing := None;
        isDialogOpen := false;
      }
    }

    /** `getFilteredSubjects`. On a tab without a filter `filtered` is the
        subjects array itself, so the in-place sort reorders the page's list. */
    method GetFilteredSubjects() returns (r: seq<Subject>)
      modifies this`subjects
      ensures r == FilteredSubjects(old(subjects), activeTab, pinned)
      ensures subjects == if IsFilterTab(activeTab) then old(subjects) else r
    {
      var filtered: seq<Subject>;
      var aliased := false;
      if IsFilterTab(activeTab) {
        filtered := Filter(subjects, TabPredicate(activeTab, pinned));
      } else {
        filtered := subjects;
        aliased := true;
      }
      if activeTab != "pinned" {
        filtered := SortBy(filtered, PinKey(pinned));
        if aliased {
          subjects := filtered;
        }
      }
      r := filtered;
    }
  }
}
