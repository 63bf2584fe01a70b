/**
 * The selection bar: editing the current selection one field at a time, the two summaries
 * it shows, the save and reset buttons, the guest's own list of saved selections (kept in
 * one storage slot and capped at fifty), and the search over saved studies.
 */
module StudyControlsBar {
  import opened Wrappers
  import opened Text
  import opened Collections
  import opened Study
  import AppProvider

  // ---------------------------------------------------------------------------------
  // Coercions from stored values

  function TopicModeName(m: TopicMode): string {
    match m
    case Single => "Single"
    case Multiple => "Multiple"
  }

  /** `asTimeFrame`: one of the three time-frame literals, or `null`. A value that is not a
      string is `None` here. */
  function AsTimeFrame(v: Option<string>): (r: Option<TimeFrame>)
    ensures r.Some? <==> v.Some? && (v.value == "1 Day" || v.value == "1 Week" || v.value == "1 Month")
    ensures r.Some? ==> TimeFrameLabel(r.value) == v.value
  {
    if v == Some("1 Day") then Some(OneDay)
    else if v == Some("1 Week") then Some(OneWeek)
    else if v == Some("1 Month") then Some(OneMonth)
    else None
  }

  /** `asTopicMode`: `"Single"`, `"Multiple"`, or `null`. */
  function AsTopicMode(v: Option<string>): (r: Option<TopicMode>)
    ensures r.Some? <==> v.Some? && (v.value == "Single" || v.value == "Multiple")
    ensures r.Some? ==> TopicModeName(r.value) == v.value
  {
    if v == Some("Single") then Some(Single)
    else if v == Some("Multiple") then Some(Multiple)
    else None
  }

  /** `asPriority`: one of the three priority literals, or `null`. */
  function AsPriority(v: Option<string>): (r: Option<Priority>)
    ensures r.Some? <==> v.Some? && (v.value == "Priority 1" || v.value == "Priority 2" || v.value == "Priority 3")
    ensures r.Some? ==> PriorityLabel(r.value) == v.value
  {
    if v == Some("Priority 1") then Some(Priority1)
    else if v == Some("Priority 2") then Some(Priority2)
    else if v == Some("Priority 3") then Some(Priority3)
    else None
  }

  /** The literal a typed value is held as, or `None` for `null`. */
  function TimeFrameText(t: Option<TimeFrame>): Option<string> {
    if t.Some? then Some(TimeFrameLabel(t.value)) else None
  }

  function TopicModeText(m: Option<TopicMode>): Option<string> {
    if m.Some? then Some(TopicModeName(m.value)) else None
  }

  function PriorityText(p: Option<Priority>): Option<string> {
    if p.Some? then Some(PriorityLabel(p.value)) else None
  }

  /** Each coercion gives back the value whose literal it reads. */
  lemma CoercionsRoundTrip(t: Option<TimeFrame>, m: Option<TopicMode>, p: Option<Priority>)
    ensures AsTimeFrame(TimeFrameText(t)) == t
    ensures AsTopicMode(TopicModeText(m)) == m
    ensures AsPriority(PriorityText(p)) == p
  {
    if t.Some? {
      match t.value
      case OneDay => assert TimeFrameText(t) == Some("1 Day");
      case OneWeek => assert TimeFrameText(t) == Some("1 Week");
      case OneMonth => assert TimeFrameText(t) == Some("1 Month");
    }
    if m.Some? {
      match m.value
      case Single => assert TopicModeText(m) == Some("Single");
      case Multiple => assert TopicModeText(m) == Some("Multiple");
    }
    if p.Some? {
      match p.value
      case Priority1 => assert PriorityText(p) == Some("Priority 1");
      case Priority2 => assert PriorityText(p) == Some("Priority 2");
      case Priority3 => assert PriorityText(p) == Some("Priority 3");
    }
  }

  // ---------------------------------------------------------------------------------
  // Predicates on the current selection

  /** `canSave`: a time frame, a topic mode and a priority, and at least two topics when
      the mode is Multiple. */
  predicate CanSave(sel: StudySelection) {
    sel.timeFrame.Some? && sel.topicMode.Some? && sel.priority.Some?
    && (sel.topicMode != Some(Multiple) || (sel.topicCount.Some? && sel.topicCount.value >= 2))
  }

  /** The bar's guard and the provider's ordered validation accept the same selections. */
  lemma CanSaveIffNoSelectionError(sel: StudySelection)
    ensures CanSave(sel) <==> SelectionError(sel).None?
  {
  }

  /** `hasAnyInput`: some field is set; the topic and course texts count only when they are
      not blank. */
  predicate HasAnyInput(sel: StudySelection) {
    sel.timeFrame.Some? || sel.startDate != "" || sel.endDate != "" || sel.topicMode.Some?
    || sel.topicCount.Some? || !IsBlank(sel.topicsText) || !IsBlank(sel.coursesText) || sel.priority.Some?
  }

  /** A selection that can be saved has input; the cleared selection has none. */
  lemma HasAnyInputFacts(sel: StudySelection)
    ensures CanSave(sel) ==> HasAnyInput(sel)
    ensures !HasAnyInput(EmptySelection)
    ensures !HasAnyInput(sel) ==> SummaryParts(sel) == [] && BuildSummary(sel) == Untitled
  {
    if !HasAnyInput(sel) {
      NoInputNoParts(sel);
    }
  }

  lemma NoInputNoParts(sel: StudySelection)
    requires !HasAnyInput(sel)
    ensures SummaryParts(sel) == []
  {
    assert IsBlank(sel.topicsText);
    var topics := ShortTopics(sel.topicsText);
    assert topics == [];
    assert sel.timeFrame.None? && sel.topicMode.None? && sel.priority.None?;
    assert sel.startDate == "" && sel.endDate == "";
  }

  // ---------------------------------------------------------------------------------
  // The two summaries

  function ModePart(sel: StudySelection): string {
    if sel.topicMode.Some? then ModeLabel(sel.topicMode.value, sel.topicCount) else "No mode"
  }

  /** The four parts of `selectionSummary`, each with its placeholder. */
  function SelectionSummaryParts(sel: StudySelection): (parts: seq<string>)
    ensures |parts| == 4
    ensures parts[0] == if sel.timeFrame.Some? then TimeFrameLabel(sel.timeFrame.value) else "No time frame"
    ensures parts[1] == if sel.startDate != "" || sel.endDate != "" then DatePart(sel.startDate, sel.endDate) else "No dates"
    ensures parts[2] == ModePart(sel)
    ensures parts[3] == if sel.priority.Some? then PriorityLabel(sel.priority.value) else "No priority"
  {
    [ if sel.timeFrame.Some? then TimeFrameLabel(sel.timeFrame.value) else "No time frame",
      if sel.startDate != "" || sel.endDate != "" then DatePart(sel.startDate, sel.endDate) else "No dates",
      ModePart(sel),
      if sel.priority.Some? then PriorityLabel(sel.priority.value) else "No priority" ]
  }

  /** `selectionSummary`: the four parts joined by `" | "`. */
  function SelectionSummary(sel: StudySelection): string {
    Join(SelectionSummaryParts(sel), " | ")
  }

  /** The bar's summary always begins with the time-frame part and separates its parts. */
  lemma SelectionSummaryShape(sel: StudySelection)
    ensures SelectionSummaryParts(sel)[0] <= SelectionSummary(sel)
    ensures Contains(SelectionSummary(sel), " | ")
  {
    var parts := SelectionSummaryParts(sel);
    JoinStartsWithFirst(parts, " | ");
    JoinHasSeparator(parts, " | ");
    assert OccursAt(SelectionSummary(sel), " | ", |parts[0]|);
    ContainsIff(SelectionSummary(sel), " | ");
  }

  /** The summary of a selection with nothing chosen names every placeholder. */
  lemma SelectionSummaryOfEmpty()
    ensures SelectionSummaryParts(EmptySelection) == ["No time frame", "No dates", "No mode", "No priority"]
  {
  }

  /** The topics a guest summary shows: the first three items of the comma list. */
  function GuestTopics(topicsText: string): (r: seq<string>)
    ensures |r| <= 3 && r <= TopicItems(topicsText)
    ensures |r| == if |TopicItems(topicsText)| < 3 then |TopicItems(topicsText)| else 3
    ensures r == [] <==> TopicItems(topicsText) == []
  {
    Take(TopicItems(topicsText), 3)
  }

  function TopicPart(topicsText: string): string {
    var topics := GuestTopics(topicsText);
    if topics != [] then "Topics: " + Join(topics, ", ") else "Topics: none"
  }

  /** `buildGuestSummary`: time frame, mode, priority and topics, each with a placeholder. */
  function GuestSummaryParts(sel: StudySelection): (parts: seq<string>)
    ensures |parts| == 4
    ensures parts[3] == TopicPart(sel.topicsText)
  {
    [ if sel.timeFrame.Some? then TimeFrameLabel(sel.timeFrame.value) else "No time frame",
      ModePart(sel),
      if sel.priority.Some? then PriorityLabel(sel.priority.value) else "No priority",
      TopicPart(sel.topicsText) ]
  }

  /** The first three parts of a guest summary: time frame, mode and priority, each
      replaced by its placeholder when unset. */
  lemma GuestSummaryLayout(sel: StudySelection)
    ensures GuestSummaryParts(sel)[0] ==
              if sel.timeFrame.Some? then TimeFrameLabel(sel.timeFrame.value) else "No time frame"
    ensures GuestSummaryParts(sel)[1] ==
              if sel.topicMode.Some? then ModeLabel(sel.topicMode.value, sel.topicCount) else "No mode"
    ensures GuestSummaryParts(sel)[2] == if sel.priority.Some? then PriorityLabel(sel.priority.value) else "No priority"
  {
  }

  function BuildGuestSummary(sel: StudySelection): string {
    Join(GuestSummaryParts(sel), " | ")
  }

  /** With no non-empty topic the guest summary ends with "Topics: none"; otherwise it ends
      with the first three topics, or all of them when there are fewer. */
  lemma GuestSummaryTopics(sel: StudySelection)
    ensures TopicItems(sel.topicsText) == [] ==> GuestSummaryParts(sel)[3] == "Topics: none"
    ensures TopicItems(sel.topicsText) != [] ==>
              GuestSummaryParts(sel)[3] == "Topics: " + Join(Take(TopicItems(sel.topicsText), 3), ", ")
  {
  }

  // ---------------------------------------------------------------------------------
  // Guest saves

  /** A selection the guest saved; kept apart from the provider's saved studies. */
  datatype GuestSavedStudy = GuestSavedStudy(id: string, summary: string, selection: StudySelection, savedAt: int)

  /** What the guest slot of storage holds, as `JSON.parse` reads it. */
  datatype GuestStored = GuestArray(items: seq<GuestSavedStudy>) | OtherGuestJson | EmptyGuestText | MalformedGuestText

  /** The guest list read from storage: the stored array, else empty. */
  function GuestListFrom(slot: Option<GuestStored>): (r: seq<GuestSavedStudy>)
    ensures slot.Some? && slot.value.GuestArray? ==> r == slot.value.items
    ensures !(slot.Some? && slot.value.GuestArray?) ==> r == []
  {
    if slot.Some? && slot.value.GuestArray? then slot.value.items else []
  }

  /** The selection a guest record stores, passed through the coercions. */
  function GuestSelectionOf(sel: StudySelection): (r: StudySelection)
    ensures r == sel
  {
    CoercionsRoundTrip(sel.timeFrame, sel.topicMode, sel.priority);
    StudySelection(
      AsTimeFrame(TimeFrameText(sel.timeFrame)), sel.startDate, sel.endDate,
      AsTopicMode(TopicModeText(sel.topicMode)), sel.topicCount, sel.topicsText, sel.coursesText,
      AsPriority(PriorityText(sel.priority)))
  }

  /** The record `saveSelectionAsGuest` makes: its summary, the coerced selection (which is
      the selection itself) and the time. */
  function GuestRecord(id: string, sel: StudySelection, now: int): (r: GuestSavedStudy)
    ensures r.id == id && r.selection == sel && r.savedAt == now
    ensures r.summary == BuildGuestSummary(sel)
  {
    GuestSavedStudy(id, BuildGuestSummary(sel), GuestSelectionOf(sel), now)
  }

  const GuestCap := 50

  /** `[next, ...list].slice(0, 50)`: the new record first, then as many older ones, in
      their order, as fit under the cap. */
  function GuestListAfterSave(list: seq<GuestSavedStudy>, next: GuestSavedStudy): (r: seq<GuestSavedStudy>)
    ensures |r| == if |list| + 1 < GuestCap then |list| + 1 else GuestCap
    ensures r[0] == next
    ensures forall i :: 1 <= i < |r| ==> r[i] == list[i - 1]
  {
    Take([next] + list, GuestCap)
  }

  // ---------------------------------------------------------------------------------
  // Search

  /** What the search reads of a saved study, whoever saved it. */
  datatype SearchEntry = SearchEntry(id: string, summary: string, topicsText: string, coursesText: string)

  function EntryOfSaved(s: SavedStudy): SearchEntry {
    SearchEntry(s.id, s.summary, s.selection.topicsText, s.selection.coursesText)
  }

  function EntryOfGuest(g: GuestSavedStudy): SearchEntry {
    SearchEntry(g.id, g.summary, g.selection.topicsText, g.selection.coursesText)
  }

  /** The lower-cased summary, topics and courses, space-separated, contain the query. */
  predicate Matches(e: SearchEntry, q: string) {
    Contains(ToLower(e.summary + " " + e.topicsText + " " + e.coursesText), q)
  }

  function MatchesQuery(q: string): SearchEntry -> bool {
    e => Matches(e, q)
  }

  const ResultCap := 6

  /** `filtered`: nothing for a blank query, otherwise the first six entries that match the
      trimmed, lower-cased query, in list order. */
  function Filtered(search: string, list: seq<SearchEntry>): (r: seq<SearchEntry>)
    ensures Normalize(search) == "" ==> r == []
    ensures |r| <= ResultCap
    ensures Normalize(search) != "" ==> r <= Filter(list, MatchesQuery(Normalize(search)))
    ensures Normalize(search) != "" ==>
              |r| == if |Filter(list, MatchesQuery(Normalize(search)))| < ResultCap
                     then |Filter(list, MatchesQuery(Normalize(search)))| else ResultCap
    ensures forall i :: 0 <= i < |r| ==> r[i] in list && Matches(r[i], Normalize(search))
  {
    var q := Normalize(search);
    if q == "" then [] else Take(Filter(list, MatchesQuery(q)), ResultCap)
  }

  /** Entries further down never push earlier matches out: once the front of the list has
      six matches, what follows does not change the results. */
  lemma FilteredIgnoresLaterEntries(search: string, a: seq<SearchEntry>, b: seq<SearchEntry>)
    requires |Filter(a, MatchesQuery(Normalize(search)))| >= ResultCap
    ensures Filtered(search, a + b) == Filtered(search, a)
  {
    TakeFilterAppend(a, b, MatchesQuery(Normalize(search)), ResultCap);
  }

  /** A query found in a study's lower-cased summary finds that study. */
  lemma SummaryHitMatches(e: SearchEntry, q: string)
    requires Contains(ToLower(e.summary), q)
    ensures Matches(e, q)
  {
    var rest := " " + e.topicsText + " " + e.coursesText;
    assert e.summary + " " + e.topicsText + " " + e.coursesText == e.summary + rest;
    var lowered := ToLower(e.summary + rest);
    assert lowered == ToLower(e.summary) + ToLower(rest);
    ContainsIff(ToLower(e.summary), q);
    ContainsIff(lowered, q);
    var i :| OccursAt(ToLower(e.summary), q, i);
    assert lowered[i..i + |q|] == ToLower(e.summary)[i..i + |q|];
    assert OccursAt(lowered, q, i);
  }

  // ---------------------------------------------------------------------------------
  // Selected fields

  /** One field of the selection, with the value a control sets it to. */
  datatype Field =
    | TimeFrameField(timeFrame: Option<TimeFrame>)
    | StartDateField(startDate: string)
    | EndDateField(endDate: string)
    | TopicModeField(topicMode: Option<TopicMode>)
    | TopicCountField(topicCount: Option<int>)
    | TopicsTextField(topicsText: string)
    | CoursesTextField(coursesText: string)
    | PriorityField(priority: Option<Priority>)

  /** `{ ...currentSelection, [key]: value }`: the named field takes the value, every other
      field keeps its own. */
  function WithField(sel: StudySelection, f: Field): (r: StudySelection)
    ensures r.timeFrame == if f.TimeFrameField? then f.timeFrame else sel.timeFrame
    ensures r.startDate == if f.StartDateField? then f.startDate else sel.startDate
    ensures r.endDate == if f.EndDateField? then f.endDate else sel.endDate
    ensures r.topicMode == if f.TopicModeField? then f.topicMode else sel.topicMode
    ensures r.topicCount == if f.TopicCountField? then f.topicCount else sel.topicCount
    ensures r.topicsText == if f.TopicsTextField? then f.topicsText else sel.topicsText
    ensures r.coursesText == if f.CoursesTextField? then f.coursesText else sel.coursesText
    ensures r.priority == if f.PriorityField? then f.priority else sel.priority
  {
    match f
    case TimeFrameField(v) => sel.(timeFrame := v)
    case StartDateField(v) => sel.(startDate := v)
    case EndDateField(v) => sel.(endDate := v)
    case TopicModeField(v) => sel.(topicMode := v)
    case TopicCountField(v) => sel.(topicCount := v)
    case TopicsTextField(v) => sel.(topicsText := v)
    case CoursesTextField(v) => sel.(coursesText := v)
    case PriorityField(v) => sel.(priority := v)
  }

  /** Setting a field a second time to the same value changes nothing more, and a field
      set to the value it already has leaves the selection as it was. */
  lemma WithFieldIdempotent(sel: StudySelection, f: Field)
    ensures WithField(WithField(sel, f), f) == WithField(sel, f)
    ensures (f.TimeFrameField? && f.timeFrame == sel.timeFrame) ==> WithField(sel, f) == sel
  {
  }

  datatype Action = SaveAction | ResetAction

  /** The bar's own state: the guest list and its storage slot, the search text, the
      highlighted action and the toast message, next to the provider it edits. */
  class ControlsBar {
    const app: AppProvider.Provider
    var guestSaved: seq<GuestSavedStudy>
    var guestSlot: Option<GuestStored>
    var search: string
    var activeAction: Option<Action>
    var toastMsg: string

    constructor(app: AppProvider.Provider, slot: Option<GuestStored>)
      ensures this.app == app && guestSlot == slot
      ensures guestSaved == [] && search == "" && activeAction.None? && toastMsg == ""
    {
      this.app := app;
      guestSaved := [];
      guestSlot := slot;
      search := "";
      activeAction := None;
      toastMsg := "";
    }

    /** The effect run when the user changes: a guest's list is read from storage. */
    method LoadGuestSaved()
      modifies this`guestSaved
      ensures app.user.Some? ==> guestSaved == old(guestSaved)
      ensures app.user.None? ==> guestSaved == GuestListFrom(guestSlot)
    {
      if app.user.Some? {
        return;
      }
      guestSaved := GuestListFrom(guestSlot);
    }

    /** `setActive`: clears the highlighted action and sets one field of the selection. */
    method SetActive(f: Field)
      modifies this`activeAction, app`currentSelection
      ensures activeAction.None?
      ensures app.currentSelection == WithField(old(app.currentSelection), f)
    {
      activeAction := None;
      app.SetCurrentSelection(WithField(app.currentSelection, f));
    }

    /** `saveSelectionAsGuest`: nothing is written unless the selection can be saved; then
        a record is put first in the capped list and the list is written back. */
    method SaveSelectionAsGuest(freshId: string, now: int) returns (ok: bool)
      modifies this`guestSaved, this`guestSlot, this`activeAction, this`toastMsg
      ensures ok <==> CanSave(app.currentSelection)
      ensures !ok ==>
                (guestSaved == old(guestSaved) && guestSlot == old(guestSlot)
                 && activeAction == old(activeAction) && toastMsg == "Complete the required selections to save.")
      ensures ok ==> GuestSaved(GuestRecord(freshId, app.currentSelection, now), old(guestSaved))
    {
      var sel := app.currentSelection;
      if !CanSave(sel) {
        toastMsg := "Complete the required selections to save.";
        return false;
      }
      AcceptGuest(GuestRecord(freshId, sel, now));
      return true;
    }

    /** The bar after a guest save: the record first in the capped list, the list written,
        the action and the toast set. */
    ghost predicate GuestSaved(rec: GuestSavedStudy, oldList: seq<GuestSavedStudy>)
      reads this
    {
      guestSaved == GuestListAfterSave(oldList, rec) && guestSlot == Some(GuestArray(guestSaved))
      && activeAction == Some(SaveAction) && toastMsg == "Selection saved as Guest. You can start after login."
    }

    method AcceptGuest(rec: GuestSavedStudy)
      modifies this`guestSaved, this`guestSlot, this`activeAction, this`toastMsg
      ensures GuestSaved(rec, old(guestSaved))
    {
      PushGuest(rec);
      activeAction := Some(SaveAction);
      toastMsg := "Selection saved as Guest. You can start after login.";
    }

    /** Puts a record first in the capped guest list and writes the list to storage. */
    method PushGuest(next: GuestSavedStudy)
      modifies this`guestSaved, this`guestSlot
      ensures guestSaved == GuestListAfterSave(old(guestSaved), next)
      ensures guestSlot == Some(GuestArray(guestSaved))
    {
      guestSaved := GuestListAfterSave(guestSaved, next);
      guestSlot := Some(GuestArray(guestSaved));
    }

    /** The Save button: the bar's guard first, then the guest list or the provider. */
    method OnSave(freshId: string, now: int)
      modifies this`guestSaved, this`guestSlot, this`activeAction, this`toastMsg
      modifies app`savedStudies, app`selectedStudyId
      ensures !CanSave(app.currentSelection) ==>
                (toastMsg == "Complete the required selections to save." && guestSaved == old(guestSaved)
                 && guestSlot == old(guestSlot) && activeAction == old(activeAction)
                 && app.savedStudies == old(app.savedStudies) && app.selectedStudyId == old(app.selectedStudyId))
      ensures CanSave(app.currentSelection) && app.user.Some? ==>
                (app.savedStudies == [SavedStudy(freshId, now, app.currentSelection, BuildSummary(app.currentSelection), 0, 0)]
                                     + old(app.savedStudies)
                 && app.selectedStudyId == Some(freshId) && guestSaved == old(guestSaved)
                 && guestSlot == old(guestSlot) && activeAction == Some(SaveAction) && toastMsg == "Selection is saved. You can start study")
      ensures CanSave(app.currentSelection) && app.user.None? ==>
                (app.savedStudies == old(app.savedStudies) && app.selectedStudyId == old(app.selectedStudyId)
                 && GuestSaved(GuestRecord(freshId, app.currentSelection, now), old(guestSaved)))
    {
      if !CanSave(app.currentSelection) {
        toastMsg := "Complete the required selections to save.";
        return;
      }
      if app.user.None? {
        var _ := SaveSelectionAsGuest(freshId, now);
        return;
      }
      CanSaveIffNoSelectionError(app.currentSelection);
      var ok, _, _ := app.SaveSelection(freshId, now);
      assert ok;
      activeAction := Some(SaveAction);
      toastMsg := "Selection is saved. You can start study";
    }

    /** The search box's change handler: the highlighted action is cleared and the query set. */
    method SetSearch(q: string)
      modifies this`search, this`activeAction
      ensures search == q && activeAction.None?
    {
      activeAction := None;
      search := q;
    }

    /** The Reset button: nothing to reset without input; otherwise the selection is
        cleared, the search emptied and the action highlighted. */
    method OnReset()
      modifies this`search, this`activeAction, this`toastMsg, app`currentSelection, app`selectedStudyId
      ensures !HasAnyInput(old(app.currentSelection)) ==>
                (toastMsg == "Nothing to reset yet." && app.currentSelection == old(app.currentSelection)
                 && app.selectedStudyId == old(app.selectedStudyId) && search == old(search)
                 && activeAction == old(activeAction))
      ensures HasAnyInput(old(app.currentSelection)) ==>
                (app.currentSelection == EmptySelection && app.selectedStudyId.None? && search == ""
                 && activeAction == Some(ResetAction) && toastMsg == "Selection reset.")
    {
      if !HasAnyInput(app.currentSelection) {
        toastMsg := "Nothing to reset yet.";
        return;
      }
      app.ResetSelection();
      search := "";
      activeAction := Some(ResetAction);
      toastMsg := "Selection reset.";
    }

    /** The list the search reads: the provider's studies for a user, the guest's own
        list otherwise. */
    function ListForSearch(): (r: seq<SearchEntry>)
      reads this, app
      ensures app.user.Some? ==> r == MapSeq(app.savedStudies, EntryOfSaved)
      ensures app.user.None? ==> r == MapSeq(guestSaved, EntryOfGuest)
    {
      if app.user.Some? then MapSeq(app.savedStudies, EntryOfSaved) else MapSeq(guestSaved, EntryOfGuest)
    }

    function Results(): (r: seq<SearchEntry>)
      reads this, app
      ensures |r| <= ResultCap
      ensures r == Filtered(search, ListForSearch())
    {
      Filtered(search, ListForSearch())
    }
  }
}
