/**
 * The due-dates page: for each completed study a user may keep one row (submission type,
 * due date, reminder flag, last update time). The rows live in a dictionary keyed by study
 * id and are written back, newest update first, under a key derived from the user's email;
 * a guest never writes.
 */
module DueDates {
  import opened Wrappers
  import opened Text
  import opened Collections
  import opened Study
  import StudiesPage
  import AppProvider

  datatype SubmissionType = Test | Exam | Lab | Assignment | Project | Other

  datatype DueDateRow = DueDateRow(
    studyId: string, submissionType: SubmissionType, dueDate: string, notify: bool, updatedAt: int)

  /** What a control changes: any of the three editable fields. */
  datatype Patch = Patch(submissionType: Option<SubmissionType>, dueDate: Option<string>, notify: Option<bool>)

  /** What is stored under a due-dates key: an array of rows, any other JSON value, the
      empty text, or text `JSON.parse` rejects. */
  datatype DueStored = DueArray(rows: seq<DueDateRow>) | OtherDueJson | EmptyDueText | MalformedDue

  /** `dueKeyForUser`. */
  function DueKey(email: string): string {
    "studywiz_due_dates_v1__" + Normalize(email)
  }

  /** Two users share due dates exactly when their emails have the same normal form. */
  lemma DueKeyInjective(e1: string, e2: string)
    ensures DueKey(e1) == DueKey(e2) <==> Normalize(e1) == Normalize(e2)
  {
    if DueKey(e1) == DueKey(e2) {
      PrefixCancel("studywiz_due_dates_v1__", Normalize(e1), Normalize(e2));
    }
  }

  // ---------------------------------------------------------------------------------
  // Loading

  /** The row a list ends up holding for a study id under `map[row.studyId] = row`: the
      last row with that id. */
  function RowsToMap(rows: seq<DueDateRow>): (m: map<string, DueDateRow>)
    ensures forall k :: k in m <==> exists i :: 0 <= i < |rows| && rows[i].studyId == k
    ensures forall k :: k in m ==> m[k].studyId == k
  {
    if rows == [] then map[]
    else
      var m0 := RowsToMap(rows[..|rows| - 1]);
      var last := rows[|rows| - 1];
      assert forall i :: 0 <= i < |rows| - 1 ==> rows[..|rows| - 1][i] == rows[i];
      m0[last.studyId := last]
  }

  /** Whatever comes earlier, the last row with an id is the one the map keeps. */
  lemma {:induction false} RowsToMapLaterWins(rows: seq<DueDateRow>, i: nat)
    requires i < |rows|
    requires forall j :: i < j < |rows| ==> rows[j].studyId != rows[i].studyId
    ensures RowsToMap(rows)[rows[i].studyId] == rows[i]
  {
    if i < |rows| - 1 {
      var front := rows[..|rows| - 1];
      assert front[i] == rows[i];
      assert forall j :: i < j < |front| ==> front[j] == rows[j];
      RowsToMapLaterWins(front, i);
    }
  }

  /** The rows a stored value yields: the stored array, or none. */
  function StoredRows(v: Option<DueStored>): (rows: seq<DueDateRow>)
    ensures v.Some? && v.value.DueArray? ==> rows == v.value.rows
    ensures !(v.Some? && v.value.DueArray?) ==> rows == []
  {
    if v.Some? && v.value.DueArray? then v.value.rows else []
  }

  /** The loading loop: each row in turn is written under its study id. */
  method BuildRowMap(rows: seq<DueDateRow>) returns (m: map<string, DueDateRow>)
    ensures m == RowsToMap(rows)
  {
    m := map[];
    for i := 0 to |rows|
      invariant m == RowsToMap(rows[..i])
    {
      assert rows[..i + 1][..i] == rows[..i];
      m := m[rows[i].studyId := rows[i]];
    }
    assert rows[..|rows|] == rows;
  }

  // ---------------------------------------------------------------------------------
  // Editing

  /** `updateRow`'s new row: the patch's fields, else the previous row's, else the
      defaults "Assignment", no date and no reminder; always stamped with `now`. */
  function PatchedRow(prev: Option<DueDateRow>, studyId: string, patch: Patch, now: int): (r: DueDateRow)
    ensures r.studyId == studyId && r.updatedAt == now
    ensures r.submissionType ==
              if patch.submissionType.Some? then patch.submissionType.value
              else if prev.Some? then prev.value.submissionType else Assignment
    ensures r.dueDate ==
              if patch.dueDate.Some? then patch.dueDate.value
              else if prev.Some? then prev.value.dueDate else ""
    ensures r.notify ==
              if patch.notify.Some? then patch.notify.value
              else if prev.Some? then prev.value.notify else false
  {
    var base := if prev.Some? then prev.value else DueDateRow(studyId, Assignment, "", false, 0);
    DueDateRow(
      studyId,
      if patch.submissionType.Some? then patch.submissionType.value else base.submissionType,
      if patch.dueDate.Some? then patch.dueDate.value else base.dueDate,
      if patch.notify.Some? then patch.notify.value else base.notify,
      now)
  }

  /** An empty patch only refreshes the time; patching a patched row with a later patch
      keeps the first patch's fields the second one leaves out. */
  lemma PatchedRowFacts(prev: Option<DueDateRow>, studyId: string, p1: Patch, p2: Patch, t1: int, t2: int)
    ensures prev.Some? && prev.value.studyId == studyId ==>
              PatchedRow(prev, studyId, Patch(None, None, None), t1) == prev.value.(updatedAt := t1)
    ensures var r2 := PatchedRow(Some(PatchedRow(prev, studyId, p1, t1)), studyId, p2, t2);
            (p2.dueDate.None? && p1.dueDate.Some? ==> r2.dueDate == p1.dueDate.value)
            && (p2.notify.None? && p1.notify.Some? ==> r2.notify == p1.notify.value)
            && (p2.submissionType.None? && p1.submissionType.Some? ==> r2.submissionType == p1.submissionType.value)
  {
  }

  // ---------------------------------------------------------------------------------
  // Completed and filtered studies

  /** `filteredStudies`: every completed study for a blank query; otherwise those whose
      summary, topics or courses contain the lower-cased query. */
  predicate MentionsQuery(s: SavedStudy, text: string) {
    Contains(ToLower(s.summary), text) || Contains(ToLower(s.selection.topicsText), text)
    || Contains(ToLower(s.selection.coursesText), text)
  }

  function Mentions(text: string): SavedStudy -> bool {
    s => MentionsQuery(s, text)
  }

  /** A study is listed under a normalised query when it is completed and the query is
      blank or it mentions the query. */
  predicate ShownFor(s: SavedStudy, text: string) {
    StudiesPage.IsCompleted(s) && (text == "" || MentionsQuery(s, text))
  }

  function Shown(text: string): SavedStudy -> bool {
    s => ShownFor(s, text)
  }

  function FilteredStudies(q: string, list: seq<SavedStudy>): (r: seq<SavedStudy>)
    ensures Normalize(q) == "" ==> r == StudiesPage.CompletedStudies(list)
    ensures r == Filter(list, Shown(Normalize(q)))
    ensures forall i :: 0 <= i < |r| ==>
              r[i] in list && StudiesPage.IsCompleted(r[i]) && (Normalize(q) != "" ==> MentionsQuery(r[i], Normalize(q)))
    ensures forall i :: (0 <= i < |list| && StudiesPage.IsCompleted(list[i])
                         && (Normalize(q) == "" || MentionsQuery(list[i], Normalize(q)))) ==> list[i] in r
  {
    var completed := StudiesPage.CompletedStudies(list);
    var text := Normalize(q);
    assert Filter(list, Shown(text)) == if text == "" then completed else Filter(completed, Mentions(text)) by {
      if text == "" {
        FilterFilter(list, StudiesPage.Completed(), Shown(text), Shown(text));
        FilterAllKept(completed, Shown(text));
      } else {
        FilterFilter(list, StudiesPage.Completed(), Mentions(text), Shown(text));
      }
    }
    if text == "" then completed else Filter(completed, Mentions(text))
  }

  /** `openStudy`: the first completed study with the open id, and nothing when no id is
      open or no completed study has it. */
  function OpenStudy(openId: Option<string>, list: seq<SavedStudy>): (r: Option<SavedStudy>)
    ensures r.Some? <==> openId.Some? && openId.value != "" && HasId(StudiesPage.CompletedStudies(list), openId.value)
    ensures r.Some? ==> r.value.id == openId.value && r.value in list && StudiesPage.IsCompleted(r.value)
    ensures r.Some? ==>
              r.value == StudiesPage.CompletedStudies(list)[IndexOfId(StudiesPage.CompletedStudies(list), openId.value)]
  {
    if openId.None? || openId.value == "" then None
    else
      var completed := StudiesPage.CompletedStudies(list);
      var found := FindById(completed, openId.value);
      if found.Some? then
        assert found.value in completed;
        found
      else None
  }

  // ---------------------------------------------------------------------------------
  // The page

  function UpdatedAt(r: DueDateRow): int {
    r.updatedAt
  }

  /** Every row of the dictionary sits under its own study id, as `map[row.studyId] = row`
      and `updateRow` leave it. */
  predicate KeyedById(m: map<string, DueDateRow>) {
    forall k :: k in m ==> m[k].studyId == k
  }

  /** What `persist` writes for a dictionary: its rows, newest update first, as many as it
      has keys, and each once when every row sits under its own id. */
  ghost predicate Written(next: map<string, DueDateRow>, w: seq<DueDateRow>) {
    SortedDesc(w, UpdatedAt) && |w| == |next.Keys|
    && (forall r :: r in w <==> exists k :: k in next && next[k] == r)
    && (KeyedById(next) ==> Distinct(w))
  }

  /** `Object.values(next).sort((a, b) => b.updatedAt - a.updatedAt)`: every row of the
      dictionary once, newest update first. */
  method SortedRows(next: map<string, DueDateRow>) returns (written: seq<DueDateRow>)
    ensures Written(next, written)
  {
    var ks, vs := ValuesOf(next);
    written := SortDesc(vs, UpdatedAt);
    SortDescMembers(vs, UpdatedAt);
    ValuesMembers(next, ks, vs);
    if KeyedById(next) {
      assert Distinct(vs) by {
        forall i, j | 0 <= i < j < |vs| ensures vs[i] != vs[j] {
          assert vs[i].studyId == ks[i] && vs[j].studyId == ks[j];
        }
      }
      DistinctOfMultiset(vs, written);
    }
  }

  class DueDatesPage {
    const app: AppProvider.Provider
    var dueRows: map<string, DueDateRow>
    var q: string
    var openStudyId: Option<string>
    var storage: map<string, DueStored>

    constructor(app: AppProvider.Provider, st: map<string, DueStored>)
      ensures this.app == app && storage == st && dueRows == map[] && q == "" && openStudyId.None?
    {
      this.app := app;
      dueRows := map[];
      q := "";
      openStudyId := None;
      storage := st;
    }

    predicate HasUser()
      reads app
    {
      app.user.Some? && app.user.value.email != ""
    }

    /** The load effect: without a user the rows and the popup are cleared; with one the
        stored list is read into the dictionary. Text `JSON.parse` rejects makes the
        effect fail, leaving the rows as they were. */
    method LoadRows() returns (ok: bool)
      modifies this`dueRows, this`openStudyId
      ensures !HasUser() ==> ok && dueRows == map[] && openStudyId.None?
      ensures HasUser() ==>
                (var key := DueKey(app.user.value.email);
                 (ok <==> !(key in storage && storage[key].MalformedDue?))
                 && openStudyId == old(openStudyId)
                 && (ok ==> dueRows == RowsToMap(StoredRows(if key in storage then Some(storage[key]) else None))
                            && KeyedById(dueRows))
                 && (!ok ==> dueRows == old(dueRows)))
    {
      if !HasUser() {
        dueRows := map[];
        openStudyId := None;
        return true;
      }
      var key := DueKey(app.user.value.email);
      if key in storage && storage[key].MalformedDue? {
        return false;
      }
      var raw := if key in storage then Some(storage[key]) else None;
      dueRows := BuildRowMap(StoredRows(raw));
      return true;
    }

    /** `persist`: the dictionary becomes the rows; with a user its values are written,
        newest update first, under the user's key; a guest writes nothing. */
    method Persist(next: map<string, DueDateRow>) returns (written: seq<DueDateRow>)
      modifies this`dueRows, this`storage
      ensures dueRows == next
      ensures !HasUser() ==> storage == old(storage) && written == []
      ensures HasUser() ==>
                storage == old(storage)[DueKey(app.user.value.email) := DueArray(written)] && Written(next, written)
    {
      dueRows := next;
      if !HasUser() {
        return [];
      }
      written := SortedRows(next);
      storage := storage[DueKey(app.user.value.email) := DueArray(written)];
    }

    /** `updateRow`: the patched row replaces that study's row; every other row stays. */
    method UpdateRow(studyId: string, patch: Patch, now: int)
      modifies this`dueRows, this`storage
      ensures dueRows == old(dueRows)[studyId :=
                PatchedRow(if studyId in old(dueRows) then Some(old(dueRows)[studyId]) else None, studyId, patch, now)]
      ensures KeyedById(old(dueRows)) ==> KeyedById(dueRows)
      ensures !HasUser() ==> storage == old(storage)
      ensures HasUser() ==>
                exists w :: Written(dueRows, w) && storage == old(storage)[DueKey(app.user.value.email) := DueArray(w)]
    {
      var prev := if studyId in dueRows then Some(dueRows[studyId]) else None;
      var row := PatchedRow(prev, studyId, patch, now);
      var w := Persist(dueRows[studyId := row]);
    }

    /** `clearRow`: once confirmed, that study's row goes and the popup closes if it was
        open on that study. */
    method ClearRow(studyId: string, confirmed: bool)
      modifies this`dueRows, this`storage, this`openStudyId
      ensures !confirmed ==> dueRows == old(dueRows) && storage == old(storage) && openStudyId == old(openStudyId)
      ensures confirmed ==> dueRows == old(dueRows) - {studyId}
      ensures confirmed ==> openStudyId == if old(openStudyId) == Some(studyId) then None else old(openStudyId)
      ensures KeyedById(old(dueRows)) ==> KeyedById(dueRows)
      ensures !HasUser() ==> storage == old(storage)
      ensures confirmed && HasUser() ==>
                exists w :: Written(dueRows, w) && storage == old(storage)[DueKey(app.user.value.email) := DueArray(w)]
    {
      if !confirmed {
        return;
      }
      var w := Persist(dueRows - {studyId});
      if openStudyId == Some(studyId) {
        openStudyId := None;
      }
    }
  }
}
