/**
 * The materials page: the signed-in user's notes, kept newest first in browser storage
 * under a key derived from the email, and the user's files in the on-device library. With
 * no user nothing is loaded and nothing is written.
 */
module Materials {
  import opened Wrappers
  import opened Text
  import opened Collections
  import opened Study
  import opened LibraryDb
  import AppProvider

  // ---------------------------------------------------------------------------------
  // Note titles

  function NotSpace(): char -> bool {
    c => !IsSpace(c)
  }

  /** The characters of a string other than whitespace, in order. */
  function Squeeze(s: string): string {
    Filter(s, NotSpace())
  }

  /** Whitespace adds nothing to `Squeeze`; any other character is kept. */
  lemma {:induction false} SqueezeAppendSpaces(a: string, b: string)
    requires AllSpace(a)
    ensures Squeeze(a + b) == Squeeze(b)
  {
    if a == [] {
      assert a + b == b;
    } else {
      assert (a + b)[1..] == a[1..] + b;
      assert (a + b)[0] == a[0] && !NotSpace()(a[0]);
      SqueezeAppendSpaces(a[1..], b);
    }
  }

  lemma SqueezeCons(c: char, b: string)
    requires !IsSpace(c)
    ensures Squeeze([c] + b) == [c] + Squeeze(b)
  {
    FilterAppend([c], b, NotSpace());
    assert [c][1..] == [];
  }

  lemma AllSpaceAppend(a: string, b: string)
    ensures AllSpace(a + b) <==> AllSpace(a) && AllSpace(b)
  {
    if AllSpace(a + b) {
      forall i | 0 <= i < |a| ensures IsSpace(a[i]) { assert a[i] == (a + b)[i]; }
      forall i | 0 <= i < |b| ensures IsSpace(b[i]) { assert b[i] == (a + b)[|a| + i]; }
    }
  }

  /** The only whitespace is single spaces: no tab or newline, no two in a row. */
  predicate SingleSpaced(r: string) {
    forall i :: 0 <= i < |r| && IsSpace(r[i]) ==> r[i] == ' ' && (i + 1 < |r| ==> !IsSpace(r[i + 1]))
  }

  lemma SingleSpacedCons(c: char, rest: string)
    requires SingleSpaced(rest)
    requires IsSpace(c) ==> c == ' ' && (rest == [] || !IsSpace(rest[0]))
    ensures SingleSpaced([c] + rest)
  {
    var r := [c] + rest;
    forall i | 0 <= i < |r| && IsSpace(r[i]) ensures r[i] == ' ' && (i + 1 < |r| ==> !IsSpace(r[i + 1])) {
      if i > 0 {
        assert r[i] == rest[i - 1];
        if i + 1 < |r| { assert r[i + 1] == rest[i]; }
      } else if i + 1 < |r| {
        assert r[1] == rest[0];
      }
    }
  }

  /** `replace(/\s+/g, " ")`: every run of whitespace becomes one space. The other
      characters stay, in order; the result is blank exactly when the input is; the only
      whitespace left is single spaces. */
  function CollapseSpace(s: string): (r: string)
    ensures Squeeze(r) == Squeeze(s)
    ensures AllSpace(r) <==> AllSpace(s)
    ensures s != [] && !IsSpace(s[0]) ==> r != [] && r[0] == s[0]
    ensures SingleSpaced(r)
    decreases |s|
  {
    if s == [] then []
    else if IsSpace(s[0]) then
      var t := TrimStart(s);
      var k := |s| - |t|;
      assert s == s[..k] + t;
      var rest := CollapseSpace(t);
      SqueezeAppendSpaces(s[..k], t);
      SqueezeAppendSpaces(" ", rest);
      AllSpaceAppend(s[..k], t);
      AllSpaceAppend(" ", rest);
      SingleSpacedCons(' ', rest);
      " " + rest
    else
      var rest := CollapseSpace(s[1..]);
      assert s == [s[0]] + s[1..];
      SqueezeCons(s[0], s[1..]);
      SqueezeCons(s[0], rest);
      AllSpaceAppend([s[0]], s[1..]);
      AllSpaceAppend([s[0]], rest);
      SingleSpacedCons(s[0], rest);
      [s[0]] + rest
  }

  /** A word read so far, as a list: none when it is empty. */
  function Flush(cur: string): seq<string> {
    if cur == "" then [] else [cur]
  }

  /** The words of `s` after the unfinished word `cur`: every maximal run of characters
      other than whitespace, in order. */
  function WordsFrom(s: string, cur: string): seq<string>
    decreases |s|
  {
    if s == [] then Flush(cur)
    else if IsSpace(s[0]) then Flush(cur) + WordsFrom(s[1..], "")
    else WordsFrom(s[1..], cur + [s[0]])
  }

  /** The words of a string, read from its start. */
  function Words(s: string): seq<string> {
    WordsFrom(s, "")
  }

  /** Whitespace before the text adds no word. */
  lemma {:induction false} WordsSkipSpaces(a: string, t: string)
    requires AllSpace(a)
    ensures WordsFrom(a + t, "") == WordsFrom(t, "")
  {
    if a == [] {
      assert a + t == t;
    } else {
      assert (a + t)[0] == a[0] && (a + t)[1..] == a[1..] + t;
      WordsSkipSpaces(a[1..], t);
    }
  }

  /** Whitespace on its own ends the unfinished word and adds no other. */
  lemma WordsOfSpaces(b: string, cur: string)
    requires AllSpace(b)
    ensures WordsFrom(b, cur) == Flush(cur)
  {
    if b != [] {
      WordsSkipSpaces(b[1..], []);
      assert b[1..] + [] == b[1..];
    }
  }

  /** Whitespace after the text adds no word. */
  lemma {:induction false} WordsDropTrailing(t: string, b: string, cur: string)
    requires AllSpace(b)
    ensures WordsFrom(t + b, cur) == WordsFrom(t, cur)
    decreases |t|
  {
    if t == [] {
      assert t + b == b;
      WordsOfSpaces(b, cur);
    } else {
      assert (t + b)[0] == t[0] && (t + b)[1..] == t[1..] + b;
      if IsSpace(t[0]) {
        WordsDropTrailing(t[1..], b, "");
      } else {
        WordsDropTrailing(t[1..], b, cur + [t[0]]);
      }
    }
  }

  lemma {:induction false} CollapseSpaceWordsFrom(s: string, cur: string)
    ensures WordsFrom(CollapseSpace(s), cur) == WordsFrom(s, cur)
    decreases |s|
  {
    if s != [] && IsSpace(s[0]) {
      CollapseSpaceWordsFrom(TrimStart(s), "");
      CollapseRunWords(s, cur);
    } else if s != [] {
      var rest := CollapseSpace(s[1..]);
      assert CollapseSpace(s) == [s[0]] + rest;
      assert ([s[0]] + rest)[1..] == rest;
      CollapseSpaceWordsFrom(s[1..], cur + [s[0]]);
    }
  }

  /** The step of `CollapseSpaceWordsFrom` for a leading run of whitespace, given the words
      of what follows the run. */
  lemma CollapseRunWords(s: string, cur: string)
    requires s != [] && IsSpace(s[0])
    requires WordsFrom(CollapseSpace(TrimStart(s)), "") == WordsFrom(TrimStart(s), "")
    ensures WordsFrom(CollapseSpace(s), cur) == WordsFrom(s, cur)
  {
    var rest := CollapseSpace(TrimStart(s));
    assert CollapseSpace(s) == " " + rest;
    assert (" " + rest)[1..] == rest;
    RunWords(s);
  }

  /** After the first character of a leading run of whitespace, the rest of the run adds
      no word. */
  lemma RunWords(s: string)
    requires s != [] && IsSpace(s[0])
    ensures WordsFrom(s[1..], "") == WordsFrom(TrimStart(s), "")
  {
    var t := TrimStart(s);
    var k := |s| - |t|;
    assert k >= 1 && t == s[k..];
    assert s[1..] == s[1..k] + t;
    assert AllSpace(s[1..k]) by {
      assert forall j :: 0 <= j < k - 1 ==> s[1..k][j] == s[..k][j + 1];
    }
    WordsSkipSpaces(s[1..k], t);
  }

  /** Collapsing whitespace keeps the words: no word is split, joined, added or lost. */
  lemma CollapseSpaceWords(s: string)
    ensures Words(CollapseSpace(s)) == Words(s)
  {
    CollapseSpaceWordsFrom(s, "");
  }

  lemma SingleSpacedSlice(r: string, i: nat, j: nat)
    requires SingleSpaced(r) && i <= j <= |r|
    ensures SingleSpaced(r[i..j])
  {
    var t := r[i..j];
    forall k | 0 <= k < |t| && IsSpace(t[k]) ensures t[k] == ' ' && (k + 1 < |t| ==> !IsSpace(t[k + 1])) {
      assert t[k] == r[i + k];
      if k + 1 < |t| { assert t[k + 1] == r[i + k + 1]; }
    }
  }

  /** On single-spaced text without a space at its end, splitting at spaces finds the
      words; the first piece continues the unfinished word. */
  lemma {:induction false} SplitIsWordsFrom(s: string, cur: string)
    requires SingleSpaced(s)
    requires s == [] || !IsSpace(s[|s| - 1])
    requires cur != "" || (s != [] && !IsSpace(s[0]))
    ensures WordsFrom(s, cur) == [cur + Split(s, ' ')[0]] + Split(s, ' ')[1..]
    decreases |s|
  {
    if s == [] {
      assert cur + "" == cur && Split(s, ' ') == [""];
    } else {
      var t := s[1..];
      SingleSpacedSlice(s, 1, |s|);
      if IsSpace(s[0]) {
        assert s[0] == ' ' && |s| >= 2 && !IsSpace(s[1]);
        assert t[0] == s[1] && t[|t| - 1] == s[|s| - 1];
        SplitIsWordsFrom(t, "");
        var parts := Split(t, ' ');
        assert "" + parts[0] == parts[0];
        assert [parts[0]] + parts[1..] == parts;
        assert Split(s, ' ') == [""] + parts;
        assert ([""] + parts)[0] == "" && ([""] + parts)[1..] == parts;
        assert WordsFrom(s, cur) == [cur] + parts;
        assert cur + "" == cur;
      } else {
        assert t == [] || t[|t| - 1] == s[|s| - 1];
        SplitIsWordsFrom(t, cur + [s[0]]);
        var parts := Split(t, ' ');
        assert cur + [s[0]] + parts[0] == cur + ([s[0]] + parts[0]);
      }
    }
  }

  /** The collapsed, trimmed note text. */
  function CleanNote(content: string): string {
    Trim(CollapseSpace(content))
  }

  const UntitledNote := "Your Note..."

  /** The first four words of the clean text, joined by single spaces. */
  function NoteWords(content: string): string {
    Join(Take(Split(CleanNote(content), ' '), 4), " ")
  }

  /** `noteTitle`: "Your Note..." for a blank note, else its first words and "...". */
  function NoteTitle(content: string): (r: string)
    ensures AllSpace(content) ==> r == UntitledNote
    ensures !AllSpace(content) ==> r == NoteWords(content) + "..."
  {
    var clean := CleanNote(content);
    if clean == "" then UntitledNote else NoteWords(content) + "..."
  }

  /** Joining the first `n` parts gives a prefix of joining them all. */
  lemma {:induction false} JoinTakePrefix(parts: seq<string>, n: nat, sep: string)
    ensures Join(Take(parts, n), sep) <= Join(parts, sep)
    decreases n
  {
    if |parts| < n || n == 0 {
    } else if n == 1 {
      assert Take(parts, 1) == [parts[0]];
      JoinStartsWithFirst(parts, sep);
    } else {
      assert |parts| >= 2;
      assert Take(parts, n) == [parts[0]] + Take(parts[1..], n - 1);
      var t := Take(parts[1..], n - 1);
      assert |t| >= 1;
      assert ([parts[0]] + t)[1..] == t;
      JoinTakePrefix(parts[1..], n - 1, sep);
    }
  }

  /** A note's title shows its first words: what precedes "..." is the start of the clean
      text, and it splits back into at most four words, the clean text's first ones. */
  lemma NoteTitleWords(content: string)
    requires !AllSpace(content)
    ensures NoteWords(content) <= CleanNote(content)
    ensures Split(NoteWords(content), ' ') == Take(Split(CleanNote(content), ' '), 4)
    ensures |Split(NoteWords(content), ' ')| <= 4
  {
    var clean := CleanNote(content);
    var words := Split(clean, ' ');
    JoinTakePrefix(words, 4, " ");
    JoinSplit(clean, ' ');
    var first := Take(words, 4);
    assert forall i :: 0 <= i < |first| ==> first[i] == words[i];
    SplitJoin(first, ' ');
  }

  /** Splitting the clean text at spaces gives exactly the note's words, so the title
      shows the note's first four words. */
  lemma CleanNoteWords(content: string)
    requires !AllSpace(content)
    ensures Split(CleanNote(content), ' ') == Words(content)
    ensures NoteWords(content) == Join(Take(Words(content), 4), " ")
  {
    var r := CollapseSpace(content);
    TrimWords(r);
    CollapseSpaceWords(content);
    SplitTrimmedIsWords(r);
  }

  lemma ThreeSlices(r: string, i: nat, j: nat)
    requires i <= j <= |r|
    ensures r == r[..i] + (r[i..j] + r[j..])
  {
    assert r[i..] == r[i..j] + r[j..];
    assert r == r[..i] + r[i..];
  }

  /** Trimming keeps the words. */
  lemma TrimWords(r: string)
    ensures Words(Trim(r)) == Words(r)
  {
    TrimStartWords(r);
    TrimEndWords(TrimStart(r));
  }

  lemma TrimStartWords(r: string)
    ensures Words(TrimStart(r)) == Words(r)
  {
    var a := TrimStart(r);
    assert a == r[|r| - |a|..|r| - |a| + |a|];
    SpacedAroundWords(r, a, |r| - |a|);
  }

  lemma TrimEndWords(a: string)
    ensures Words(TrimEnd(a)) == Words(a)
  {
    SpacedAroundWords(a, TrimEnd(a), 0);
  }

  /** Trimming single-spaced text leaves it single-spaced. */
  lemma TrimSingleSpaced(r: string)
    requires SingleSpaced(r)
    ensures SingleSpaced(Trim(r))
  {
    var a := TrimStart(r);
    var k := |r| - |a|;
    var t := TrimEnd(a);
    assert t == r[k..k + |t|];
    SingleSpacedSlice(r, k, k + |t|);
  }

  /** The words of a stretch of text with only whitespace around it are the text's. */
  lemma SpacedAroundWords(r: string, t: string, i: nat)
    requires i + |t| <= |r| && t == r[i..i + |t|] && AllSpace(r[..i]) && AllSpace(r[i + |t|..])
    ensures Words(t) == Words(r)
  {
    ThreeSlices(r, i, i + |t|);
    WordsSkipSpaces(r[..i], t + r[i + |t|..]);
    WordsDropTrailing(t, r[i + |t|..], "");
  }

  /** Single-spaced text, once trimmed, splits at spaces into its words. */
  lemma SplitTrimmedIsWords(r: string)
    requires SingleSpaced(r) && !AllSpace(r)
    ensures Split(Trim(r), ' ') == Words(Trim(r))
  {
    var t := Trim(r);
    TrimSingleSpaced(r);
    SplitIsWordsFrom(t, "");
    var parts := Split(t, ' ');
    assert "" + parts[0] == parts[0];
    assert [parts[0]] + parts[1..] == parts;
  }

  /** A note's title never holds a run of whitespace or a tab or newline, and its words
      keep every non-space character of the note's start. */
  lemma NoteTitleSingleSpaced(content: string)
    ensures SingleSpaced(CollapseSpace(content))
    ensures AllSpace(content) <==> CleanNote(content) == ""
  {
  }

  // ---------------------------------------------------------------------------------
  // Note storage

  /** `normEmail`: the trimmed, lower-cased email, "" when there is none. */
  function NormEmail(email: Option<string>): string {
    if email.Some? then Normalize(email.value) else ""
  }

  const NotesPrefix := "studywiz_material_notes_list:"

  /** `notesKeyFor`: the prefix and the normalized email, or "unknown" when that is
      empty. */
  function NotesKeyFor(email: Option<string>): (k: string)
    ensures NormEmail(email) == "" ==> k == NotesPrefix + "unknown"
    ensures NormEmail(email) != "" ==> k == NotesPrefix + NormEmail(email)
  {
    var k := NormEmail(email);
    NotesPrefix + (if k == "" then "unknown" else k)
  }

  /** Two signed-in users share notes exactly when their emails have the same normal form. */
  lemma NotesKeyInjective(e1: string, e2: string)
    requires Normalize(e1) != "" && Normalize(e2) != ""
    ensures NotesKeyFor(Some(e1)) == NotesKeyFor(Some(e2)) <==> Normalize(e1) == Normalize(e2)
  {
    if NotesKeyFor(Some(e1)) == NotesKeyFor(Some(e2)) {
      PrefixCancel(NotesPrefix, Normalize(e1), Normalize(e2));
    }
  }

  datatype SavedNote = SavedNote(id: string, content: string, createdAt: int)

  /** What is stored under a notes key: an array of notes, any other JSON value, the empty
      text, or text `JSON.parse` rejects. */
  datatype NotesStored = NotesArray(notes: seq<SavedNote>) | OtherNotesJson | EmptyNotesText | MalformedNotes

  /** The notes the page loads from a key: the stored array, else none. */
  function StoredNotes(st: map<string, NotesStored>, key: string): (r: seq<SavedNote>)
    ensures key in st && st[key].NotesArray? ==> r == st[key].notes
    ensures !(key in st && st[key].NotesArray?) ==> r == []
  {
    if key in st && st[key].NotesArray? then st[key].notes else []
  }

  /** Writing one user's notes leaves the notes every other signed-in user loads as they
      were. */
  lemma OtherUsersNotesUnchanged(st: map<string, NotesStored>, e1: string, e2: string, notes: seq<SavedNote>)
    requires Normalize(e1) != "" && Normalize(e2) != "" && Normalize(e1) != Normalize(e2)
    ensures StoredNotes(st[NotesKeyFor(Some(e1)) := NotesArray(notes)], NotesKeyFor(Some(e2)))
              == StoredNotes(st, NotesKeyFor(Some(e2)))
  {
    NotesKeyInjective(e1, e2);
    StoredNotesOtherKey(st, NotesKeyFor(Some(e1)), NotesKeyFor(Some(e2)), notes);
  }

  lemma StoredNotesOtherKey(st: map<string, NotesStored>, k1: string, k2: string, notes: seq<SavedNote>)
    requires k1 != k2
    ensures StoredNotes(st[k1 := NotesArray(notes)], k2) == StoredNotes(st, k2)
  {
  }

  /** The notes after `saveNote`: nothing is saved without an owner or for a blank draft;
      otherwise the trimmed draft, with the fresh id and time, goes in front. */
  function NotesAfterSave(owner: string, draft: string, notes: seq<SavedNote>, freshId: string, now: int): (r: Option<seq<SavedNote>>)
    ensures r.Some? <==> owner != "" && !AllSpace(draft)
    ensures r.Some? ==>
              (|r.value| == |notes| + 1 && r.value[1..] == notes
               && r.value[0] == SavedNote(freshId, Trim(draft), now) && IsTrimmed(r.value[0].content) && r.value[0].content != "")
  {
    if owner == "" then None
    else
      var content := Trim(draft);
      if content == "" then None else Some([SavedNote(freshId, content, now)] + notes)
  }

  function NotId(id: string): SavedNote -> bool {
    (n: SavedNote) => n.id != id
  }

  /** Removing by id keeps exactly the notes with another id, in order. */
  lemma RemovedNotes(notes: seq<SavedNote>, id: string)
    ensures forall n :: n in Filter(notes, NotId(id)) <==> n in notes && n.id != id
    ensures notes == Filter(notes, NotId(id)) <==> forall i :: 0 <= i < |notes| ==> notes[i].id != id
  {
    var r := Filter(notes, NotId(id));
    forall n ensures n in r <==> n in notes && n.id != id {
      if n in r {
        var i :| 0 <= i < |r| && r[i] == n;
      }
      if n in notes && n.id != id {
        var i :| 0 <= i < |notes| && notes[i] == n;
      }
    }
    if notes == r {
      forall i | 0 <= i < |notes| ensures notes[i].id != id {
        assert notes[i] in r;
      }
    }
    if forall i :: 0 <= i < |notes| ==> notes[i].id != id {
      FilterAllKept(notes, NotId(id));
    }
  }

  // ---------------------------------------------------------------------------------
  // Files

  function RowSize(r: LibraryRow): int {
    r.size
  }

  /** `totalFileSize`: the sizes of the listed rows added up. */
  function TotalFileSize(rows: seq<LibraryRow>): int {
    SumBy(rows, RowSize)
  }

  /** Sizes are never negative, so neither is their total. */
  lemma TotalFileSizeNonNegative(rows: seq<LibraryRow>)
    requires forall i :: 0 <= i < |rows| ==> rows[i].size >= 0
    ensures TotalFileSize(rows) >= 0
  {
    assert forall i :: 0 <= i < |rows| ==> RowSize(rows[i]) >= 0;
    SumByNonNegative(rows, RowSize);
  }

  /** The total of a longer list is the totals of its parts added. */
  lemma TotalFileSizeAppend(a: seq<LibraryRow>, b: seq<LibraryRow>)
    ensures TotalFileSize(a + b) == TotalFileSize(a) + TotalFileSize(b)
  {
    SumByAppend(a, b, RowSize);
  }

  /** The library after `addFile` stores each upload in turn, the i-th with the i-th time
      and random suffix. */
  function AddAll(m: map<string, LibraryFile>, uploads: seq<Upload>, owner: string, stamps: seq<(int, string)>): map<string, LibraryFile>
    requires |stamps| == |uploads|
  {
    if uploads == [] then m
    else
      var k := |uploads| - 1;
      var rec := NewRecord(uploads[k], owner, stamps[k].0, stamps[k].1);
      AddAll(m, uploads[..k], owner, stamps[..k])[rec.id := rec]
  }

  /** An upload keeps every record it had, and any record not owned by the uploader is
      one it already had, unchanged. */
  lemma {:induction false} AddAllFacts(m: map<string, LibraryFile>, uploads: seq<Upload>, owner: string, stamps: seq<(int, string)>)
    requires |stamps| == |uploads|
    ensures m.Keys <= AddAll(m, uploads, owner, stamps).Keys
    ensures var a := AddAll(m, uploads, owner, stamps);
            forall id :: id in a && a[id].ownerKey != owner ==> id in m && a[id] == m[id]
    decreases |uploads|
  {
    if uploads != [] {
      var k := |uploads| - 1;
      AddAllFacts(m, uploads[..k], owner, stamps[..k]);
    }
  }

  /** One more upload, in the loop's terms. */
  lemma AddAllStep(m: map<string, LibraryFile>, uploads: seq<Upload>, owner: string, stamps: seq<(int, string)>, i: nat)
    requires |stamps| == |uploads| && i < |uploads|
    ensures var rec := NewRecord(uploads[i], owner, stamps[i].0, stamps[i].1);
            AddAll(m, uploads[..i + 1], owner, stamps[..i + 1]) == AddAll(m, uploads[..i], owner, stamps[..i])[rec.id := rec]
  {
    assert uploads[..i + 1][..i] == uploads[..i];
    assert stamps[..i + 1][..i] == stamps[..i];
  }

  lemma AddAllWhole(m: map<string, LibraryFile>, uploads: seq<Upload>, owner: string, stamps: seq<(int, string)>)
    requires |stamps| == |uploads|
    ensures AddAll(m, uploads[..|uploads|], owner, stamps[..|stamps|]) == AddAll(m, uploads, owner, stamps)
  {
    assert uploads[..|uploads|] == uploads && stamps[..|stamps|] == stamps;
  }

  /** The upload loop of `onUpload`: each file in turn goes to `addFile`; the first refusal
      stops it, and since every call has the same key, only the first call can be refused. */
  method AddUploads(lib: Library, ownerKey: string, uploads: seq<Upload>, stamps: seq<(int, string)>)
    returns (ok: bool)
    requires lib.Valid() && |stamps| == |uploads| && uploads != []
    modifies lib
    ensures lib.Valid()
    ensures ok <==> Normalize(ownerKey) != ""
    ensures ok ==> lib.files == AddAll(old(lib.files), uploads, Normalize(ownerKey), stamps)
    ensures !ok ==> lib.files == old(lib.files)
  {
    ghost var owner := Normalize(ownerKey);
    for i := 0 to |uploads|
      invariant lib.Valid()
      invariant owner == "" ==> i == 0
      invariant lib.files == AddAll(old(lib.files), uploads[..i], owner, stamps[..i])
    {
      AddAllStep(old(lib.files), uploads, owner, stamps, i);
      var r := lib.AddFile(uploads[i], ownerKey, stamps[i].0, stamps[i].1);
      if r.Err? {
        return false;
      }
    }
    AddAllWhole(old(lib.files), uploads, owner, stamps);
    return true;
  }

  // ---------------------------------------------------------------------------------
  // The page

  function EmailOf(user: Option<User>): Option<string> {
    if user.Some? then Some(user.value.email) else None
  }

  /** The owner key is already in normal form, so the library's own normalization leaves
      it as it is. */
  lemma OwnerKeyNormal(user: Option<User>)
    ensures Normalize(NormEmail(EmailOf(user))) == NormEmail(EmailOf(user))
  {
    if user.Some? {
      NormalizeIdempotent(user.value.email);
    } else {
      assert NormEmail(EmailOf(user)) == "";
      assert AllSpace("");
    }
  }

  /** The page's state. `ownerKey` and `notesKey` are the values the page derives from the
      signed-in user; they are recomputed when the user changes. */
  class MaterialsPage {
    const app: AppProvider.Provider
    const lib: Library
    var ownerKey: string
    var notesKey: string
    var rows: seq<LibraryRow>
    var busy: bool
    var msg: string
    var draftNote: string
    var savedNotes: seq<SavedNote>
    var openNote: Option<SavedNote>
    var pickedNames: string
    var storage: map<string, NotesStored>

    ghost predicate Valid()
      reads this, lib
    {
      lib.Valid()
    }

    constructor(app: AppProvider.Provider, lib: Library, st: map<string, NotesStored>)
      requires lib.Valid()
      ensures Valid()
      ensures this.app == app && this.lib == lib && storage == st
      ensures ownerKey == NormEmail(EmailOf(app.user)) && notesKey == NotesKeyFor(EmailOf(app.user))
      ensures rows == [] && !busy && msg == "" && draftNote == "" && savedNotes == [] && openNote.None? && pickedNames == ""
    {
      this.app := app;
      this.lib := lib;
      ownerKey := NormEmail(EmailOf(app.user));
      notesKey := NotesKeyFor(EmailOf(app.user));
      rows := [];
      busy := false;
      msg := "";
      draftNote := "";
      savedNotes := [];
      openNote := None;
      pickedNames := "";
      storage := st;
    }

    /** The listing rows for the owner: exactly the records of the owner key's normal form
        (which, by `OwnerKeyNormal`, is the key itself), newest first, each once. */
    ghost predicate Listed(rs: seq<LibraryRow>)
      reads this, lib
    {
      SortedDesc(rs, UploadedAt) && Distinct(rs)
      && forall row :: row in rs <==>
           (Normalize(ownerKey) != ""
            && exists id :: id in lib.files && Owned(lib.files[id], Normalize(ownerKey)) && row == RowOf(lib.files[id]))
    }

    /** `refreshFiles` for a signed-in owner. */
    method Refresh()
      requires Valid() && ownerKey != ""
      modifies this`rows
      ensures Listed(rows)
    {
      rows := lib.ListFiles(ownerKey);
    }

    /** The effect run when the user changes: the keys are derived again; the draft, open
        note, picked names and message reset; a guest gets no files and no notes; a user
        gets the library's listing and the stored notes. */
    method OnUserChange()
      requires lib.Valid()
      modifies this`ownerKey, this`notesKey, this`draftNote, this`openNote, this`pickedNames, this`msg, this`rows, this`savedNotes
      ensures Valid()
      ensures ownerKey == NormEmail(EmailOf(app.user)) && notesKey == NotesKeyFor(EmailOf(app.user))
      ensures draftNote == "" && openNote.None? && pickedNames == "" && msg == ""
      ensures ownerKey == "" ==> rows == [] && savedNotes == []
      ensures ownerKey != "" ==> Listed(rows) && savedNotes == StoredNotes(storage, notesKey)
    {
      ResetForUser();
      if ownerKey == "" {
        rows := [];
        savedNotes := [];
        return;
      }
      LoadOwnerData();
    }

    /** The first part of the user-change effect: the keys derived again, the draft, open
        note, picked names and message cleared. */
    method ResetForUser()
      modifies this`ownerKey, this`notesKey, this`draftNote, this`openNote, this`pickedNames, this`msg
      ensures ownerKey == NormEmail(EmailOf(app.user)) && notesKey == NotesKeyFor(EmailOf(app.user))
      ensures draftNote == "" && openNote.None? && pickedNames == "" && msg == ""
    {
      ownerKey := NormEmail(EmailOf(app.user));
      notesKey := NotesKeyFor(EmailOf(app.user));
      draftNote := "";
      openNote := None;
      pickedNames := "";
      msg := "";
    }

    /** The signed-in branch of the user-change effect: the listing and the stored notes. */
    method LoadOwnerData()
      requires Valid() && ownerKey != ""
      modifies this`rows, this`savedNotes
      ensures Listed(rows) && savedNotes == StoredNotes(storage, notesKey)
    {
      Refresh();
      savedNotes := StoredNotes(storage, notesKey);
    }

    method EditDraft(text: string)
      modifies this`draftNote
      ensures draftNote == text
    {
      draftNote := text;
    }

    /** `saveNote`: without an owner or with a blank draft nothing happens; otherwise the
        trimmed draft goes in front of the notes, the list is written, the draft clears. */
    method SaveNote(freshId: string, now: int)
      modifies this`savedNotes, this`storage, this`draftNote, this`msg
      ensures var next := NotesAfterSave(ownerKey, old(draftNote), old(savedNotes), freshId, now);
              (next.None? ==> (savedNotes == old(savedNotes) && storage == old(storage) && draftNote == old(draftNote) && msg == old(msg)))
              && (next.Some? ==> (savedNotes == next.value && storage == old(storage)[notesKey := NotesArray(next.value)]
                                  && draftNote == "" && msg == "Note saved."))
    {
      var next := NotesAfterSave(ownerKey, draftNote, savedNotes, freshId, now);
      if next.None? {
        return;
      }
      savedNotes := next.value;
      storage := storage[notesKey := NotesArray(savedNotes)];
      draftNote := "";
      msg := "Note saved.";
    }

    method ViewNote(note: SavedNote)
      modifies this`openNote
      ensures openNote == Some(note)
    {
      openNote := Some(note);
    }

    method CloseNote()
      modifies this`openNote
      ensures openNote.None?
    {
      openNote := None;
    }

    /** `removeNote`: once confirmed by an owner, the notes with that id go, the list is
        written, and the open note closes only if it had that id. */
    method RemoveNote(id: string, confirmed: bool)
      modifies this`savedNotes, this`storage, this`openNote, this`msg
      ensures ownerKey == "" || !confirmed ==>
                (savedNotes == old(savedNotes) && storage == old(storage) && openNote == old(openNote) && msg == old(msg))
      ensures ownerKey != "" && confirmed ==>
                (savedNotes == Filter(old(savedNotes), NotId(id))
                 && storage == old(storage)[notesKey := NotesArray(savedNotes)]
                 && openNote == (if old(openNote).Some? && old(openNote).value.id == id then None else old(openNote))
                 && msg == "Note removed.")
    {
      if ownerKey == "" || !confirmed {
        return;
      }
      savedNotes := Filter(savedNotes, NotId(id));
      storage := storage[notesKey := NotesArray(savedNotes)];
      if openNote.Some? && openNote.value.id == id {
        openNote := None;
      }
      msg := "Note removed.";
    }

    /** `onUpload`: an owner's chosen files are added one after another, the listing is
        refreshed and the page says so; a guest or an empty choice changes nothing. Should
        the library refuse the key, the page says the upload failed; `OwnerKeyNormal` shows
        it never does. */
    method OnUpload(uploads: seq<Upload>, stamps: seq<(int, string)>)
      requires Valid() && |stamps| == |uploads|
      modifies lib, this`busy, this`msg, this`rows, this`pickedNames
      ensures Valid()
      ensures ownerKey == "" || uploads == [] ==>
                (lib.files == old(lib.files) && busy == old(busy) && msg == old(msg)
                 && rows == old(rows) && pickedNames == old(pickedNames))
      ensures ownerKey != "" && uploads != [] && Normalize(ownerKey) == "" ==>
                (lib.files == old(lib.files) && rows == old(rows) && msg == "Upload failed." && !busy && pickedNames == "")
      ensures ownerKey != "" && uploads != [] && Normalize(ownerKey) != "" ==>
                (lib.files == AddAll(old(lib.files), uploads, Normalize(ownerKey), stamps)
                 && Listed(rows) && msg == "Upload complete." && !busy && pickedNames == "")
    {
      if ownerKey == "" || uploads == [] {
        return;
      }
      busy := true;
      msg := "";
      var ok := AddUploads(lib, ownerKey, uploads, stamps);
      if !ok {
        msg := "Upload failed.";
        busy := false;
        pickedNames := "";
        return;
      }
      Refresh();
      msg := "Upload complete.";
      busy := false;
      pickedNames := "";
    }

    /** `onDownloadFile`: the owner's file with that id, or "File not found.". */
    method OnDownloadFile(id: string) returns (file: Option<LibraryFile>)
      modifies this`busy, this`msg
      ensures ownerKey == "" ==> file.None? && busy == old(busy) && msg == old(msg)
      ensures ownerKey != "" ==>
                (file == FileFor(lib.files, id, ownerKey) && !busy
                 && msg == if file.None? then "File not found." else "")
    {
      if ownerKey == "" {
        return None;
      }
      busy := true;
      msg := "";
      file := lib.GetFile(id, ownerKey);
      if file.None? {
        msg := "File not found.";
      }
      busy := false;
    }

    /** `onRemoveFile`: once confirmed by an owner, the file goes if that owner has it, the
        listing is refreshed and the page says "Removed.". */
    method OnRemoveFile(id: string, confirmed: bool)
      requires Valid()
      modifies lib, this`busy, this`msg, this`rows
      ensures Valid()
      ensures ownerKey == "" || !confirmed ==>
                (lib.files == old(lib.files) && busy == old(busy) && msg == old(msg) && rows == old(rows))
      ensures ownerKey != "" && confirmed ==>
                (lib.files == (if FileFor(old(lib.files), id, ownerKey).Some? then old(lib.files) - {id} else old(lib.files))
                 && Listed(rows) && msg == "Removed." && !busy)
    {
      if ownerKey == "" || !confirmed {
        return;
      }
      busy := true;
      msg := "";
      var _ := lib.RemoveFile(id, ownerKey);
      Refresh();
      msg := "Removed.";
      busy := false;
    }
  }
}
