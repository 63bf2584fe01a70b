/**
 * The per-user statistics log: a list of finished study sessions, newest first, kept in
 * browser storage under a key derived from the user's email. Storage is a dictionary from
 * keys to what `JSON.parse` would make of the stored text.
 */
module SessionsStore {
  import opened Wrappers
  import opened Text
  import Study

  /** One logged session. A field that is missing, or that is not a number, is `None`. The
      declared entry has an id, a creation time and a duration; the last three fields are
      other numbers the stored JSON may hold, which the overview falls back on. */
  datatype StudySession = StudySession(
    id: string, createdAt: Option<int>, durationSeconds: Option<int>,
    startedAt: Option<int>, endedAt: Option<int>, savedAt: Option<int>)

  /** A parsed JSON value: an array of sessions, or anything else. */
  datatype Json = SessionArray(items: seq<StudySession>) | OtherJson

  /** The stored text under a key: empty, parseable, or rejected by `JSON.parse`. */
  datatype Raw = EmptyText | Parsed(json: Json) | Malformed

  type Storage = map<string, Raw>

  /** "studywiz_sessions_v1", written as the provider's key prefix and the log's name. */
  const StorageBase := "studywiz_" + "sessions_v1"

  /** `storageKey`: the base, two underscores, and the trimmed, lower-cased email. */
  function StorageKey(email: string): (k: string)
    ensures k == StorageBase + "__" + Normalize(email)
  {
    StorageBase + "__" + Normalize(email)
  }

  /** Two emails share a log exactly when they have the same normal form. */
  lemma StorageKeyInjective(e1: string, e2: string)
    ensures StorageKey(e1) == StorageKey(e2) <==> Normalize(e1) == Normalize(e2)
  {
    if StorageKey(e1) == StorageKey(e2) {
      Study.PrefixCancel(StorageBase + "__", Normalize(e1), Normalize(e2));
    }
  }

  /** The log's key is the provider's per-user key scheme applied to `sessions_v1`. */
  lemma StorageKeyIsUserKey(email: string)
    ensures StorageKey(email) == Study.KeyForUser(email, "sessions_v1")
  {
    Study.KeyForUserShape(email, "sessions_v1");
    Study.Assoc4("studywiz_", "sessions_v1", "__", Normalize(email));
  }

  /** The log never shares a key with the provider's own per-user records, whoever the
      users are, so keeping it in a storage map of its own loses nothing. */
  lemma StorageKeyApartFromProvider(e1: string, e2: string, base: string)
    requires base in ["current_selection", "saved_studies", "selected_study_id",
                      "timer_seconds", "timer_status", "pending_session"]
    ensures StorageKey(e1) != Study.KeyForUser(e2, base)
  {
    var s := "sessions_v1";
    var i: nat := if base == "saved_studies" then 1 else if base == "selected_study_id" then 2 else 0;
    assert i < |s| && i < |base| && s[i] != base[i];
    StorageKeyIsUserKey(e1);
    Study.KeyForUserBasesDiffer(e1, s, e2, base, i);
  }

  /** `safeParse(raw, fallback)`: an absent or empty text and a text `JSON.parse` rejects
      give the fallback; anything else gives what it parses to. */
  function SafeParse(raw: Option<Raw>, fallback: Json): (r: Json)
    ensures (raw.Some? && raw.value.Parsed?) ==> r == raw.value.json
    ensures !(raw.Some? && raw.value.Parsed?) ==> r == fallback
  {
    match raw
    case None => fallback
    case Some(EmptyText) => fallback
    case Some(Malformed) => fallback
    case Some(Parsed(j)) => j
  }

  function Lookup(st: Storage, key: string): Option<Raw> {
    if key in st then Some(st[key]) else None
  }

  /** `loadSessions`: the stored array for that email, and `[]` when the value is absent,
      empty, malformed or not an array. */
  function LoadSessions(st: Storage, email: string): (r: seq<StudySession>)
    ensures (StorageKey(email) in st && st[StorageKey(email)].Parsed?
               && st[StorageKey(email)].json.SessionArray?) ==>
              r == st[StorageKey(email)].json.items
    ensures !(StorageKey(email) in st && st[StorageKey(email)].Parsed?
                && st[StorageKey(email)].json.SessionArray?) ==>
              r == []
  {
    var list := SafeParse(Lookup(st, StorageKey(email)), SessionArray([]));
    if list.SessionArray? then list.items else []
  }

  /** The entry `saveSession` puts first: the id joins the time and the random hex digits. */
  function NewSession(durationSeconds: int, createdAt: int, randomHex: string): (s: StudySession)
    ensures s.createdAt == Some(createdAt) && s.durationSeconds == Some(durationSeconds)
    ensures s.id == IntToString(createdAt) + "_" + randomHex
    ensures s.startedAt.None? && s.endedAt.None? && s.savedAt.None?
  {
    StudySession(IntToString(createdAt) + "_" + randomHex, Some(createdAt), Some(durationSeconds), None, None, None)
  }

  /** The storage after `saveSession`: that email's log with the entry in front. */
  function StoreAfterSave(st: Storage, email: string, next: StudySession): Storage {
    st[StorageKey(email) := Parsed(SessionArray([next] + LoadSessions(st, email)))]
  }

  /** The storage after `clearSessions`: that email's key removed. */
  function StoreAfterClear(st: Storage, email: string): Storage {
    st - {StorageKey(email)}
  }

  /** After a save, the log starts with the new entry and continues with the old log. */
  lemma LoadAfterSave(st: Storage, email: string, next: StudySession)
    ensures LoadSessions(StoreAfterSave(st, email, next), email) == [next] + LoadSessions(st, email)
    ensures |LoadSessions(StoreAfterSave(st, email, next), email)| == |LoadSessions(st, email)| + 1
  {
  }

  /** After a clear, that email's log is empty. */
  lemma LoadAfterClear(st: Storage, email: string)
    ensures LoadSessions(StoreAfterClear(st, email), email) == []
  {
  }

  /** Saving or clearing one email's log leaves the log of every email with another normal
      form as it was. */
  lemma OtherLogsUnchanged(st: Storage, email: string, other: string, next: StudySession)
    requires Normalize(other) != Normalize(email)
    ensures LoadSessions(StoreAfterSave(st, email, next), other) == LoadSessions(st, other)
    ensures LoadSessions(StoreAfterClear(st, email), other) == LoadSessions(st, other)
  {
    StorageKeyInjective(email, other);
    var k := StorageKey(other);
    var saved := StoreAfterSave(st, email, next);
    var cleared := StoreAfterClear(st, email);
    assert Lookup(saved, k) == Lookup(st, k);
    assert Lookup(cleared, k) == Lookup(st, k);
    LoadSessionsLocal(saved, st, other);
    LoadSessionsLocal(cleared, st, other);
  }

  /** The log of an email depends on nothing but what is stored under its key. */
  lemma LoadSessionsLocal(st1: Storage, st2: Storage, email: string)
    requires Lookup(st1, StorageKey(email)) == Lookup(st2, StorageKey(email))
    ensures LoadSessions(st1, email) == LoadSessions(st2, email)
  {
  }

  /** `sessionMinutes`: whole minutes, rounded down, never negative; a missing or zero
      duration counts as none. */
  function SessionMinutes(s: StudySession): (m: nat)
    ensures var d := if s.durationSeconds.Some? then s.durationSeconds.value else 0;
            (d >= 0 ==> m * 60 <= d < m * 60 + 60) && (d < 60 ==> m == 0)
  {
    var d := if s.durationSeconds.Some? && s.durationSeconds.value != 0 then s.durationSeconds.value else 0;
    var f := d / 60;
    if f < 0 then 0 else f
  }

  /** `sessionTimestamp`: `createdAt` when it is a number, else 0. */
  function SessionTimestamp(s: StudySession): (t: int)
    ensures s.createdAt.Some? ==> t == s.createdAt.value
    ensures s.createdAt.None? ==> t == 0
  {
    if s.createdAt.Some? then s.createdAt.value else 0
  }

  /** The storage the log lives in. */
  class SessionLog {
    var storage: Storage

    constructor(st: Storage)
      ensures storage == st
    {
      storage := st;
    }

    /** `saveSession`: puts a new entry in front of that email's log and writes it back. */
    method SaveSession(email: string, durationSeconds: int, createdAt: int, randomHex: string)
      modifies this
      ensures storage == StoreAfterSave(old(storage), email, NewSession(durationSeconds, createdAt, randomHex))
      ensures LoadSessions(storage, email) ==
                [NewSession(durationSeconds, createdAt, randomHex)] + LoadSessions(old(storage), email)
    {
      var next := NewSession(durationSeconds, createdAt, randomHex);
      var prev := LoadSessions(storage, email);
      var merged := [next] + prev;
      storage := storage[StorageKey(email) := Parsed(SessionArray(merged))];
    }

    /** `clearSessions`: removes that email's log. */
    method ClearSessions(email: string)
      modifies this
      ensures storage == StoreAfterClear(old(storage), email)
      ensures LoadSessions(storage, email) == []
    {
      storage := storage - {StorageKey(email)};
    }
  }
}
