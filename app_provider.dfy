/**
 * The provider of the study planner: the application state (language, user, current
 * selection, saved studies, selected study, timer, pending session, settings) as the
 * fields of one object, one method per operation it offers, and the browser's key-value
 * store as a dictionary field that the load and persist effects read and write.
 */
module AppProvider {
  import opened Wrappers
  import opened Text
  import opened Collections
  import opened Study

  // ---------------------------------------------------------------------------------
  // What the key-value store holds

  /** A stored value, already decoded. `OtherJson` is text that parses but is not of the
      shape the reader expects; `Unparseable` is text that does not parse. */
  datatype Stored =
    | SelectionValue(selection: StudySelection)
    | StudiesValue(studies: seq<SavedStudy>)
    | TextValue(text: string)
    | PendingValue(pending: PendingSession)
    | UserValue(user: User)
    | RegistryValue(registry: map<string, StoredUser>)
    | SettingsValue(theme: Option<ThemeMode>, notificationsEnabled: Option<bool>,
                    autoPauseEnabled: Option<bool>, autoPauseHours: Option<int>)
    | OtherJson
    | Unparseable

  type Storage = map<string, Stored>

  const UserKey := "studywiz_user"
  const LangKey := "studywiz_lang"
  const SettingsKey := "studywiz_settings"
  const RegistryKey := "studywiz_users_registry"

  function StatusText(s: TimerStatus): string {
    match s
    case Idle => "idle"
    case Running => "running"
    case Paused => "paused"
    case Stopped => "stopped"
  }

  /** A stored timer status; anything but the four names reads as idle. */
  function StatusFromText(t: string): (s: TimerStatus)
    ensures forall u :: StatusText(u) == t ==> s == u
  {
    if t == "running" then Running
    else if t == "paused" then Paused
    else if t == "stopped" then Stopped
    else Idle
  }

  function LangText(l: Lang): string {
    match l
    case En => "en"
    case Fr => "fr"
    case Es => "es"
  }

  function LangFromText(t: string): (l: Option<Lang>)
    ensures forall m :: LangText(m) == t <==> l == Some(m)
  {
    if t == "en" then Some(En) else if t == "fr" then Some(Fr) else if t == "es" then Some(Es) else None
  }

  /** `Number(text) || 0` for the seconds counter, written by `String(n)`: a run of
      decimal digits is read as its value, anything else as 0. */
  function SecondsFromText(t: string): (n: nat)
    ensures forall m: nat :: NatToString(m) == t ==> n == m
  {
    assert forall m: nat :: NatToString(m) == t ==> DigitsValue(t) == m by {
      forall m: nat | NatToString(m) == t ensures DigitsValue(t) == m {
        DigitsValueOfNatToString(m);
      }
    }
    if t != "" && AllDigits(t) then DigitsValue(t) else 0
  }

  /** `loadUserRegistry`: a registry that is absent or does not parse reads as empty. */
  function LoadRegistry(st: Storage): map<string, StoredUser> {
    if RegistryKey in st && st[RegistryKey].RegistryValue? then st[RegistryKey].registry else map[]
  }

  /** What a successful `login` stores: the registry, when the email was new, and the
      active user. */
  function StoreAfterLogin(st: Storage, email: string, outcome: LoginResult): (r: Storage)
    requires outcome.LoggedIn?
    ensures Lookup(r, UserKey) == Some(UserValue(outcome.user))
    ensures Normalize(email) in LoadRegistry(st) ==> Lookup(r, RegistryKey) == Lookup(st, RegistryKey)
    ensures Normalize(email) !in LoadRegistry(st) ==> Lookup(r, RegistryKey) == Some(RegistryValue(outcome.registry))
    ensures forall k :: k != UserKey && k != RegistryKey ==> Lookup(r, k) == Lookup(st, k)
  {
    var withRegistry := if Normalize(email) in LoadRegistry(st) then st else st[RegistryKey := RegistryValue(outcome.registry)];
    withRegistry[UserKey := UserValue(outcome.user)]
  }

  /** The remembered user as the restore step sees it (empty text reads as absent). */
  function RememberedFrom(st: Storage): Option<RememberedUser> {
    if UserKey !in st || st[UserKey] == TextValue("") then None
    else match st[UserKey]
      case UserValue(u) => Some(Remembered(u.name, u.email))
      case Unparseable => Some(Unreadable)
      case _ => Some(OtherRecord)
  }

  /** The settings the start-up step ends with: the stored fields over the current ones,
      the stored hours only when they are a number, the defaults when they do not parse. */
  function MergeSettings(prev: Settings, stored: Option<Stored>): (r: Settings)
    ensures stored.None? ==> r == prev
    ensures stored == Some(Unparseable) ==> r == DefaultSettings
    ensures stored.Some? && stored.value.SettingsValue? ==>
      && (stored.value.theme.Some? ==> r.theme == stored.value.theme.value)
      && (stored.value.theme.None? ==> r.theme == prev.theme)
      && (stored.value.notificationsEnabled.Some? ==> r.notificationsEnabled == stored.value.notificationsEnabled.value)
      && (stored.value.notificationsEnabled.None? ==> r.notificationsEnabled == prev.notificationsEnabled)
      && (stored.value.autoPauseEnabled.Some? ==> r.autoPauseEnabled == stored.value.autoPauseEnabled.value)
      && (stored.value.autoPauseEnabled.None? ==> r.autoPauseEnabled == prev.autoPauseEnabled)
      && (stored.value.autoPauseHours.Some? ==> r.autoPauseHours == stored.value.autoPauseHours.value)
      && (stored.value.autoPauseHours.None? ==> r.autoPauseHours == prev.autoPauseHours)
    ensures stored.Some? && !stored.value.SettingsValue? && !stored.value.Unparseable? ==> r == prev
  {
    match stored
    case None => prev
    case Some(SettingsValue(t, n, a, h)) =>
      Settings(
        if t.Some? then t.value else prev.theme,
        if n.Some? then n.value else prev.notificationsEnabled,
        if a.Some? then a.value else prev.autoPauseEnabled,
        if h.Some? then h.value else prev.autoPauseHours)
    case Some(Unparseable) => DefaultSettings
    case Some(_) => prev
  }

  /** The stored settings, when there is non-empty text under their key. */
  function StoredSettings(st: Storage): Option<Stored> {
    if SettingsKey in st && st[SettingsKey] != TextValue("") then Some(st[SettingsKey]) else None
  }

  /** The active user after the restore step. */
  function RestoredUser(outcome: RestoreOutcome, current: Option<User>): (u: Option<User>)
    ensures outcome.SetUser? ==> u == Some(outcome.user)
    ensures outcome.ClearUser? || outcome.RefuseUser? ==> u.None?
    ensures outcome.KeepUser? ==> u == current
  {
    match outcome
    case SetUser(v) => Some(v)
    case ClearUser => None
    case RefuseUser => None
    case KeepUser => current
  }

  function SettingsStored(s: Settings): Stored {
    SettingsValue(Some(s.theme), Some(s.notificationsEnabled), Some(s.autoPauseEnabled), Some(s.autoPauseHours))
  }

  /** Writing the settings and reading them back yields them, whatever was current. */
  lemma SettingsRoundTrip(prev: Settings, s: Settings)
    ensures MergeSettings(prev, Some(SettingsStored(s))) == s
  {
  }

  // ---------------------------------------------------------------------------------
  // The per-user part of the state and its storage keys

  /** The state the provider keeps per user. */
  datatype UserData = UserData(
    selection: StudySelection,
    studies: seq<SavedStudy>,
    selectedId: Option<string>,
    seconds: nat,
    status: TimerStatus,
    pending: Option<PendingSession>)

  const LoggedOutData := UserData(EmptySelection, [], None, 0, Idle, None)

  /** The base names of the six per-user keys: selection, saved studies, selected id,
      timer seconds, timer status, pending session. */
  const UserBases := ["current_selection", "saved_studies", "selected_study_id",
                      "timer_seconds", "timer_status", "pending_session"]

  function UserKeys(email: string): (ks: seq<string>)
    ensures |ks| == 6 && forall i :: 0 <= i < 6 ==> ks[i] == KeyForUser(email, UserBases[i])
  {
    seq(6, i requires 0 <= i < 6 => KeyForUser(email, UserBases[i]))
  }

  /** A position at which two different per-user base names differ. */
  function BaseDiffIndex(i: nat, j: nat): nat {
    if (i == 1 && j == 2) || (i == 2 && j == 1) then 1
    else if (i == 3 && j == 4) || (i == 4 && j == 3) then 7
    else 0
  }

  lemma UserBasesDiffer(i: nat, j: nat)
    requires i < 6 && j < 6 && i != j
    ensures BaseDiffIndex(i, j) < |UserBases[i]| && BaseDiffIndex(i, j) < |UserBases[j]|
    ensures UserBases[i][BaseDiffIndex(i, j)] != UserBases[j][BaseDiffIndex(i, j)]
  {
  }

  /** The six keys of one user are six different keys, and no key of one user is a key of
      a user whose email normalizes differently. */
  lemma UserKeysSeparate(e1: string, e2: string)
    ensures Distinct(UserKeys(e1))
    ensures Normalize(e1) != Normalize(e2) ==>
      forall i, j :: 0 <= i < 6 && 0 <= j < 6 ==> UserKeys(e1)[i] != UserKeys(e2)[j]
  {
    forall i, j | 0 <= i < 6 && 0 <= j < 6 && i != j
      ensures KeyForUser(e1, UserBases[i]) != KeyForUser(e2, UserBases[j])
      ensures KeyForUser(e1, UserBases[i]) != KeyForUser(e1, UserBases[j])
    {
      UserBasesDiffer(i, j);
      KeyForUserBasesDiffer(e1, UserBases[i], e2, UserBases[j], BaseDiffIndex(i, j));
      KeyForUserBasesDiffer(e1, UserBases[i], e1, UserBases[j], BaseDiffIndex(i, j));
    }
    forall i | 0 <= i < 6 && Normalize(e1) != Normalize(e2)
      ensures KeyForUser(e1, UserBases[i]) != KeyForUser(e2, UserBases[i])
    {
      if KeyForUser(e1, UserBases[i]) == KeyForUser(e2, UserBases[i]) {
        KeyForUserSameBase(e1, e2, UserBases[i]);
      }
    }
  }

  function Lookup(st: Storage, k: string): Option<Stored> {
    if k in st then Some(st[k]) else None
  }

  function SelectionFrom(v: Option<Stored>): StudySelection {
    if v.Some? && v.value.SelectionValue? then v.value.selection else EmptySelection
  }

  function StudiesFrom(v: Option<Stored>): seq<SavedStudy> {
    if v.Some? && v.value.StudiesValue? then v.value.studies else []
  }

  function SelectedIdFrom(v: Option<Stored>): (r: Option<string>)
    ensures r != Some("")
  {
    if v.Some? && v.value.TextValue? && v.value.text != "" then Some(v.value.text) else None
  }

  function SecondsFrom(v: Option<Stored>): nat {
    if v.Some? && v.value.TextValue? then SecondsFromText(v.value.text) else 0
  }

  function StatusFrom(v: Option<Stored>): TimerStatus {
    if v.Some? && v.value.TextValue? then StatusFromText(v.value.text) else Idle
  }

  function PendingFrom(v: Option<Stored>): Option<PendingSession> {
    if v.Some? && v.value.PendingValue? then Some(v.value.pending) else None
  }

  /** What the user-change effect reads for a signed-in user: each missing or unreadable
      value falls back to its logged-out default. */
  function LoadUserData(st: Storage, email: string): (d: UserData)
    ensures d.selectedId != Some("")
    ensures (forall k :: k in UserKeys(email) ==> k !in st) ==> d == LoggedOutData
  {
    ReadKeys(st, UserKeys(email))
  }

  /** The six values read from six given keys, in the order of `UserBases`. */
  function ReadKeys(st: Storage, ks: seq<string>): (d: UserData)
    requires |ks| == 6
    ensures d.selectedId != Some("")
    ensures (forall k :: k in ks ==> k !in st) ==> d == LoggedOutData
  {
    UserData(
      SelectionFrom(Lookup(st, ks[0])),
      StudiesFrom(Lookup(st, ks[1])),
      SelectedIdFrom(Lookup(st, ks[2])),
      SecondsFrom(Lookup(st, ks[3])),
      StatusFrom(Lookup(st, ks[4])),
      PendingFrom(Lookup(st, ks[5])))
  }

  /** `k := v` when a value is present, removal of `k` otherwise. */
  function PutOrRemove(st: Storage, k: string, v: Option<Stored>): (r: Storage)
    ensures Lookup(r, k) == v
    ensures forall j :: j != k ==> Lookup(r, j) == Lookup(st, j)
  {
    if v.Some? then st[k := v.value] else st - {k}
  }

  /** What the persist effects write for a signed-in user: the six per-user keys; an empty
      selected id and a missing pending session remove their keys. */
  function PersistUserData(st: Storage, email: string, d: UserData): (r: Storage)
    ensures forall k :: k !in UserKeys(email) ==> Lookup(r, k) == Lookup(st, k)
  {
    WriteKeys(st, UserKeys(email), d)
  }

  /** The six values written to six given keys; no other key changes. */
  function WriteKeys(st: Storage, ks: seq<string>, d: UserData): (r: Storage)
    requires |ks| == 6
    ensures forall k :: k !in ks ==> Lookup(r, k) == Lookup(st, k)
  {
    var s1 := st[ks[0] := SelectionValue(d.selection)];
    var s2 := s1[ks[1] := StudiesValue(d.studies)];
    var s3 := PutOrRemove(s2, ks[2], if d.selectedId.Some? && d.selectedId.value != "" then Some(TextValue(d.selectedId.value)) else None);
    var s4 := s3[ks[3] := TextValue(NatToString(d.seconds))];
    var s5 := s4[ks[4] := TextValue(StatusText(d.status))];
    PutOrRemove(s5, ks[5], if d.pending.Some? then Some(PendingValue(d.pending.value)) else None)
  }

  /** What the per-user effects leave in storage: the user's six values, or nothing new
      without a signed-in user. */
  function Persisted(st: Storage, user: Option<User>, d: UserData): (r: Storage)
    ensures user.None? || user.value.email == "" ==> r == st
    ensures Lookup(r, UserKey) == Lookup(st, UserKey) && Lookup(r, RegistryKey) == Lookup(st, RegistryKey)
  {
    if user.Some? && user.value.email != "" then
      PersistKeepsGlobals(st, user.value.email, d);
      PersistUserData(st, user.value.email, d)
    else st
  }

  /** Persisting a user's data and loading it back for the same email gives the same data
      (an empty selected id is not kept, as the source removes the key for it). */
  lemma LoadAfterPersist(st: Storage, email: string, d: UserData)
    requires d.selectedId != Some("")
    ensures LoadUserData(PersistUserData(st, email, d), email) == d
  {
    UserKeysSeparate(email, email);
    ReadAfterWrite(st, UserKeys(email), d);
  }

  /** Reading six different keys right after writing them gives back what was written. */
  lemma ReadAfterWrite(st: Storage, ks: seq<string>, d: UserData)
    requires |ks| == 6 && Distinct(ks) && d.selectedId != Some("")
    ensures ReadKeys(WriteKeys(st, ks, d), ks) == d
  {
    var s1 := st[ks[0] := SelectionValue(d.selection)];
    var s2 := s1[ks[1] := StudiesValue(d.studies)];
    var v2 := if d.selectedId.Some? && d.selectedId.value != "" then Some(TextValue(d.selectedId.value)) else None;
    var s3 := PutOrRemove(s2, ks[2], v2);
    var s4 := s3[ks[3] := TextValue(NatToString(d.seconds))];
    var s5 := s4[ks[4] := TextValue(StatusText(d.status))];
    var v5 := if d.pending.Some? then Some(PendingValue(d.pending.value)) else None;
    var r := PutOrRemove(s5, ks[5], v5);
    assert ks[0] != ks[1] && ks[0] != ks[2] && ks[0] != ks[3] && ks[0] != ks[4] && ks[0] != ks[5];
    assert Lookup(r, ks[0]) == Lookup(s5, ks[0]) == Lookup(s3, ks[0]) == Lookup(s2, ks[0]) == Some(SelectionValue(d.selection));
    assert ks[1] != ks[2] && ks[1] != ks[3] && ks[1] != ks[4] && ks[1] != ks[5];
    assert Lookup(r, ks[1]) == Lookup(s5, ks[1]) == Lookup(s3, ks[1]) == Some(StudiesValue(d.studies));
    assert ks[2] != ks[3] && ks[2] != ks[4] && ks[2] != ks[5];
    assert Lookup(r, ks[2]) == Lookup(s5, ks[2]) == Lookup(s3, ks[2]) == v2;
    assert ks[3] != ks[4] && ks[3] != ks[5];
    assert Lookup(r, ks[3]) == Lookup(s5, ks[3]) == Some(TextValue(NatToString(d.seconds)));
    assert ks[4] != ks[5];
    assert Lookup(r, ks[4]) == Some(TextValue(StatusText(d.status)));
    assert Lookup(r, ks[5]) == v5;
    assert r == WriteKeys(st, ks, d);
    assert SelectionFrom(Lookup(r, ks[0])) == d.selection;
    assert StudiesFrom(Lookup(r, ks[1])) == d.studies;
    assert SelectedIdFrom(Lookup(r, ks[2])) == d.selectedId;
    assert SecondsFrom(Lookup(r, ks[3])) == d.seconds;
    assert StatusFrom(Lookup(r, ks[4])) == d.status;
    assert PendingFrom(Lookup(r, ks[5])) == d.pending;
  }

  /** Per-user isolation: persisting one user's data never changes what another user, whose
      email normalizes differently, loads. */
  lemma PersistIsolated(st: Storage, e1: string, e2: string, d: UserData)
    requires Normalize(e1) != Normalize(e2)
    ensures LoadUserData(PersistUserData(st, e1, d), e2) == LoadUserData(st, e2)
  {
    UserKeysSeparate(e2, e1);
    var ks := UserKeys(e2);
    forall i | 0 <= i < 6 ensures ks[i] !in UserKeys(e1) {
    }
  }

  /** No per-user key is one of the global keys: a per-user key has its base, which never
      starts with the `u` of `user`, right after the `studywiz_` prefix. */
  lemma UserKeysNotGlobal(email: string)
    ensures UserKey !in UserKeys(email) && RegistryKey !in UserKeys(email)
  {
    var ks := UserKeys(email);
    GlobalKeysAtBase();
    forall i | 0 <= i < 6 ensures ks[i] != UserKey && ks[i] != RegistryKey {
      UserBaseInitial(i);
      KeyForUserAt(email, UserBases[i], 0);
    }
  }

  lemma GlobalKeysAtBase()
    ensures |UserKey| > 9 && UserKey[9] == 'u' && |RegistryKey| > 9 && RegistryKey[9] == 'u'
  {
  }

  lemma UserBaseInitial(i: nat)
    requires i < 6
    ensures |UserBases[i]| > 0 && UserBases[i][0] != 'u'
  {
  }

  /** Persisting a user's data leaves the remembered user and the registry as they were. */
  lemma PersistKeepsGlobals(st: Storage, email: string, d: UserData)
    ensures Lookup(PersistUserData(st, email, d), UserKey) == Lookup(st, UserKey)
    ensures Lookup(PersistUserData(st, email, d), RegistryKey) == Lookup(st, RegistryKey)
  {
    UserKeysNotGlobal(email);
  }

  // ---------------------------------------------------------------------------------
  // The provider

  class Provider {
    var lang: Lang
    var user: Option<User>
    var currentSelection: StudySelection
    var savedStudies: seq<SavedStudy>
    var selectedStudyId: Option<string>
    var timerSeconds: nat
    var timerStatus: TimerStatus
    var pendingSession: Option<PendingSession>
    var settings: Settings
    var storage: Storage

    /** The timer invariant every operation but loading keeps: an idle or stopped timer
        shows 0 seconds, and a pending session exists only while the timer is stopped. */
    predicate TimerConsistent()
      reads this
    {
      && (timerStatus == Idle || timerStatus == Stopped ==> timerSeconds == 0)
      && (pendingSession.Some? ==> timerStatus == Stopped)
    }

    function Data(): UserData
      reads this
    {
      UserData(currentSelection, savedStudies, selectedStudyId, timerSeconds, timerStatus, pendingSession)
    }

    /** The initial state, over what the browser has stored. */
    constructor (st: Storage)
      ensures lang == En && user.None? && settings == DefaultSettings && storage == st
      ensures Data() == LoggedOutData
      ensures TimerConsistent()
    {
      lang := En;
      user := None;
      currentSelection := EmptySelection;
      savedStudies := [];
      selectedStudyId := None;
      timerSeconds := 0;
      timerStatus := Idle;
      pendingSession := None;
      settings := DefaultSettings;
      storage := st;
    }

    /** The start-up effect: language, settings and the remembered user. */
    method LoadGlobals()
      modifies this`lang, this`settings, this`user, this`storage
      ensures var saved := Lookup(old(storage), LangKey);
        lang == if saved.Some? && saved.value.TextValue? && LangFromText(saved.value.text).Some?
                then LangFromText(saved.value.text).value else old(lang)
      ensures settings == MergeSettings(old(settings), StoredSettings(old(storage)))
      ensures var outcome := RestoreUser(RememberedFrom(old(storage)), LoadRegistry(old(storage)));
        && user == RestoredUser(outcome, old(user))
        && storage == (if outcome.RefuseUser? then old(storage) - {UserKey} else old(storage))
    {
      var savedLang := Lookup(storage, LangKey);
      if savedLang.Some? && savedLang.value.TextValue? && LangFromText(savedLang.value.text).Some? {
        lang := LangFromText(savedLang.value.text).value;
      }
      settings := MergeSettings(settings, StoredSettings(storage));
      RestoreRemembered();
    }

    /** The restore step of the start-up effect. */
    method RestoreRemembered()
      modifies this`user, this`storage
      ensures var outcome := RestoreUser(RememberedFrom(old(storage)), LoadRegistry(old(storage)));
        && user == RestoredUser(outcome, old(user))
        && storage == (if outcome.RefuseUser? then old(storage) - {UserKey} else old(storage))
    {
      var outcome := RestoreUser(RememberedFrom(storage), LoadRegistry(storage));
      user := RestoredUser(outcome, user);
      if outcome.RefuseUser? {
        storage := storage - {UserKey};
      }
    }

    /** The effects that store language and settings whenever they change. */
    method PersistGlobals()
      modifies this`storage
      ensures storage == old(storage)[LangKey := TextValue(LangText(lang))][SettingsKey := SettingsStored(settings)]
    {
      storage := storage[LangKey := TextValue(LangText(lang))][SettingsKey := SettingsStored(settings)];
    }

    /** The effect that runs when the signed-in email changes: the logged-out defaults
        without a user, the user's stored data otherwise. */
    method OnUserChanged()
      modifies this`currentSelection, this`savedStudies, this`selectedStudyId, this`timerSeconds,
        this`timerStatus, this`pendingSession
      ensures user.None? || user.value.email == "" ==> Data() == LoggedOutData
      ensures user.Some? && user.value.email != "" ==> Data() == LoadUserData(storage, user.value.email)
    {
      var d := if user.None? || user.value.email == "" then LoggedOutData else LoadUserData(storage, user.value.email);
      currentSelection, savedStudies, selectedStudyId := d.selection, d.studies, d.selectedId;
      timerSeconds, timerStatus, pendingSession := d.seconds, d.status, d.pending;
    }

    /** The effects that store the per-user state; nothing is written without a user. */
    method PersistUser()
      modifies this`storage
      ensures storage == Persisted(old(storage), user, Data())
    {
      storage := Persisted(storage, user, Data());
    }

    /** One second of the interval, which runs only while the timer runs. */
    method Tick()
      modifies this`timerSeconds
      ensures timerSeconds == if timerStatus == Running then old(timerSeconds) + 1 else old(timerSeconds)
      ensures old(TimerConsistent()) ==> TimerConsistent()
    {
      if timerStatus == Running {
        timerSeconds := timerSeconds + 1;
      }
    }

    /** The auto-pause effect: a running timer that reached the configured hours pauses. */
    method AutoPause()
      modifies this`timerStatus
      ensures timerStatus ==
        if settings.autoPauseEnabled && old(timerStatus) == Running && timerSeconds >= settings.autoPauseHours * 3600
        then Paused else old(timerStatus)
      ensures old(TimerConsistent()) ==> TimerConsistent()
    {
      if settings.autoPauseEnabled && timerStatus == Running && timerSeconds >= settings.autoPauseHours * 3600 {
        timerStatus := Paused;
      }
    }

    method SetLang(l: Lang)
      modifies this`lang
      ensures lang == l
    {
      lang := l;
    }

    method SetTheme(t: ThemeMode)
      modifies this`settings
      ensures settings == old(settings).(theme := t)
    {
      settings := settings.(theme := t);
    }

    method SetNotificationsEnabled(enabled: bool)
      modifies this`settings
      ensures settings == old(settings).(notificationsEnabled := enabled)
    {
      settings := settings.(notificationsEnabled := enabled);
    }

    method SetAutoPauseEnabled(enabled: bool)
      modifies this`settings
      ensures settings == old(settings).(autoPauseEnabled := enabled)
    {
      settings := settings.(autoPauseEnabled := enabled);
    }

    method SetCurrentSelection(next: StudySelection)
      modifies this`currentSelection
      ensures currentSelection == next
    {
      currentSelection := next;
    }

    /** `login`: the decision of `LoginOutcome`; on success the user is active, is
        remembered, and a new email is bound in the registry. */
    method Login(name: string, email: string, now: int) returns (ok: bool, message: string)
      modifies this`user, this`storage
      ensures var outcome := LoginOutcome(LoadRegistry(old(storage)), name, email, now);
        && ok == outcome.LoggedIn?
        && (!ok ==> message == outcome.message && user == old(user) && storage == old(storage))
        && (ok ==> message == "Logged in." && user == Some(outcome.user))
        && (ok ==> storage == StoreAfterLogin(old(storage), email, outcome))
    {
      var reg := LoadRegistry(storage);
      var outcome := LoginOutcome(reg, name, email, now);
      if outcome.LoginFailed? {
        return false, outcome.message;
      }
      user := Some(outcome.user);
      storage := StoreAfterLogin(storage, email, outcome);
      return true, "Logged in.";
    }

    /** `logout`: back to the logged-out state; language and settings stay. */
    method Logout()
      modifies this`user, this`storage, this`currentSelection, this`savedStudies, this`selectedStudyId,
        this`timerSeconds, this`timerStatus, this`pendingSession
      ensures user.None? && storage == old(storage) - {UserKey}
      ensures Data() == LoggedOutData
      ensures TimerConsistent()
    {
      user := None;
      storage := storage - {UserKey};
      currentSelection := EmptySelection;
      savedStudies := [];
      selectedStudyId := None;
      timerStatus := Idle;
      timerSeconds := 0;
      pendingSession := None;
    }

    /** `saveSelection`: with a user and a valid selection, a plan record is put first and
        selected; otherwise the first failing requirement's message and no change. */
    method SaveSelection(freshId: string, now: int) returns (ok: bool, message: string, savedId: Option<string>)
      modifies this`savedStudies, this`selectedStudyId
      ensures user.None? ==> !ok && message == "Login required."
      ensures user.Some? && SelectionError(currentSelection).Some? ==>
        !ok && message == SelectionError(currentSelection).value
      ensures ok <==> user.Some? && SelectionError(currentSelection).None?
      ensures !ok ==> savedId.None? && savedStudies == old(savedStudies) && selectedStudyId == old(selectedStudyId)
      ensures ok ==> message == "Saved." && savedId == Some(freshId) && selectedStudyId == Some(freshId)
      ensures ok ==> savedStudies == [SavedStudy(freshId, now, currentSelection, BuildSummary(currentSelection), 0, 0)] + old(savedStudies)
    {
      if user.None? {
        return false, "Login required.", None;
      }
      var err := SelectionError(currentSelection);
      if err.Some? {
        return false, err.value, None;
      }
      var saved := SavedStudy(freshId, now, currentSelection, BuildSummary(currentSelection), 0, 0);
      savedStudies := [saved] + savedStudies;
      selectedStudyId := Some(freshId);
      return true, "Saved.", Some(freshId);
    }

    method ResetSelection()
      modifies this`currentSelection, this`selectedStudyId
      ensures currentSelection == EmptySelection && selectedStudyId.None?
    {
      currentSelection := EmptySelection;
      selectedStudyId := None;
    }

    /** `selectSavedStudy`: selects an id only when a record has it. */
    method SelectSavedStudy(id: string)
      modifies this`selectedStudyId
      ensures selectedStudyId == if HasId(savedStudies, id) then Some(id) else old(selectedStudyId)
    {
      if FindById(savedStudies, id).Some? {
        selectedStudyId := Some(id);
      }
    }

    /** `removeSavedStudy`: every record with that id goes; the selection is cleared only
        when it was that id. */
    method RemoveSavedStudy(id: string)
      modifies this`savedStudies, this`selectedStudyId
      ensures savedStudies == RemoveById(old(savedStudies), id)
      ensures selectedStudyId == if old(selectedStudyId) == Some(id) then None else old(selectedStudyId)
    {
      savedStudies := RemoveById(savedStudies, id);
      if selectedStudyId == Some(id) {
        selectedStudyId := None;
      }
    }

    /** `studyAgain`: loads a saved record's selection and selects it. */
    method StudyAgain(id: string) returns (ok: bool, message: string)
      modifies this`currentSelection, this`selectedStudyId
      ensures ok <==> HasId(savedStudies, id)
      ensures !ok ==>
                (message == "Study not found." && currentSelection == old(currentSelection)
                 && selectedStudyId == old(selectedStudyId))
      ensures ok ==>
                (message == "Selection loaded. You can start studying now."
                 && currentSelection == FindById(savedStudies, id).value.selection && selectedStudyId == Some(id))
    {
      var found := FindById(savedStudies, id);
      if found.None? {
        return false, "Study not found.";
      }
      currentSelection := found.value.selection;
      selectedStudyId := Some(id);
      return true, "Selection loaded. You can start studying now.";
    }

    /** `startTimer`: needs a user and no pending session; a fresh start from idle or
        stopped counts from 0, a resumed timer keeps its seconds. */
    method StartTimer() returns (ok: bool, message: Option<string>)
      modifies this`timerSeconds, this`timerStatus
      ensures user.None? ==> !ok && message == Some("Login required.")
      ensures user.Some? && pendingSession.Some? ==> !ok && message == Some("Save or delete the last session first.")
      ensures ok <==> user.Some? && pendingSession.None?
      ensures !ok ==> timerStatus == old(timerStatus) && timerSeconds == old(timerSeconds)
      ensures ok ==> message.None? && timerStatus == Running
      ensures ok ==> timerSeconds == if old(timerStatus) == Idle || old(timerStatus) == Stopped then 0 else old(timerSeconds)
      ensures old(TimerConsistent()) ==> TimerConsistent()
    {
      if user.None? {
        return false, Some("Login required.");
      }
      if pendingSession.Some? {
        return false, Some("Save or delete the last session first.");
      }
      if timerStatus == Idle || timerStatus == Stopped {
        timerSeconds := 0;
      }
      timerStatus := Running;
      return true, None;
    }

    method PauseTimer()
      modifies this`timerStatus
      ensures timerStatus == if old(timerStatus) == Running then Paused else old(timerStatus)
      ensures old(TimerConsistent()) ==> TimerConsistent()
    {
      if timerStatus == Running {
        timerStatus := Paused;
      }
    }

    /** `stopTimer`: from running or paused, the elapsed seconds become the pending session
        and the timer is stopped at 0; otherwise nothing happens. */
    method StopTimer(now: int)
      modifies this`timerSeconds, this`timerStatus, this`pendingSession
      ensures old(timerStatus) == Running || old(timerStatus) == Paused ==>
        (timerStatus == Stopped && timerSeconds == 0
         && pendingSession == Some(PendingSession(old(timerSeconds), now, currentSelection)))
      ensures !(old(timerStatus) == Running || old(timerStatus) == Paused) ==>
        timerStatus == old(timerStatus) && timerSeconds == old(timerSeconds) && pendingSession == old(pendingSession)
      ensures old(TimerConsistent()) ==> TimerConsistent()
    {
      if timerStatus == Running || timerStatus == Paused {
        var durationSeconds := timerSeconds;
        timerStatus := Stopped;
        timerSeconds := 0;
        pendingSession := Some(PendingSession(durationSeconds, now, currentSelection));
      }
    }

    method ResetTimer()
      modifies this`timerSeconds, this`timerStatus, this`pendingSession
      ensures timerStatus == Idle && timerSeconds == 0 && pendingSession.None?
      ensures TimerConsistent()
    {
      timerStatus := Idle;
      timerSeconds := 0;
      pendingSession := None;
    }

    /** `savePendingSession`: needs a user and a pending session; a session under five
        seconds is dropped; otherwise it is committed by `CommitSession`, the record it went
        to is selected and nothing is pending any more. */
    method SavePendingSession(freshId: string) returns (ok: bool, message: string, savedId: Option<string>)
      modifies this`savedStudies, this`selectedStudyId, this`pendingSession
      ensures user.None? ==> !ok && message == "Login required."
      ensures user.Some? && old(pendingSession).None? ==> !ok && message == "No session to save."
      ensures user.None? || old(pendingSession).None? ==>
                (savedStudies == old(savedStudies) && selectedStudyId == old(selectedStudyId)
                 && pendingSession == old(pendingSession))
      ensures user.Some? && old(pendingSession).Some? && old(pendingSession).value.durationSeconds < 5 ==>
                (!ok && message == "Session was too short, it was discarded." && pendingSession.None?
                 && savedStudies == old(savedStudies) && selectedStudyId == old(selectedStudyId))
      ensures ok <==> user.Some? && old(pendingSession).Some? && old(pendingSession).value.durationSeconds >= 5
      ensures !ok ==> savedId.None?
      ensures ok ==>
                (var c := CommitSession(old(savedStudies), old(selectedStudyId), old(pendingSession).value, freshId);
                 message == "Session saved." && savedStudies == c.0 && savedId == Some(c.1)
                 && selectedStudyId == savedId && pendingSession.None?)
      ensures old(TimerConsistent()) ==> TimerConsistent()
    {
      if user.None? {
        return false, "Login required.", None;
      }
      if pendingSession.None? {
        return false, "No session to save.", None;
      }
      var p := pendingSession.value;
      if p.durationSeconds < 5 {
        pendingSession := None;
        return false, "Session was too short, it was discarded.", None;
      }
      var id := CommitPending(freshId);
      return true, "Session saved.", Some(id);
    }

    /** The committing branch of `savePendingSession`. */
    method CommitPending(freshId: string) returns (id: string)
      requires pendingSession.Some?
      modifies this`savedStudies, this`selectedStudyId, this`pendingSession
      ensures var c := CommitSession(old(savedStudies), old(selectedStudyId), old(pendingSession).value, freshId);
        savedStudies == c.0 && id == c.1 && selectedStudyId == Some(id) && pendingSession.None?
    {
      var p := pendingSession.value;
      pendingSession := None;
      var c := CommitSession(savedStudies, selectedStudyId, p, freshId);
      savedStudies := c.0;
      selectedStudyId := Some(c.1);
      id := c.1;
    }

    method DiscardPendingSession()
      modifies this`pendingSession
      ensures pendingSession.None?
      ensures old(TimerConsistent()) ==> TimerConsistent()
    {
      pendingSession := None;
    }

    /** `totalSecondsThisWeek`, with the start of the week supplied. */
    function TotalSecondsThisWeek(weekStart: int): (total: int)
      reads this
      ensures total == TotalSecondsSince(savedStudies, weekStart)
      ensures (forall i :: 0 <= i < |savedStudies| ==> savedStudies[i].durationSeconds >= 0) ==>
        0 <= total <= SumBy(savedStudies, Duration)
    {
      var total := TotalSecondsSince(savedStudies, weekStart);
      assert (forall i :: 0 <= i < |savedStudies| ==> savedStudies[i].durationSeconds >= 0) ==>
        0 <= total <= SumBy(savedStudies, Duration) by {
        if forall i :: 0 <= i < |savedStudies| ==> savedStudies[i].durationSeconds >= 0 {
          TotalSecondsSinceAtMostAll(savedStudies, weekStart);
        }
      }
      total
    }
  }
}
