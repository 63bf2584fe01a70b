# StudyWiz client logic in Dafny

This project models the client-side logic of StudyWiz, a study planner that runs in the
browser, and proves properties of that model. The model covers:

- the **provider**. It holds the signed-in user, the draft selection, the history of saved
  studies, the selected id, a four-state study timer with its pending session, the settings,
  and browser storage. Its operations are login, logout, saving a plan, selecting, removing and
  re-loading a saved study, starting, pausing, stopping and resetting the timer, keeping or
  dropping the pending session, and the effects that load and store per-user data;
- the **sessions log**: a per-user list of finished sessions, newest first;
- the **controls bar**: required-field checks, two summaries, a guest save list capped at 50
  entries, and a search capped at 6 results;
- the **login form** that sits in front of `login`;
- the **file library**: an object store of uploads, scoped by owner;
- the **pages**: due dates, studies, overview and materials, with their filters, formatters,
  totals and note list.

The modules are:

- `Wrappers`, `Text` and `Collections`: shared helpers, with strings as JavaScript trims,
  lower-cases, splits and joins them.
- `Study`: the provider's pure rules (summaries, storage keys, the login decision, list
  updates).
- `AppProvider`: the provider as a class.
- `SessionsStore`: the sessions log.
- `StudyControlsBar`, `TopBarActions` and `LibraryDb`.
- `DueDates`, `StudiesPage`, `Overview` and `Materials`: the pages.

Where the source changes state in place, the model is a class whose methods change fields:

- `Provider`, `SessionLog`, `ControlsBar`, `LoginModal`, `Library`, `DueDatesPage` and
  `MaterialsPage`;
- the loops in `Stats`, `ChartRows`, `BuildRowMap`, `AddUploads` and `ListFiles`.

Each method's `ensures` ties the new state to a specification function, and lemmas prove the
source's rules about those functions.

The model does not use the browser's storage itself. Each feature's storage is a `map` from
keys to values that `JSON.parse` has already decoded. A key that is absent, text that is
empty, text that does not parse, and text that parses to the wrong shape are separate cases.
The first three are treated the way the source's `try`/`catch` fallbacks treat them. Where the
source keeps a value of the wrong shape, the model falls back to the default instead; the
members that do so are listed under "Left out". The clock, random
ids and `window.confirm` are parameters (`now`, `freshId`, `randomHex`, `confirmed`). The start
of the week is a supplied `weekStart`.

## Model

| member | source | states |
|---|---|---|
| Text.Trim | components/AppProvider.tsx:410-411 | `String.trim`: the result is the slice of the input left after dropping only whitespace at both ends; it has no whitespace at either end, is empty exactly when the input is all whitespace, and leaves a trimmed string alone |
| Text.Normalize | components/AppProvider.tsx:175-177 | `normalize`/`safeUserKey`: the lower-cased trim of the input; never longer, empty exactly when the input is blank |
| Text.NormalizeIdempotent | components/AppProvider.tsx:175-177 | normalizing twice is normalizing once |
| Text.ToLower | components/StudyControlsBar.tsx:198 | `toLowerCase`: same length, each character lowered, no upper-case letter left |
| Text.ContainsIff | components/TopBarActions.tsx:45 | `includes`: true exactly when the query occurs at some position |
| Text.Split | app/materials/page.tsx:46 | `split`: at least one piece, none holding the separator |
| Text.JoinSplit | app/materials/page.tsx:46 | joining the pieces of a split with its separator gives the text back |
| Text.SplitJoin | app/materials/page.tsx:46 | splitting a join of separator-free pieces gives the pieces back |
| Text.NatToString | components/AppProvider.tsx:354 | `String(n)`: decimal digits without a leading zero |
| Text.DigitsValueOfNatToString | components/AppProvider.tsx:354 | the digits `String(n)` writes read back as n |
| Text.PadStart2 | app/overview/page.tsx:14 | `padStart(2, "0")`: the input when it has two characters or more; otherwise the input after as many `0`s as make two characters |
| Text.Pad2 | app/overview/page.tsx:13-15 | two digits for numbers under 100 that read back as the number |
| Collections.Take | components/StudyControlsBar.tsx:201 | `slice(0, n)`: a prefix of length at most n |
| Collections.Filter | components/StudyControlsBar.tsx:193-200 | `filter`: every element kept passes, and every element that passes is kept |
| Collections.FilterAppend | components/StudyControlsBar.tsx:193-200 | filtering a concatenation filters each part |
| Collections.FilterFilter | app/due-dates/page.tsx:98-108 | two filters in a row keep what passes both, in the order one filter testing both keeps |
| Collections.FilterMembers | components/StudyControlsBar.tsx:193-200 | what a filter keeps are exactly the elements that pass it |
| Collections.FilterDistinctBy | lib/libraryDb.ts:147-161 | a filter keeps keys distinct |
| Collections.DistinctOfMultiset | lib/libraryDb.ts:140 | a rearrangement of a list without repeats has no repeats |
| Collections.DistinctCount | app/due-dates/page.tsx:63 | a list without repeats holds each element at most once |
| Collections.MapSeqMembers | components/AppProvider.tsx:134 | `map`: the results are exactly the images of the elements |
| Collections.KeysOf | app/due-dates/page.tsx:63 | every key of the dictionary once |
| Collections.SortDesc | lib/libraryDb.ts:140 | `sort((a, b) => key(b) - key(a))`: sorted by the key, newest first, and a permutation of its input |
| Collections.SortDescMembers | lib/libraryDb.ts:140 | sorting keeps exactly the elements it was given |
| Collections.ValuesOf | app/due-dates/page.tsx:63 | `Object.values`: every key once, with the value stored under it |
| Collections.ValuesMembers | app/due-dates/page.tsx:63 | the listed values are exactly the dictionary's values |
| Study.TopicItems | components/AppProvider.tsx:134 | the comma items after trim without the empty ones: no more than the comma pieces, each non-empty, trimmed and comma-free, and exactly the non-empty trimmed pieces |
| Study.TopicItemsOfJoin | components/AppProvider.tsx:134 | items that are non-empty, trimmed and comma-free, joined by commas, read back as the same items in the same order |
| Study.TopicItemsOfEmpty | components/AppProvider.tsx:134 | empty text has no topic items |
| Study.ShortTopics | components/AppProvider.tsx:133-135 | none for blank text; otherwise the first three trimmed items, or all of them when there are fewer |
| Study.SummaryParts | components/AppProvider.tsx:117-137 | one part for each optional field that is present (time frame, dates, mode, priority, topics), and no other |
| Study.SummaryPartsLayout | components/AppProvider.tsx:117-137 | each present field's label sits right after the present fields before it, in the order time frame, dates, mode, priority, topics |
| Study.FiveParts | components/AppProvider.tsx:117-137 | five optional parts in a row: as many as are present, each present one after the present ones before it |
| Study.FourParts | app/overview/page.tsx:116-135 | four optional parts in a row: as many as are present, each present one after the present ones before it |
| Study.TopicsShort | components/AppProvider.tsx:133-136 | empty exactly when there are no short topics; otherwise the short topics joined by ", " |
| Study.SummaryPartsFacts | components/AppProvider.tsx:117-137 | no part exactly when no field is set and there are no topics; a time frame is always the first part |
| Study.PartsMarked | components/AppProvider.tsx:120-137 | every part holds a character the placeholder "Untitled study" lacks |
| Study.BuildSummaryUntitledIff | components/AppProvider.tsx:139 | the summary is "Untitled study" exactly when the selection has no part to show |
| Study.BuildSummaryStartsWithTimeFrame | components/AppProvider.tsx:120 | a selection with a time frame has a summary that starts with it |
| Study.BuildSummaryExample | components/AppProvider.tsx:117-139 | one week, single topic, first priority reads "1 Week \| Single \| Priority 1" |
| Study.KeyForUserShape | components/AppProvider.tsx:159-161 | a key is `studywiz_`, the base, `__` and the normalized email |
| Study.KeyForUserAt | components/AppProvider.tsx:160 | the base's characters sit right after the 9-character prefix |
| Study.KeyForUserBasesDiffer | components/AppProvider.tsx:159-161 | keys of bases that differ at some position differ, whatever the emails |
| Study.KeyForUserSameBase | components/AppProvider.tsx:156-161 | for one base, equal keys mean equal normalized emails |
| Study.KeyForUserInjective | components/AppProvider.tsx:156-161 | a key names exactly one base and one normalized email |
| Study.BaseSplitUnique | components/AppProvider.tsx:160 | a base without `__` followed by `__` splits one way only |
| Study.LoginOutcome | components/AppProvider.tsx:409-437 | success exactly when the name and email are not blank and the registry has no entry for the email or one with the same normalized name; blank input gives "Name and email are required."; the user becomes the trimmed name and normalized email |
| Study.LoginOutcomeRegistry | components/AppProvider.tsx:420-430 | on success the registry gains exactly the normalized email, keeps every old entry, and a new email gets the raw name and the login time |
| Study.NormalizeTrim | components/AppProvider.tsx:410-414 | trimming first does not change the normal form |
| Study.LoginBindsEmailToName | components/AppProvider.tsx:408-437 | after a first login with a new email, the next login with that email succeeds exactly when the name matches ignoring case and surrounding space |
| Study.RestoreUser | components/AppProvider.tsx:229-251 | an unreadable record clears the user; a name conflict with the registry refuses it; a record with both fields sets the trimmed name and normalized email; otherwise nothing changes |
| Study.IndexOfId | components/AppProvider.tsx:497 | position of the first record with the id, or the length when none has it |
| Study.FindById | components/AppProvider.tsx:497 | `find`: none exactly when no record has the id, else the first one that does |
| Study.RemoveById | components/AppProvider.tsx:503 | `filter`: no record with the id is left and every other record stays |
| Study.RemoveByIdAppend | components/AppProvider.tsx:503 | removal keeps the order of what stays |
| Study.SelectionError | components/AppProvider.tsx:461-469 | the first failing check's message, in the order time frame, topic mode, count of at least 2 for Multiple, priority; none exactly when all pass |
| Study.ApplySession | components/AppProvider.tsx:566-576 | the record keeps its id, creation time and non-blank summary, takes the session's selection, duration and end time, and a blank summary becomes the session's summary |
| Study.NewSavedStudy | components/AppProvider.tsx:584-593 | a new record from a session is created and saved at the session's end time, with its duration and selection, and its summary built from its selection |
| Study.UpdateById | components/AppProvider.tsx:565-578 | the length is kept and only records with that id change |
| Study.CommitTarget | components/AppProvider.tsx:561-564 | the selected id, exactly when it is non-empty and a record has it |
| Study.FindAfterUpdate | components/AppProvider.tsx:564-578 | after the update the id finds the updated first record |
| Study.CommitSession | components/AppProvider.tsx:560-597 | the selected record is updated in place, or a new record goes first under the fresh id; either way the id finds a record with the session's selection, duration and end time |
| Study.SavedAt | app/studies/page.tsx:78 | `endedAt \|\| createdAt`: the end time when set, else the creation time |
| Study.WeekSplitsTotal | components/AppProvider.tsx:617-623 | the week's seconds and the earlier seconds add up to the whole history's |
| Study.TotalSecondsSinceAtMostAll | components/AppProvider.tsx:617-623 | with non-negative durations, the week's total lies between 0 and the history's total |
| AppProvider.StatusFromText | components/AppProvider.tsx:294 | a stored status name reads back as that status |
| AppProvider.LangFromText | components/AppProvider.tsx:209-213 | a stored language reads back exactly when it is one of the three names |
| AppProvider.SecondsFromText | components/AppProvider.tsx:320 | seconds written by `String(n)` read back as n |
| AppProvider.MergeSettings | components/AppProvider.tsx:215-227 | no stored text, or a value of another shape, keeps the settings; text that does not parse gives the defaults; each stored field replaces the current one and each missing field keeps it |
| AppProvider.StoreAfterLogin | components/AppProvider.tsx:420-435 | a successful login stores the user; the registry is written only for a new email; no other key changes |
| AppProvider.SettingsRoundTrip | components/AppProvider.tsx:215-262 | settings written by the persist effect are read back unchanged |
| AppProvider.RestoredUser | components/AppProvider.tsx:236-250 | the restore decision applied to the active user |
| AppProvider.UserKeys | components/AppProvider.tsx:281-287 | the six per-user keys, in order, each built by `keyForUser` |
| AppProvider.UserBasesDiffer | components/AppProvider.tsx:281-287 | any two of the six base names differ at a known position |
| AppProvider.UserKeysSeparate | components/AppProvider.tsx:281-287 | one user's six keys are distinct, and no key of one user is a key of another |
| AppProvider.SelectedIdFrom | components/AppProvider.tsx:318 | `savedSelectedId \|\| null`: an empty stored id reads as none |
| AppProvider.ReadKeys | components/AppProvider.tsx:289-331 | every missing or unreadable value falls back to its default; with none stored the logged-out state results |
| AppProvider.LoadUserData | components/AppProvider.tsx:267-332 | the user-change effect's reading of the user's six keys; no empty selected id, defaults when nothing is stored |
| AppProvider.PutOrRemove | components/AppProvider.tsx:345-350 | `setItem` when a value is present, `removeItem` otherwise; no other key changes |
| AppProvider.WriteKeys | components/AppProvider.tsx:334-367 | the six persist effects write only the six given keys |
| AppProvider.PersistUserData | components/AppProvider.tsx:334-367 | persisting a user's data touches no key outside that user's six |
| AppProvider.Persisted | components/AppProvider.tsx:334-367 | without a signed-in email nothing is written, and the remembered user and the registry are never touched |
| AppProvider.ReadAfterWrite | components/AppProvider.tsx:289-367 | reading six distinct keys just written gives back what was written |
| AppProvider.LoadAfterPersist | components/AppProvider.tsx:267-367 | loading a user's data right after persisting it gives the same data |
| AppProvider.PersistIsolated | components/AppProvider.tsx:334-367 | persisting one user's data never changes what another user loads |
| AppProvider.UserKeysNotGlobal | components/AppProvider.tsx:167 | no per-user key is the remembered-user or registry key |
| AppProvider.GlobalKeysAtBase | components/AppProvider.tsx:167 | the global keys carry a `u` where each per-user base starts |
| AppProvider.UserBaseInitial | components/AppProvider.tsx:281-287 | no per-user base name starts with `u` |
| AppProvider.PersistKeepsGlobals | components/AppProvider.tsx:334-367 | persisting keeps the remembered user and the registry |
| AppProvider.Provider.constructor | components/AppProvider.tsx:193-205 | English, no user, default settings, logged-out data, a consistent timer |
| AppProvider.Provider.LoadGlobals | components/AppProvider.tsx:207-252 | the stored language when it is a known one, the merged settings, and the restore decision over the remembered user |
| AppProvider.Provider.RestoreRemembered | components/AppProvider.tsx:229-251 | a refused record is removed from storage and clears the user |
| AppProvider.Provider.PersistGlobals | components/AppProvider.tsx:254-264 | the language and settings are written under their keys |
| AppProvider.Provider.OnUserChanged | components/AppProvider.tsx:266-332 | no signed-in email gives the logged-out defaults; otherwise the user's stored data |
| AppProvider.Provider.PersistUser | components/AppProvider.tsx:334-367 | storage becomes `Persisted` of the current data |
| AppProvider.Provider.Tick | components/AppProvider.tsx:370-374 | one second is added only while running; the timer stays consistent |
| AppProvider.Provider.AutoPause | components/AppProvider.tsx:377-400 | a running timer at or past the configured hours pauses when auto-pause is on; the seconds are kept |
| AppProvider.Provider.SetLang | components/AppProvider.tsx:402 | the language becomes the given one |
| AppProvider.Provider.SetTheme | components/AppProvider.tsx:404 | only the theme changes |
| AppProvider.Provider.SetNotificationsEnabled | components/AppProvider.tsx:405 | only the notifications flag changes |
| AppProvider.Provider.SetAutoPauseEnabled | components/AppProvider.tsx:406 | only the auto-pause flag changes |
| AppProvider.Provider.SetCurrentSelection | components/AppProvider.tsx:196 | the draft selection becomes the given one |
| AppProvider.Provider.Login | components/AppProvider.tsx:409-437 | ok exactly when `LoginOutcome` succeeds; a failure returns its message and changes nothing; a success sets the user, stores it, and stores the registry only for a new email |
| AppProvider.Provider.Logout | components/AppProvider.tsx:439-453 | no user, the remembered key removed, logged-out data; language and settings are not in the frame |
| AppProvider.Provider.SaveSelection | components/AppProvider.tsx:455-489 | "Login required." without a user; otherwise the first validation message; on success exactly one plan record with duration and end time 0 goes first and is selected |
| AppProvider.Provider.ResetSelection | components/AppProvider.tsx:491-494 | empty selection and no selected id |
| AppProvider.Provider.SelectSavedStudy | components/AppProvider.tsx:496-500 | selects the id only when a record has it |
| AppProvider.Provider.RemoveSavedStudy | components/AppProvider.tsx:502-505 | every record with the id goes; the selection is cleared only when it was that id |
| AppProvider.Provider.StudyAgain | components/AppProvider.tsx:507-515 | fails with "Study not found." and no change for an absent id; otherwise loads the first such record's selection and selects the id |
| AppProvider.Provider.StartTimer | components/AppProvider.tsx:517-525 | fails without a user, or with a pending session whatever the status; otherwise running, with seconds reset from idle or stopped and kept otherwise |
| AppProvider.Provider.PauseTimer | components/AppProvider.tsx:527-529 | changes the status only from running |
| AppProvider.Provider.StopTimer | components/AppProvider.tsx:531-542 | from running or paused: stopped, 0 seconds, and the pending session of the elapsed seconds, `now` and the selection; nothing changes otherwise |
| AppProvider.Provider.ResetTimer | components/AppProvider.tsx:544-548 | idle, 0 seconds, no pending session |
| AppProvider.Provider.SavePendingSession | components/AppProvider.tsx:550-611 | no user or no pending session fails with its message and changes nothing; under 5 seconds the session is dropped with the history unchanged; otherwise `CommitSession`, with the pending session cleared |
| AppProvider.Provider.CommitPending | components/AppProvider.tsx:560-597 | the committing branch: the history and selected id of `CommitSession`, no pending session |
| AppProvider.Provider.DiscardPendingSession | components/AppProvider.tsx:613-615 | only the pending session is cleared |
| AppProvider.Provider.TotalSecondsThisWeek | components/AppProvider.tsx:617-623 | the seconds of the records saved since the week's start; with non-negative durations, between 0 and the total of the whole history |
| SessionsStore.StorageKey | lib/studySessionsStore.ts:13-21 | the base, `__` and the normalized email |
| SessionsStore.StorageKeyInjective | lib/studySessionsStore.ts:19-21 | two emails share a log exactly when their normal forms are equal |
| SessionsStore.StorageKeyIsUserKey | lib/studySessionsStore.ts:13-21 | the log's key is the provider's `keyForUser` scheme on `sessions_v1` |
| SessionsStore.StorageKeyApartFromProvider | lib/studySessionsStore.ts:13-21 | the log's key is never one of the provider's per-user keys |
| SessionsStore.SafeParse | lib/studySessionsStore.ts:23-30 | absent, empty or unparseable text gives the fallback; anything else gives what it parses to |
| SessionsStore.LoadSessions | lib/studySessionsStore.ts:32-36 | the stored array, and `[]` when it is absent, malformed or not an array |
| SessionsStore.NewSession | lib/studySessionsStore.ts:38-43 | the entry's id joins the time and the hex digits with `_`; it carries the time and the duration |
| SessionsStore.LoadAfterSave | lib/studySessionsStore.ts:38-48 | after a save the log is the new entry followed by exactly the old log |
| SessionsStore.LoadAfterClear | lib/studySessionsStore.ts:54-57 | after a clear that email's log is empty |
| SessionsStore.OtherLogsUnchanged | lib/studySessionsStore.ts:38-57 | saving or clearing one email's log leaves every other normal form's log unchanged |
| SessionsStore.LoadSessionsLocal | lib/studySessionsStore.ts:32-36 | a log depends only on the value under its own key |
| SessionsStore.SessionMinutes | lib/studySessionsStore.ts:59-61 | whole minutes rounded down, never negative; a missing duration counts as 0 |
| SessionsStore.SessionTimestamp | lib/studySessionsStore.ts:63-65 | `createdAt` when it is a number, else 0 |
| SessionsStore.SessionLog.SaveSession | lib/studySessionsStore.ts:38-52 | the stored log becomes the new entry followed by the old log |
| SessionsStore.SessionLog.ClearSessions | lib/studySessionsStore.ts:54-57 | the email's key is removed and its log reads as empty |
| StudyControlsBar.AsTimeFrame | components/StudyControlsBar.tsx:44-47 | a time frame exactly for one of the three labels, and it carries that label |
| StudyControlsBar.AsTopicMode | components/StudyControlsBar.tsx:49-52 | a mode exactly for "Single" or "Multiple", and it carries that name |
| StudyControlsBar.AsPriority | components/StudyControlsBar.tsx:54-57 | a priority exactly for one of the three labels, and it carries that label |
| StudyControlsBar.CoercionsRoundTrip | components/StudyControlsBar.tsx:44-57 | coercing a value's own label gives the value back, null included |
| StudyControlsBar.CanSaveIffNoSelectionError | components/StudyControlsBar.tsx:118-123 | `canSave` holds exactly when the provider's validation finds nothing |
| StudyControlsBar.HasAnyInputFacts | components/StudyControlsBar.tsx:108-116 | a saveable selection has input; the empty selection has none; no input means no summary part and the placeholder summary |
| StudyControlsBar.NoInputNoParts | components/StudyControlsBar.tsx:108-116 | a selection without input has no summary part |
| StudyControlsBar.SelectionSummaryParts | components/StudyControlsBar.tsx:90-106 | always four parts: time frame, dates, mode, priority, each with its placeholder when unset |
| StudyControlsBar.SelectionSummaryShape | components/StudyControlsBar.tsx:105 | the summary starts with its first part and holds the `" \| "` separator |
| StudyControlsBar.SelectionSummaryOfEmpty | components/StudyControlsBar.tsx:90-106 | the empty selection shows the four placeholders |
| StudyControlsBar.GuestTopics | components/StudyControlsBar.tsx:141-146 | the first three items, or all of them when there are fewer; none exactly when there are no items |
| StudyControlsBar.GuestSummaryParts | components/StudyControlsBar.tsx:130-148 | four parts, the last being the topics part |
| StudyControlsBar.GuestSummaryLayout | components/StudyControlsBar.tsx:130-140 | the first three parts are the time frame, mode and priority labels, or "No time frame", "No mode" and "No priority" when they are unset |
| StudyControlsBar.GuestSummaryTopics | components/StudyControlsBar.tsx:141-148 | "Topics: none" without items, otherwise "Topics: " and the first three items joined by ", " |
| StudyControlsBar.GuestListFrom | components/StudyControlsBar.tsx:78-82 | the stored guest array, or `[]` for anything else |
| StudyControlsBar.GuestSelectionOf | components/StudyControlsBar.tsx:160-172 | copying through the coercions and `\|\| ""` keeps the typed selection unchanged |
| StudyControlsBar.GuestRecord | components/StudyControlsBar.tsx:157-174 | the guest record carries the id, the selection, the time and the guest summary |
| StudyControlsBar.GuestListAfterSave | components/StudyControlsBar.tsx:176 | the new record is first, the length is the old length plus one capped at 50, and the older records follow in order |
| StudyControlsBar.Filtered | components/StudyControlsBar.tsx:189-202 | a blank query gives `[]`; otherwise the matching entries in order, the first six of them |
| StudyControlsBar.FilteredIgnoresLaterEntries | components/StudyControlsBar.tsx:201 | once six entries match, later entries cannot change the results |
| StudyControlsBar.SummaryHitMatches | components/StudyControlsBar.tsx:194-199 | an entry whose lowercased summary holds the query matches |
| StudyControlsBar.WithField | components/StudyControlsBar.tsx:125-128 | exactly the named field changes; the others stay equal |
| StudyControlsBar.WithFieldIdempotent | components/StudyControlsBar.tsx:125-128 | setting a field twice is setting it once, and setting a field to its value changes nothing |
| StudyControlsBar.ControlsBar.constructor | components/StudyControlsBar.tsx:72-76 | empty toast, search, action and guest list |
| StudyControlsBar.ControlsBar.LoadGuestSaved | components/StudyControlsBar.tsx:78-82 | only a guest reloads the list from storage |
| StudyControlsBar.ControlsBar.SetActive | components/StudyControlsBar.tsx:125-128 | the action is cleared and the selection changes in that one field |
| StudyControlsBar.ControlsBar.SaveSelectionAsGuest | components/StudyControlsBar.tsx:151-183 | writes nothing and shows the required-selections toast unless `canSave`; otherwise the capped list with the new record first, written back, with the save action and its toast |
| StudyControlsBar.ControlsBar.AcceptGuest | components/StudyControlsBar.tsx:176-182 | the record goes first in the capped list, the list is written, and the save action and its toast are set |
| StudyControlsBar.ControlsBar.PushGuest | components/StudyControlsBar.tsx:176-178 | the capped list is kept and stored |
| StudyControlsBar.ControlsBar.OnSave | components/StudyControlsBar.tsx:413-432 | the bar's guard first; a refusal only sets the toast and keeps both lists, the guest slot and the action; a user's plan record goes to the provider and the guest list and slot stay; a guest's goes in front of the guest list while the provider's history and selection stay |
| StudyControlsBar.ControlsBar.SetSearch | components/StudyControlsBar.tsx:248-251 | typing in the search box clears the highlighted action and sets the query |
| StudyControlsBar.ControlsBar.OnReset | components/StudyControlsBar.tsx:442-452 | nothing but the toast changes without input, so the selection, the selected id, the search and the action stay; otherwise the selection is cleared, the search emptied and the action set |
| StudyControlsBar.ControlsBar.ListForSearch | components/StudyControlsBar.tsx:185-187 | the provider's studies for a user, the guest list for a guest |
| StudyControlsBar.ControlsBar.Results | components/StudyControlsBar.tsx:189-202 | the search results for the current query over the list the bar searches; never more than six |
| TopBarActions.FormError | components/TopBarActions.tsx:35-48 | "Enter your name." for a blank name, else "Enter a valid email." without "@" and "."; none exactly when both checks pass |
| TopBarActions.TrimmedNonEmptyNotBlank | components/TopBarActions.tsx:36-40 | a non-empty trimmed string is not blank |
| TopBarActions.FormPassesBlankCheck | components/TopBarActions.tsx:40-53 | input that passes the form is refused by `login` only for a name mismatch |
| TopBarActions.LoginModal.constructor | components/TopBarActions.tsx:9-12 | closed, with empty name, email and error |
| TopBarActions.LoginModal.EnterDetails | components/TopBarActions.tsx:112-122 | the typed name and email are kept |
| TopBarActions.LoginModal.OpenModal | components/TopBarActions.tsx:25-28 | open with no error |
| TopBarActions.LoginModal.CloseModal | components/TopBarActions.tsx:30-33 | closed with no error |
| TopBarActions.LoginModal.HandleContinue | components/TopBarActions.tsx:35-62 | a failed check sets its message and leaves the provider and its storage untouched; otherwise `login` gets the trimmed name and email, and storage changes only as login writes it |
| TopBarActions.LoginModal.SubmitLogin | components/TopBarActions.tsx:50-61 | a refusal's message becomes the error and the form and storage stay; success clears and closes the form, sets the user and stores it as login does |
| TopBarActions.LoginModal.ShowAnswer | components/TopBarActions.tsx:52-61 | the form's reaction to `login`'s answer |
| TopBarActions.LoginModal.HandleAuthClick | components/TopBarActions.tsx:64-73 | logs out a user, removing the stored user and leaving the form alone; opens the form for a guest, leaving the provider's user, storage and data unchanged |
| LibraryDb.RowOf | lib/libraryDb.ts:131-138 | a listing row keeps the record's id, owner, name, type, size and time |
| LibraryDb.MakeId | lib/libraryDb.ts:54-56 | an id starts with the owner key and ":" |
| LibraryDb.NewRecord | lib/libraryDb.ts:64-72 | the record has the owner, the id prefix, the file's name, size and blob, and "application/octet-stream" for an empty type |
| LibraryDb.FileFor | lib/libraryDb.ts:91-110 | found exactly when the owner key is not blank and the record exists and is that owner's |
| LibraryDb.GetAfterAdd | lib/libraryDb.ts:58-110 | a just-added record is found by its owner under any spelling of the key and by nobody else |
| LibraryDb.OwnedRows | lib/libraryDb.ts:147-161 | exactly the rows of the owner's records, newest first, each once when the records' ids are distinct |
| LibraryDb.Library.constructor | lib/libraryDb.ts:29-52 | an empty store |
| LibraryDb.Library.AddFile | lib/libraryDb.ts:58-89 | a blank owner key fails with "Missing ownerKey" and stores nothing; otherwise the new record is stored under its id |
| LibraryDb.Library.GetFile | lib/libraryDb.ts:91-110 | the record when the owner may see it |
| LibraryDb.Library.ListFiles | lib/libraryDb.ts:112-167 | `[]` for a blank key; otherwise exactly the owner's rows, newest first, each once |
| LibraryDb.Library.RemoveFile | lib/libraryDb.ts:169-186 | true and only that id deleted when the owner may see it; false and nothing deleted otherwise |
| DueDates.DueKeyInjective | app/due-dates/page.tsx:25-31 | two emails share a key exactly when they normalize the same |
| DueDates.RowsToMap | app/due-dates/page.tsx:52-53 | the keys are exactly the rows' study ids, and each entry is a row of that id |
| DueDates.RowsToMapLaterWins | app/due-dates/page.tsx:53 | when ids repeat the last row wins |
| DueDates.StoredRows | app/due-dates/page.tsx:50-51 | the stored array, or none for anything else |
| DueDates.BuildRowMap | app/due-dates/page.tsx:52-53 | the load loop builds `RowsToMap` |
| DueDates.PatchedRow | app/due-dates/page.tsx:67-77 | each field comes from the patch, else the previous row, else its default; the time is always refreshed |
| DueDates.PatchedRowFacts | app/due-dates/page.tsx:67-77 | an empty patch keeps the row's fields; a second patch overrides the first field by field |
| DueDates.FilteredStudies | app/due-dates/page.tsx:98-108 | a blank query gives all completed studies; otherwise the completed studies that mention it, ignoring case, in the history's order and each as often as it occurs there |
| DueDates.OpenStudy | app/due-dates/page.tsx:110-115 | present exactly when the open id is among the completed studies; then it is the first completed study with that id, as `find` returns |
| DueDates.DueDatesPage.constructor | app/due-dates/page.tsx:36-40 | no rows, empty query, no popup |
| DueDates.DueDatesPage.LoadRows | app/due-dates/page.tsx:43-55 | a guest clears the rows and the popup; a user's stored rows become the map, each under its own id; unparseable text leaves the rows alone |
| DueDates.SortedRows | app/due-dates/page.tsx:63 | every row of the dictionary, newest update first, as many as there are keys, each once when every row sits under its own id |
| DueDates.DueDatesPage.Persist | app/due-dates/page.tsx:57-65 | the map becomes the rows; a guest writes nothing; a user's list is the map's values, one per key, newest update first, each once when every row sits under its own id |
| DueDates.DueDatesPage.UpdateRow | app/due-dates/page.tsx:67-80 | only that study's entry changes, to the patched row; rows stay under their own ids; a user's storage gets the new list under the user's key, a guest's stays |
| DueDates.DueDatesPage.ClearRow | app/due-dates/page.tsx:82-91 | once confirmed only that key goes, and the popup closes only if it was open on that study; a user's storage gets the new list under the user's key, a guest's stays |
| StudiesPage.CompletedStudies | app/studies/page.tsx:25-27 | exactly the records with a positive duration and end time |
| StudiesPage.CompletedStudiesAppend | app/studies/page.tsx:25-27 | the filter keeps history order |
| StudiesPage.CompletedStudiesOfNewRecord | app/studies/page.tsx:24-27 | a plan put first never shows; a committed session put first shows first |
| StudiesPage.CompletedSavedAtIsEnd | app/studies/page.tsx:78 | a listed record's saved time is its end time |
| StudiesPage.JsRemainder60 | app/studies/page.tsx:8 | JavaScript's `% 60`: congruent to the dividend modulo 60, smaller than 60 in size, and signed like the dividend, which fixes it for negative dividends too |
| StudiesPage.PadStart2OfNat | app/studies/page.tsx:9 | `padStart(2, "0")` of a number is its two-digit form |
| StudiesPage.FormatDurationShape | app/studies/page.tsx:6-10 | minutes, "m ", the remaining seconds as exactly two digits, "s" |
| StudiesPage.FormatDurationInjective | app/studies/page.tsx:6-10 | different durations never show the same |
| StudiesPage.Cards | app/studies/page.tsx:49-50 | one card per completed record, in order, selected exactly when its id is the selected id |
| Overview.RoundDiv | app/overview/page.tsx:149 | `Math.round(x / d)`: the nearest whole number, halves rounded up |
| Overview.MinutesToHrMinShape | app/overview/page.tsx:17-22 | the hours times 60 plus the two-digit minutes give back the clamped total; minutes under 60 |
| Overview.ShortLabelSplit | app/overview/page.tsx:24-30 | the label is a number followed by its unit and rest |
| Overview.MinutesToShortLabelInjective | app/overview/page.tsx:24-30 | different minute counts never show the same label |
| Overview.FormatDurationAgrees | app/overview/page.tsx:32-37 | the overview's formatter is the studies page's on the clamped value; nothing shows "0m 00s" |
| Overview.MinutesFromSessionSafe | app/overview/page.tsx:143-159 | the logged minutes when positive; else at least one for a positive duration; else the rounded span when positive; else 0 |
| Overview.SpanMillis | app/overview/page.tsx:152-155 | positive exactly when a start and a later end are present |
| Overview.MinutesOfLoggedSession | app/overview/page.tsx:143-150 | a session the log wrote counts its whole minutes, and 1 when it was under a minute |
| Overview.MinutesInCons | app/overview/page.tsx:216-222 | a window's total gains the first session's minutes when it falls inside |
| Overview.MinutesInMonotone | app/overview/page.tsx:250-252 | a wider window never counts fewer minutes |
| Overview.Stats | app/overview/page.tsx:209-229 | the loop's totals are the week's and the whole log's minutes, the count is the log's length, and the week is at most all time |
| Overview.ChartRows | app/overview/page.tsx:231-268 | five rows of each window's minutes; the last four buckets sum to all time; the last day is at most the last seven days |
| Overview.PageSessions | app/overview/page.tsx:167-183 | no email reads no sessions; a signed-in user's email reads that user's stored log |
| Overview.OverviewAfterSave | app/overview/page.tsx:170-179 | after a save the page shows one more session and the new one's minutes in every window it falls in |
| Overview.PickTimestamp | app/overview/page.tsx:103-110 | the first truthy number among saved, ended and created time, else 0 |
| Overview.PickTimestampOfSaved | app/overview/page.tsx:103-110 | on a saved study it agrees with the saved time |
| Overview.FirstFilledIndex | app/overview/page.tsx:118-128 | the first candidate that is not blank |
| Overview.FirstFilled | app/overview/page.tsx:118-128 | `a.trim() \|\| b.trim() \|\| ""`: empty exactly when no candidate has text, else the first one trimmed |
| Overview.PriorityOf | app/overview/page.tsx:131-132 | the trimmed priority, and nothing when it is missing |
| Overview.TitleParts | app/overview/page.tsx:116-135 | one fallback part for each of time frame, mode, priority and topics that is present, and no other |
| Overview.TitlePartsLayout | app/overview/page.tsx:116-135 | the time frame, the mode, "Priority " and the priority, and "Topics: " and the first three topics, each after the present ones before it |
| Overview.BuildSavedStudyTitle | app/overview/page.tsx:112-140 | a non-blank summary wins trimmed; otherwise the fallback parts joined by `" \| "`; with none "Untitled study" |
| Overview.OptionalPartSolid | app/overview/page.tsx:118-135 | a part that is pushed only when it has text adds only parts that start with a non-space character |
| Overview.TitlePartsSolid | app/overview/page.tsx:116-135 | every fallback part starts with a character that is not whitespace |
| Overview.JoinSolid | app/overview/page.tsx:137 | a join whose first part is solid is solid |
| Overview.TitleNeverBlank | app/overview/page.tsx:112-140 | a title is never empty and never blank |
| Overview.TitleOfSaved | app/overview/page.tsx:112-140 | a saved study's title is its trimmed summary, or "Untitled study" |
| Overview.LatestIndex | app/overview/page.tsx:273-275 | the first position of the largest picked time |
| Overview.LastSavedStudy | app/overview/page.tsx:270-276 | none for no studies; otherwise the first study with the latest saved time, the one a stable newest-first sort puts in front |
| Overview.Overlay | app/overview/page.tsx:278-286 | empty for no studies; otherwise the newest study's title, never blank, and its formatted duration |
| Materials.SqueezeAppendSpaces | app/materials/page.tsx:44 | leading whitespace does not change the words |
| Materials.SqueezeCons | app/materials/page.tsx:44 | a leading non-space character is kept |
| Materials.AllSpaceAppend | app/materials/page.tsx:44 | a concatenation is blank exactly when both parts are |
| Materials.SingleSpacedCons | app/materials/page.tsx:44 | putting a character in front keeps a string single-spaced when no two spaces meet |
| Materials.CollapseSpace | app/materials/page.tsx:44 | `replace(/\s+/g, " ")`: same non-space content, blank exactly when the input is, a non-space first character kept, single-spaced |
| Materials.CollapseSpaceWords | app/materials/page.tsx:44 | collapsing whitespace keeps the words: none is split, joined, added or lost |
| Materials.TrimWords | app/materials/page.tsx:44 | trimming keeps the words |
| Materials.TrimSingleSpaced | app/materials/page.tsx:44 | trimming single-spaced text leaves it single-spaced |
| Materials.SplitIsWordsFrom | app/materials/page.tsx:46 | on single-spaced text that does not end in a space, splitting at spaces finds the words |
| Materials.SplitTrimmedIsWords | app/materials/page.tsx:44-46 | single-spaced text that is not blank, once trimmed, splits at spaces into exactly its words |
| Materials.CleanNoteWords | app/materials/page.tsx:44-46 | splitting the clean note at spaces gives exactly the note's words, so the title is made of its first four words |
| Materials.NoteTitle | app/materials/page.tsx:43-48 | "Your Note..." for whitespace-only content, otherwise the first words and "..." |
| Materials.JoinTakePrefix | app/materials/page.tsx:46 | joining the first words gives a prefix of joining all of them |
| Materials.NoteTitleWords | app/materials/page.tsx:46 | the title's words are the first four, at most, of the cleaned text, and a prefix of it |
| Materials.NoteTitleSingleSpaced | app/materials/page.tsx:44-45 | the collapsed text is single-spaced, and the cleaned text is empty exactly when the content is blank |
| Materials.NotesKeyFor | app/materials/page.tsx:50-57 | the notes prefix followed by the normalized email, or "unknown" |
| Materials.NotesKeyInjective | app/materials/page.tsx:54-57 | signed-in users share a notes key exactly when their emails normalize the same |
| Materials.StoredNotes | app/materials/page.tsx:95-105 | the stored array, or `[]` for anything else |
| Materials.OtherUsersNotesUnchanged | app/materials/page.tsx:136-138 | writing one user's notes leaves another user's notes unchanged |
| Materials.StoredNotesOtherKey | app/materials/page.tsx:138 | writing one key leaves the notes under any other key unchanged |
| Materials.NotesAfterSave | app/materials/page.tsx:124-142 | nothing without an owner or with a blank draft; otherwise the trimmed note goes first |
| Materials.RemovedNotes | app/materials/page.tsx:168 | exactly the notes with another id stay, and the list is unchanged exactly when none has the id |
| Materials.TotalFileSizeNonNegative | app/materials/page.tsx:254 | with non-negative sizes the total is non-negative |
| Materials.TotalFileSizeAppend | app/materials/page.tsx:254 | the total of two lists is the sum of their totals |
| Materials.AddAllFacts | app/materials/page.tsx:190-192 | uploading keeps every earlier id, and never adds or changes a record of another owner |
| Materials.AddAllStep | app/materials/page.tsx:190-192 | one more upload adds its record over the earlier ones |
| Materials.AddAllWhole | app/materials/page.tsx:190-192 | the whole-prefix form of the uploads is the uploads |
| Materials.AddUploads | app/materials/page.tsx:189-192 | the upload loop adds every file in order, or fails and stores nothing for a blank owner key |
| Materials.OwnerKeyNormal | app/materials/page.tsx:76 | the page's owner key is already in normal form |
| Materials.MaterialsPage.constructor | app/materials/page.tsx:64-77 | empty rows, notes, draft and message; the owner and notes keys from the user |
| Materials.MaterialsPage.Refresh | app/materials/page.tsx:109-117 | the rows become the owner's listing, newest first, each once |
| Materials.MaterialsPage.OnUserChange | app/materials/page.tsx:79-107 | draft, open note, picked names and message reset; no owner empties rows and notes; an owner gets the listing and the stored notes |
| Materials.MaterialsPage.ResetForUser | app/materials/page.tsx:64-84 | the owner and notes keys are derived again from the user; the draft, open note, picked names and message are cleared |
| Materials.MaterialsPage.LoadOwnerData | app/materials/page.tsx:93-105 | the listing and the stored notes of the owner |
| Materials.MaterialsPage.EditDraft | app/materials/page.tsx:282 | the draft becomes the typed text |
| Materials.MaterialsPage.SaveNote | app/materials/page.tsx:124-142 | the list and storage become `NotesAfterSave`, and the draft is cleared when a note was saved |
| Materials.MaterialsPage.ViewNote | app/materials/page.tsx:144-146 | the note opens |
| Materials.MaterialsPage.CloseNote | app/materials/page.tsx:394 | no note is open |
| Materials.MaterialsPage.RemoveNote | app/materials/page.tsx:162-174 | without an owner or confirmation nothing changes; otherwise only notes with the id go, are stored, and the open note closes only if it matched |
| Materials.MaterialsPage.OnUpload | app/materials/page.tsx:180-204 | nothing without an owner or files; otherwise every file is added, the rows refreshed, the message set and the busy flag and picked names cleared |
| Materials.MaterialsPage.OnDownloadFile | app/materials/page.tsx:206-232 | the owner's file when it may be seen, else "File not found." |
| Materials.MaterialsPage.OnRemoveFile | app/materials/page.tsx:234-252 | only once confirmed by an owner: that owner's record goes and the rows are refreshed |

## Left out

- Rendering, layout, the toast and flash timers, and the order in which React runs effects.
  Each handler is one method; each effect is a method the caller runs (`LoadGlobals`,
  `OnUserChanged`, `PersistUser`, `PersistGlobals`, `Tick`, `AutoPause`, `LoadRows`,
  `OnUserChange`, `LoadGuestSaved`).
- JSON text. Stored values are decoded datatypes, with separate cases for text that is empty,
  text that does not parse, and text that parses to another shape. A value of the right shape
  whose fields have the wrong types is not modelled.
- `Date.now()`, `Math.random()` and `makeId` are parameters; `startOfWeekMs` is a supplied
  `weekStart`, because it is calendar arithmetic.
- Notifications, `window` events (`openLogin`, the sessions-updated event, `storage`), router
  navigation, `document` attributes, Blob and URL downloads, `downloadNote`,
  `toLocaleString`/`formatDate`/`formatDateTime`, chart percentages and `formatBytes`. These
  are I/O or floating point.
- The IndexedDB plumbing: `openDB`, transactions, Promises, and the choice between the index
  and `getAll`. The store is a `map` from ids to records, and both listing paths give the same
  rows.
- `onPickSaved` and `applyGuestSavedStudy` (StudyControlsBar.tsx:204-233) navigate the router.
  The selection they load is `SetCurrentSelection`/`SelectSavedStudy`.
- The language `<select>` of the top bar is `Provider.SetLang`.
- Whitespace is ASCII whitespace plus no-break space and byte-order mark, not every Unicode space
  that JavaScript's `\s` and `trim` accept. Lower-casing is ASCII only.
- Numbers are unbounded integers. A duration or count that is not a whole number cannot be
  written, and neither can `NaN`.
- `Number(text) || 0` for the stored seconds is read only for a run of decimal digits. That is
  what `String(n)` writes.
- AppProvider.StatusFromText: a stored status that is not one of the four names reads as idle.
  The source keeps the raw string.
- AppProvider.LangFromText: a stored language that is not "en", "fr" or "es" leaves the
  language unchanged. The source would set the raw string.
- AppProvider.LoadRegistry: a registry that parses but is not an object reads as empty.
- AppProvider.ReadKeys: a stored selection or pending session that parses to another shape
  reads as the empty selection or as no pending session (`SelectionFrom`, `PendingFrom`). The
  source keeps the parsed value as it is. A stored `5` then becomes a pending session that
  `startTimer` refuses to overwrite, and a stored `null` selection breaks the next render.
- AppProvider.LoadUserData: reads through `ReadKeys`, so it has the same fallbacks for
  wrongly shaped selections and pending sessions.
- AppProvider.MergeSettings: stored settings that parse to `null` keep the settings, as any
  other shape does. In the source, `parsed.autoPauseHours` throws inside the state updater.
- DueDates.DueDatesPage.LoadRows: text `JSON.parse` rejects makes the load return false and
  leave the state alone. In the source the effect throws there.
- Overview.ChartRows: the row percentages are left out, because they are floating point.
- LibraryDb.OwnedRows, LibraryDb.Library.ListFiles, DueDates.SortedRows and
  DueDates.DueDatesPage.Persist: rows with equal timestamps may come in any order; only the
  order by time is promised. The source's stable sorts keep such rows in their input order:
  the store's index order for files, and the insertion order of `Object.values` for due
  dates. The model's `SortDesc` is stable too, but the map's values are not ordered by
  insertion, so the tie order is left unstated.
- `savePendingSession` does not append to the sessions log, and the model does not either.
- The guest record (`GuestSavedStudy`) is kept apart from `SavedStudy`, as in the source.
- The presentational components (Sidebar, SettingsPanel, Footer, TopBar, layout,
  BottomSummaryBar, TimerPanel) are not part of this model.
