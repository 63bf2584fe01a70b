/**
 * The overview page: the signed-in user's logged sessions summed into minutes (this week,
 * all time, and five time buckets for the chart), the formatters for those minutes, and
 * the card for the most recently saved study with its title and duration.
 */
module Overview {
  import opened Wrappers
  import opened Text
  import opened Collections
  import opened Study
  import opened SessionsStore
  import StudiesPage

  const Minute := 60 * 1000
  const Day := 24 * 60 * 60 * 1000
  const Week := 7 * Day

  // ---------------------------------------------------------------------------------
  // Formatters

  /** `Math.round(x / d)` for an even positive divisor: halves round up. */
  function RoundDiv(x: int, d: int): (r: int)
    requires d > 0 && d % 2 == 0
    ensures r * d - d / 2 <= x < r * d + d / 2
  {
    (x + d / 2) / d
  }

  function ClampMinutes(t: int): nat {
    if t < 0 then 0 else t
  }

  /** `minutesToHrMin`: hours and minutes, each padded to two digits. */
  function MinutesToHrMin(totalMinutes: int): string {
    var m := ClampMinutes(totalMinutes);
    Pad2(m / 60) + "hr " + Pad2(m % 60) + "min"
  }

  /** The two numbers shown give back the clamped total: the minutes are exactly two digits
      below 60, and hours times 60 plus minutes is the total. */
  lemma MinutesToHrMinShape(totalMinutes: int)
    ensures var m := ClampMinutes(totalMinutes);
            MinutesToHrMin(totalMinutes) == Pad2(m / 60) + "hr " + Pad2(m % 60) + "min"
            && |Pad2(m % 60)| == 2 && DigitsValue(Pad2(m % 60)) < 60
            && DigitsValue(Pad2(m / 60)) * 60 + DigitsValue(Pad2(m % 60)) == m
    ensures totalMinutes <= 0 ==> MinutesToHrMin(totalMinutes) == "00hr 00min"
  {
    var m := ClampMinutes(totalMinutes);
    if totalMinutes <= 0 {
      assert m == 0;
      assert Pad2(0) == "00";
    }
  }

  /** `minutesToShortLabel`: minutes alone under an hour, whole hours alone, otherwise
      both. */
  function MinutesToShortLabel(mins: int): string {
    var m := ClampMinutes(mins);
    if m < 60 then NatToString(m) + " min"
    else if m % 60 == 0 then NatToString(m / 60) + " hr"
    else NatToString(m / 60) + " hr " + NatToString(m % 60) + " min"
  }

  /** What follows the leading number of a short label. */
  function ShortLabelRest(m: nat): (r: string)
    ensures |r| > 0 && r[0] == ' '
  {
    if m < 60 then " min"
    else if m % 60 == 0 then " hr"
    else " hr " + NatToString(m % 60) + " min"
  }

  lemma ShortLabelSplit(m: nat)
    ensures MinutesToShortLabel(m) == NatToString(if m < 60 then m else m / 60) + ShortLabelRest(m)
  {
    if m >= 60 && m % 60 != 0 {
      Assoc4(NatToString(m / 60), " hr ", NatToString(m % 60), " min");
    }
  }

  /** Different non-negative minute counts never get the same short label. */
  lemma MinutesToShortLabelInjective(a: nat, b: nat)
    requires MinutesToShortLabel(a) == MinutesToShortLabel(b)
    ensures a == b
  {
    ShortLabelSplit(a);
    ShortLabelSplit(b);
    var na := if a < 60 then a else a / 60;
    var nb := if b < 60 then b else b / 60;
    DigitPrefixUnique(NatToString(na), ShortLabelRest(a), NatToString(nb), ShortLabelRest(b));
    NatToStringInjective(na, nb);
    var ra := ShortLabelRest(a);
    if a < 60 {
      assert |ra| == 4;
    } else if a % 60 == 0 {
      assert |ra| == 3;
    } else {
      assert |ra| >= 9 && ra[1] == 'h';
    }
    if a >= 60 && a % 60 != 0 && b >= 60 && b % 60 != 0 {
      var rb := ShortLabelRest(b);
      var da := NatToString(a % 60);
      var db := NatToString(b % 60);
      assert ra[4..|ra| - 4] == da;
      assert rb[4..|rb| - 4] == db;
      NatToStringInjective(a % 60, b % 60);
    }
  }

  /** The overview's `formatDuration`: a negative duration counts as none. */
  function FormatDuration(totalSeconds: int): string {
    var sec := ClampMinutes(totalSeconds);
    NatToString(sec / 60) + "m " + PadStart2(NatToString(sec % 60)) + "s"
  }

  /** It agrees with the history page's formatter, after clamping at zero. */
  lemma FormatDurationAgrees(totalSeconds: int)
    ensures FormatDuration(totalSeconds) == StudiesPage.FormatDuration(ClampMinutes(totalSeconds))
    ensures totalSeconds <= 0 ==> FormatDuration(totalSeconds) == "0m 00s"
  {
    var sec := ClampMinutes(totalSeconds);
    assert StudiesPage.JsRemainder60(sec) == sec % 60;
    if totalSeconds <= 0 {
      assert sec == 0 && NatToString(0) == "0";
    }
  }

  // ---------------------------------------------------------------------------------
  // Minutes of one session

  /** `minutesFromSessionSafe`: the logged minutes when there are any; else at least one
      minute for a positive duration; else the rounded span between a start and an end; else
      none. The end is `endedAt`, or `savedAt` when that is missing. */
  function MinutesFromSessionSafe(s: StudySession): (m: nat)
    ensures SessionMinutes(s) > 0 ==> m == SessionMinutes(s)
    ensures SessionMinutes(s) == 0 && s.durationSeconds.Some? && s.durationSeconds.value > 0 ==> m == 1
    ensures m > 0 <==> (s.durationSeconds.Some? && s.durationSeconds.value > 0) || SpanMillis(s) > 0
    ensures !(s.durationSeconds.Some? && s.durationSeconds.value > 0) && SpanMillis(s) > 0 ==>
              m * Minute - Minute / 2 <= SpanMillis(s) < m * Minute + Minute / 2 || (m == 1 && SpanMillis(s) < Minute / 2)
  {
    var m1 := SessionMinutes(s);
    if m1 > 0 then m1
    else if s.durationSeconds.Some? && s.durationSeconds.value > 0 then
      var r := RoundDiv(s.durationSeconds.value, 60);
      if r < 1 then 1 else r
    else if SpanMillis(s) > 0 then
      var r := RoundDiv(SpanMillis(s), Minute);
      if r < 1 then 1 else r
    else 0
  }

  function EndOf(s: StudySession): Option<int> {
    if s.endedAt.Some? then s.endedAt else s.savedAt
  }

  /** The milliseconds from the start to the end, or 0 when either is missing or the end is
      not later. */
  function SpanMillis(s: StudySession): (d: int)
    ensures d >= 0
    ensures d > 0 <==> s.startedAt.Some? && EndOf(s).Some? && EndOf(s).value > s.startedAt.value
  {
    if s.startedAt.Some? && EndOf(s).Some? && EndOf(s).value > s.startedAt.value
    then EndOf(s).value - s.startedAt.value else 0
  }

  /** A session the log writes counts its minutes rounded down, and one minute when it was
      shorter than a minute but not empty. */
  lemma MinutesOfLoggedSession(durationSeconds: int, createdAt: int, randomHex: string)
    ensures var m := MinutesFromSessionSafe(NewSession(durationSeconds, createdAt, randomHex));
            (durationSeconds >= 60 ==> m * 60 <= durationSeconds < m * 60 + 60)
            && (0 < durationSeconds < 60 ==> m == 1)
            && (durationSeconds <= 0 ==> m == 0)
  {
  }

  // ---------------------------------------------------------------------------------
  // Totals over time windows

  /** The times a bucket covers: from `lo` (inclusive) up to `hi` (exclusive); a missing
      bound is unbounded. */
  datatype Window = Window(lo: Option<int>, hi: Option<int>)

  const AllTime := Window(None, None)

  predicate InWindow(ts: int, w: Window) {
    (w.lo.None? || ts >= w.lo.value) && (w.hi.None? || ts < w.hi.value)
  }

  /** The minutes of the sessions whose timestamp falls in the window. */
  function MinutesIn(sessions: seq<StudySession>, w: Window): nat {
    if sessions == [] then 0
    else
      var last := sessions[|sessions| - 1];
      MinutesIn(sessions[..|sessions| - 1], w)
        + (if InWindow(SessionTimestamp(last), w) then MinutesFromSessionSafe(last) else 0)
  }

  /** Adding a session in front adds its minutes to every window it falls in. */
  lemma {:induction false} MinutesInCons(x: StudySession, sessions: seq<StudySession>, w: Window)
    ensures MinutesIn([x] + sessions, w)
              == (if InWindow(SessionTimestamp(x), w) then MinutesFromSessionSafe(x) else 0) + MinutesIn(sessions, w)
    decreases |sessions|
  {
    if sessions != [] {
      var front := sessions[..|sessions| - 1];
      assert ([x] + sessions)[..|sessions|] == [x] + front;
      assert ([x] + sessions)[|sessions|] == sessions[|sessions| - 1];
      MinutesInCons(x, front, w);
    } else {
      assert ([x] + sessions)[..0] == [];
    }
  }

  /** A wider window holds at least as many minutes. */
  lemma {:induction false} MinutesInMonotone(sessions: seq<StudySession>, w1: Window, w2: Window)
    requires forall ts: int :: InWindow(ts, w1) ==> InWindow(ts, w2)
    ensures MinutesIn(sessions, w1) <= MinutesIn(sessions, w2)
    decreases |sessions|
  {
    if sessions != [] {
      MinutesInMonotone(sessions[..|sessions| - 1], w1, w2);
    }
  }

  /** `stats`: one pass over the sessions adds up the week's and all-time minutes. */
  method Stats(sessions: seq<StudySession>, now: int) returns (weekMinutes: nat, allTimeMinutes: nat, savedSessions: nat)
    ensures allTimeMinutes == MinutesIn(sessions, AllTime)
    ensures weekMinutes == MinutesIn(sessions, Window(Some(now - Week), None))
    ensures savedSessions == |sessions|
    ensures weekMinutes <= allTimeMinutes
  {
    var weekAgo := now - Week;
    weekMinutes, allTimeMinutes := 0, 0;
    for i := 0 to |sessions|
      invariant allTimeMinutes == MinutesIn(sessions[..i], AllTime)
      invariant weekMinutes == MinutesIn(sessions[..i], Window(Some(weekAgo), None))
      invariant weekMinutes <= allTimeMinutes
    {
      assert sessions[..i + 1][..i] == sessions[..i];
      var mins := MinutesFromSessionSafe(sessions[i]);
      allTimeMinutes := allTimeMinutes + mins;
      var ts := SessionTimestamp(sessions[i]);
      if ts >= weekAgo {
        weekMinutes := weekMinutes + mins;
      }
    }
    assert sessions[..|sessions|] == sessions;
    savedSessions := |sessions|;
  }

  /** One bar of the chart. The percentage is left out. */
  datatype FrameRow = FrameRow(key: string, caption: string, minutes: nat)

  function Last24h(now: int): Window { Window(Some(now - Day), None) }
  function Last7(now: int): Window { Window(Some(now - 7 * Day), None) }
  function Days8To30(now: int): Window { Window(Some(now - 30 * Day), Some(now - 7 * Day)) }
  function Days31To90(now: int): Window { Window(Some(now - 90 * Day), Some(now - 30 * Day)) }
  function Older(now: int): Window { Window(None, Some(now - 90 * Day)) }

  /** `chartRows`: one pass puts every session's minutes in the last day's bar and in
      exactly one of the four age bars, so those four add up to the all-time total and the
      last day never exceeds the last week. */
  method ChartRows(sessions: seq<StudySession>, now: int) returns (rows: seq<FrameRow>)
    ensures |rows| == 5
    ensures rows[0] == FrameRow("24h", "Last 24 hours", MinutesIn(sessions, Last24h(now)))
    ensures rows[1] == FrameRow("7d", "Last 7 days", MinutesIn(sessions, Last7(now)))
    ensures rows[2] == FrameRow("8-30", "Days 8 to 30", MinutesIn(sessions, Days8To30(now)))
    ensures rows[3] == FrameRow("31-90", "Days 31 to 90", MinutesIn(sessions, Days31To90(now)))
    ensures rows[4] == FrameRow("old", "Older than 90", MinutesIn(sessions, Older(now)))
    ensures rows[1].minutes + rows[2].minutes + rows[3].minutes + rows[4].minutes == MinutesIn(sessions, AllTime)
    ensures rows[0].minutes <= rows[1].minutes
  {
    var t24h, t7, t30, t90 := now - Day, now - 7 * Day, now - 30 * Day, now - 90 * Day;
    var last24h, last7, days8to30, days31to90, older := 0, 0, 0, 0, 0;
    for i := 0 to |sessions|
      invariant last24h == MinutesIn(sessions[..i], Last24h(now))
      invariant last7 == MinutesIn(sessions[..i], Last7(now))
      invariant days8to30 == MinutesIn(sessions[..i], Days8To30(now))
      invariant days31to90 == MinutesIn(sessions[..i], Days31To90(now))
      invariant older == MinutesIn(sessions[..i], Older(now))
      invariant last7 + days8to30 + days31to90 + older == MinutesIn(sessions[..i], AllTime)
      invariant last24h <= last7
    {
      assert sessions[..i + 1][..i] == sessions[..i];
      var mins := MinutesFromSessionSafe(sessions[i]);
      var ts := SessionTimestamp(sessions[i]);
      if ts >= t24h {
        last24h := last24h + mins;
      }
      if ts >= t7 {
        last7 := last7 + mins;
      } else if ts >= t30 {
        days8to30 := days8to30 + mins;
      } else if ts >= t90 {
        days31to90 := days31to90 + mins;
      } else {
        older := older + mins;
      }
    }
    assert sessions[..|sessions|] == sessions;
    rows := [FrameRow("24h", "Last 24 hours", last24h), FrameRow("7d", "Last 7 days", last7),
             FrameRow("8-30", "Days 8 to 30", days8to30), FrameRow("31-90", "Days 31 to 90", days31to90),
             FrameRow("old", "Older than 90", older)];
  }

  /** The sessions the page shows: the signed-in user's log, and none for a guest. */
  function PageSessions(email: Option<string>, st: SessionsStore.Storage): (r: seq<StudySession>)
    ensures email.None? || email.value == "" ==> r == []
    ensures email.Some? && email.value != "" ==> r == LoadSessions(st, email.value)
  {
    if email.None? || email.value == "" then [] else LoadSessions(st, email.value)
  }

  /** Once a session is logged, the page counts one more session and every bar it falls in
      grows by its minutes; the others stay. */
  lemma OverviewAfterSave(st: SessionsStore.Storage, email: string, next: StudySession, w: Window)
    requires email != ""
    ensures |PageSessions(Some(email), StoreAfterSave(st, email, next))| == |PageSessions(Some(email), st)| + 1
    ensures MinutesIn(PageSessions(Some(email), StoreAfterSave(st, email, next)), w)
              == MinutesIn(PageSessions(Some(email), st), w)
                 + (if InWindow(SessionTimestamp(next), w) then MinutesFromSessionSafe(next) else 0)
  {
    LoadAfterSave(st, email, next);
    MinutesInCons(next, LoadSessions(st, email), w);
  }

  // ---------------------------------------------------------------------------------
  // The most recently saved study

  /** A saved record seen as the loosely typed object the card code reads: a field that is
      missing, or has the wrong type, is `None`. */
  datatype LooseStudy = LooseStudy(
    summary: Option<string>,
    timeframe: Option<string>, durationLabel: Option<string>, duration: Option<string>,
    studyMode: Option<string>, mode: Option<string>,
    priority: Option<string>,
    topics: Option<seq<string>>,
    savedAt: Option<int>, endedAt: Option<int>, createdAt: Option<int>,
    durationSeconds: Option<int>)

  /** The fields a provider record has; the others are missing. */
  function FromSaved(s: SavedStudy): LooseStudy {
    LooseStudy(Some(s.summary), None, None, None, None, None, None, None,
               None, Some(s.endedAt), Some(s.createdAt), Some(s.durationSeconds))
  }

  predicate Truthy(t: Option<int>) {
    t.Some? && t.value != 0
  }

  /** `pickSavedStudyTimestamp`: the first of `savedAt`, `endedAt`, `createdAt` that is a
      non-zero number, else 0. */
  function PickTimestamp(s: LooseStudy): (t: int)
    ensures Truthy(s.savedAt) ==> t == s.savedAt.value
    ensures !Truthy(s.savedAt) && Truthy(s.endedAt) ==> t == s.endedAt.value
    ensures !Truthy(s.savedAt) && !Truthy(s.endedAt) && Truthy(s.createdAt) ==> t == s.createdAt.value
    ensures t == 0 <==> !Truthy(s.savedAt) && !Truthy(s.endedAt) && !Truthy(s.createdAt)
  {
    if Truthy(s.savedAt) then s.savedAt.value
    else if Truthy(s.endedAt) then s.endedAt.value
    else if Truthy(s.createdAt) then s.createdAt.value
    else 0
  }

  /** For a provider record the picked time is the saved time the history shows. */
  lemma PickTimestampOfSaved(s: SavedStudy)
    ensures PickTimestamp(FromSaved(s)) == SavedAt(s)
  {
  }

  predicate Filled(o: Option<string>) {
    o.Some? && Trim(o.value) != ""
  }

  /** Where `a || b || …` over trimmed strings stops: the first candidate that is not
      blank, or the length when there is none. */
  function FirstFilledIndex(cands: seq<Option<string>>): (i: nat)
    ensures i <= |cands|
    ensures i < |cands| ==> Filled(cands[i])
    ensures forall j :: 0 <= j < i ==> !Filled(cands[j])
  {
    if cands == [] then 0
    else if Filled(cands[0]) then 0
    else
      var k := FirstFilledIndex(cands[1..]);
      assert forall j :: 1 <= j < |cands| ==> cands[1..][j - 1] == cands[j];
      k + 1
  }

  /** The value of `a || b || …` over trimmed strings: the first one that is not blank,
      trimmed, else "". */
  function FirstFilled(cands: seq<Option<string>>): (r: string)
    ensures r == "" <==> forall i :: 0 <= i < |cands| ==> !Filled(cands[i])
    ensures r != "" ==> r == Trim(cands[FirstFilledIndex(cands)].value)
    ensures IsTrimmed(r)
  {
    var i := FirstFilledIndex(cands);
    if i < |cands| then Trim(cands[i].value) else ""
  }

  /** The topics the fallback title lists: the array's non-empty entries. */
  function TopicsOf(s: LooseStudy): seq<string> {
    if s.topics.Some? then Filter(s.topics.value, (t: string) => t != "") else []
  }

  function TimeframeOf(s: LooseStudy): string {
    FirstFilled([s.timeframe, s.durationLabel, s.duration])
  }

  function ModeOf(s: LooseStudy): string {
    FirstFilled([s.studyMode, s.mode])
  }

  /** The priority shown: the present value, trimmed, and nothing when it is missing. */
  function PriorityOf(s: LooseStudy): (r: string)
    ensures IsTrimmed(r)
    ensures s.priority.Some? ==> r == Trim(s.priority.value)
    ensures s.priority.None? ==> r == ""
  {
    if s.priority.Some? then Trim(s.priority.value) else ""
  }

  /** The fallback parts, in order: time frame, mode, priority, the first three topics. */
  function TitleParts(s: LooseStudy): (parts: seq<string>)
    ensures |parts| == Flag(TimeframeOf(s) != "") + Flag(ModeOf(s) != "") + Flag(PriorityOf(s) != "")
                       + Flag(TopicsOf(s) != [])
  {
    var topics := TopicsOf(s);
    FourParts(TimeframeOf(s) != "", TimeframeOf(s), ModeOf(s) != "", ModeOf(s),
              PriorityOf(s) != "", "Priority " + PriorityOf(s),
              topics != [], "Topics: " + Join(Take(topics, 3), ", "))
  }

  /** Each present part sits after the present ones before it. */
  lemma TitlePartsLayout(s: LooseStudy)
    ensures TimeframeOf(s) != "" ==> TitleParts(s)[0] == TimeframeOf(s)
    ensures ModeOf(s) != "" ==> TitleParts(s)[Flag(TimeframeOf(s) != "")] == ModeOf(s)
    ensures PriorityOf(s) != "" ==>
              TitleParts(s)[Flag(TimeframeOf(s) != "") + Flag(ModeOf(s) != "")] == "Priority " + PriorityOf(s)
    ensures TopicsOf(s) != [] ==>
              TitleParts(s)[|TitleParts(s)| - 1] == "Topics: " + Join(Take(TopicsOf(s), 3), ", ")
  {
    TitlePartsFront(s);
    TitlePartsBack(s);
  }

  lemma TitlePartsFront(s: LooseStudy)
    ensures TimeframeOf(s) != "" ==> TitleParts(s)[0] == TimeframeOf(s)
    ensures ModeOf(s) != "" ==> TitleParts(s)[Flag(TimeframeOf(s) != "")] == ModeOf(s)
  {
  }

  lemma TitlePartsBack(s: LooseStudy)
    ensures PriorityOf(s) != "" ==>
              TitleParts(s)[Flag(TimeframeOf(s) != "") + Flag(ModeOf(s) != "")] == "Priority " + PriorityOf(s)
    ensures TopicsOf(s) != [] ==>
              TitleParts(s)[|TitleParts(s)| - 1] == "Topics: " + Join(Take(TopicsOf(s), 3), ", ")
  {
  }

  const UntitledStudy := "Untitled study"

  /** `buildSavedStudyTitle`: a non-blank summary, trimmed; else the fallback parts joined
      by " | "; else "Untitled study". */
  function BuildSavedStudyTitle(s: LooseStudy): (r: string)
    ensures Filled(s.summary) ==> r == Trim(s.summary.value)
    ensures !Filled(s.summary) && TitleParts(s) == [] ==> r == UntitledStudy
    ensures !Filled(s.summary) && TitleParts(s) != [] ==> r == Join(TitleParts(s), " | ")
  {
    if Filled(s.summary) then Trim(s.summary.value)
    else
      var parts := TitleParts(s);
      if parts == [] then UntitledStudy else Join(parts, " | ")
  }

  /** A string that starts with a character that is not whitespace. */
  predicate Solid(s: string) {
    |s| > 0 && !IsSpace(s[0])
  }

  predicate AllSolid(parts: seq<string>) {
    forall i :: 0 <= i < |parts| ==> Solid(parts[i])
  }

  lemma OptionalPartSolid(b: bool, p: string)
    requires b ==> Solid(p)
    ensures AllSolid(OptionalPart(b, p))
  {
  }

  lemma AllSolidAppend(a: seq<string>, b: seq<string>)
    requires AllSolid(a) && AllSolid(b)
    ensures AllSolid(a + b)
  {
    forall i | 0 <= i < |a + b| ensures Solid((a + b)[i]) {
      if i < |a| { assert (a + b)[i] == a[i]; } else { assert (a + b)[i] == b[i - |a|]; }
    }
  }

  /** Every fallback part starts with a character that is not whitespace. */
  lemma TitlePartsSolid(s: LooseStudy)
    ensures AllSolid(TitleParts(s))
  {
    var topics := TopicsOf(s);
    var p1 := OptionalPart(TimeframeOf(s) != "", TimeframeOf(s));
    var p2 := OptionalPart(ModeOf(s) != "", ModeOf(s));
    var p3 := OptionalPart(PriorityOf(s) != "", "Priority " + PriorityOf(s));
    var p4 := OptionalPart(topics != [], "Topics: " + Join(Take(topics, 3), ", "));
    assert ("Priority " + PriorityOf(s))[0] == 'P';
    assert ("Topics: " + Join(Take(topics, 3), ", "))[0] == 'T';
    OptionalPartSolid(TimeframeOf(s) != "", TimeframeOf(s));
    OptionalPartSolid(ModeOf(s) != "", ModeOf(s));
    OptionalPartSolid(PriorityOf(s) != "", "Priority " + PriorityOf(s));
    OptionalPartSolid(topics != [], "Topics: " + Join(Take(topics, 3), ", "));
    AllSolidAppend(p1, p2);
    AllSolidAppend(p1 + p2, p3);
    AllSolidAppend(p1 + p2 + p3, p4);
    assert TitleParts(s) == p1 + p2 + p3 + p4;
  }

  /** A join whose first part is solid is solid. */
  lemma JoinSolid(parts: seq<string>, sep: string)
    requires |parts| >= 1 && Solid(parts[0])
    ensures Solid(Join(parts, sep))
  {
    JoinStartsWithFirst(parts, sep);
    assert Join(parts, sep)[0] == parts[0][0];
  }

  /** The card never shows a blank title. */
  lemma TitleNeverBlank(s: LooseStudy)
    ensures Solid(BuildSavedStudyTitle(s))
  {
    if Filled(s.summary) {
      assert IsTrimmed(Trim(s.summary.value));
    } else if TitleParts(s) != [] {
      TitlePartsSolid(s);
      JoinSolid(TitleParts(s), " | ");
    }
  }

  /** For a provider record the title is its trimmed summary, or "Untitled study" when the
      summary is blank: such a record has none of the fallback fields. */
  lemma TitleOfSaved(s: SavedStudy)
    ensures Trim(s.summary) != "" ==> BuildSavedStudyTitle(FromSaved(s)) == Trim(s.summary)
    ensures Trim(s.summary) == "" ==> BuildSavedStudyTitle(FromSaved(s)) == UntitledStudy
  {
    var l := FromSaved(s);
    assert TimeframeOf(l) == "" by {
      assert !Filled(None);
    }
    assert ModeOf(l) == "";
    assert TitleParts(l) == [];
  }

  function Picked(s: SavedStudy): int {
    PickTimestamp(FromSaved(s))
  }

  /** Where the newest record sits: the first one with the largest picked time, which is
      the first element after a stable sort by that time, newest first. */
  function LatestIndex(list: seq<SavedStudy>): (i: nat)
    requires |list| > 0
    ensures i < |list|
    ensures forall j :: 0 <= j < |list| ==> Picked(list[j]) <= Picked(list[i])
    ensures forall j :: 0 <= j < i ==> Picked(list[j]) < Picked(list[i])
  {
    if |list| == 1 then 0
    else
      var k := LatestIndex(list[1..]);
      assert forall j :: 1 <= j < |list| ==> list[j] == list[1..][j - 1];
      if Picked(list[0]) >= Picked(list[1..][k]) then 0 else k + 1
  }

  /** `lastSavedStudy`: nothing for an empty history, else the newest record. */
  function LastSavedStudy(list: seq<SavedStudy>): (r: Option<SavedStudy>)
    ensures r.None? <==> list == []
    ensures r.Some? ==> r.value == list[LatestIndex(list)]
    ensures r.Some? ==> r.value in list && forall j :: 0 <= j < |list| ==> SavedAt(list[j]) <= SavedAt(r.value)
  {
    if list == [] then None
    else
      var i := LatestIndex(list);
      forall j | 0 <= j < |list| ensures SavedAt(list[j]) <= SavedAt(list[i]) {
        PickTimestampOfSaved(list[j]);
        PickTimestampOfSaved(list[i]);
      }
      Some(list[i])
  }

  /** The card's text for the newest record: its title and its formatted duration; both
      empty without a history. */
  function Overlay(list: seq<SavedStudy>): (r: (string, string))
    ensures list == [] ==> r == ("", "")
    ensures list != [] ==> Solid(r.0)
    ensures list != [] ==>
              var last := LastSavedStudy(list).value;
              r == (BuildSavedStudyTitle(FromSaved(last)), FormatDuration(last.durationSeconds))
  {
    var last := LastSavedStudy(list);
    if last.None? then ("", "")
    else
      TitleNeverBlank(FromSaved(last.value));
      (BuildSavedStudyTitle(FromSaved(last.value)), FormatDuration(last.value.durationSeconds))
  }
}
