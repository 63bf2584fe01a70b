/**
 * The value types of the study planner and the pure functions of its provider: the study
 * selection, saved studies, the pending session, the user and the login registry; the
 * summary of a selection, the per-user storage keys, the login decision against the
 * registry, the restore rule for the remembered user, and the list helpers the provider's
 * operations are built from.
 */
module Study {
  import opened Wrappers
  import opened Text
  import opened Collections

  // ---------------------------------------------------------------------------------
  // The selection

  datatype TimeFrame = OneDay | OneWeek | OneMonth
  datatype TopicMode = Single | Multiple
  datatype Priority = Priority1 | Priority2 | Priority3

  function TimeFrameLabel(t: TimeFrame): string {
    match t
    case OneDay => "1 Day"
    case OneWeek => "1 Week"
    case OneMonth => "1 Month"
  }

  function PriorityLabel(p: Priority): string {
    match p
    case Priority1 => "Priority 1"
    case Priority2 => "Priority 2"
    case Priority3 => "Priority 3"
  }

  /** A draft study plan; `None` stands for the source's `null`. */
  datatype StudySelection = StudySelection(
    timeFrame: Option<TimeFrame>,
    startDate: string,
    endDate: string,
    topicMode: Option<TopicMode>,
    topicCount: Option<int>,
    topicsText: string,
    coursesText: string,
    priority: Option<Priority>)

  const EmptySelection := StudySelection(None, "", "", None, None, "", "", None)

  /** A saved plan (duration and end time 0) or a saved timed session. */
  datatype SavedStudy = SavedStudy(
    id: string,
    createdAt: int,
    selection: StudySelection,
    summary: string,
    durationSeconds: int,
    endedAt: int)

  /** The result of a stopped timer, waiting for the user to keep or drop it. */
  datatype PendingSession = PendingSession(durationSeconds: int, endedAt: int, selection: StudySelection)

  datatype TimerStatus = Idle | Running | Paused | Stopped

  datatype User = User(name: string, email: string)

  /** A registry entry: the name with its original casing and the normalized email. */
  datatype StoredUser = StoredUser(name: string, email: string, createdAt: int)

  datatype Lang = En | Fr | Es
  datatype ThemeMode = Dark | Light

  datatype Settings = Settings(
    theme: ThemeMode,
    notificationsEnabled: bool,
    autoPauseEnabled: bool,
    autoPauseHours: int)

  const DefaultSettings := Settings(Dark, false, false, 3)

  // ---------------------------------------------------------------------------------
  // buildSummary

  const Untitled := "Untitled study"

  /** A part of a summary that can never be mistaken for the placeholder: it holds a
      character the placeholder does not. */
  ghost predicate Marked(p: string) {
    exists k :: 0 <= k < |p| && p[k] !in Untitled
  }

  /** The trimmed, non-empty items of a comma list:
      `text.split(",").map((x) => x.trim()).filter(Boolean)`. */
  function TopicItems(text: string): (items: seq<string>)
    ensures forall i :: 0 <= i < |items| ==> items[i] != "" && IsTrimmed(items[i]) && ',' !in items[i]
    ensures |items| <= |Split(text, ',')|
    ensures forall x :: x in items <==>
              x != "" && exists j :: 0 <= j < |Split(text, ',')| && x == Trim(Split(text, ',')[j])
  {
    var pieces := Split(text, ',');
    var trimmed := MapSeq(pieces, Trim);
    TrimPieces(pieces, ',');
    MapSeqMembers(pieces, Trim);
    FilterMembers(trimmed, NonEmpty);
    Filter(trimmed, NonEmpty)
  }

  /** Trimming pieces free of a character leaves them trimmed and free of it. */
  lemma TrimPieces(pieces: seq<string>, c: char)
    requires forall j :: 0 <= j < |pieces| ==> c !in pieces[j]
    ensures forall j :: 0 <= j < |pieces| ==> IsTrimmed(MapSeq(pieces, Trim)[j]) && c !in MapSeq(pieces, Trim)[j]
  {
    var trimmed := MapSeq(pieces, Trim);
    forall j | 0 <= j < |pieces| ensures IsTrimmed(trimmed[j]) && c !in trimmed[j] {
      assert trimmed[j] == Trim(pieces[j]);
      TrimSubstring(pieces[j]);
    }
  }

  /** A comma list written from items that are trimmed, non-empty and free of commas reads
      back as exactly those items, in their order. */
  lemma TopicItemsOfJoin(items: seq<string>)
    requires forall i :: 0 <= i < |items| ==> items[i] != "" && IsTrimmed(items[i]) && ',' !in items[i]
    ensures TopicItems(Join(items, ",")) == items
  {
    if items == [] {
      TopicItemsOfEmpty();
    } else {
      var text := Join(items, ",");
      SplitJoin(items, ',');
      assert Split(text, ',') == items;
      TrimEach(items);
      FilterAllKept(items, NonEmpty);
    }
  }

  lemma TopicItemsOfEmpty()
    ensures TopicItems("") == []
  {
    assert Split("", ',') == [""];
    assert MapSeq([""], Trim) == [""];
    assert Filter([""], NonEmpty) == [];
  }

  predicate NonEmpty(x: string) {
    x != ""
  }

  /** Trimming each of a list of trimmed strings changes none of them. */
  lemma TrimEach(items: seq<string>)
    requires forall i :: 0 <= i < |items| ==> IsTrimmed(items[i])
    ensures MapSeq(items, Trim) == items
  {
    var trimmed := MapSeq(items, Trim);
    forall i | 0 <= i < |items| ensures trimmed[i] == items[i] {
      assert trimmed[i] == Trim(items[i]);
    }
  }

  /** What `Trim` keeps is part of its input. */
  lemma TrimSubstring(s: string)
    ensures forall c :: c in Trim(s) ==> c in s
  {
    var t := TrimStart(s);
    assert forall c :: c in TrimEnd(t) ==> c in t;
    assert forall c :: c in t ==> c in s;
  }

  /** The topics a summary shows: at most three, taken from the front of the items. */
  function ShortTopics(topicsText: string): (items: seq<string>)
    ensures |items| <= 3
    ensures IsBlank(topicsText) ==> items == []
    ensures !IsBlank(topicsText) ==> items <= TopicItems(Trim(topicsText))
    ensures !IsBlank(topicsText) ==>
              |items| == if |TopicItems(Trim(topicsText))| < 3 then |TopicItems(Trim(topicsText))| else 3
    ensures forall i :: 0 <= i < |items| ==> items[i] != "" && IsTrimmed(items[i])
  {
    if IsBlank(topicsText) then [] else Take(TopicItems(Trim(topicsText)), 3)
  }

  function DatePart(startDate: string, endDate: string): string {
    (if startDate == "" then "?" else startDate) + " to " + (if endDate == "" then "?" else endDate)
  }

  function ModeLabel(mode: TopicMode, count: Option<int>): string {
    match mode
    case Single => "Single"
    case Multiple => "Multiple (" + (if count.Some? then IntToString(count.value) else "?") + ")"
  }

  /** `[p]` when `b` holds, nothing otherwise: one optional part of a summary. */
  function OptionalPart<T>(b: bool, p: T): (r: seq<T>)
    ensures |r| == Flag(b) && (b ==> r[0] == p)
  {
    if b then [p] else []
  }

  /** The non-empty parts of a summary, in their fixed order: time frame, date range, topic
      mode, priority, topics. */
  function SummaryParts(sel: StudySelection): (parts: seq<string>)
    ensures |parts| <= 5
    ensures |parts| == Flag(sel.timeFrame.Some?) + Flag(HasDates(sel)) + Flag(sel.topicMode.Some?)
                       + Flag(sel.priority.Some?) + Flag(TopicsShort(sel.topicsText) != "")
  {
    var topics := TopicsShort(sel.topicsText);
    var tf := if sel.timeFrame.Some? then TimeFrameLabel(sel.timeFrame.value) else "";
    var mode := if sel.topicMode.Some? then ModeLabel(sel.topicMode.value, sel.topicCount) else "";
    var prio := if sel.priority.Some? then PriorityLabel(sel.priority.value) else "";
    var tp := "Topics: " + topics;
    FiveParts(sel.timeFrame.Some?, tf, HasDates(sel), DatePart(sel.startDate, sel.endDate),
              sel.topicMode.Some?, mode, sel.priority.Some?, prio, topics != "", tp)
  }

  /** Each field that is set contributes its label, in the fixed order time frame, date
      range, topic mode, priority, topics; with the count of `SummaryParts` this fixes every
      part. */
  lemma SummaryPartsLayout(sel: StudySelection)
    ensures sel.timeFrame.Some? ==> SummaryParts(sel)[0] == TimeFrameLabel(sel.timeFrame.value)
    ensures HasDates(sel) ==> SummaryParts(sel)[Flag(sel.timeFrame.Some?)] == DatePart(sel.startDate, sel.endDate)
    ensures sel.topicMode.Some? ==>
              SummaryParts(sel)[Flag(sel.timeFrame.Some?) + Flag(HasDates(sel))]
              == ModeLabel(sel.topicMode.value, sel.topicCount)
    ensures sel.priority.Some? ==>
              SummaryParts(sel)[Flag(sel.timeFrame.Some?) + Flag(HasDates(sel)) + Flag(sel.topicMode.Some?)]
              == PriorityLabel(sel.priority.value)
    ensures TopicsShort(sel.topicsText) != "" ==>
              SummaryParts(sel)[|SummaryParts(sel)| - 1] == "Topics: " + TopicsShort(sel.topicsText)
  {
    SummaryPartsFront(sel);
    SummaryPartsBack(sel);
  }

  lemma SummaryPartsFront(sel: StudySelection)
    ensures sel.timeFrame.Some? ==> SummaryParts(sel)[0] == TimeFrameLabel(sel.timeFrame.value)
    ensures HasDates(sel) ==> SummaryParts(sel)[Flag(sel.timeFrame.Some?)] == DatePart(sel.startDate, sel.endDate)
  {
  }

  lemma SummaryPartsBack(sel: StudySelection)
    ensures sel.topicMode.Some? ==>
              SummaryParts(sel)[Flag(sel.timeFrame.Some?) + Flag(HasDates(sel))]
              == ModeLabel(sel.topicMode.value, sel.topicCount)
    ensures sel.priority.Some? ==>
              SummaryParts(sel)[Flag(sel.timeFrame.Some?) + Flag(HasDates(sel)) + Flag(sel.topicMode.Some?)]
              == PriorityLabel(sel.priority.value)
    ensures TopicsShort(sel.topicsText) != "" ==>
              SummaryParts(sel)[|SummaryParts(sel)| - 1] == "Topics: " + TopicsShort(sel.topicsText)
  {
  }

  /** `topicsShort`: the first three topics joined with ", ", empty exactly when there is no
      topic to show. */
  function TopicsShort(topicsText: string): (r: string)
    ensures r == "" <==> ShortTopics(topicsText) == []
    ensures ShortTopics(topicsText) != [] ==> r == Join(ShortTopics(topicsText), ", ")
  {
    var topics := ShortTopics(topicsText);
    assert topics != [] ==> topics[0] <= Join(topics, ", ") by {
      if topics != [] { JoinStartsWithFirst(topics, ", "); }
    }
    Join(topics, ", ")
  }

  /** Five optional parts in a row: how many there are, and where each present one sits. */
  function FiveParts<T>(b1: bool, p1: T, b2: bool, p2: T, b3: bool, p3: T, b4: bool, p4: T, b5: bool, p5: T)
    : (all: seq<T>)
    ensures |all| == Flag(b1) + Flag(b2) + Flag(b3) + Flag(b4) + Flag(b5)
    ensures b1 ==> all[0] == p1
    ensures b2 ==> all[Flag(b1)] == p2
    ensures b3 ==> all[Flag(b1) + Flag(b2)] == p3
    ensures b4 ==> all[Flag(b1) + Flag(b2) + Flag(b3)] == p4
    ensures b5 ==> all[|all| - 1] == p5
  {
    OptionalPart(b1, p1) + OptionalPart(b2, p2) + OptionalPart(b3, p3) + OptionalPart(b4, p4) + OptionalPart(b5, p5)
  }

  /** Four optional parts in a row: how many there are, and where each present one sits. */
  function FourParts<T>(b1: bool, p1: T, b2: bool, p2: T, b3: bool, p3: T, b4: bool, p4: T): (all: seq<T>)
    ensures |all| == Flag(b1) + Flag(b2) + Flag(b3) + Flag(b4)
    ensures b1 ==> all[0] == p1
    ensures b2 ==> all[Flag(b1)] == p2
    ensures b3 ==> all[Flag(b1) + Flag(b2)] == p3
    ensures b4 ==> all[|all| - 1] == p4
  {
    OptionalPart(b1, p1) + OptionalPart(b2, p2) + OptionalPart(b3, p3) + OptionalPart(b4, p4)
  }

  /** 1 for a part that is there, 0 for one that is not. */
  function Flag(b: bool): nat {
    if b then 1 else 0
  }

  /** `sel.startDate || sel.endDate`: a date range is shown. */
  predicate HasDates(sel: StudySelection) {
    sel.startDate != "" || sel.endDate != ""
  }

  /** A summary has no part exactly when no field is set and there are no topics, and a
      time frame always comes first. */
  lemma SummaryPartsFacts(sel: StudySelection)
    ensures SummaryParts(sel) == [] <==>
      sel.timeFrame.None? && sel.startDate == "" && sel.endDate == "" && sel.topicMode.None?
      && sel.priority.None? && ShortTopics(sel.topicsText) == []
    ensures sel.timeFrame.Some? ==> SummaryParts(sel)[0] == TimeFrameLabel(sel.timeFrame.value)
  {
  }

  /** `buildSummary(sel)`. */
  function BuildSummary(sel: StudySelection): string {
    var parts := SummaryParts(sel);
    if parts == [] then Untitled else Join(parts, " | ")
  }

  ghost predicate AllMarked(parts: seq<string>) {
    forall i :: 0 <= i < |parts| ==> Marked(parts[i])
  }

  lemma AllMarkedAppend(a: seq<string>, b: seq<string>)
    requires AllMarked(a) && AllMarked(b)
    ensures AllMarked(a + b)
  {
    forall i | 0 <= i < |a + b| ensures Marked((a + b)[i]) {
      if i < |a| { assert (a + b)[i] == a[i]; } else { assert (a + b)[i] == b[i - |a|]; }
    }
  }

  lemma OptionalPartMarked(b: bool, p: string)
    requires b ==> Marked(p)
    ensures AllMarked(OptionalPart(b, p))
  {
  }

  // Every part a summary can hold has a character the placeholder lacks: the digit of a
  // time frame, the `o` of " to ", the capital of "Single", "Multiple", "Priority" and
  // "Topics".

  lemma TimeFrameLabelMarked(t: TimeFrame)
    ensures Marked(TimeFrameLabel(t))
  {
    assert TimeFrameLabel(t)[0] == '1';
  }

  lemma DatePartMarked(startDate: string, endDate: string)
    ensures Marked(DatePart(startDate, endDate))
  {
    var a := if startDate == "" then "?" else startDate;
    var b := if endDate == "" then "?" else endDate;
    assert DatePart(startDate, endDate) == a + (" to " + b);
    assert (a + (" to " + b))[|a| + 2] == 'o';
  }

  lemma ModeLabelMarked(m: TopicMode, c: Option<int>)
    ensures Marked(ModeLabel(m, c))
  {
    assert ModeLabel(m, c)[0] == 'S' || ModeLabel(m, c)[0] == 'M';
  }

  lemma PriorityLabelMarked(p: Priority)
    ensures Marked(PriorityLabel(p))
  {
    assert PriorityLabel(p)[0] == 'P';
  }

  lemma TopicsPartMarked(topics: seq<string>)
    ensures Marked("Topics: " + Join(topics, ", "))
  {
    assert ("Topics: " + Join(topics, ", "))[0] == 'T';
  }

  lemma PartsMarked(sel: StudySelection)
    ensures AllMarked(SummaryParts(sel))
  {
    var topics := ShortTopics(sel.topicsText);
    TimeFramePartMarked(sel);
    DatesPartMarked(sel);
    ModePartMarked(sel);
    PriorityPartMarked(sel);
    TopicsPartMarked(topics);
    OptionalPartMarked(topics != [], "Topics: " + Join(topics, ", "));
    AllMarked5(
      OptionalPart(sel.timeFrame.Some?, if sel.timeFrame.Some? then TimeFrameLabel(sel.timeFrame.value) else ""),
      OptionalPart(sel.startDate != "" || sel.endDate != "", DatePart(sel.startDate, sel.endDate)),
      OptionalPart(sel.topicMode.Some?, if sel.topicMode.Some? then ModeLabel(sel.topicMode.value, sel.topicCount) else ""),
      OptionalPart(sel.priority.Some?, if sel.priority.Some? then PriorityLabel(sel.priority.value) else ""),
      OptionalPart(topics != [], "Topics: " + Join(topics, ", ")));
  }

  lemma TimeFramePartMarked(sel: StudySelection)
    ensures AllMarked(OptionalPart(sel.timeFrame.Some?, if sel.timeFrame.Some? then TimeFrameLabel(sel.timeFrame.value) else ""))
  {
    if sel.timeFrame.Some? { TimeFrameLabelMarked(sel.timeFrame.value); }
    OptionalPartMarked(sel.timeFrame.Some?, if sel.timeFrame.Some? then TimeFrameLabel(sel.timeFrame.value) else "");
  }

  lemma DatesPartMarked(sel: StudySelection)
    ensures AllMarked(OptionalPart(sel.startDate != "" || sel.endDate != "", DatePart(sel.startDate, sel.endDate)))
  {
    DatePartMarked(sel.startDate, sel.endDate);
    OptionalPartMarked(sel.startDate != "" || sel.endDate != "", DatePart(sel.startDate, sel.endDate));
  }

  lemma ModePartMarked(sel: StudySelection)
    ensures AllMarked(OptionalPart(sel.topicMode.Some?, if sel.topicMode.Some? then ModeLabel(sel.topicMode.value, sel.topicCount) else ""))
  {
    if sel.topicMode.Some? { ModeLabelMarked(sel.topicMode.value, sel.topicCount); }
    OptionalPartMarked(sel.topicMode.Some?, if sel.topicMode.Some? then ModeLabel(sel.topicMode.value, sel.topicCount) else "");
  }

  lemma PriorityPartMarked(sel: StudySelection)
    ensures AllMarked(OptionalPart(sel.priority.Some?, if sel.priority.Some? then PriorityLabel(sel.priority.value) else ""))
  {
    if sel.priority.Some? { PriorityLabelMarked(sel.priority.value); }
    OptionalPartMarked(sel.priority.Some?, if sel.priority.Some? then PriorityLabel(sel.priority.value) else "");
  }

  lemma AllMarked5(p1: seq<string>, p2: seq<string>, p3: seq<string>, p4: seq<string>, p5: seq<string>)
    requires AllMarked(p1) && AllMarked(p2) && AllMarked(p3) && AllMarked(p4) && AllMarked(p5)
    ensures AllMarked(p1 + p2 + p3 + p4 + p5)
  {
    AllMarkedAppend(p1, p2);
    AllMarkedAppend(p1 + p2, p3);
    AllMarkedAppend(p1 + p2 + p3, p4);
    AllMarkedAppend(p1 + p2 + p3 + p4, p5);
  }

  /** The summary is the placeholder exactly when the selection has no part to show. */
  lemma BuildSummaryUntitledIff(sel: StudySelection)
    ensures BuildSummary(sel) == Untitled <==> SummaryParts(sel) == []
  {
    var parts := SummaryParts(sel);
    if parts != [] {
      PartsMarked(sel);
      assert Marked(parts[0]);
      var k :| 0 <= k < |parts[0]| && parts[0][k] !in Untitled;
      JoinStartsWithFirst(parts, " | ");
      assert BuildSummary(sel)[k] == parts[0][k];
    }
  }

  /** A selection with a time frame has a summary that starts with it. */
  lemma BuildSummaryStartsWithTimeFrame(sel: StudySelection)
    requires sel.timeFrame.Some?
    ensures TimeFrameLabel(sel.timeFrame.value) <= BuildSummary(sel)
  {
    JoinStartsWithFirst(SummaryParts(sel), " | ");
  }

  /** The plan of the worked example: one week, a single topic, first priority. */
  lemma BuildSummaryExample()
    ensures BuildSummary(StudySelection(Some(OneWeek), "", "", Some(Single), None, "", "", Some(Priority1)))
      == "1 Week" + " | " + "Single" + " | " + "Priority 1"
  {
    var sel := StudySelection(Some(OneWeek), "", "", Some(Single), None, "", "", Some(Priority1));
    assert ShortTopics(sel.topicsText) == [];
    var parts := SummaryParts(sel);
    assert parts == ["1 Week"] + [] + ["Single"] + ["Priority 1"] + [];
    assert parts == ["1 Week", "Single", "Priority 1"];
    assert parts[1..] == ["Single", "Priority 1"];
    assert parts[1..][1..] == ["Priority 1"];
    assert Join(parts[1..][1..], " | ") == "Priority 1";
    assert Join(parts[1..], " | ") == "Single" + " | " + "Priority 1";
    assert Join(parts, " | ") == "1 Week" + " | " + ("Single" + " | " + "Priority 1");
  }

  // ---------------------------------------------------------------------------------
  // Per-user storage keys

  /** Position of the first `__` in `s`, or `|s|` when there is none. */
  function FirstDoubleUnderscore(s: string): (n: nat)
    ensures n <= |s|
  {
    if |s| < 2 then |s| else if s[0] == '_' && s[1] == '_' then 0 else 1 + FirstDoubleUnderscore(s[1..])
  }

  /** A storage base name that cannot run into the `__` separator: non-empty, not ending
      in `_`, and without `__` inside. */
  predicate ValidBase(b: string) {
    b != [] && b[|b| - 1] != '_' && FirstDoubleUnderscore(b) == |b|
  }

  /** `keyForUser(email, base)`. */
  function KeyForUser(email: string, base: string): string {
    "studywiz_" + base + "__" + Normalize(email)
  }

  lemma {:induction false} FirstDoubleUnderscoreAfterBase(b: string, rest: string)
    requires ValidBase(b)
    ensures FirstDoubleUnderscore(b + "__" + rest) == |b|
    decreases |b|
  {
    var s := b + "__" + rest;
    assert s[0] == b[0];
    if |b| == 1 {
      assert s[1..] == "__" + rest;
    } else {
      assert s[1] == b[1];
      assert s[1..] == b[1..] + "__" + rest;
      FirstDoubleUnderscoreAfterBase(b[1..], rest);
    }
  }

  /** A base name followed by `__` can be told apart from what follows it. */
  lemma BaseSplitUnique(b1: string, r1: string, b2: string, r2: string)
    requires ValidBase(b1) && ValidBase(b2)
    requires b1 + "__" + r1 == b2 + "__" + r2
    ensures b1 == b2 && r1 == r2
  {
    FirstDoubleUnderscoreAfterBase(b1, r1);
    FirstDoubleUnderscoreAfterBase(b2, r2);
    var t := b1 + "__" + r1;
    assert b1 == t[..|b1|];
    assert b2 == t[..|b2|];
    assert r1 == t[|b1| + 2..];
    assert r2 == (b2 + "__" + r2)[|b2| + 2..];
  }

  lemma PrefixCancel(p: string, t1: string, t2: string)
    requires p + t1 == p + t2
    ensures t1 == t2
  {
    assert t1 == (p + t1)[|p|..];
    assert t2 == (p + t2)[|p|..];
  }

  lemma Assoc4(a: string, b: string, c: string, d: string)
    ensures a + b + c + d == a + (b + (c + d))
    ensures a + b + c + d == a + (b + c + d)
  {
  }

  lemma KeyForUserShape(email: string, base: string)
    ensures KeyForUser(email, base) == "studywiz_" + (base + ("__" + Normalize(email)))
    ensures KeyForUser(email, base) == "studywiz_" + (base + "__" + Normalize(email))
  {
    Assoc4("studywiz_", base, "__", Normalize(email));
  }

  /** The base sits right after the `studywiz_` prefix. */
  lemma KeyForUserAt(email: string, base: string, i: nat)
    requires i < |base|
    ensures 9 + i < |KeyForUser(email, base)| && KeyForUser(email, base)[9 + i] == base[i]
  {
    KeyForUserShape(email, base);
    CharAfterPrefix("studywiz_", base, "__" + Normalize(email), i);
  }

  lemma CharAfterPrefix(p: string, b: string, rest: string, i: nat)
    requires i < |b|
    ensures |p| + i < |p + (b + rest)| && (p + (b + rest))[|p| + i] == b[i]
  {
  }

  /** Keys of two bases that differ at some position differ, whatever the emails. */
  lemma KeyForUserBasesDiffer(e1: string, b1: string, e2: string, b2: string, i: nat)
    requires i < |b1| && i < |b2| && b1[i] != b2[i]
    ensures KeyForUser(e1, b1) != KeyForUser(e2, b2)
  {
    KeyForUserAt(e1, b1, i);
    KeyForUserAt(e2, b2, i);
  }

  /** For one base, the key determines the normalized email. */
  lemma KeyForUserSameBase(e1: string, e2: string, base: string)
    requires KeyForUser(e1, base) == KeyForUser(e2, base)
    ensures Normalize(e1) == Normalize(e2)
  {
    KeyForUserShape(e1, base);
    KeyForUserShape(e2, base);
    PrefixCancel("studywiz_" + base + "__", Normalize(e1), Normalize(e2));
  }

  /** Per-user isolation: a storage key names one base and one normalized email. Two users
      whose emails normalize differently never share a key, and two bases never collide. */
  lemma KeyForUserInjective(e1: string, b1: string, e2: string, b2: string)
    requires ValidBase(b1) && ValidBase(b2)
    requires KeyForUser(e1, b1) == KeyForUser(e2, b2)
    ensures b1 == b2 && Normalize(e1) == Normalize(e2)
  {
    var n1, n2 := Normalize(e1), Normalize(e2);
    KeyForUserShape(e1, b1);
    KeyForUserShape(e2, b2);
    PrefixCancel("studywiz_", b1 + "__" + n1, b2 + "__" + n2);
    BaseSplitUnique(b1, n1, b2, n2);
  }

  // ---------------------------------------------------------------------------------
  // Login against the registry

  datatype LoginResult =
    | LoginFailed(message: string)
    | LoggedIn(user: User, registry: map<string, StoredUser>)

  /** The decision `login` takes. `name` and `email` are trimmed; the email is the registry
      key in normal form; the first name bound to an email stays bound to it; a name matches
      the bound one ignoring case; the active user keeps the casing of this call's name. */
  function LoginOutcome(reg: map<string, StoredUser>, name: string, email: string, now: int): (r: LoginResult)
    ensures r.LoggedIn? <==>
      Normalize(name) != "" && Normalize(email) != ""
      && (Normalize(email) in reg ==> Normalize(reg[Normalize(email)].name) == Normalize(name))
    ensures Normalize(name) == "" || Normalize(email) == "" ==> r == LoginFailed("Name and email are required.")
    ensures r.LoggedIn? ==> r.user == User(Trim(name), Normalize(email))
  {
    // `normalize(trim(x))` and `normalize(x)` agree, since `normalize` trims
    var rawName := Trim(name);
    var cleanName := Normalize(name);
    var cleanEmail := Normalize(email);
    if cleanName == "" || cleanEmail == "" then
      LoginFailed("Name and email are required.")
    else if cleanEmail in reg then
      if Normalize(reg[cleanEmail].name) != cleanName then
        LoginFailed("Name does not match the email used previously.")
      else
        LoggedIn(User(rawName, cleanEmail), reg)
    else
      LoggedIn(User(rawName, cleanEmail), reg[cleanEmail := StoredUser(rawName, cleanEmail, now)])
  }

  /** The registry after a successful login: every email it knew keeps its entry, and the
      new email, if it was new, is bound to this call's name and time. */
  lemma LoginOutcomeRegistry(reg: map<string, StoredUser>, name: string, email: string, now: int)
    ensures var r := LoginOutcome(reg, name, email, now);
      r.LoggedIn? ==>
        r.registry.Keys == reg.Keys + {Normalize(email)}
        && (forall k :: k in reg ==> r.registry[k] == reg[k])
        && (Normalize(email) !in reg ==> r.registry[Normalize(email)] == StoredUser(Trim(name), Normalize(email), now))
  {
    var e := Normalize(email);
    if e in reg {
      MapHasKey(reg, e);
    } else {
      MapInsertFacts(reg, e, StoredUser(Trim(name), e, now));
    }
  }

  /** Trimming and lower-casing leave a name's normal form unchanged. */
  lemma NormalizeTrim(s: string)
    ensures Normalize(Trim(s)) == Normalize(s)
  {
    assert Trim(Trim(s)) == Trim(s);
  }

  /** The binding: after a first successful login with an unseen email, logging in again
      with the same email succeeds, as the same normalized user, exactly when the name is
      the same up to case and surrounding spaces; the registry keeps the first name. */
  lemma LoginBindsEmailToName(
    reg: map<string, StoredUser>, name: string, email: string, name2: string, email2: string, t1: int, t2: int)
    requires Normalize(name) != "" && Normalize(email) != ""
    requires Normalize(email) !in reg
    requires Normalize(email2) == Normalize(email)
    ensures LoginOutcome(reg, name, email, t1).LoggedIn?
    ensures var reg1 := LoginOutcome(reg, name, email, t1).registry;
      && reg1[Normalize(email)].name == Trim(name)
      && (LoginOutcome(reg1, name2, email2, t2).LoggedIn? <==> Normalize(name2) == Normalize(name))
      && (LoginOutcome(reg1, name2, email2, t2).LoggedIn? ==>
            && LoginOutcome(reg1, name2, email2, t2).user.email == Normalize(email)
            && LoginOutcome(reg1, name2, email2, t2).registry == reg1)
  {
    var e := Normalize(email);
    var reg1 := LoginOutcome(reg, name, email, t1).registry;
    NormalizeTrim(name);
    assert Normalize(reg1[e].name) == Normalize(name);
    var second := LoginOutcome(reg1, name2, email2, t2);
    if second.LoggedIn? {
      assert second.registry.Keys == reg1.Keys;
    }
  }

  // ---------------------------------------------------------------------------------
  // The remembered user

  /** What restoring the remembered user does once the app starts. */
  datatype RestoreOutcome =
    | KeepUser               // nothing remembered, or a remembered record without name or email
    | SetUser(user: User)    // the remembered user becomes the active one
    | ClearUser              // the remembered record could not be read: no active user
    | RefuseUser             // it contradicts the registry: no active user, and it is forgotten

  /** The remembered record as read back from storage. */
  datatype RememberedUser = Remembered(name: string, email: string) | OtherRecord | Unreadable

  /** The registry binds `email` to a name other than `name`, ignoring case and surrounding
      whitespace. */
  predicate NameConflict(reg: map<string, StoredUser>, email: string, name: string) {
    email in reg && Normalize(reg[email].name) != Normalize(name)
  }

  /** The restore rule: trim the name and normalize the email; when both are present the
      user is restored unless the registry binds that email to a different name. */
  function RestoreUser(saved: Option<RememberedUser>, reg: map<string, StoredUser>): (r: RestoreOutcome)
    ensures r.ClearUser? <==> saved == Some(Unreadable)
    ensures r.SetUser? <==>
      && saved.Some? && saved.value.Remembered?
      && Normalize(saved.value.email) != "" && Trim(saved.value.name) != ""
      && !NameConflict(reg, Normalize(saved.value.email), saved.value.name)
    ensures r.RefuseUser? <==>
      && saved.Some? && saved.value.Remembered?
      && Normalize(saved.value.email) != "" && Trim(saved.value.name) != ""
      && NameConflict(reg, Normalize(saved.value.email), saved.value.name)
    ensures r.SetUser? ==> r.user == User(Trim(saved.value.name), Normalize(saved.value.email))
  {
    match saved
    case None => KeepUser
    case Some(Unreadable) => ClearUser
    case Some(OtherRecord) => KeepUser
    case Some(Remembered(n, e)) =>
      var email := Normalize(e);
      var name := Trim(n);
      if email != "" && name != "" then
        if NameConflict(reg, email, n) then RefuseUser
        else SetUser(User(name, email))
      else KeepUser
  }

  // ---------------------------------------------------------------------------------
  // Saved-study helpers

  predicate HasId(list: seq<SavedStudy>, id: string) {
    exists i :: 0 <= i < |list| && list[i].id == id
  }

  /** Position of the first record with that id, or `|list|` when there is none. */
  function IndexOfId(list: seq<SavedStudy>, id: string): (i: nat)
    ensures i <= |list|
    ensures i < |list| ==> list[i].id == id
    ensures forall j :: 0 <= j < i ==> list[j].id != id
  {
    if list == [] then 0
    else if list[0].id == id then 0
    else
      var i := IndexOfId(list[1..], id);
      assert forall j :: 1 <= j < i + 1 ==> list[j] == list[1..][j - 1];
      1 + i
  }

  /** `list.find((s) => s.id === id)`: the first record with that id. */
  function FindById(list: seq<SavedStudy>, id: string): (r: Option<SavedStudy>)
    ensures r.None? <==> !HasId(list, id)
    ensures r.Some? ==> r.value.id == id && r.value == list[IndexOfId(list, id)]
  {
    var i := IndexOfId(list, id);
    if i < |list| then Some(list[i]) else None
  }

  /** `list.filter((s) => s.id !== id)`. */
  function RemoveById(list: seq<SavedStudy>, id: string): (r: seq<SavedStudy>)
    ensures !HasId(r, id)
    ensures forall s :: s in r <==> s in list && s.id != id
    ensures |r| <= |list|
  {
    var r := Filter(list, (s: SavedStudy) => s.id != id);
    assert forall s :: s in list && s.id != id ==> s in r by {
      forall s | s in list && s.id != id ensures s in r {
        var i :| 0 <= i < |list| && list[i] == s;
      }
    }
    r
  }

  /** Removing keeps the relative order of what stays. */
  lemma RemoveByIdAppend(a: seq<SavedStudy>, b: seq<SavedStudy>, id: string)
    ensures RemoveById(a + b, id) == RemoveById(a, id) + RemoveById(b, id)
  {
    FilterAppend(a, b, (s: SavedStudy) => s.id != id);
  }

  /** The validation `saveSelection` runs, in its order, with the message of the first
      requirement that fails. */
  function SelectionError(sel: StudySelection): (r: Option<string>)
    ensures r.None? <==>
      sel.timeFrame.Some? && sel.topicMode.Some? && sel.priority.Some?
      && (sel.topicMode == Some(Multiple) ==> sel.topicCount.Some? && sel.topicCount.value >= 2)
    ensures sel.timeFrame.None? ==> r == Some("Pick a Study Time Frame.")
    ensures sel.timeFrame.Some? && sel.topicMode.None? ==> r == Some("Choose Single or Multiple topics.")
    ensures sel.timeFrame.Some? && sel.topicMode == Some(Multiple)
              && (sel.topicCount.None? || sel.topicCount.value < 2) ==>
              r == Some("Enter a valid number for Multiple topics (2 or more).")
    ensures sel.timeFrame.Some? && sel.topicMode.Some? && sel.priority.None?
              && (sel.topicMode == Some(Multiple) ==> sel.topicCount.Some? && sel.topicCount.value >= 2) ==>
              r == Some("Pick a Priority Level.")
  {
    if sel.timeFrame.None? then Some("Pick a Study Time Frame.")
    else if sel.topicMode.None? then Some("Choose Single or Multiple topics.")
    else if sel.topicMode == Some(Multiple)
      && (sel.topicCount.None? || sel.topicCount.value == 0 || sel.topicCount.value < 2) then
      Some("Enter a valid number for Multiple topics (2 or more).")
    else if sel.priority.None? then Some("Pick a Priority Level.")
    else None
  }

  /** A committed session applied to a saved record: the record's non-blank summary stays,
      the selection, duration and end time are the session's. */
  function ApplySession(s: SavedStudy, p: PendingSession): (r: SavedStudy)
    ensures r.id == s.id && r.createdAt == s.createdAt
    ensures r.selection == p.selection && r.durationSeconds == p.durationSeconds && r.endedAt == p.endedAt
    ensures !IsBlank(s.summary) ==> r.summary == s.summary
    ensures IsBlank(s.summary) ==> r.summary == BuildSummary(p.selection)
  {
    s.(summary := if !IsBlank(s.summary) then s.summary else BuildSummary(p.selection),
       selection := p.selection, durationSeconds := p.durationSeconds, endedAt := p.endedAt)
  }

  /** A committed session recorded as a new study: it counts as saved, and as created, when
      the session ended. */
  function NewSavedStudy(id: string, p: PendingSession): (r: SavedStudy)
    ensures r.id == id && SavedAt(r) == p.endedAt
    ensures r.createdAt == p.endedAt && r.endedAt == p.endedAt
    ensures r.selection == p.selection && r.durationSeconds == p.durationSeconds
    ensures r.summary == BuildSummary(p.selection)
  {
    SavedStudy(id, p.endedAt, p.selection, BuildSummary(p.selection), p.durationSeconds, p.endedAt)
  }

  /** `prev.map((s) => s.id === id ? {...} : s)`: only the records with that id change. */
  function UpdateById(list: seq<SavedStudy>, id: string, p: PendingSession): (r: seq<SavedStudy>)
    ensures |r| == |list|
    ensures forall i :: 0 <= i < |list| ==> r[i] == if list[i].id == id then ApplySession(list[i], p) else list[i]
  {
    MapSeq(list, (s: SavedStudy) => if s.id == id then ApplySession(s, p) else s)
  }

  /** The record a committed session goes to: the selected one, while it still exists. */
  function CommitTarget(list: seq<SavedStudy>, selected: Option<string>): (r: Option<string>)
    ensures r.Some? <==> selected.Some? && selected.value != "" && HasId(list, selected.value)
    ensures r.Some? ==> r == selected
  {
    if selected.Some? && selected.value != "" && FindById(list, selected.value).Some? then selected else None
  }

  /** The first record with an id is found at the same place after an update by that id. */
  lemma FindAfterUpdate(list: seq<SavedStudy>, id: string, p: PendingSession)
    requires HasId(list, id)
    ensures FindById(UpdateById(list, id, p), id) == Some(ApplySession(FindById(list, id).value, p))
  {
    var r := UpdateById(list, id, p);
    assert forall j :: 0 <= j < |list| ==> r[j].id == list[j].id;
    assert IndexOfId(r, id) == IndexOfId(list, id);
  }

  /** The saved list once a session is committed, and the id it went under: the selected
      record when it still exists, otherwise a new record put first. Either way the session
      can then be found under that id with its selection and duration. */
  function CommitSession(list: seq<SavedStudy>, selected: Option<string>, p: PendingSession, freshId: string)
    : (r: (seq<SavedStudy>, string))
    ensures CommitTarget(list, selected).Some? ==>
              r.1 == selected.value && r.0 == UpdateById(list, r.1, p)
    ensures CommitTarget(list, selected).None? ==>
              r.1 == freshId && r.0 == [NewSavedStudy(freshId, p)] + list
    ensures FindById(r.0, r.1).Some?
    ensures FindById(r.0, r.1).value.selection == p.selection
    ensures FindById(r.0, r.1).value.durationSeconds == p.durationSeconds
    ensures FindById(r.0, r.1).value.endedAt == p.endedAt
  {
    var target := CommitTarget(list, selected);
    if target.Some? then
      FindAfterUpdate(list, target.value, p);
      (UpdateById(list, target.value, p), target.value)
    else
      var rec := NewSavedStudy(freshId, p);
      assert ([rec] + list)[0] == rec;
      (([rec] + list), freshId)
  }

  /** When a record counts as saved: `endedAt || createdAt`. */
  function SavedAt(s: SavedStudy): (t: int)
    ensures s.endedAt != 0 ==> t == s.endedAt
    ensures s.endedAt == 0 ==> t == s.createdAt
  {
    if s.endedAt != 0 then s.endedAt else s.createdAt
  }

  function Duration(s: SavedStudy): int {
    s.durationSeconds
  }

  predicate SavedSince(s: SavedStudy, weekStart: int) {
    SavedAt(s) >= weekStart
  }

  /** `totalSecondsThisWeek`, with the start of the week supplied. */
  function TotalSecondsSince(list: seq<SavedStudy>, weekStart: int): int {
    SumBy(Filter(list, (s: SavedStudy) => SavedSince(s, weekStart)), Duration)
  }

  function TotalSecondsBefore(list: seq<SavedStudy>, weekStart: int): int {
    SumBy(Filter(list, (s: SavedStudy) => !SavedSince(s, weekStart)), Duration)
  }

  /** Every record falls either in the week or before it, so the week's seconds and the
      earlier seconds add up to all the seconds. */
  lemma {:induction false} WeekSplitsTotal(list: seq<SavedStudy>, weekStart: int)
    ensures TotalSecondsSince(list, weekStart) + TotalSecondsBefore(list, weekStart) == SumBy(list, Duration)
  {
    if list != [] {
      var init := list[..|list| - 1];
      var last := list[|list| - 1];
      assert list == init + [last];
      WeekSplitsTotal(init, weekStart);
      var inWeek := (s: SavedStudy) => SavedSince(s, weekStart);
      var before := (s: SavedStudy) => !SavedSince(s, weekStart);
      FilterAppend(init, [last], inWeek);
      FilterAppend(init, [last], before);
      SumByAppend(Filter(init, inWeek), Filter([last], inWeek), Duration);
      SumByAppend(Filter(init, before), Filter([last], before), Duration);
      assert SumBy([last], Duration) == Duration(last) by { assert [last][..0] == []; }
    }
  }

  /** With non-negative durations, the week never counts more than the whole history. */
  lemma TotalSecondsSinceAtMostAll(list: seq<SavedStudy>, weekStart: int)
    requires forall i :: 0 <= i < |list| ==> list[i].durationSeconds >= 0
    ensures 0 <= TotalSecondsSince(list, weekStart) <= SumBy(list, Duration)
  {
    WeekSplitsTotal(list, weekStart);
    var inWeek := Filter(list, (s: SavedStudy) => SavedSince(s, weekStart));
    var before := Filter(list, (s: SavedStudy) => !SavedSince(s, weekStart));
    SumByNonNegative(inWeek, Duration);
    SumByNonNegative(before, Duration);
  }
}
