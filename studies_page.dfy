/**
 * The history page: it lists only the saved studies a timed session went into, shows each
 * one's duration as minutes and zero-padded seconds and its saved time, and marks the
 * selected card.
 */
module StudiesPage {
  import opened Wrappers
  import opened Text
  import opened Collections
  import opened Study

  /** A record a timed session went into: it has a duration and an end time. */
  predicate IsCompleted(s: SavedStudy) {
    s.durationSeconds > 0 && s.endedAt > 0
  }

  function Completed(): SavedStudy -> bool {
    s => IsCompleted(s)
  }

  /** `completedStudies`: the completed records, in history order. */
  function CompletedStudies(list: seq<SavedStudy>): (r: seq<SavedStudy>)
    ensures |r| <= |list|
    ensures forall i :: 0 <= i < |r| ==> r[i] in list && IsCompleted(r[i])
    ensures forall i :: 0 <= i < |list| && IsCompleted(list[i]) ==> list[i] in r
  {
    Filter(list, Completed())
  }

  /** The filter keeps history order: the completed records of a longer history are those
      of each part, one part after the other. */
  lemma CompletedStudiesAppend(a: seq<SavedStudy>, b: seq<SavedStudy>)
    ensures CompletedStudies(a + b) == CompletedStudies(a) + CompletedStudies(b)
  {
    FilterAppend(a, b, Completed());
  }

  /** A saved plan (no duration yet) put in front of the history never shows on the page,
      and a committed session of positive length ending at a positive time always does. */
  lemma CompletedStudiesOfNewRecord(rec: SavedStudy, list: seq<SavedStudy>)
    ensures rec.durationSeconds == 0 ==> CompletedStudies([rec] + list) == CompletedStudies(list)
    ensures IsCompleted(rec) ==> CompletedStudies([rec] + list) == [rec] + CompletedStudies(list)
  {
    CompletedStudiesAppend([rec], list);
    assert [rec][1..] == [];
  }

  /** For a record on the page the saved time shown is its end time. */
  lemma CompletedSavedAtIsEnd(s: SavedStudy)
    requires IsCompleted(s)
    ensures SavedAt(s) == s.endedAt
  {
  }

  /** JavaScript's `t % 60`: the remainder of a division truncated toward zero, so its
      sign follows the dividend, unlike Dafny's Euclidean `%`. */
  function JsRemainder60(t: int): (r: int)
    ensures t >= 0 ==> r == t % 60
    ensures -60 < r < 60 && (r == 0 || (r < 0 <==> t < 0))
    ensures (t - r) % 60 == 0
  {
    if t >= 0 then t % 60 else -((-t) % 60)
  }

  /** `formatDuration`: whole minutes rounded down, "m ", the remaining seconds padded to
      two digits, "s". */
  function FormatDuration(totalSeconds: int): string {
    IntToString(totalSeconds / 60) + "m " + PadStart2(IntToString(JsRemainder60(totalSeconds))) + "s"
  }

  lemma PadStart2OfNat(n: nat)
    ensures PadStart2(NatToString(n)) == Pad2(n)
  {
  }

  /** For a non-negative duration the text is the minutes, then the seconds of the last
      minute as exactly two digits. */
  lemma FormatDurationShape(t: nat)
    ensures FormatDuration(t) == NatToString(t / 60) + "m " + Pad2(t % 60) + "s"
    ensures |Pad2(t % 60)| == 2 && DigitsValue(Pad2(t % 60)) == t % 60
  {
    PadStart2OfNat(t % 60);
  }

  /** Different durations are never shown the same. */
  lemma FormatDurationInjective(a: nat, b: nat)
    requires FormatDuration(a) == FormatDuration(b)
    ensures a == b
  {
    FormatDurationShape(a);
    FormatDurationShape(b);
    var ra := "m " + Pad2(a % 60) + "s";
    var rb := "m " + Pad2(b % 60) + "s";
    Assoc4(NatToString(a / 60), "m ", Pad2(a % 60), "s");
    Assoc4(NatToString(b / 60), "m ", Pad2(b % 60), "s");
    DigitPrefixUnique(NatToString(a / 60), ra, NatToString(b / 60), rb);
    NatToStringInjective(a / 60, b / 60);
    assert Pad2(a % 60) == ra[2..4];
    assert Pad2(b % 60) == rb[2..4];
  }

  /** One card of the list. */
  datatype Card = Card(study: SavedStudy, selected: bool)

  /** The cards of the page: one per completed record, in order, and a card is selected
      exactly when its id is the selected id. */
  function Cards(list: seq<SavedStudy>, selectedId: Option<string>): (cards: seq<Card>)
    ensures |cards| == |CompletedStudies(list)|
    ensures forall i :: 0 <= i < |cards| ==>
              cards[i].study == CompletedStudies(list)[i]
              && (cards[i].selected <==> selectedId == Some(cards[i].study.id))
  {
    var shown := CompletedStudies(list);
    seq(|shown|, i requires 0 <= i < |shown| => Card(shown[i], selectedId == Some(shown[i].id)))
  }
}
