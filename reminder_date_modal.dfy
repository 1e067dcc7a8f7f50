/**
 * The save handler of src/components/ReminderDateModal.tsx: the date and time
 * text are checked in a fixed order, the first failing check becomes the
 * modal's error, and only an entry that passes them all reaches the screen's
 * `onSave` callback.
 */
module ReminderDateModal {
  import opened Wrappers
  import opened Types
  import opened Strings
  import opened Dates
  import opened Text
  import opened Calendar
  import opened DetailScreen

  /** The hour text: the first piece of the trimmed time, white space removed, padded to two. */
  function HourText(timeInput: string): (h: string)
    ensures |h| >= 2
    ensures forall c :: c in h ==> !IsSpace(c) && c != ':'
    ensures forall c :: c in h ==> c == '0' || c in Split(Trim(timeInput), ':')[0]
  {
    var piece := Split(Trim(timeInput), ':')[0];
    PaddedPieceChars(piece);
    PadStart2(RemoveSpaces(piece))
  }

  /** The minute text: the second piece the same way, or `00` when there is no colon. */
  function MinuteText(timeInput: string): (m: string)
    ensures |m| >= 2
    ensures forall c :: c in m ==> !IsSpace(c) && c != ':'
    ensures |Split(Trim(timeInput), ':')| == 1 ==> m == "00"
    ensures |Split(Trim(timeInput), ':')| > 1 ==>
      forall c :: c in m ==> c == '0' || c in Split(Trim(timeInput), ':')[1]
  {
    var parts := Split(Trim(timeInput), ':');
    DigitIsNotSpace('0');
    if |parts| > 1 then PaddedPieceChars(parts[1]); PadStart2(RemoveSpaces(parts[1])) else "00"
  }

  /** A padded piece holds only the piece's own non-space characters and the padding zeros. */
  lemma PaddedPieceChars(piece: string)
    requires ':' !in piece
    ensures forall c :: c in PadStart2(RemoveSpaces(piece)) ==> !IsSpace(c) && c != ':' && (c == '0' || c in piece)
  {
    DigitIsNotSpace('0');
    var r := RemoveSpaces(piece);
    if |r| == 1 {
      assert PadStart2(r) == ['0', r[0]];
    } else if |r| == 0 {
      assert PadStart2(r) == ['0', '0'];
    }
  }

  /**
   * `timeStr`: the hour text and the minute text around its one colon; it has
   * the `HH:mm` shape exactly when both texts are two digits.
   */
  function TimeString(timeInput: string): (ts: string)
    ensures var h := HourText(timeInput);
      && |ts| >= 5 && |h| < |ts| && ts[|h|] == ':'
      && ':' !in ts[..|h|] && ':' !in ts[|h| + 1..]
    ensures PaddedTimeOk(ts) <==>
      |HourText(timeInput)| == 2 && AllDigits(HourText(timeInput)) &&
      |MinuteText(timeInput)| == 2 && AllDigits(MinuteText(timeInput))
  {
    var h, m := HourText(timeInput), MinuteText(timeInput);
    JoinedTime(h, m);
    h + ":" + m
  }

  /** Two colon-free texts of at least two characters, joined by a colon. */
  lemma JoinedTime(h: string, m: string)
    requires |h| >= 2 && |m| >= 2 && ':' !in h && ':' !in m
    ensures var ts := h + ":" + m;
      && |ts| >= 5 && ts[|h|] == ':' && ts[..|h|] == h && ts[|h| + 1..] == m
      && (PaddedTimeOk(ts) <==> |h| == 2 && AllDigits(h) && |m| == 2 && AllDigits(m))
  {
    var ts := h + ":" + m;
    assert ts[..|h|] == h && ts[|h| + 1..] == m;
  }

  /** `/^\d{1,2}:\d{0,2}$/` with the colon at position `i`. */
  predicate RawTimeAt(t: string, i: nat) {
    i < |t| && t[i] == ':' && AllDigits(t[..i]) && AllDigits(t[i + 1..]) && |t| - (i + 1) <= 2
  }

  /** `/^\d{1,2}:\d{0,2}$/` on the trimmed time: one or two digits, a colon, at most two digits. */
  predicate RawTimeOk(t: string)
    ensures RawTimeOk(t) ==> 2 <= |t| <= 5 && IsDigit(t[0]) && (t[1] == ':' || (|t| > 2 && t[2] == ':'))
  {
    RawTimeAt(t, 1) || RawTimeAt(t, 2)
  }

  /** `/^\d{2}:\d{2}$/`: every time of this shape also has the raw shape. */
  predicate PaddedTimeOk(s: string)
    ensures PaddedTimeOk(s) ==> RawTimeOk(s)
  {
    |s| == 5 && AllDigits(s[..2]) && s[2] == ':' && AllDigits(s[3..])
  }

  lemma DigitsHaveNoColon(s: string)
    requires AllDigits(s)
    ensures ':' !in s
  {
    forall i | 0 <= i < |s| ensures s[i] != ':' {
      DigitIsNotSpace(s[i]);
    }
  }

  /** A raw-pattern time splits at its one colon into an hour part and a minute part. */
  lemma RawTimeSplit(t: string, i: nat)
    requires RawTimeAt(t, i)
    ensures Split(t, ':') == [t[..i], t[i + 1..]]
  {
    DigitsHaveNoColon(t[..i]);
    DigitsHaveNoColon(t[i + 1..]);
    assert t == Join([t[..i], t[i + 1..]], ':');
    SplitJoin([t[..i], t[i + 1..]], ':');
  }

  /** Padding one or two hour digits and up to two minute digits gives the `HH:mm` shape. */
  lemma PaddedDigits(h: string, m: string)
    requires AllDigits(h) && 1 <= |h| <= 2 && AllDigits(m) && |m| <= 2
    ensures PaddedTimeOk(PadStart2(h) + ":" + PadStart2(m))
  {
    var ts := PadStart2(h) + ":" + PadStart2(m);
    assert ts[..2] == PadStart2(h) && ts[3..] == PadStart2(m);
  }

  /**
   * A time that the raw pattern accepts also passes once padded, so the
   * time-format error depends on the padded text alone.
   */
  lemma RawTimeImpliesPadded(timeInput: string)
    requires RawTimeOk(Trim(timeInput))
    ensures PaddedTimeOk(TimeString(timeInput))
  {
    var t := Trim(timeInput);
    var i: nat := if RawTimeAt(t, 1) then 1 else 2;
    RawTimeSplit(t, i);
    RemoveSpacesOfDigits(t[..i]);
    RemoveSpacesOfDigits(t[i + 1..]);
    assert HourText(timeInput) == PadStart2(t[..i]);
    assert MinuteText(timeInput) == PadStart2(t[i + 1..]);
    PaddedDigits(t[..i], t[i + 1..]);
  }

  /** A time the padded pattern accepts although the raw one does not: pieces after the second are dropped. */
  lemma ExtraPiecesAccepted()
    ensures !RawTimeOk(Trim("1:2:3")) && PaddedTimeOk(TimeString("1:2:3"))
  {
    TrimmedIsFixed("1:2:3");
    ThreePiecesRejected();
    ThreePiecesPadded();
  }

  lemma ThreePiecesRejected()
    ensures !RawTimeOk("1:2:3")
  {
    assert !RawTimeAt("1:2:3", 1) by { assert !IsDigit("1:2:3"[3]); }
  }

  lemma ThreePiecesPadded()
    ensures PaddedTimeOk(TimeString("1:2:3"))
  {
    ThreePiecesHour();
    ThreePiecesMinute();
    PaddedDigits("1", "2");
  }

  lemma ThreePiecesHour()
    ensures HourText("1:2:3") == PadStart2("1")
  {
    TrimmedIsFixed("1:2:3");
    ThreePiecesSplit();
    RemoveSpacesOfDigits("1");
  }

  lemma ThreePiecesMinute()
    ensures MinuteText("1:2:3") == PadStart2("2")
  {
    TrimmedIsFixed("1:2:3");
    ThreePiecesSplit();
    RemoveSpacesOfDigits("2");
  }

  lemma ThreePiecesSplit()
    ensures Split("1:2:3", ':') == ["1", "2", "3"]
  {
    var parts := ["1", "2", "3"];
    assert Join(parts, ':') == "1:2:3";
    SplitJoin(parts, ':');
  }

  /** The hour and minute of a padded time. */
  function HourOf(ts: string): nat requires PaddedTimeOk(ts) { DigitsValue(ts[..2]) }
  function MinuteOf(ts: string): nat requires PaddedTimeOk(ts) { DigitsValue(ts[3..]) }

  /** The ranges the `yyyy-MM-dd'T'HH:mm` parser accepts: a positive year, a real day of the month, a clock time. */
  predicate ValidFields(dateText: string, ts: string)
    requires IsDateText(dateText) && PaddedTimeOk(ts)
  {
    && YearOf(dateText) >= 1
    && 1 <= MonthOf(dateText) <= 12
    && 1 <= DayOfMonthOf(dateText) <= DaysInMonth(YearOf(dateText), MonthOf(dateText))
    && HourOf(ts) <= 23 && MinuteOf(ts) <= 59
  }

  function EntryInstant(dateText: string, ts: string): Instant
    requires IsDateText(dateText) && PaddedTimeOk(ts) && ValidFields(dateText, ts)
  {
    CivilInstant(YearOf(dateText), MonthOf(dateText), DayOfMonthOf(dateText), HourOf(ts), MinuteOf(ts))
  }

  /** Two entries on the same date fall on the same calendar day, whatever their times. */
  lemma SameDateSameDay(dateText: string, ts1: string, ts2: string)
    requires IsDateText(dateText) && PaddedTimeOk(ts1) && PaddedTimeOk(ts2)
    requires ValidFields(dateText, ts1) && ValidFields(dateText, ts2)
    ensures IsSameDay(EntryInstant(dateText, ts1), EntryInstant(dateText, ts2))
  {
    CivilInstantDay(YearOf(dateText), MonthOf(dateText), DayOfMonthOf(dateText), HourOf(ts1), MinuteOf(ts1));
    CivilInstantDay(YearOf(dateText), MonthOf(dateText), DayOfMonthOf(dateText), HourOf(ts2), MinuteOf(ts2));
  }

  datatype EntryCheck = Rejected(message: string) | Accepted(dateTime: Instant)

  lemma MessagesDistinct()
    ensures |DateMustBeFormat(DATE_FORMAT)| == 23 && |TimeMustBeFormat(TIME_FORMAT)| == 18
    ensures |INVALID_DATE_TIME| == 20 && |DATE_TIME_MUST_BE_FUTURE| == 35 && |REMINDER_AFTER_TARGET| == 50
  {
  }

  /** The checks of `handleSave`, in their order; the first that fails names the error. */
  function CheckEntry(dateInput: string, timeInput: string, now: Instant, maxDate: Option<Instant>): (check: EntryCheck)
    ensures !IsDateText(dateInput) <==> check == Rejected(DateMustBeFormat(DATE_FORMAT))
    ensures check == Rejected(TimeMustBeFormat(TIME_FORMAT)) <==>
      IsDateText(dateInput) && !RawTimeOk(Trim(timeInput)) && !PaddedTimeOk(TimeString(timeInput))
    ensures check == Rejected(INVALID_DATE_TIME) <==>
      IsDateText(dateInput) && PaddedTimeOk(TimeString(timeInput)) && !ValidFields(dateInput, TimeString(timeInput))
    ensures check == Rejected(DATE_TIME_MUST_BE_FUTURE) <==>
      IsDateText(dateInput) && PaddedTimeOk(TimeString(timeInput)) && ValidFields(dateInput, TimeString(timeInput)) &&
      EntryInstant(dateInput, TimeString(timeInput)) <= now
    ensures check == Rejected(REMINDER_AFTER_TARGET) <==>
      IsDateText(dateInput) && PaddedTimeOk(TimeString(timeInput)) && ValidFields(dateInput, TimeString(timeInput)) &&
      now < EntryInstant(dateInput, TimeString(timeInput)) &&
      maxDate.Some? && EntryInstant(dateInput, TimeString(timeInput)) > maxDate.value
    ensures check.Accepted? ==>
      && IsDateText(dateInput) && PaddedTimeOk(TimeString(timeInput)) && ValidFields(dateInput, TimeString(timeInput))
      && check.dateTime == EntryInstant(dateInput, TimeString(timeInput))
      && now < check.dateTime && (maxDate.None? || check.dateTime <= maxDate.value)
  {
    var ts := TimeString(timeInput);
    MessagesDistinct();
    if !IsDateText(dateInput) then Rejected(DateMustBeFormat(DATE_FORMAT))
    else if !RawTimeOk(Trim(timeInput)) && !PaddedTimeOk(ts) then Rejected(TimeMustBeFormat(TIME_FORMAT))
    else
      assert PaddedTimeOk(ts) by {
        if RawTimeOk(Trim(timeInput)) { RawTimeImpliesPadded(timeInput); }
      }
      if !ValidFields(dateInput, ts) then Rejected(INVALID_DATE_TIME)
      else
        var dateTime := EntryInstant(dateInput, ts);
        if dateTime <= now then Rejected(DATE_TIME_MUST_BE_FUTURE)
        else if maxDate.Some? && dateTime > maxDate.value then Rejected(REMINDER_AFTER_TARGET)
        else Accepted(dateTime)
  }

  /** An instant equal to the limit is accepted. */
  lemma LimitItselfAccepted(dateInput: string, timeInput: string, now: Instant)
    requires IsDateText(dateInput) && PaddedTimeOk(TimeString(timeInput)) && ValidFields(dateInput, TimeString(timeInput))
    requires now < EntryInstant(dateInput, TimeString(timeInput))
    ensures CheckEntry(dateInput, timeInput, now, Some(EntryInstant(dateInput, TimeString(timeInput)))) ==
      Accepted(EntryInstant(dateInput, TimeString(timeInput)))
  {
  }

  datatype ModalState = StaysOpen(error: string) | Closes

  /** How the promise `onSave` returns settles: with a message, with nothing, or by throwing. */
  datatype SaveReply = Resolved(message: Option<string>) | Rejects

  /**
   * `handleSave`: a failed check keeps the modal open with its message;
   * otherwise `onSave` decides: any text it returns is shown, nothing closes the
   * modal, and a throw leaves it open with the error it had just cleared.
   */
  function HandleSave(dateInput: string, timeInput: string, now: Instant, maxDate: Option<Instant>,
    onSave: Instant -> SaveReply): (state: ModalState)
    ensures var check := CheckEntry(dateInput, timeInput, now, maxDate);
      && (check.Rejected? ==> state == StaysOpen(check.message))
      && (check.Accepted? && onSave(check.dateTime).Rejects? ==> state == StaysOpen(""))
      && (check.Accepted? && onSave(check.dateTime).Resolved? ==>
            state == if onSave(check.dateTime).message.Some? then StaysOpen(onSave(check.dateTime).message.value) else Closes)
  {
    match CheckEntry(dateInput, timeInput, now, maxDate)
    case Rejected(message) => StaysOpen(message)
    case Accepted(dateTime) =>
      match onSave(dateTime)
      case Rejects => StaysOpen("")
      case Resolved(Some(message)) => StaysOpen(message)
      case Resolved(None) => Closes
  }

  /** What the edit handler hands back to the modal: the refusal's text, nothing, or its throw. */
  function ModalReply(outcome: EditOutcome): (reply: SaveReply)
    ensures reply == Rejects <==> outcome.Failed?
    ensures reply == Resolved(None) <==> !outcome.Refused? && !outcome.Failed?
    ensures outcome.Refused? ==> reply == Resolved(Some(outcome.message))
  {
    match outcome
    case Refused(message) => Resolved(Some(message))
    case Failed(_) => Rejects
    case _ => Resolved(None)
  }

  /**
   * Wired to the detail screen's edit handler over the store `s`, a date that
   * would leave other reminders later closes the modal without saving; the
   * same-day refusal keeps it open with its message, and a stale selection
   * (its reminder gone from the store) keeps it open with no message.
   */
  lemma EditModalOutcome(dateInput: string, timeInput: string, now: Instant, maxDate: Option<Instant>,
    s: seq<Reminder>, selected: Option<Reminder>, commitment: Option<Commitment>, shown: seq<Reminder>)
    requires CheckEntry(dateInput, timeInput, now, maxDate).Accepted?
    ensures var t := CheckEntry(dateInput, timeInput, now, maxDate).dateTime;
      var outcome := EditSaveOutcome(s, selected, commitment, shown, t);
      var state := HandleSave(dateInput, timeInput, now, maxDate, (dt: Instant) => ModalReply(EditSaveOutcome(s, selected, commitment, shown, dt)));
      && (state == Closes <==> !outcome.Refused? && !outcome.Failed?)
      && (outcome.Refused? ==> state == StaysOpen(SNOOZE_SAME_DAY))
      && (outcome.Failed? ==> state == StaysOpen(""))
  {
  }
}
