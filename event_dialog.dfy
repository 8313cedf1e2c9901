/** `EventDialog`: the form that creates or edits an event. It keeps the
    picked start and end dates in order, refuses to save without a title, and
    on Save builds the event and hands it to the caller. */
module EventDialogModule {
  import opened Wrappers
  import opened Strings
  import opened Model
  import opened Converters

  const MillisPerDay := 86400000

  /** `Instant.ofEpochMilli(millis).atZone(ZoneOffset.UTC).toLocalDate()`:
      the UTC day a date picker's selection falls on. */
  function UtcDay(millis: int): (day: int)
    ensures day * MillisPerDay <= millis < day * MillisPerDay + MillisPerDay
  {
    millis / MillisPerDay
  }

  /** `formatTime`: hour and minute, each left-padded with '0' to two
      characters, joined by ':'. */
  function FormatTime(hour: int, minute: int): (text: string)
    ensures |text| >= 5
  {
    PadStart(IntToString(hour), 2, '0') + ":" + PadStart(IntToString(minute), 2, '0')
  }

  lemma TwoDigitText(n: int)
    requires 0 <= n <= 99
    ensures PadStart(IntToString(n), 2, '0') == [Digit(n / 10), Digit(n % 10)]
  {
    if n < 10 {
      NatToStringOneDigit(n);
      var r := PadStart(IntToString(n), 2, '0');
      assert r[1..] == [Digit(n)];
      assert Digit(0) == '0';
    } else {
      NatToStringTwoDigits(n);
    }
  }

  /** Any time of day (and any pair of two-digit numbers) is shown as
      exactly "hh:mm". */
  lemma FormatTimeShape(hour: int, minute: int)
    requires 0 <= hour <= 99 && 0 <= minute <= 99
    ensures FormatTime(hour, minute) == [Digit(hour / 10), Digit(hour % 10), ':', Digit(minute / 10), Digit(minute % 10)]
  {
    var hh := PadStart(IntToString(hour), 2, '0');
    var mm := PadStart(IntToString(minute), 2, '0');
    TwoDigitText(hour);
    TwoDigitText(minute);
    GlueTime(hh, mm, Digit(hour / 10), Digit(hour % 10), Digit(minute / 10), Digit(minute % 10));
  }

  lemma GlueTime(hh: string, mm: string, h1: char, h2: char, m1: char, m2: char)
    requires hh == [h1, h2] && mm == [m1, m2]
    ensures hh + ":" + mm == [h1, h2, ':', m1, m2]
  {
  }

  /** `combineDateAndTime`: 0 without a date; otherwise the instant of that
      date and time in the device's time zone, given here as `atZone` (epoch
      day, hour, minute to epoch milliseconds). */
  function CombineDateAndTime(date: Option<int>, time: (int, int), atZone: (int, int, int) -> int): (millis: int)
    ensures date.None? ==> millis == 0
    ensures date.Some? ==> millis == atZone(date.value, time.0, time.1)
  {
    match date
    case None => 0
    case Some(d) => atZone(d, time.0, time.1)
  }

  /** What the dialog hands back, in call order. */
  datatype Callback = OnSave(event: Event) | OnDismiss

  /** The participants Save puts into the event, as written: the field's
      whole text as a single entry. */
  function ParticipantsAsWritten(field: string): (r: seq<string>)
    ensures |r| == 1 && r[0] == field
  {
    [field]
  }

  /** As written, an event with two participants comes back from an
      unchanged dialog with one participant: the field was filled with the
      comma-joined list and Save keeps it whole. */
  lemma ParticipantsCollapse()
    ensures ParticipantsAsWritten(FromStringList(["Anna", "Ben"])) == ["Anna,Ben"]
    ensures ParticipantsAsWritten(FromStringList(["Anna", "Ben"])) != ["Anna", "Ben"]
  {
    var ps := ["Anna", "Ben"];
    assert ps[1..] == ["Ben"];
    assert Join(ps[1..]) == "Ben";
    assert FromStringList(ps) == "Anna" + "," + "Ben";
    assert "Anna" + "," + "Ben" == "Anna,Ben";
  }

  /** The participants as evidently intended: the field split at commas with
      blank pieces dropped, the inverse of how the field is filled. */
  function ParticipantsFromField(field: string): (r: seq<string>)
    ensures forall i :: 0 <= i < |r| ==> Storable(r[i])
  {
    ToStringList(field)
  }

  /** With the intended rule, any list of participants that can be typed
      (none blank, none with a comma) survives an unchanged dialog. */
  lemma ParticipantsSurvive(participants: seq<string>)
    requires forall i :: 0 <= i < |participants| ==> Storable(participants[i])
    ensures ParticipantsFromField(FromStringList(participants)) == participants
  {
    RoundTrip(participants);
  }

  class EventDialog {
    /** The event being edited, if any. */
    const initialEvent: Option<Event>
    var mandatoryFieldsMissing: bool
    var titleField: string
    var participantsField: string
    var locationField: string
    var notificationField: string
    var repeatField: string
    var notesField: string
    var allDayChecked: bool
    var showStartDatePicker: bool
    var showEndDatePicker: bool
    /** The picked dates as epoch days, when there are any. */
    var selectedStartDate: Option<int>
    var selectedEndDate: Option<int>
    /** The picked times as (hour, minute). */
    var selectedStartTime: (int, int)
    var selectedEndTime: (int, int)

    /** The dialog as first composed; the initial dates and times come from
        the edited event (or the calendar's date) in the device's time zone. */
    constructor (initialEvent: Option<Event>, startDate: Option<int>, endDate: Option<int>,
                 startTime: (int, int), endTime: (int, int))
      ensures this.initialEvent == initialEvent
      ensures !mandatoryFieldsMissing && !allDayChecked && !showStartDatePicker && !showEndDatePicker
      ensures titleField == "" && participantsField == "" && locationField == ""
      ensures notificationField == "" && repeatField == "" && notesField == ""
      ensures selectedStartDate == startDate && selectedEndDate == endDate
      ensures selectedStartTime == startTime && selectedEndTime == endTime
    {
      this.initialEvent := initialEvent;
      mandatoryFieldsMissing := false;
      titleField, participantsField, locationField := "", "", "";
      notificationField, repeatField, notesField := "", "", "";
      allDayChecked, showStartDatePicker, showEndDatePicker := false, false, false;
      selectedStartDate, selectedEndDate := startDate, endDate;
      selectedStartTime, selectedEndTime := startTime, endTime;
    }

    /** The text fields and the all-day box are as they were. */
    twostate predicate TextKept()
      reads this
    {
      && titleField == old(titleField) && participantsField == old(participantsField)
      && locationField == old(locationField) && notificationField == old(notificationField)
      && repeatField == old(repeatField) && notesField == old(notesField)
      && allDayChecked == old(allDayChecked)
    }

    /** The selected dates and times are as they were. */
    twostate predicate ScheduleKept()
      reads this
    {
      && selectedStartDate == old(selectedStartDate) && selectedEndDate == old(selectedEndDate)
      && selectedStartTime == old(selectedStartTime) && selectedEndTime == old(selectedEndTime)
    }

    /** Filling the form from the edited event: its text fields, the all-day
        flag, and the participants joined with commas. */
    method Prefill()
      modifies this
      ensures initialEvent.None? ==> TextKept()
      ensures initialEvent.Some? ==>
                var e := initialEvent.value;
                titleField == e.title && allDayChecked == e.allDay
                && participantsField == FromStringList(e.participants)
                && locationField == e.location && notificationField == e.notification
                && repeatField == e.repeat && notesField == e.notes
      ensures mandatoryFieldsMissing == old(mandatoryFieldsMissing) && ScheduleKept()
      ensures showStartDatePicker == old(showStartDatePicker) && showEndDatePicker == old(showEndDatePicker)
    {
      if initialEvent.Some? {
        var e := initialEvent.value;
        titleField := e.title;
        allDayChecked := e.allDay;
        participantsField := FromStringList(e.participants);
        locationField := e.location;
        notificationField := e.notification;
        repeatField := e.repeat;
        notesField := e.notes;
      }
    }

    /** The start-date picker's selection changed to `millis` (or was
        cleared): the start date becomes that UTC day, and an end date before
        it is moved up to it. The picker closes. */
    method PickStartDate(millis: Option<int>)
      modifies this
      ensures millis.None? ==> selectedStartDate == old(selectedStartDate) && selectedEndDate == old(selectedEndDate)
      ensures millis.Some? ==> selectedStartDate == Some(UtcDay(millis.value))
      ensures millis.Some? && old(selectedEndDate).Some? ==>
                selectedEndDate == Some(if UtcDay(millis.value) > old(selectedEndDate).value
                                        then UtcDay(millis.value) else old(selectedEndDate).value)
      ensures millis.Some? && old(selectedEndDate).None? ==> selectedEndDate == None
      ensures millis.Some? && selectedEndDate.Some? ==> selectedStartDate.value <= selectedEndDate.value
      ensures !showStartDatePicker && showEndDatePicker == old(showEndDatePicker)
      ensures selectedStartTime == old(selectedStartTime) && selectedEndTime == old(selectedEndTime)
      ensures TextKept() && mandatoryFieldsMissing == old(mandatoryFieldsMissing)
    {
      if millis.Some? {
        var newStartDate := UtcDay(millis.value);
        selectedStartDate := Some(newStartDate);
        if selectedEndDate.Some? && newStartDate > selectedEndDate.value {
          selectedEndDate := Some(newStartDate);
        }
      }
      showStartDatePicker := false;
    }

    /** The end-date picker's selection changed to `millis` (or was cleared):
        the end date becomes that UTC day, and a start date after it is moved
        back to it. The picker closes. */
    method PickEndDate(millis: Option<int>)
      modifies this
      ensures millis.None? ==> selectedStartDate == old(selectedStartDate) && selectedEndDate == old(selectedEndDate)
      ensures millis.Some? ==> selectedEndDate == Some(UtcDay(millis.value))
      ensures millis.Some? && old(selectedStartDate).Some? ==>
                selectedStartDate == Some(if UtcDay(millis.value) < old(selectedStartDate).value
                                          then UtcDay(millis.value) else old(selectedStartDate).value)
      ensures millis.Some? && old(selectedStartDate).None? ==> selectedStartDate == None
      ensures millis.Some? && selectedStartDate.Some? ==> selectedStartDate.value <= selectedEndDate.value
      ensures !showEndDatePicker && showStartDatePicker == old(showStartDatePicker)
      ensures selectedStartTime == old(selectedStartTime) && selectedEndTime == old(selectedEndTime)
      ensures TextKept() && mandatoryFieldsMissing == old(mandatoryFieldsMissing)
    {
      if millis.Some? {
        var newEndDate := UtcDay(millis.value);
        selectedEndDate := Some(newEndDate);
        if selectedStartDate.Some? && newEndDate < selectedStartDate.value {
          selectedStartDate := Some(newEndDate);
        }
      }
      showEndDatePicker := false;
    }

    /** A time picker moved to `hour`:`minute`: the start (or end) time
        follows it and nothing else changes. */
    method PickTime(isStart: bool, hour: int, minute: int)
      modifies this
      ensures isStart ==> selectedStartTime == (hour, minute) && selectedEndTime == old(selectedEndTime)
      ensures !isStart ==> selectedEndTime == (hour, minute) && selectedStartTime == old(selectedStartTime)
      ensures selectedStartDate == old(selectedStartDate) && selectedEndDate == old(selectedEndDate)
      ensures showStartDatePicker == old(showStartDatePicker) && showEndDatePicker == old(showEndDatePicker)
      ensures TextKept() && mandatoryFieldsMissing == old(mandatoryFieldsMissing)
    {
      if isStart {
        selectedStartTime := (hour, minute);
      } else {
        selectedEndTime := (hour, minute);
      }
    }

    /** The Save button: a blank title only raises the missing-field flag;
        otherwise the event is built (all-day events run from 00:00 on the
        start date to 23:59 on the end date) and `onSave` then `onDismiss`
        are called. */
    method Save(atZone: (int, int, int) -> int) returns (calls: seq<Callback>)
      modifies this
      ensures IsBlank(titleField) ==> calls == [] && mandatoryFieldsMissing
      ensures !IsBlank(titleField) ==>
                |calls| == 2 && calls[0].OnSave? && calls[1] == OnDismiss
                && mandatoryFieldsMissing == old(mandatoryFieldsMissing)
      ensures !IsBlank(titleField) ==>
                var e := calls[0].event;
                && e.id == (if initialEvent.Some? then initialEvent.value.id else "")
                && e.title == titleField && e.allDay == allDayChecked
                && e.startDate == CombineDateAndTime(selectedStartDate, if allDayChecked then (0, 0) else selectedStartTime, atZone)
                && e.endDate == CombineDateAndTime(selectedEndDate, if allDayChecked then (23, 59) else selectedEndTime, atZone)
                && e.participants == ParticipantsAsWritten(participantsField)
                && e.location == locationField && e.notification == notificationField
                && e.repeat == repeatField && e.notes == notesField
                && e.createdBy == "" && e.familyId == ""
      ensures TextKept() && ScheduleKept()
      ensures showStartDatePicker == old(showStartDatePicker) && showEndDatePicker == old(showEndDatePicker)
    {
      if IsBlank(titleField) {
        mandatoryFieldsMissing := true;
        return [];
      }
      var event := Event(
        if initialEvent.Some? then initialEvent.value.id else "",
        titleField,
        if allDayChecked then CombineDateAndTime(selectedStartDate, (0, 0), atZone)
        else CombineDateAndTime(selectedStartDate, selectedStartTime, atZone),
        if allDayChecked then CombineDateAndTime(selectedEndDate, (23, 59), atZone)
        else CombineDateAndTime(selectedEndDate, selectedEndTime, atZone),
        allDayChecked,
        locationField,
        notificationField,
        repeatField,
        notesField,
        "",
        "",
        ParticipantsAsWritten(participantsField));
      calls := [OnSave(event), OnDismiss];
    }
  }
}
