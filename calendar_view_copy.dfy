/** The simpler month calendar (`CalendarViewCopy`): the same Monday-aligned
    grid, and per date cell the events running on that date, a preview of the
    first two and a "+ k" label for the rest; plus the `YearMonth` arithmetic
    behind month navigation in both calendars. */
module CalendarViewCopy {
  import opened Model
  import opened Strings
  import opened Wrappers
  import CalendarView

  // ---------------------------------------------------------------------------
  // Months
  // ---------------------------------------------------------------------------

  /** `java.time.YearMonth`; `month` is 1..12 in every value the app builds. */
  datatype YearMonth = YearMonth(year: int, month: int) {
    predicate Valid() {
      1 <= month <= 12
    }
  }

  /** Months since January of year 0. */
  function MonthCount(ym: YearMonth): int {
    ym.year * 12 + ym.month - 1
  }

  /** `plusMonths`: zero is the identity, otherwise the month count shifts by
      n and year and month are recomputed with floor division and modulus. */
  function PlusMonths(ym: YearMonth, n: int): (r: YearMonth)
    requires ym.Valid()
    ensures r.Valid()
    ensures MonthCount(r) == MonthCount(ym) + n
  {
    if n == 0 then ym
    else
      var total := MonthCount(ym) + n;
      YearMonth(total / 12, total % 12 + 1)
  }

  /** `minusMonths`. */
  function MinusMonths(ym: YearMonth, n: int): (r: YearMonth)
    requires ym.Valid()
    ensures r.Valid()
    ensures MonthCount(r) == MonthCount(ym) - n
  {
    PlusMonths(ym, -n)
  }

  lemma MonthCountInjective(a: YearMonth, b: YearMonth)
    requires a.Valid() && b.Valid() && MonthCount(a) == MonthCount(b)
    ensures a == b
  {
    assert a.year * 12 + (a.month - 1) == b.year * 12 + (b.month - 1);
  }

  /** The "previous month" and "next month" buttons undo each other. */
  lemma PreviousAndNextCancel(ym: YearMonth)
    requires ym.Valid()
    ensures PlusMonths(MinusMonths(ym, 1), 1) == ym
    ensures MinusMonths(PlusMonths(ym, 1), 1) == ym
  {
    MonthCountInjective(PlusMonths(MinusMonths(ym, 1), 1), ym);
    MonthCountInjective(MinusMonths(PlusMonths(ym, 1), 1), ym);
  }

  /** In the paged calendar, page p shows `baseMonth.plusMonths(p - initialPage)`:
      the page after any page shows the month after its month. */
  lemma NextPageIsNextMonth(baseMonth: YearMonth, page: int, initialPage: int)
    requires baseMonth.Valid()
    ensures PlusMonths(baseMonth, page + 1 - initialPage)
            == PlusMonths(PlusMonths(baseMonth, page - initialPage), 1)
  {
    MonthCountInjective(PlusMonths(baseMonth, page + 1 - initialPage),
                        PlusMonths(PlusMonths(baseMonth, page - initialPage), 1));
  }

  /** `Year.isLeap`, the proleptic Gregorian rule. */
  predicate IsLeapYear(year: int)
    ensures IsLeapYear(year) ==> year % 4 == 0
    ensures year % 400 == 0 ==> IsLeapYear(year)
    ensures year % 100 == 0 && year % 400 != 0 ==> !IsLeapYear(year)
  {
    year % 4 == 0 && (year % 100 != 0 || year % 400 == 0)
  }

  /** `lengthOfMonth`. */
  function LengthOfMonth(ym: YearMonth): (n: int)
    requires ym.Valid()
    ensures 28 <= n <= 31
    ensures n == 29 <==> ym.month == 2 && IsLeapYear(ym.year)
    ensures n == 31 <==> ym.month in {1, 3, 5, 7, 8, 10, 12}
  {
    if ym.month == 2 then (if IsLeapYear(ym.year) then 29 else 28)
    else if ym.month in {4, 6, 9, 11} then 30
    else 31
  }

  /** Whatever month is shown, its grid holds 4 to 6 whole weeks that run
      Monday to Sunday. `firstOfMonth` is `atDay(1)` as an epoch day. */
  lemma DisplayedMonthWeeks(ym: YearMonth, firstOfMonth: int)
    requires ym.Valid()
    ensures var weeks := CalendarView.Chunked(CalendarView.MonthGrid(firstOfMonth, LengthOfMonth(ym)));
      && 4 <= |weeks| <= 6
      && forall w :: 0 <= w < |weeks| ==> CalendarView.IsWeek(weeks[w]) && CalendarView.DayOfWeek(weeks[w][0]) == 1
  {
    CalendarView.MonthWeeks(firstOfMonth, LengthOfMonth(ym));
  }

  // ---------------------------------------------------------------------------
  // Date cells
  // ---------------------------------------------------------------------------

  /** An event runs on `date` when it starts no later and ends no earlier;
      `dayOf` is `toLocalDate` under the device's time zone. */
  predicate RunsOn(e: Event, date: int, dayOf: int -> int) {
    dayOf(e.startDate) <= date <= dayOf(e.endDate)
  }

  /** `eventsForDate`: the events running on `date`, in list order. */
  function EventsForDate(events: seq<Event>, date: int, dayOf: int -> int): (r: seq<Event>)
    ensures IsSubsequence(r, events)
    ensures forall e :: e in r <==> e in events && RunsOn(e, date, dayOf)
    ensures forall e :: multiset(r)[e] == if RunsOn(e, date, dayOf) then multiset(events)[e] else 0
  {
    if events == [] then []
    else
      var rest := EventsForDate(events[1..], date, dayOf);
      assert forall e :: e in events <==> e == events[0] || e in events[1..];
      assert multiset(events) == multiset{events[0]} + multiset(events[1..]) by {
        assert events == [events[0]] + events[1..];
      }
      assert multiset([events[0]] + rest) == multiset{events[0]} + multiset(rest);
      if RunsOn(events[0], date, dayOf) then [events[0]] + rest else rest
  }

  const PreviewCount := 2

  /** What a date cell shows of its events: the first two and how many more. */
  datatype DayCell = DayCell(preview: seq<Event>, remainingCount: int)

  function DayCellOf(eventsForDate: seq<Event>): (c: DayCell)
    ensures |c.preview| == if |eventsForDate| < PreviewCount then |eventsForDate| else PreviewCount
    ensures c.preview == eventsForDate[..|c.preview|]
    ensures c.remainingCount >= 0 && |c.preview| + c.remainingCount == |eventsForDate|
  {
    var preview := if |eventsForDate| <= PreviewCount then eventsForDate else eventsForDate[..PreviewCount];
    DayCell(preview, |eventsForDate| - |preview|)
  }

  /** The "+ k" label under the preview, when there is one. */
  function RemainingLabel(c: DayCell): (shown: Option<string>)
    ensures shown.Some? <==> c.remainingCount > 0
    ensures shown.Some? ==> shown.value == "+ " + NatToString(c.remainingCount)
  {
    if c.remainingCount > 0 then Some("+ " + IntToString(c.remainingCount)) else None
  }

  /** A date cell shows "+ k" exactly when more than two events run on that
      date, and then k is the number not previewed. */
  lemma LabelIffMoreThanTwo(events: seq<Event>, date: int, dayOf: int -> int)
    ensures var n := |EventsForDate(events, date, dayOf)|;
      && (RemainingLabel(DayCellOf(EventsForDate(events, date, dayOf))).Some? <==> n > PreviewCount)
      && (n > PreviewCount ==> DayCellOf(EventsForDate(events, date, dayOf)).remainingCount == n - PreviewCount)
      && (n > PreviewCount ==>
            RemainingLabel(DayCellOf(EventsForDate(events, date, dayOf))) == Some("+ " + NatToString(n - PreviewCount)))
  {
    var onDate := EventsForDate(events, date, dayOf);
    var cell := DayCellOf(onDate);
    assert |onDate| > PreviewCount ==> cell.remainingCount == |onDate| - PreviewCount;
  }
}
