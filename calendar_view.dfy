/** The month calendar (`MonthContent`): a Monday-aligned grid of dates cut
    into weeks, and per week a first-fit packing of the events that touch the
    week into three visible rows plus one overflow row, with a "+N" badge per
    day. Dates are epoch-day numbers. */
module CalendarView {
  import opened Wrappers
  import opened Model

  // ---------------------------------------------------------------------------
  // The month grid
  // ---------------------------------------------------------------------------

  /** ISO day of week of an epoch day (`dayOfWeek.value`): 1 is Monday and 7
      is Sunday; epoch day 0, 1970-01-01, was a Thursday. */
  function DayOfWeek(day: int): (r: int)
    ensures 1 <= r <= 7
  {
    (day + 3) % 7 + 1
  }

  /** `(firstOfMonth.dayOfWeek.value + 6) % 7`: the number of days of the
      previous month that precede day 1 in the grid. */
  function LeadingDays(firstOfMonth: int): (r: int)
    ensures 0 <= r <= 6
    ensures DayOfWeek(firstOfMonth - r) == 1
  {
    (DayOfWeek(firstOfMonth) + 6) % 7
  }

  /** The smallest multiple of 7 that is at least n. */
  function RoundUpToWeek(n: nat): (r: nat)
    ensures r % 7 == 0 && n <= r < n + 7
  {
    (n + 6) / 7 * 7
  }

  /** The grid of a month whose first day is `firstOfMonth` and which has
      `lengthOfMonth` days: consecutive dates from the Monday on or before day 1
      up to the Sunday on or after the last day. */
  function MonthGrid(firstOfMonth: int, lengthOfMonth: nat): (days: seq<int>)
    ensures |days| == RoundUpToWeek(LeadingDays(firstOfMonth) + lengthOfMonth)
    ensures forall i :: 0 <= i < |days| ==> days[i] == firstOfMonth - LeadingDays(firstOfMonth) + i
  {
    var lead := LeadingDays(firstOfMonth);
    seq(RoundUpToWeek(lead + lengthOfMonth), i => firstOfMonth - lead + i)
  }

  /** The `remember(month)` block that builds `daysInMonth`: leading days of
      the previous month, every day of the month, then trailing days until the
      length is a multiple of 7. */
  method BuildMonthGrid(firstOfMonth: int, lengthOfMonth: nat) returns (days: seq<int>)
    ensures days == MonthGrid(firstOfMonth, lengthOfMonth)
  {
    var lead := LeadingDays(firstOfMonth);
    days := [];
    for i := 0 to lead
      invariant |days| == i
      invariant forall j :: 0 <= j < i ==> days[j] == firstOfMonth - lead + j
    {
      days := days + [firstOfMonth - (lead - i)];
    }
    for day := 1 to lengthOfMonth + 1
      invariant |days| == lead + day - 1
      invariant forall j :: 0 <= j < |days| ==> days[j] == firstOfMonth - lead + j
    {
      days := days + [firstOfMonth + day - 1];
    }
    while |days| % 7 != 0
      invariant lead + lengthOfMonth <= |days| <= RoundUpToWeek(lead + lengthOfMonth)
      invariant forall j :: 0 <= j < |days| ==> days[j] == firstOfMonth - lead + j
      decreases RoundUpToWeek(lead + lengthOfMonth) - |days|
    {
      days := days + [days[|days| - 1] + 1];
    }
  }

  /** The grid is whole weeks and starts on a Monday, with exactly
      `LeadingDays` days before day 1. */
  lemma GridIsMondayAligned(firstOfMonth: int, lengthOfMonth: nat)
    requires lengthOfMonth >= 1
    ensures var days := MonthGrid(firstOfMonth, lengthOfMonth);
      && |days| % 7 == 0
      && |days| > LeadingDays(firstOfMonth)
      && DayOfWeek(days[0]) == 1
      && days[LeadingDays(firstOfMonth)] == firstOfMonth
      && forall i :: 0 <= i < LeadingDays(firstOfMonth) ==> days[i] < firstOfMonth
  {
  }

  /** Every day of the month appears in the grid exactly once, in order: day
      `n` sits at index `LeadingDays + n - 1` and nowhere else. */
  lemma GridHoldsEachDayOnce(firstOfMonth: int, lengthOfMonth: nat, n: int, i: int)
    requires 1 <= n <= lengthOfMonth
    requires 0 <= i < |MonthGrid(firstOfMonth, lengthOfMonth)|
    ensures LeadingDays(firstOfMonth) + n - 1 < |MonthGrid(firstOfMonth, lengthOfMonth)|
    ensures MonthGrid(firstOfMonth, lengthOfMonth)[i] == firstOfMonth + n - 1
            <==> i == LeadingDays(firstOfMonth) + n - 1
  {
  }

  /** `daysInMonth.chunked(7)`. */
  function Chunked(days: seq<int>): (weeks: seq<seq<int>>)
    requires |days| % 7 == 0
    ensures |weeks| == |days| / 7
    ensures forall w :: 0 <= w < |weeks| ==> weeks[w] == days[7 * w .. 7 * w + 7]
    decreases |days|
  {
    if days == [] then [] else [days[..7]] + Chunked(days[7..])
  }

  /** Seven consecutive dates. */
  predicate IsWeek(week: seq<int>) {
    |week| == 7 && forall i :: 0 <= i < 7 ==> week[i] == week[0] + i
  }

  /** A month of 28 to 31 days fills 4 to 6 weeks, and each of them is seven
      consecutive dates from a Monday to a Sunday. */
  lemma {:induction false} MonthWeeks(firstOfMonth: int, lengthOfMonth: nat)
    requires 28 <= lengthOfMonth <= 31
    ensures |MonthGrid(firstOfMonth, lengthOfMonth)| % 7 == 0
    ensures var weeks := Chunked(MonthGrid(firstOfMonth, lengthOfMonth));
      && 4 <= |weeks| <= 6
      && forall w :: 0 <= w < |weeks| ==> IsWeek(weeks[w]) && DayOfWeek(weeks[w][0]) == 1
  {
    var days := MonthGrid(firstOfMonth, lengthOfMonth);
    var lead := LeadingDays(firstOfMonth);
    assert 28 <= |days| <= 42;
    var weeks := Chunked(days);
    forall w | 0 <= w < |weeks|
      ensures IsWeek(weeks[w]) && DayOfWeek(weeks[w][0]) == 1
    {
      assert weeks[w][0] == firstOfMonth - lead + 7 * w;
      assert DayOfWeek(firstOfMonth - lead) == 1;
      assert (firstOfMonth - lead + 7 * w + 3) % 7 == (firstOfMonth - lead + 3) % 7;
    }
  }

  // ---------------------------------------------------------------------------
  // Which events a week shows
  // ---------------------------------------------------------------------------

  /** The first and last date of an event (`startDate.toLocalDate()`,
      `endDate.toLocalDate()`), as epoch days. */
  datatype DateSpan = DateSpan(start: int, end: int)

  /** `dayOf` is `toLocalDate` under the device's time zone. */
  function SpanOf(e: Event, dayOf: int -> int): (span: DateSpan)
    ensures span.start == dayOf(e.startDate) && span.end == dayOf(e.endDate)
  {
    DateSpan(dayOf(e.startDate), dayOf(e.endDate))
  }

  /** The week filter: the event does not start after the week's last day and
      does not end before its first day. */
  predicate Touches(span: DateSpan, week: seq<int>)
    requires |week| >= 1
  {
    span.start <= week[|week| - 1] && span.end >= week[0]
  }

  /** For a week of consecutive dates and an event that does not end before
      it starts, the week filter keeps the event exactly when it runs on one
      of the week's dates. */
  lemma TouchesIffRunsInWeek(span: DateSpan, week: seq<int>)
    requires IsWeek(week) && span.start <= span.end
    ensures Touches(span, week) <==> exists d :: 0 <= d < 7 && span.start <= week[d] <= span.end
  {
    if Touches(span, week) {
      var first := if span.start >= week[0] then span.start else week[0];
      assert span.start <= week[first - week[0]] <= span.end;
    }
  }

  /** `events.filter { … }` with the week filter, in list order. */
  function WeekEvents(events: seq<Event>, week: seq<int>, dayOf: int -> int): (r: seq<Event>)
    requires |week| >= 1
    ensures IsSubsequence(r, events)
    ensures forall e :: e in r <==> e in events && Touches(SpanOf(e, dayOf), week)
    ensures forall e :: multiset(r)[e] == if Touches(SpanOf(e, dayOf), week) then multiset(events)[e] else 0
  {
    if events == [] then []
    else
      var rest := WeekEvents(events[1..], week, dayOf);
      assert forall e :: e in events <==> e == events[0] || e in events[1..];
      assert multiset(events) == multiset{events[0]} + multiset(events[1..]) by {
        assert events == [events[0]] + events[1..];
      }
      assert multiset([events[0]] + rest) == multiset{events[0]} + multiset(rest);
      if Touches(SpanOf(events[0], dayOf), week) then [events[0]] + rest else rest
  }

  // ---------------------------------------------------------------------------
  // Row packing
  // ---------------------------------------------------------------------------

  const MaxVisibleRows := 3
  const MaxSlotsPerDayVisible := 3
  const MaxRenderSlots := MaxSlotsPerDayVisible + 1

  /** `List.indexOf`: the first position of x, or -1. */
  function IndexOf(s: seq<int>, x: int): (r: int)
    ensures -1 <= r < |s|
    ensures r >= 0 ==> s[r] == x && forall j :: 0 <= j < r ==> s[j] != x
    ensures r == -1 ==> x !in s
  {
    if s == [] then -1
    else if s[0] == x then 0
    else
      var i := IndexOf(s[1..], x);
      if i == -1 then -1 else i + 1
  }

  /** The column indices an event occupies in a week, both inclusive; empty
      when lo > hi. */
  datatype Cells = Cells(lo: int, hi: int)

  predicate Covers(c: Cells, d: int) {
    c.lo <= d <= c.hi
  }

  /** `week.indexOf(maxOf(start, week.first())).takeIf { it >= 0 } ?: 0` and
      `week.indexOf(minOf(end, week.last())).takeIf { it >= 0 } ?: 6`. */
  function CellsOf(week: seq<int>, span: DateSpan): (c: Cells)
    requires |week| == 7
    ensures 0 <= c.lo <= 6 && 0 <= c.hi <= 6
  {
    var first := week[0];
    var last := week[6];
    var overlapStart := if span.start >= first then span.start else first;
    var overlapEnd := if span.end <= last then span.end else last;
    var s := IndexOf(week, overlapStart);
    var e := IndexOf(week, overlapEnd);
    Cells(if s >= 0 then s else 0, if e >= 0 then e else 6)
  }

  function AllCells(week: seq<int>, spans: seq<DateSpan>): (cs: seq<Cells>)
    requires |week| == 7
    ensures |cs| == |spans|
    ensures forall k :: 0 <= k < |spans| ==> cs[k] == CellsOf(week, spans[k])
  {
    seq(|spans|, k requires 0 <= k < |spans| => CellsOf(week, spans[k]))
  }

  /** For an event with start <= end that touches a week of consecutive dates,
      the clamped indices satisfy 0 <= lo <= hi <= 6, and column d is covered
      exactly when the event runs on that date. */
  lemma CellsOfTouchingEvent(week: seq<int>, span: DateSpan)
    requires IsWeek(week) && Touches(span, week) && span.start <= span.end
    ensures var c := CellsOf(week, span);
      && 0 <= c.lo <= c.hi <= 6
      && forall d :: 0 <= d < 7 ==> (Covers(c, d) <==> span.start <= week[d] <= span.end)
  {
    var first := week[0];
    var overlapStart := if span.start >= first then span.start else first;
    var overlapEnd := if span.end <= week[6] then span.end else week[6];
    IndexOfInWeek(week, overlapStart);
    IndexOfInWeek(week, overlapEnd);
  }

  lemma IndexOfInWeek(week: seq<int>, x: int)
    requires IsWeek(week) && week[0] <= x <= week[0] + 6
    ensures IndexOf(week, x) == x - week[0]
  {
    assert week[x - week[0]] == x;
  }

  /** Events of `placed` (a prefix of the week's events, with their rows) that
      sit in `row` on day column d. */
  predicate Taken(cs: seq<Cells>, placed: seq<int>, d: int, row: int)
    requires |placed| <= |cs|
  {
    exists j :: 0 <= j < |placed| && placed[j] == row && Covers(cs[j], d)
  }

  /** Some day column of c already holds an event of `placed` in `row`. */
  predicate RowBlocked(cs: seq<Cells>, placed: seq<int>, c: Cells, row: int)
    requires |placed| <= |cs|
  {
    exists d :: c.lo <= d <= c.hi && Taken(cs, placed, d, row)
  }

  /** Event k got the lowest row below 3 that is free on every day it spans,
      given the events before it, or else the overflow row 3. */
  predicate FirstFit(cs: seq<Cells>, slots: seq<int>, k: int)
    requires 0 <= k < |slots| <= |cs|
  {
    var before := slots[..k];
    var c := cs[k];
    && 0 <= slots[k] <= MaxVisibleRows
    && (forall row :: 0 <= row < slots[k] ==> RowBlocked(cs, before, c, row))
    && (slots[k] < MaxVisibleRows ==> forall d :: c.lo <= d <= c.hi ==> !Taken(cs, before, d, slots[k]))
  }

  /** How many of the events cover day column d. */
  function CoverCount(cs: seq<Cells>, d: int): (n: nat)
    ensures n <= |cs|
  {
    if cs == [] then 0
    else CoverCount(cs[..|cs| - 1], d) + (if Covers(cs[|cs| - 1], d) then 1 else 0)
  }

  /** The spans of a list of events, in list order. */
  function SpansOf(events: seq<Event>, dayOf: int -> int): (spans: seq<DateSpan>)
    ensures |spans| == |events|
    ensures forall k :: 0 <= k < |events| ==> spans[k] == SpanOf(events[k], dayOf)
  {
    seq(|events|, k requires 0 <= k < |events| => SpanOf(events[k], dayOf))
  }

  /** For events that each touch the week, the columns an event's cells
      cover are exactly the dates of the week it runs on (when it does not
      end before it starts). */
  lemma WeekCellsAreRunDays(week: seq<int>, weekEvents: seq<Event>, dayOf: int -> int)
    requires IsWeek(week)
    requires forall e :: e in weekEvents ==> Touches(SpanOf(e, dayOf), week)
    ensures var cs := AllCells(week, SpansOf(weekEvents, dayOf));
      forall k, d :: 0 <= k < |weekEvents| && 0 <= d < 7 && dayOf(weekEvents[k].startDate) <= dayOf(weekEvents[k].endDate) ==>
        (Covers(cs[k], d) <==> dayOf(weekEvents[k].startDate) <= week[d] <= dayOf(weekEvents[k].endDate))
  {
    var cs := AllCells(week, SpansOf(weekEvents, dayOf));
    forall k, d | 0 <= k < |weekEvents| && 0 <= d < 7 && dayOf(weekEvents[k].startDate) <= dayOf(weekEvents[k].endDate)
      ensures Covers(cs[k], d) <==> dayOf(weekEvents[k].startDate) <= week[d] <= dayOf(weekEvents[k].endDate)
    {
      assert weekEvents[k] in weekEvents;
      CellsOfTouchingEvent(week, SpanOf(weekEvents[k], dayOf));
    }
  }

  /** One week row of the grid: the week filter, then the packing loop over
      the filtered events in list order. Each event gets the first free row
      over its columns, `usedSlotCount` counts the events on each column,
      and those columns are the dates of the week the event runs on. */
  method LayOutWeek(events: seq<Event>, week: seq<int>, dayOf: int -> int)
    returns (weekEvents: seq<Event>, slots: seq<int>, usedSlotCount: seq<int>)
    requires IsWeek(week)
    ensures IsSubsequence(weekEvents, events)
    ensures forall e :: e in weekEvents <==> e in events && Touches(SpanOf(e, dayOf), week)
    ensures |slots| == |weekEvents| && |usedSlotCount| == 7
    ensures var cs := AllCells(week, SpansOf(weekEvents, dayOf));
      && (forall k :: 0 <= k < |weekEvents| ==> FirstFit(cs, slots, k))
      && (forall d :: 0 <= d < 7 ==> usedSlotCount[d] == CoverCount(cs, d))
      && (forall k, d :: 0 <= k < |weekEvents| && 0 <= d < 7 && dayOf(weekEvents[k].startDate) <= dayOf(weekEvents[k].endDate) ==>
            (Covers(cs[k], d) <==> dayOf(weekEvents[k].startDate) <= week[d] <= dayOf(weekEvents[k].endDate)))
  {
    weekEvents := WeekEvents(events, week, dayOf);
    slots, usedSlotCount := PlaceWeekEvents(week, SpansOf(weekEvents, dayOf));
    WeekCellsAreRunDays(week, weekEvents, dayOf);
  }

  /** `(startIndex..endIndex).any { occupied[it][slot] }`. */
  predicate RowBusy(occupied: array2<bool>, lo: int, hi: int, slot: int)
    requires occupied.Length0 == 7 && 0 <= slot < occupied.Length1
    requires 0 <= lo && hi < 7
    reads occupied
  {
    exists i :: lo <= i <= hi && occupied[i, slot]
  }

  /** The packing loop of one week: `weekSpans` are the spans of the week's
      events in list order. Returns each event's row and `usedSlotCount`. */
  method PlaceWeekEvents(week: seq<int>, weekSpans: seq<DateSpan>) returns (slots: seq<int>, usedSlotCount: seq<int>)
    requires |week| == 7
    ensures |slots| == |weekSpans| && |usedSlotCount| == 7
    ensures forall k :: 0 <= k < |weekSpans| ==> FirstFit(AllCells(week, weekSpans), slots, k)
    ensures forall d :: 0 <= d < 7 ==> usedSlotCount[d] == CoverCount(AllCells(week, weekSpans), d)
  {
    var occupied := new bool[7, MaxRenderSlots]((_, _) => false);
    var used := new int[7](_ => 0);
    ghost var cs := AllCells(week, weekSpans);
    slots := [];
    var k := 0;
    while k < |weekSpans|
      invariant 0 <= k <= |weekSpans| && |slots| == k
      invariant forall j :: 0 <= j < k ==> FirstFit(cs, slots, j)
      invariant forall d, row :: 0 <= d < 7 && 0 <= row < MaxRenderSlots ==>
                  (occupied[d, row] <==> Taken(cs, slots, d, row))
      invariant forall d :: 0 <= d < 7 ==> used[d] == CoverCount(cs[..k], d)
    {
      var c := CellsOf(week, weekSpans[k]);
      assert cs[k] == c;
      var slot := FindSlot(occupied, c.lo, c.hi);
      PlacementIsFirstFit(cs, slots, slot, occupied, c.lo, c.hi);
      MarkRow(occupied, used, c.lo, c.hi, slot);
      TakenAfterPlacing(cs, slots, slot);
      FirstFitKept(cs, slots, slot);
      forall d | 0 <= d < 7
        ensures used[d] == CoverCount(cs[..k + 1], d)
      {
        CoverCountSnoc(cs, k, d);
      }
      slots := slots + [slot];
      k := k + 1;
    }
    assert cs[..k] == cs;
    usedSlotCount := used[..];
  }

  /** The search loop: the lowest row below 3 with no occupied cell in
      columns lo..hi, or 3 when every such row is busy. */
  method FindSlot(occupied: array2<bool>, lo: int, hi: int) returns (slot: int)
    requires occupied.Length0 == 7 && occupied.Length1 == MaxRenderSlots
    requires 0 <= lo && hi < 7
    ensures 0 <= slot <= MaxVisibleRows
    ensures forall row :: 0 <= row < slot ==> RowBusy(occupied, lo, hi, row)
    ensures slot < MaxVisibleRows ==> !RowBusy(occupied, lo, hi, slot)
  {
    slot := 0;
    while slot < MaxVisibleRows && RowBusy(occupied, lo, hi, slot)
      invariant 0 <= slot <= MaxVisibleRows
      invariant forall row :: 0 <= row < slot ==> RowBusy(occupied, lo, hi, row)
    {
      slot := slot + 1;
    }
  }

  /** The marking loop: columns lo..hi of `slot` become occupied and their
      counts go up by one; every other cell and count is unchanged. */
  method MarkRow(occupied: array2<bool>, used: array<int>, lo: int, hi: int, slot: int)
    requires occupied.Length0 == 7 && occupied.Length1 == MaxRenderSlots && used.Length == 7
    requires 0 <= lo && hi < 7 && 0 <= slot < MaxRenderSlots
    modifies occupied, used
    ensures forall d, row :: 0 <= d < 7 && 0 <= row < MaxRenderSlots ==>
              occupied[d, row] == (old(occupied[d, row]) || (row == slot && lo <= d <= hi))
    ensures forall d :: 0 <= d < 7 ==> used[d] == old(used[d]) + (if lo <= d <= hi then 1 else 0)
  {
    var i := lo;
    while i <= hi
      invariant lo <= i && (i <= hi + 1 || i == lo)
      invariant forall d, row :: 0 <= d < 7 && 0 <= row < MaxRenderSlots ==>
                  occupied[d, row] == (old(occupied[d, row]) || (row == slot && lo <= d < i))
      invariant forall d :: 0 <= d < 7 ==> used[d] == old(used[d]) + (if lo <= d < i then 1 else 0)
    {
      occupied[i, slot] := true;
      used[i] := used[i] + 1;
      i := i + 1;
    }
  }

  /** Counting one more event adds one exactly on the columns it covers. */
  lemma CoverCountSnoc(cs: seq<Cells>, k: int, d: int)
    requires 0 <= k < |cs|
    ensures CoverCount(cs[..k + 1], d) == CoverCount(cs[..k], d) + (if Covers(cs[k], d) then 1 else 0)
  {
    assert cs[..k + 1][..k] == cs[..k];
  }

  /** The row chosen by the search loop satisfies FirstFit. */
  lemma PlacementIsFirstFit(cs: seq<Cells>, slots: seq<int>, slot: int, occupied: array2<bool>, lo: int, hi: int)
    requires |slots| < |cs| && cs[|slots|] == Cells(lo, hi)
    requires 0 <= lo <= 6 && 0 <= hi <= 6
    requires occupied.Length0 == 7 && occupied.Length1 == MaxRenderSlots
    requires 0 <= slot <= MaxVisibleRows
    requires forall d, row :: 0 <= d < 7 && 0 <= row < MaxRenderSlots ==>
               (occupied[d, row] <==> Taken(cs, slots, d, row))
    requires forall row :: 0 <= row < slot ==> RowBusy(occupied, lo, hi, row)
    requires slot < MaxVisibleRows ==> !RowBusy(occupied, lo, hi, slot)
    ensures FirstFit(cs, slots + [slot], |slots|)
  {
    var k := |slots|;
    var s' := slots + [slot];
    assert s'[..k] == slots;
    forall row | 0 <= row < slot
      ensures RowBlocked(cs, slots, cs[k], row)
    {
      assert RowBusy(occupied, lo, hi, row);
      var d :| lo <= d <= hi && occupied[d, row];
      assert Taken(cs, slots, d, row);
    }
  }

  lemma TakenAfterPlacing(cs: seq<Cells>, slots: seq<int>, slot: int)
    requires |slots| < |cs|
    ensures forall d, row :: Taken(cs, slots + [slot], d, row) <==>
              Taken(cs, slots, d, row) || (row == slot && Covers(cs[|slots|], d))
  {
    var s' := slots + [slot];
    forall d, row
      ensures Taken(cs, s', d, row) <==> Taken(cs, slots, d, row) || (row == slot && Covers(cs[|slots|], d))
    {
      if Taken(cs, slots, d, row) {
        var j :| 0 <= j < |slots| && slots[j] == row && Covers(cs[j], d);
        assert s'[j] == row;
      }
      if row == slot && Covers(cs[|slots|], d) {
        assert s'[|slots|] == row;
      }
    }
  }

  lemma FirstFitKept(cs: seq<Cells>, slots: seq<int>, slot: int)
    requires |slots| < |cs|
    requires forall j :: 0 <= j < |slots| ==> FirstFit(cs, slots, j)
    ensures forall j :: 0 <= j < |slots| ==> FirstFit(cs, slots + [slot], j)
  {
    var s' := slots + [slot];
    forall j | 0 <= j < |slots|
      ensures FirstFit(cs, s', j)
    {
      assert FirstFit(cs, slots, j);
      assert s'[..j] == slots[..j];
      assert s'[j] == slots[j];
    }
  }

  /** Two events placed in the same visible row of a week never share a day. */
  lemma {:induction false} SameVisibleRowDisjoint(cs: seq<Cells>, slots: seq<int>, j: int, k: int, d: int)
    requires |slots| == |cs|
    requires forall m :: 0 <= m < |slots| ==> FirstFit(cs, slots, m)
    requires 0 <= j < k < |slots| && slots[j] == slots[k] < MaxVisibleRows
    ensures !(Covers(cs[j], d) && Covers(cs[k], d))
  {
    if Covers(cs[j], d) && Covers(cs[k], d) {
      assert FirstFit(cs, slots, k);
      assert slots[..k][j] == slots[j];
      assert Taken(cs, slots[..k], d, slots[k]);
      assert false;
    }
  }

  // ---------------------------------------------------------------------------
  // The "+N" badge
  // ---------------------------------------------------------------------------

  /** The badge under a day as written: `"+$moreCount"` with
      `moreCount = totalUsed - 3`, shown only when `totalUsed > 3`. */
  function OverflowBadge(totalUsed: int): (badge: Option<int>)
    ensures badge.Some? <==> totalUsed > MaxSlotsPerDayVisible
    ensures badge.Some? ==> badge.value == totalUsed - MaxSlotsPerDayVisible && badge.value >= 1
  {
    if totalUsed > MaxSlotsPerDayVisible then Some(totalUsed - MaxSlotsPerDayVisible) else None
  }

  /** Among the first n events, how many sit in `row` on day column d. */
  function RowCount(cs: seq<Cells>, slots: seq<int>, n: nat, d: int, row: int): (c: nat)
    requires n <= |slots| <= |cs|
    ensures c <= n
  {
    if n == 0 then 0
    else RowCount(cs, slots, n - 1, d, row) + (if slots[n - 1] == row && Covers(cs[n - 1], d) then 1 else 0)
  }

  /** Among the first n events, how many cover day column d in a visible row. */
  function VisibleCount(cs: seq<Cells>, slots: seq<int>, n: nat, d: int): (c: nat)
    requires n <= |slots| <= |cs|
    ensures c <= n
  {
    if n == 0 then 0
    else VisibleCount(cs, slots, n - 1, d) + (if slots[n - 1] < MaxVisibleRows && Covers(cs[n - 1], d) then 1 else 0)
  }

  /** Among the first n events, how many cover day column d but sit in the
      overflow row, so that nothing of them is drawn. */
  function HiddenCount(cs: seq<Cells>, slots: seq<int>, n: nat, d: int): (c: nat)
    requires n <= |slots| <= |cs|
    ensures c <= n
  {
    if n == 0 then 0
    else HiddenCount(cs, slots, n - 1, d) + (if slots[n - 1] >= MaxVisibleRows && Covers(cs[n - 1], d) then 1 else 0)
  }

  lemma {:induction false} VisiblePlusHidden(cs: seq<Cells>, slots: seq<int>, n: nat, d: int)
    requires n <= |slots| <= |cs|
    ensures VisibleCount(cs, slots, n, d) + HiddenCount(cs, slots, n, d) == CoverCount(cs[..n], d)
  {
    if n > 0 {
      VisiblePlusHidden(cs, slots, n - 1, d);
      assert cs[..n][..n - 1] == cs[..n - 1];
    }
  }

  /** First fit never stacks two events in one visible row of one day. */
  lemma {:induction false} RowHoldsAtMostOne(cs: seq<Cells>, slots: seq<int>, n: nat, d: int, row: int)
    requires n <= |slots| <= |cs|
    requires forall m :: 0 <= m < |slots| ==> FirstFit(cs, slots, m)
    requires 0 <= row < MaxVisibleRows
    ensures RowCount(cs, slots, n, d, row) <= 1
  {
    if n > 0 {
      RowHoldsAtMostOne(cs, slots, n - 1, d, row);
      if slots[n - 1] == row && Covers(cs[n - 1], d) {
        assert FirstFit(cs, slots, n - 1);
        assert !Taken(cs, slots[..n - 1], d, row);
        NoneTakenMeansZero(cs, slots, n - 1, d, row);
      }
    }
  }

  lemma {:induction false} NoneTakenMeansZero(cs: seq<Cells>, slots: seq<int>, n: nat, d: int, row: int)
    requires n <= |slots| <= |cs|
    requires !Taken(cs, slots[..n], d, row)
    ensures RowCount(cs, slots, n, d, row) == 0
  {
    if n > 0 {
      assert slots[..n][n - 1] == slots[n - 1];
      assert !(slots[n - 1] == row && Covers(cs[n - 1], d));
      assert forall j :: 0 <= j < n - 1 ==> slots[..n - 1][j] == slots[..n][j];
      NoneTakenMeansZero(cs, slots, n - 1, d, row);
    }
  }

  lemma {:induction false} VisibleIsRowSum(cs: seq<Cells>, slots: seq<int>, n: nat, d: int)
    requires n <= |slots| <= |cs|
    requires forall m :: 0 <= m < |slots| ==> 0 <= slots[m]
    ensures VisibleCount(cs, slots, n, d)
            == RowCount(cs, slots, n, d, 0) + RowCount(cs, slots, n, d, 1) + RowCount(cs, slots, n, d, 2)
  {
    if n > 0 {
      VisibleIsRowSum(cs, slots, n - 1, d);
    }
  }

  /** At most three events are drawn on any day of a week. */
  lemma AtMostThreeVisible(cs: seq<Cells>, slots: seq<int>, d: int)
    requires |slots| == |cs|
    requires forall m :: 0 <= m < |slots| ==> FirstFit(cs, slots, m)
    ensures VisibleCount(cs, slots, |slots|, d) <= MaxVisibleRows
  {
    forall m | 0 <= m < |slots|
      ensures 0 <= slots[m]
    {
      assert FirstFit(cs, slots, m);
    }
    VisibleIsRowSum(cs, slots, |slots|, d);
    RowHoldsAtMostOne(cs, slots, |slots|, d, 0);
    RowHoldsAtMostOne(cs, slots, |slots|, d, 1);
    RowHoldsAtMostOne(cs, slots, |slots|, d, 2);
  }

  /** The as-written badge never claims more hidden events than there are:
      when it shows N, at least N events of that day sit in the overflow row. */
  lemma BadgeNeverOverstates(cs: seq<Cells>, slots: seq<int>, d: int)
    requires |slots| == |cs|
    requires forall m :: 0 <= m < |slots| ==> FirstFit(cs, slots, m)
    ensures OverflowBadge(CoverCount(cs, d)).Some? ==>
              OverflowBadge(CoverCount(cs, d)).value <= HiddenCount(cs, slots, |slots|, d)
  {
    AtMostThreeVisible(cs, slots, d);
    VisiblePlusHidden(cs, slots, |slots|, d);
    assert cs[..|slots|] == cs;
  }

  /** A week of 1..7 (any seven consecutive days would do) with three
      one-day events on its Monday and one Monday-to-Tuesday event. */
  const ExampleWeek: seq<int> := [1, 2, 3, 4, 5, 6, 7]
  const ExampleSpans: seq<DateSpan> := [DateSpan(1, 1), DateSpan(1, 1), DateSpan(1, 1), DateSpan(1, 2)]

  /** The example week's events occupy Monday three times and Monday to
      Tuesday once. */
  lemma ExampleCells()
    ensures AllCells(ExampleWeek, ExampleSpans) == [Cells(0, 0), Cells(0, 0), Cells(0, 0), Cells(0, 1)]
  {
    assert IsWeek(ExampleWeek);
    CellsOfTouchingEvent(ExampleWeek, DateSpan(1, 1));
    CellsOfTouchingEvent(ExampleWeek, DateSpan(1, 2));
  }

  /** As written, the badge can miss a hidden event: in the example week the
      Monday-to-Tuesday event lands in the overflow row (Monday's three rows
      are full), so nothing of it is drawn on Tuesday, yet Tuesday's count is 1
      and Tuesday shows no badge. */
  lemma BadgeMissesHiddenEvent(slots: seq<int>)
    requires |slots| == 4
    requires forall k :: 0 <= k < 4 ==> FirstFit(AllCells(ExampleWeek, ExampleSpans), slots, k)
    ensures HiddenCount(AllCells(ExampleWeek, ExampleSpans), slots, 4, 1) == 1
    ensures OverflowBadge(CoverCount(AllCells(ExampleWeek, ExampleSpans), 1)) == None
  {
    ExampleCells();
    ExampleSlots(AllCells(ExampleWeek, ExampleSpans), slots);
    ExampleCounts(AllCells(ExampleWeek, ExampleSpans), slots);
  }

  lemma ExampleCounts(cs: seq<Cells>, slots: seq<int>)
    requires cs == [Cells(0, 0), Cells(0, 0), Cells(0, 0), Cells(0, 1)]
    requires slots == [0, 1, 2, 3]
    ensures HiddenCount(cs, slots, 4, 1) == 1 && CoverCount(cs, 1) == 1
  {
    assert HiddenCount(cs, slots, 1, 1) == 0;
    assert HiddenCount(cs, slots, 2, 1) == 0;
    assert HiddenCount(cs, slots, 3, 1) == 0;
    var c3 := cs[..3];
    assert c3[..2][..1][..0] == [];
    assert CoverCount(c3[..2][..1], 1) == 0;
    assert CoverCount(c3[..2], 1) == 0;
    assert CoverCount(c3, 1) == 0;
    assert cs[..|cs| - 1] == c3;
  }

  lemma ExampleSlots(cs: seq<Cells>, slots: seq<int>)
    requires cs == [Cells(0, 0), Cells(0, 0), Cells(0, 0), Cells(0, 1)]
    requires |slots| == 4
    requires forall k :: 0 <= k < 4 ==> FirstFit(cs, slots, k)
    ensures slots == [0, 1, 2, 3]
  {
    assert FirstFit(cs, slots, 0);
    assert !RowBlocked(cs, slots[..0], cs[0], 0);
    assert FirstFit(cs, slots, 1);
    assert slots[..1][0] == 0;
    assert Taken(cs, slots[..1], 0, 0);
    assert !RowBlocked(cs, slots[..1], cs[1], 1);
    assert FirstFit(cs, slots, 2);
    assert slots[..2][0] == 0 && slots[..2][1] == 1;
    assert Taken(cs, slots[..2], 0, 0) && Taken(cs, slots[..2], 0, 1);
    assert !RowBlocked(cs, slots[..2], cs[2], 2);
    assert FirstFit(cs, slots, 3);
    assert slots[..3][0] == 0 && slots[..3][1] == 1 && slots[..3][2] == 2;
    assert Taken(cs, slots[..3], 0, 0) && Taken(cs, slots[..3], 0, 1) && Taken(cs, slots[..3], 0, 2);
  }

  /** The badge as evidently intended: the number of events covering the day
      that sit in the overflow row, shown when there is at least one. */
  function HiddenBadge(cs: seq<Cells>, slots: seq<int>, d: int): (badge: Option<int>)
    requires |slots| <= |cs|
    ensures badge.Some? ==> badge.value >= 1
  {
    var hidden := HiddenCount(cs, slots, |slots|, d);
    if hidden > 0 then Some(hidden) else None
  }

  /** With the corrected badge every event of the day is accounted for: it is
      drawn in a visible row or counted in the badge. */
  lemma HiddenBadgeAccountsForEveryEvent(cs: seq<Cells>, slots: seq<int>, d: int)
    requires |slots| == |cs|
    ensures VisibleCount(cs, slots, |slots|, d) + HiddenBadge(cs, slots, d).GetOr(0) == CoverCount(cs, d)
  {
    VisiblePlusHidden(cs, slots, |slots|, d);
    assert cs[..|slots|] == cs;
  }
}
