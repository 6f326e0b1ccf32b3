/**
 * The filter popover: the badge count of active filters, the today / this
 * week / this month quick ranges, and the popover's local form state with its
 * confirm action.
 */
module FilterBar {
  import opened Common
  import opened JsDate
  import opened DateUtils

  /** The optional quick-filter selector: "7days" | "month" | "all". */
  datatype QuickFilter = SevenDays | ThisMonth | All

  /** The props the counts are computed from; optional props are `None` when not passed. */
  datatype FilterProps = FilterProps(
    searchValue: string,
    statusValue: Option<string>,
    dateFrom: Option<string>,
    dateTo: Option<string>,
    activeQuickFilter: Option<QuickFilter>)

  /** JavaScript truthiness of an optional string. */
  predicate Truthy(s: Option<string>)
  {
    s.Some? && s.value != ""
  }

  /** `activeQuickFilter && activeQuickFilter !== "all"`. */
  predicate QuickFilterActive(q: Option<QuickFilter>)
  {
    q.Some? && q.value != All
  }

  /** The five candidate filters of the badge, each as its truthiness. */
  function FilterFlags(p: FilterProps): seq<bool>
  {
    [p.searchValue != "", Truthy(p.statusValue), Truthy(p.dateFrom), Truthy(p.dateTo),
     QuickFilterActive(p.activeQuickFilter)]
  }

  /** `anyFilterActive`: whether the badge is shown, i.e. some candidate filter is truthy. */
  predicate AnyFilterActive(p: FilterProps): (b: bool)
    ensures b <==> true in FilterFlags(p)
  {
    p.searchValue != "" || Truthy(p.statusValue) || Truthy(p.dateFrom) || Truthy(p.dateTo)
    || QuickFilterActive(p.activeQuickFilter)
  }

  /** `activeFilterCount`: the five candidate filters, keeping the truthy ones. */
  function ActiveFilterCount(p: FilterProps): (n: nat)
    ensures n <= 5
    ensures n == 0 <==> true !in FilterFlags(p)
  {
    CountTrue(FilterFlags(p))
  }

  /** The badge shows exactly when the count is positive; the count is at most 5. */
  lemma CountMatchesBadge(p: FilterProps)
    ensures AnyFilterActive(p) <==> ActiveFilterCount(p) > 0
    ensures ActiveFilterCount(p) <= 5
  {
    var flags := FilterFlags(p);
    if p.searchValue != "" {
      assert flags[0];
    } else if Truthy(p.statusValue) {
      assert flags[1];
    } else if Truthy(p.dateFrom) {
      assert flags[2];
    } else if Truthy(p.dateTo) {
      assert flags[3];
    } else if QuickFilterActive(p.activeQuickFilter) {
      assert flags[4];
    }
  }

  /** A quick filter of "all" counts the same as no quick filter at all. */
  lemma AllQuickFilterCountsNothing(p: FilterProps)
    ensures ActiveFilterCount(p.(activeQuickFilter := Some(All))) == ActiveFilterCount(p.(activeQuickFilter := None))
    ensures AnyFilterActive(p.(activeQuickFilter := Some(All))) == AnyFilterActive(p.(activeQuickFilter := None))
  {
  }

  /** The reset button's `disabled` attribute. */
  predicate ResetDisabled(p: FilterProps)
  {
    ActiveFilterCount(p) == 0
  }

  /** The reset button is disabled exactly when no filter is active. */
  lemma ResetDisabledIffNoFilter(p: FilterProps)
    ensures ResetDisabled(p) <==> !AnyFilterActive(p)
  {
    CountMatchesBadge(p);
  }

  datatype RangeKind = Today | Week | Month

  /** Days back from the weekday `getDay()` to Monday. */
  function DiffToMonday(dayOfWeek: int): (r: int)
    ensures 0 <= dayOfWeek < 7 ==> 0 <= r <= 6 && (dayOfWeek - r + 7) % 7 == 1
  {
    if dayOfWeek == 0 then 6 else dayOfWeek - 1
  }

  /** Days forward from the weekday `getDay()` to Sunday. */
  function DiffToSunday(dayOfWeek: int): (r: int)
    ensures 0 <= dayOfWeek < 7 ==> 0 <= r <= 6 && (dayOfWeek + r) % 7 == 0
  {
    if dayOfWeek == 0 then 0 else 7 - dayOfWeek
  }

  /** For every weekday the two distances add up to a whole Monday-to-Sunday week. */
  lemma WeekDiffsSpanSixDays(dayOfWeek: int)
    requires 0 <= dayOfWeek < 7
    ensures DiffToMonday(dayOfWeek) + DiffToSunday(dayOfWeek) == 6
    ensures 0 <= DiffToMonday(dayOfWeek) <= 6 && 0 <= DiffToSunday(dayOfWeek) <= 6
  {
  }

  /** Local midnight of the clock's day: `new Date(y, m, d)`. */
  function StartOfToday(now: JsDate): (r: JsDate)
    requires now.DateTime?
    ensures r.DateTime?
  {
    NewDate(now.year, now.month, now.day, 0, 0, 0)
  }

  /** Monday and Sunday of the week holding `start`, at `start`'s time of day. */
  function WeekAround(start: JsDate): (r: (JsDate, JsDate))
    requires start.DateTime?
    ensures r.0.DateTime? && r.1.DateTime?
  {
    var dayOfWeek := Weekday(start);
    (SetDate(start, start.day - DiffToMonday(dayOfWeek)), SetDate(start, start.day + DiffToSunday(dayOfWeek)))
  }

  /** The bounds a quick-range button computes from the clock reading `now`. */
  function QuickRange(kind: RangeKind, now: JsDate): (r: (JsDate, JsDate))
    requires now.DateTime?
    ensures r.0.DateTime? && r.1.DateTime?
  {
    var start := StartOfToday(now);
    match kind
    case Today => (start, start)
    case Week => WeekAround(start)
    case Month =>
      (NewDate(now.year, now.month, 1, 0, 0, 0), NewDate(now.year, now.month + 1, 0, 0, 0, 0))
  }

  /** "Today" runs from local midnight of today to the same instant. */
  lemma TodayRange(now: JsDate)
    requires now.DateTime? && now.year >= 100
    ensures QuickRange(Today, now).0 == DateTime(now.year, now.month, now.day, 0, 0, 0)
    ensures QuickRange(Today, now).1 == QuickRange(Today, now).0
  {
  }

  /** Stepping back to Monday and forward to Sunday lands on weekdays 1 and 0 of the day-number clock. */
  lemma WeekEnds(n: int)
    ensures (n - DiffToMonday((n + 4) % 7) + 4) % 7 == 1
    ensures (n + DiffToSunday((n + 4) % 7) + 4) % 7 == 0
  {
    var q, w := (n + 4) / 7, (n + 4) % 7;
    assert n + 4 == 7 * q + w;
    if w == 0 {
      assert n - DiffToMonday(w) + 4 == 7 * (q - 1) + 1;
    } else {
      assert n - DiffToMonday(w) + 4 == 7 * q + 1;
      assert n + DiffToSunday(w) + 4 == 7 * (q + 1);
    }
  }

  /** The week around a date runs from a Monday to the following Sunday and contains the date. */
  lemma WeekAroundBounds(start: JsDate)
    requires start.DateTime?
    ensures Weekday(WeekAround(start).0) == 1 && Weekday(WeekAround(start).1) == 0
    ensures DayOf(WeekAround(start).1) - DayOf(WeekAround(start).0) == 6
    ensures DayOf(WeekAround(start).0) <= DayOf(start) <= DayOf(WeekAround(start).1)
    ensures WeekAround(start).0.hours == start.hours && WeekAround(start).1.hours == start.hours
    ensures WeekAround(start).0.minutes == start.minutes && WeekAround(start).1.minutes == start.minutes
    ensures WeekAround(start).0.seconds == start.seconds && WeekAround(start).1.seconds == start.seconds
  {
    var n := DayOf(start);
    assert DayOf(WeekAround(start).0) == n - DiffToMonday((n + 4) % 7);
    assert DayOf(WeekAround(start).1) == n + DiffToSunday((n + 4) % 7);
    WeekEnds(n);
  }

  /** "This week" runs from the Monday to the Sunday of the week holding today, both at midnight. */
  lemma WeekRange(now: JsDate)
    requires now.DateTime?
    ensures Weekday(QuickRange(Week, now).0) == 1 && Weekday(QuickRange(Week, now).1) == 0
    ensures DayOf(QuickRange(Week, now).1) - DayOf(QuickRange(Week, now).0) == 6
    ensures DayOf(QuickRange(Week, now).0) <= DayOf(StartOfToday(now)) <= DayOf(QuickRange(Week, now).1)
    ensures QuickRange(Week, now).0.hours == 0 && QuickRange(Week, now).0.minutes == 0 && QuickRange(Week, now).0.seconds == 0
    ensures QuickRange(Week, now).1.hours == 0 && QuickRange(Week, now).1.minutes == 0 && QuickRange(Week, now).1.seconds == 0
  {
    WeekAroundBounds(StartOfToday(now));
  }

  /** "This month" runs from the first to the last day of the current month, both at midnight. */
  lemma MonthRange(now: JsDate)
    requires now.DateTime? && now.year >= 100
    ensures QuickRange(Month, now).0 == DateTime(now.year, now.month, 1, 0, 0, 0)
    ensures QuickRange(Month, now).1 == DateTime(now.year, now.month, DaysInMonth(now.year, now.month), 0, 0, 0)
  {
    var y, m := now.year, now.month;
    var to := QuickRange(Month, now).1;
    var last := DateTime(y, m, DaysInMonth(y, m), 0, 0, 0);
    NextMonthStart(y, m);
    assert DayOf(to) == DayOf(last);
    SameDayNumberSameDate(to, last);
  }

  /** Whether a quick-range button is highlighted: its formatted bounds equal the popover's local dates. */
  predicate IsRangeActive(kind: RangeKind, now: JsDate, localDateFrom: string, localDateTo: string): (b: bool)
    requires now.DateTime?
    ensures b && kind == Today ==> localDateFrom == localDateTo
    ensures b ==> localDateFrom != "" && localDateTo != ""
  {
    FormatLocalDate(QuickRange(kind, now).0) == localDateFrom && FormatLocalDate(QuickRange(kind, now).1) == localDateTo
  }

  /** Dates with non-negative years that format to the same text are the same day. */
  lemma FormatInjective(a: JsDate, b: JsDate)
    requires a.DateTime? && b.DateTime? && a.year >= 0 && b.year >= 0
    requires FormatLocalDate(a) == FormatLocalDate(b)
    ensures a.year == b.year && a.month == b.month && a.day == b.day
    ensures DayOf(a) == DayOf(b)
  {
    FormatSplits(a);
    FormatSplits(b);
    assert NatToString(a.year) == NatToString(b.year);
    assert TwoDigits(a.month + 1) == TwoDigits(b.month + 1);
    assert TwoDigits(a.day) == TwoDigits(b.day);
  }

  /** A date less than a week before a date of year 100 or later still has a non-negative year. */
  lemma NearbyYearNonNegative(d: JsDate, later: JsDate)
    requires d.DateTime? && later.DateTime? && later.year >= 100
    requires DayOf(later) - 6 <= DayOf(d)
    ensures d.year >= 0
  {
    if d.year < 0 {
      YearBounds(d);
      YearBounds(later);
      DaysBeforeYearMonotone(d.year + 1, later.year);
    }
  }

  /** Two ranges of different lengths never format to the same pair of bounds. */
  lemma DifferentLengthsDifferentText(from1: JsDate, to1: JsDate, from2: JsDate, to2: JsDate)
    requires from1.DateTime? && to1.DateTime? && from2.DateTime? && to2.DateTime?
    requires from1.year >= 0 && to1.year >= 0 && from2.year >= 0 && to2.year >= 0
    requires DayOf(to1) - DayOf(from1) != DayOf(to2) - DayOf(from2)
    ensures FormatLocalDate(from1) != FormatLocalDate(from2) || FormatLocalDate(to1) != FormatLocalDate(to2)
  {
    if FormatLocalDate(from1) == FormatLocalDate(from2) && FormatLocalDate(to1) == FormatLocalDate(to2) {
      FormatInjective(from1, from2);
      FormatInjective(to1, to2);
    }
  }

  /** "Today" and "this week" format to different bounds: the week's bounds are six days apart. */
  lemma TodayWeekExclusive(now: JsDate)
    requires now.DateTime? && now.year >= 100
    ensures FormatLocalDate(QuickRange(Today, now).0) != FormatLocalDate(QuickRange(Week, now).0)
         || FormatLocalDate(QuickRange(Today, now).1) != FormatLocalDate(QuickRange(Week, now).1)
  {
    var (tFrom, tTo) := QuickRange(Today, now);
    var (wFrom, wTo) := QuickRange(Week, now);
    TodayRange(now);
    WeekRange(now);
    NearbyYearNonNegative(wFrom, tFrom);
    NearbyYearNonNegative(wTo, tFrom);
    DifferentLengthsDifferentText(tFrom, tTo, wFrom, wTo);
  }

  /** "Today" and "this month" format to different bounds: a month has more than one day. */
  lemma TodayMonthExclusive(now: JsDate)
    requires now.DateTime? && now.year >= 100
    ensures FormatLocalDate(QuickRange(Today, now).0) != FormatLocalDate(QuickRange(Month, now).0)
         || FormatLocalDate(QuickRange(Today, now).1) != FormatLocalDate(QuickRange(Month, now).1)
  {
    var (tFrom, tTo) := QuickRange(Today, now);
    var (mFrom, mTo) := QuickRange(Month, now);
    TodayRange(now);
    MonthRange(now);
    DifferentLengthsDifferentText(tFrom, tTo, mFrom, mTo);
  }

  /** "This week" and "this month" format to different bounds: their lengths differ. */
  lemma WeekMonthExclusive(now: JsDate)
    requires now.DateTime? && now.year >= 100
    ensures FormatLocalDate(QuickRange(Week, now).0) != FormatLocalDate(QuickRange(Month, now).0)
         || FormatLocalDate(QuickRange(Week, now).1) != FormatLocalDate(QuickRange(Month, now).1)
  {
    var (wFrom, wTo) := QuickRange(Week, now);
    var (mFrom, mTo) := QuickRange(Month, now);
    WeekRange(now);
    MonthRange(now);
    var start := StartOfToday(now);
    NearbyYearNonNegative(wFrom, start);
    NearbyYearNonNegative(wTo, start);
    assert DayOf(wTo) - DayOf(wFrom) == 6;
    assert DayOf(mTo) - DayOf(mFrom) == DaysInMonth(now.year, now.month) - 1;
    DifferentLengthsDifferentText(wFrom, wTo, mFrom, mTo);
  }

  /** At most one of the three quick-range buttons is highlighted at a time. */
  lemma AtMostOneRangeActive(now: JsDate, localDateFrom: string, localDateTo: string, k1: RangeKind, k2: RangeKind)
    requires now.DateTime? && now.year >= 100
    requires IsRangeActive(k1, now, localDateFrom, localDateTo)
    requires IsRangeActive(k2, now, localDateFrom, localDateTo)
    ensures k1 == k2
  {
    TodayWeekExclusive(now);
    TodayMonthExclusive(now);
    WeekMonthExclusive(now);
  }

  /** Which optional callbacks the popover was given; `onSearchChange` is always given. */
  datatype Handlers = Handlers(onStatusChange: bool, onDateFromChange: bool, onDateToChange: bool)

  /** One callback invocation made by the popover. */
  datatype Callback =
    | SearchChanged(search: string)
    | StatusChanged(status: string)
    | DateFromChanged(dateFrom: string)
    | DateToChanged(dateTo: string)

  /** The popover's React state: open or closed, and the values being edited. */
  class FilterPopover {
    var open: bool
    var localSearch: string
    var localStatus: string
    var localDateFrom: string
    var localDateTo: string

    /** The `useState` initialisers. */
    constructor (p: FilterProps)
      ensures !open
      ensures localSearch == p.searchValue && localStatus == p.statusValue.GetOr("")
      ensures localDateFrom == p.dateFrom.GetOr("") && localDateTo == p.dateTo.GetOr("")
    {
      open := false;
      localSearch := p.searchValue;
      localStatus := p.statusValue.GetOr("");
      localDateFrom := p.dateFrom.GetOr("");
      localDateTo := p.dateTo.GetOr("");
    }

    /** The filter button: `setOpen(!open)`. */
    method ToggleOpen()
      modifies this`open
      ensures open == !old(open)
    {
      open := !open;
    }

    /** A mouse press outside both the popover and its button closes it; the form keeps its values. */
    method ClickOutside()
      modifies this`open
      ensures !open
    {
      open := false;
    }

    /** The effect that reloads the form from the props while the popover is open. */
    method SyncFromProps(p: FilterProps)
      modifies this`localSearch, this`localStatus, this`localDateFrom, this`localDateTo
      ensures !open ==> localSearch == old(localSearch) && localStatus == old(localStatus) &&
                        localDateFrom == old(localDateFrom) && localDateTo == old(localDateTo)
      ensures open ==> localSearch == p.searchValue && localStatus == p.statusValue.GetOr("") &&
                       localDateFrom == p.dateFrom.GetOr("") && localDateTo == p.dateTo.GetOr("")
    {
      if open {
        localSearch := p.searchValue;
        localStatus := p.statusValue.GetOr("");
        localDateFrom := p.dateFrom.GetOr("");
        localDateTo := p.dateTo.GetOr("");
      }
    }

    /** `applyQuickRange`: fills the local dates with the formatted bounds, which highlights that button. */
    method ApplyQuickRange(kind: RangeKind, now: JsDate)
      requires now.DateTime?
      modifies this`localDateFrom, this`localDateTo
      ensures IsRangeActive(kind, now, localDateFrom, localDateTo)
    {
      var range := QuickRange(kind, now);
      localDateFrom := FormatLocalDate(range.0);
      localDateTo := FormatLocalDate(range.1);
    }

    /** The confirm button: pushes the four local values to their callbacks, then closes. */
    method Confirm(handlers: Handlers) returns (calls: seq<Callback>)
      modifies this`open
      ensures !open
      ensures calls == [SearchChanged(localSearch)]
                       + (if handlers.onStatusChange then [StatusChanged(localStatus)] else [])
                       + (if handlers.onDateFromChange then [DateFromChanged(localDateFrom)] else [])
                       + (if handlers.onDateToChange then [DateToChanged(localDateTo)] else [])
    {
      calls := [SearchChanged(localSearch)];
      if handlers.onStatusChange {
        calls := calls + [StatusChanged(localStatus)];
      }
      if handlers.onDateFromChange {
        calls := calls + [DateFromChanged(localDateFrom)];
      }
      if handlers.onDateToChange {
        calls := calls + [DateToChanged(localDateTo)];
      }
      open := false;
    }
  }
}
