/**
 Reporting periods in a zone with a fixed offset, over the proleptic Gregorian calendar of the years 1 to 9999.
 Instants are microseconds since the start of year 1 in UTC.
 */
module Calendar {
  import opened Wrappers

  const MAX_YEAR := 9999
  const HOUR := 3_600_000_000
  const DAY := 86_400_000_000

  /** America/Phoenix is seven hours behind UTC. */
  const OFFSET := 7 * HOUR

  datatype Date = Date(year: int, month: int, day: int)

  predicate IsLeap(year: int) {
    year % 4 == 0 && (year % 100 != 0 || year % 400 == 0)
  }

  function DaysInMonth(year: int, month: int): (n: int)
    ensures 28 <= n <= 31
  {
    if month == 2 then (if IsLeap(year) then 29 else 28)
    else if month == 4 || month == 6 || month == 9 || month == 11 then 30
    else 31
  }

  predicate ValidDate(d: Date) {
    1 <= d.year && 1 <= d.month <= 12 && 1 <= d.day <= DaysInMonth(d.year, d.month)
  }

  // ---- ordinals --------------------------------------------------------------------------------

  function DaysBeforeYear(year: int): int {
    var y := year - 1;
    365 * y + y / 4 - y / 100 + y / 400
  }

  /** Days before the first of the month; month 13 is the end of the year. */
  function DaysBeforeMonth(year: int, month: int): int {
    match month
    case 1 => 0
    case 2 => 31
    case _ =>
      (if IsLeap(year) then 1 else 0) +
      match month
      case 3 => 59
      case 4 => 90
      case 5 => 120
      case 6 => 151
      case 7 => 181
      case 8 => 212
      case 9 => 243
      case 10 => 273
      case 11 => 304
      case 12 => 334
      case _ => 365
  }

  /** date.toordinal: 1 January of year 1 is day 1. */
  function Ordinal(d: Date): int {
    DaysBeforeYear(d.year) + DaysBeforeMonth(d.year, d.month) + d.day
  }

  function First(d: Date): Date { d.(day := 1) }

  function NextMonth(d: Date): Date {
    if d.month == 12 then Date(d.year + 1, 1, 1) else Date(d.year, d.month + 1, 1)
  }

  lemma MonthLength(year: int, month: int)
    requires 1 <= month <= 12
    ensures DaysBeforeMonth(year, month + 1) == DaysBeforeMonth(year, month) + DaysInMonth(year, month)
  {
  }

  lemma Fours(y: int)
    ensures y / 4 == (y - 1) / 4 + (if y % 4 == 0 then 1 else 0)
  {
  }

  lemma Hundreds(y: int)
    ensures y / 100 == (y - 1) / 100 + (if y % 100 == 0 then 1 else 0)
    ensures y % 100 == 0 ==> y % 4 == 0
  {
  }

  lemma FourHundreds(y: int)
    ensures y / 400 == (y - 1) / 400 + (if y % 400 == 0 then 1 else 0)
    ensures y % 400 == 0 ==> y % 100 == 0
  {
  }

  lemma YearLength(year: int)
    requires 1 <= year
    ensures DaysBeforeYear(year + 1) == DaysBeforeYear(year) + (if IsLeap(year) then 366 else 365)
  {
    Fours(year);
    Hundreds(year);
    FourHundreds(year);
  }

  /** Months abut: the next month starts right after the last day of this one. */
  lemma NextMonthStarts(d: Date)
    requires ValidDate(d)
    ensures ValidDate(First(d)) && ValidDate(NextMonth(d))
    ensures Ordinal(NextMonth(d)) == Ordinal(First(d)) + DaysInMonth(d.year, d.month)
  {
    MonthLength(d.year, d.month);
    YearLength(d.year);
  }

  /** Every positive number is the ordinal of a date, by counting days from 1 January of year 1. */
  lemma {:induction false} DateExists(n: int) returns (d: Date)
    requires 1 <= n
    ensures ValidDate(d) && Ordinal(d) == n
  {
    if n == 1 {
      d := Date(1, 1, 1);
    } else {
      d := DateExists(n - 1);
      NextMonthStarts(d);
      d := if d.day < DaysInMonth(d.year, d.month) then d.(day := d.day + 1) else NextMonth(d);
    }
  }

  predicate EarlierMonth(a: Date, b: Date) {
    a.year < b.year || (a.year == b.year && a.month < b.month)
  }

  lemma {:induction false} MonthsAreOrdered(a: Date, b: Date)
    requires ValidDate(a) && ValidDate(b) && EarlierMonth(a, b)
    ensures Ordinal(a) < Ordinal(First(b))
    decreases b.year - a.year, if a.year == b.year then b.month - a.month else 12 - a.month
  {
    NextMonthStarts(a);
    var n := NextMonth(a);
    if EarlierMonth(n, b) {
      MonthsAreOrdered(n, b);
    }
  }

  /** Different dates have different ordinals, so the calendar above is the only one with these ordinals. */
  lemma OrdinalIsInjective(a: Date, b: Date)
    requires ValidDate(a) && ValidDate(b) && Ordinal(a) == Ordinal(b)
    ensures a == b
  {
    if EarlierMonth(a, b) {
      MonthsAreOrdered(a, b);
    } else if EarlierMonth(b, a) {
      MonthsAreOrdered(b, a);
    }
  }

  /** date.fromordinal. */
  function FromOrdinal(n: int): (d: Date)
    requires 1 <= n
    ensures ValidDate(d) && Ordinal(d) == n
  {
    assert exists d :: ValidDate(d) && Ordinal(d) == n by {
      var d := DateExists(n);
    }
    assert forall a, b :: ValidDate(a) && ValidDate(b) && Ordinal(a) == n && Ordinal(b) == n ==> a == b by {
      forall a, b | ValidDate(a) && ValidDate(b) && Ordinal(a) == n && Ordinal(b) == n ensures a == b {
        OrdinalIsInjective(a, b);
      }
    }
    var d: Date :| ValidDate(d) && Ordinal(d) == n;
    d
  }

  const LAST_DATE: Date := Date(MAX_YEAR, 12, 31)
  const MAX_ORDINAL := 3_652_059

  lemma MaxOrdinalIsLastDay()
    ensures Ordinal(LAST_DATE) == MAX_ORDINAL == 3_652_059
  {
    YearLength(MAX_YEAR);
  }

  /** Representable dates are those up to the last day of year 9999. */
  lemma InRange(d: Date)
    requires ValidDate(d)
    ensures Ordinal(d) <= MAX_ORDINAL <==> d.year <= MAX_YEAR
    ensures 1 <= Ordinal(d)
  {
    MaxOrdinalIsLastDay();
    if EarlierMonth(d, LAST_DATE) {
      MonthsAreOrdered(d, LAST_DATE);
    } else if EarlierMonth(LAST_DATE, d) {
      MonthsAreOrdered(LAST_DATE, d);
    }
    if EarlierMonth(Date(1, 1, 1), d) {
      MonthsAreOrdered(Date(1, 1, 1), d);
    }
  }

  // ---- local times -----------------------------------------------------------------------------

  /** A wall-clock time: a date and the microseconds since its midnight. */
  datatype Local = Local(date: Date, time: int)

  datatype PeriodError = OutOfRange | BadKind

  predicate Representable(t: int) { 0 <= t < MAX_ORDINAL * DAY }

  function Wall(l: Local): int {
    (Ordinal(l.date) - 1) * DAY + l.time
  }

  predicate ValidLocal(l: Local) {
    ValidDate(l.date) && l.date.year <= MAX_YEAR && 0 <= l.time < DAY
  }

  /** to_zone: None is the OverflowError. */
  function ToLocal(utc: int): (r: Option<Local>)
    requires Representable(utc)
    ensures r.Some? <==> OFFSET <= utc
    ensures r.Some? ==> ValidLocal(r.value) && Wall(r.value) == utc - OFFSET
  {
    var wall := utc - OFFSET;
    if wall < 0 then None
    else
      var d := FromOrdinal(wall / DAY + 1);
      InRange(d);
      Some(Local(d, wall % DAY))
  }

  function ToUtc(l: Local): int {
    Wall(l) + OFFSET
  }

  function Midnight(l: Local): Local { Local(l.date, 0) }

  /** datetime + timedelta(days=k): wall-clock arithmetic, None outside the years 1 to 9999. */
  function AddDays(l: Local, k: int): (r: Option<Local>)
    ensures r.Some? <==> 1 <= Ordinal(l.date) + k <= MAX_ORDINAL
    ensures r.Some? ==> ValidDate(r.value.date) && r.value.date.year <= MAX_YEAR && Wall(r.value) == Wall(l) + k * DAY
  {
    var n := Ordinal(l.date) + k;
    if 1 <= n <= MAX_ORDINAL then
      InRange(FromOrdinal(n));
      Some(Local(FromOrdinal(n), l.time))
    else None
  }

  // ---- period_bounds ---------------------------------------------------------------------------

  function MonthBounds(ref: Local): Result<(int, int), PeriodError> {
    var first := Local(First(ref.date), 0);
    match AddDays(first, 32)
    case None => Err(OutOfRange)
    case Some(later) => Ok((ToUtc(first), ToUtc(Local(First(later.date), later.time))))
  }

  function LastDays(ref: Local, days: int): Result<(int, int), PeriodError> {
    match AddDays(Midnight(ref), 1)
    case None => Err(OutOfRange)
    case Some(end) =>
      match AddDays(end, -days)
      case None => Err(OutOfRange)
      case Some(start) => Ok((ToUtc(start), ToUtc(end)))
  }

  function CustomBounds(start: Date, end: Date): Result<(int, int), PeriodError> {
    match AddDays(Local(end, 0), 1)
    case None => Err(OutOfRange)
    case Some(b) => Ok((ToUtc(Local(start, 0)), ToUtc(b)))
  }

  predicate ValidInput(d: Option<Date>) {
    d.Some? ==> ValidDate(d.value) && d.value.year <= MAX_YEAR
  }

  /** The kinds "month", "7d", "30d" and "custom", and any other text. */
  datatype Kind = Month | SevenDays | ThirtyDays | Custom | OtherKind(text: string)

  function PeriodBounds(kind: Kind, ref: int, start: Option<Date>, end: Option<Date>): Result<(int, int), PeriodError>
    requires Representable(ref)
  {
    match ToLocal(ref)
    case None => Err(OutOfRange)
    case Some(local) =>
      match kind
      case Month => MonthBounds(local)
      case SevenDays => LastDays(local, 7)
      case ThirtyDays => LastDays(local, 30)
      case Custom => if start.Some? && end.Some? then CustomBounds(start.value, end.value) else Err(BadKind)
      case OtherKind(_) => Err(BadKind)
  }

  // ---- properties ------------------------------------------------------------------------------

  /** Thirty-two days after the first of a month, with the day set to 1, is always the first of the next month. */
  lemma ThirtyTwoDaysLater(first: Date)
    requires ValidDate(first) && first.day == 1
    ensures First(FromOrdinal(Ordinal(first) + 32)) == NextMonth(first)
  {
    NextMonthStarts(first);
    InRange(first);
    var later := NextMonth(first).(day := 33 - DaysInMonth(first.year, first.month));
    assert Ordinal(later) == Ordinal(first) + 32;
    OrdinalIsInjective(later, FromOrdinal(Ordinal(first) + 32));
  }

  predicate LastMonth(d: Date) { d.year == MAX_YEAR && d.month == 12 }

  lemma LaterInRange(first: Date)
    requires ValidDate(first) && first.day == 1 && first.year <= MAX_YEAR
    ensures 1 <= Ordinal(first) + 32
    ensures Ordinal(first) + 32 <= MAX_ORDINAL <==> !LastMonth(first)
  {
    InRange(first);
    ThirtyTwoDaysLater(first);
    InRange(FromOrdinal(Ordinal(first) + 32));
  }

  lemma AddDaysDate(l: Local, k: int)
    requires ValidDate(l.date) && 1 <= Ordinal(l.date) + k <= MAX_ORDINAL
    ensures AddDays(l, k) == Some(Local(FromOrdinal(Ordinal(l.date) + k), l.time))
  {
  }

  /** What the 32-day trick computes, in terms of the calendar. */
  lemma MonthBoundsAreTheMonth(ref: Local)
    requires ValidLocal(ref)
    ensures ValidDate(First(ref.date)) && ValidDate(NextMonth(ref.date))
    ensures MonthBounds(ref) == if LastMonth(ref.date) then Err(OutOfRange)
                                else Ok((ToUtc(Local(First(ref.date), 0)), ToUtc(Local(NextMonth(ref.date), 0))))
  {
    NextMonthStarts(ref.date);
    MonthBoundsFromFirst(First(ref.date));
  }

  lemma MonthBoundsFromFirst(first: Date)
    requires ValidDate(first) && first.day == 1 && first.year <= MAX_YEAR
    ensures AddDays(Local(first, 0), 32).None? <==> LastMonth(first)
    ensures !LastMonth(first) ==> First(AddDays(Local(first, 0), 32).value.date) == NextMonth(first) &&
                                  AddDays(Local(first, 0), 32).value.time == 0
  {
    LaterInRange(first);
    if !LastMonth(first) {
      ThirtyTwoDaysLater(first);
      AddDaysDate(Local(first, 0), 32);
    }
  }

  /** The local date of an instant, where there is one. */
  function LocalDate(utc: int): Date
    requires Representable(utc) && OFFSET <= utc
  {
    ToLocal(utc).value.date
  }

  predicate IsWholeMonth(d: Date, from: int, to: int) {
    from == ToUtc(Local(First(d), 0)) && to == from + DaysInMonth(d.year, d.month) * DAY
  }

  /** A month period is the whole local month of its reference instant; it fails exactly where the calendar ends. */
  lemma MonthPeriod(ref: int, start: Option<Date>, end: Option<Date>)
    requires Representable(ref)
    ensures PeriodBounds(Month, ref, start, end).Ok? <==> OFFSET <= ref && !LastMonth(LocalDate(ref))
    ensures match PeriodBounds(Month, ref, start, end) {
        case Ok((from, to)) =>
          && OFFSET <= ref && from <= ref < to
          && IsWholeMonth(LocalDate(ref), from, to)
        case Err(e) => e == OutOfRange
      }
  {
    if OFFSET <= ref {
      MonthBoundsAreTheMonth(ToLocal(ref).value);
      NextMonthStarts(LocalDate(ref));
    }
  }

  lemma SameMonth(d: Date, e: Date)
    requires ValidDate(d) && ValidDate(e) && ValidDate(First(d))
    requires Ordinal(First(d)) <= Ordinal(e) < Ordinal(First(d)) + DaysInMonth(d.year, d.month)
    ensures e.year == d.year && e.month == d.month
  {
    var e' := d.(day := Ordinal(e) - Ordinal(First(d)) + 1);
    OrdinalIsInjective(e, e');
  }

  function MonthOf(ref: int): Result<(int, int), PeriodError>
    requires Representable(ref)
  {
    PeriodBounds(Month, ref, None, None)
  }

  /** Every instant of a month period has that same period. */
  lemma MonthPeriodIsStable(ref: int, t: int)
    requires Representable(ref) && MonthOf(ref).Ok?
    requires MonthOf(ref).value.0 <= t < MonthOf(ref).value.1
    ensures Representable(t) && MonthOf(t) == MonthOf(ref)
  {
    MonthPeriod(ref, None, None);
    var d := LocalDate(ref);
    NextMonthStarts(d);
    InRange(First(d));
    MonthBoundsAreTheMonth(ToLocal(ref).value);
    InRange(NextMonth(d));
    var e := ToLocal(t).value;
    assert Wall(e) == t - OFFSET;
    SameMonth(d, e.date);
    MonthBoundsAreTheMonth(e);
  }

  /** Month periods partition time: two of them are equal or disjoint. */
  lemma MonthPeriodsPartitionTime(t: int, u: int)
    requires Representable(t) && Representable(u) && MonthOf(t).Ok? && MonthOf(u).Ok?
    ensures MonthOf(t) == MonthOf(u) || MonthOf(t).value.1 <= MonthOf(u).value.0 || MonthOf(u).value.1 <= MonthOf(t).value.0
  {
    var a, b := MonthOf(t).value, MonthOf(u).value;
    MonthPeriod(t, None, None);
    MonthPeriod(u, None, None);
    var p := if a.0 < b.0 then b.0 else a.0;
    if p < a.1 && p < b.1 {
      MonthPeriodIsStable(t, p);
      MonthPeriodIsStable(u, p);
    }
  }

  /** Local midnight of a date is seven o'clock of that day in UTC, and as an instant it is read back as that midnight. */
  lemma MidnightRoundTrip(d: Date)
    requires ValidDate(d) && d.year <= MAX_YEAR
    ensures var t := ToUtc(Local(d, 0)); Representable(t) && OFFSET <= t && ToLocal(t) == Some(Local(d, 0))
    ensures ToUtc(Local(d, 0)) == (Ordinal(d) - 1) * 86_400_000_000 + 7 * 3_600_000_000
  {
    InRange(d);
    var t := ToUtc(Local(d, 0));
    var l := ToLocal(t).value;
    assert Wall(l) == (Ordinal(d) - 1) * DAY;
    assert Ordinal(l.date) == Ordinal(d) && l.time == 0;
    OrdinalIsInjective(l.date, d);
  }

  lemma MonthEnd(t: int)
    requires Representable(t) && MonthOf(t).Ok?
    ensures OFFSET <= t && ValidDate(NextMonth(LocalDate(t))) && NextMonth(LocalDate(t)).year <= MAX_YEAR
    ensures MonthOf(t).value.1 == ToUtc(Local(NextMonth(LocalDate(t)), 0))
  {
    MonthBoundsAreTheMonth(ToLocal(t).value);
  }

  /** Month periods abut: the instant at which one ends is where the next one starts, up to the end of the calendar. */
  lemma MonthPeriodsAbut(t: int)
    requires Representable(t) && MonthOf(t).Ok?
    ensures var to := MonthOf(t).value.1;
      && Representable(to) && OFFSET <= to
      && if LastMonth(LocalDate(to)) then MonthOf(to) == Err(OutOfRange) else MonthOf(to).Ok? && MonthOf(to).value.0 == to
  {
    MonthEnd(t);
    var next := NextMonth(LocalDate(t));
    MidnightRoundTrip(next);
    MonthBoundsAreTheMonth(Local(next, 0));
    assert First(next) == next;
  }

  lemma LocalDayContains(ref: int)
    requires Representable(ref) && OFFSET <= ref
    ensures var n := Ordinal(LocalDate(ref)); (n - 1) * DAY + OFFSET <= ref < n * DAY + OFFSET
  {
    assert Wall(ToLocal(ref).value) == ref - OFFSET;
  }

  lemma LastDaysSpan(ref: int, days: int)
    requires Representable(ref) && OFFSET <= ref && days >= 1
    ensures var n := Ordinal(LocalDate(ref));
      match LastDays(ToLocal(ref).value, days) {
        case Ok((from, to)) => to == n * DAY + OFFSET && from == to - days * DAY && n < MAX_ORDINAL && days <= n
        case Err(e) => e == OutOfRange && (n == MAX_ORDINAL || n < days)
      }
  {
    InRange(LocalDate(ref));
  }

  /** How many days a rolling kind spans. */
  function Days(kind: Kind): int { if kind.SevenDays? then 7 else 30 }

  /** 7d and 30d: exactly that many days, ending with the local day of the reference instant. They fail exactly where
      the calendar ends. */
  lemma RollingPeriod(kind: Kind, ref: int, start: Option<Date>, end: Option<Date>)
    requires Representable(ref) && OFFSET <= ref && (kind.SevenDays? || kind.ThirtyDays?)
    ensures var n := Ordinal(LocalDate(ref));
      match PeriodBounds(kind, ref, start, end) {
        case Ok((from, to)) => to == n * DAY + OFFSET && from == to - Days(kind) * DAY && from <= ref < to && Days(kind) <= n < MAX_ORDINAL
        case Err(e) => e == OutOfRange && (n == MAX_ORDINAL || n < Days(kind))
      }
  {
    LastDaysSpan(ref, Days(kind));
    LocalDayContains(ref);
  }

  lemma SpanOfDays(first: int, last: int, d: int)
    ensures ((last - 1) * d + 0 + 1 * d) - ((first - 1) * d + 0) == (last - first + 1) * d
  {
  }

  lemma CustomSpan(start: Date, end: Date, b: Local)
    requires ValidDate(start) && ValidDate(end) && ValidDate(b.date) && Wall(b) == Wall(Local(end, 0)) + 1 * DAY
    ensures ToUtc(b) - ToUtc(Local(start, 0)) == (Ordinal(end) - Ordinal(start) + 1) * DAY
  {
    SpanOfDays(Ordinal(start), Ordinal(end), DAY);
  }

  lemma DayAfter(end: Date)
    requires ValidDate(end) && end.year <= MAX_YEAR
    ensures Ordinal(end) + 1 <= MAX_ORDINAL <==> end != LAST_DATE
    ensures 1 <= Ordinal(end)
  {
    InRange(end);
    MaxOrdinalIsLastDay();
    if Ordinal(end) == MAX_ORDINAL {
      OrdinalIsInjective(end, LAST_DATE);
    }
  }

  /** A custom period spans its first to its last day, both included. */
  lemma CustomPeriod(ref: int, start: Date, end: Date)
    requires Representable(ref) && OFFSET <= ref && ValidInput(Some(start)) && ValidInput(Some(end))
    ensures PeriodBounds(Custom, ref, Some(start), Some(end)).Ok? <==> end != LAST_DATE
    ensures match PeriodBounds(Custom, ref, Some(start), Some(end)) {
        case Ok((from, to)) => to - from == (Ordinal(end) - Ordinal(start) + 1) * DAY && from == ToUtc(Local(start, 0))
        case Err(e) => e == OutOfRange
      }
  {
    CustomIsCustom(ref, start, end);
    CustomBoundsSpan(start, end);
  }

  lemma CustomIsCustom(ref: int, start: Date, end: Date)
    requires Representable(ref) && OFFSET <= ref && ValidInput(Some(start)) && ValidInput(Some(end))
    ensures PeriodBounds(Custom, ref, Some(start), Some(end)) == CustomBounds(start, end)
  {
  }

  lemma CustomBoundsSpan(start: Date, end: Date)
    requires ValidDate(start) && ValidDate(end) && end.year <= MAX_YEAR
    ensures CustomBounds(start, end).Ok? <==> end != LAST_DATE
    ensures match CustomBounds(start, end) {
        case Ok((from, to)) => to - from == (Ordinal(end) - Ordinal(start) + 1) * DAY && from == ToUtc(Local(start, 0))
        case Err(e) => e == OutOfRange
      }
  {
    DayAfter(end);
    var b := AddDays(Local(end, 0), 1);
    if b.Some? {
      CustomSpan(start, end, b.value);
    }
  }
}
