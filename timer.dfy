/** The countdown timer (`services/timer.rb`): a calendar difference by
    year/month/day borrowing, Gregorian month lengths and the message that
    renders the breakdown. */
module Timer {
  import opened Text

  /** A `DateTime`: its civil fields, in whole seconds, and its UTC offset
      in seconds. */
  datatype DateTime = DateTime(year: int, month: int, day: int, hour: int, minute: int, second: int, offset: int)

  /** A valid date and time of the proleptic Gregorian calendar. */
  predicate ValidDateTime(t: DateTime) {
    && 1 <= t.month <= 12
    && 1 <= t.day <= DaysInMonth(t.year, t.month)
    && 0 <= t.hour < 24 && 0 <= t.minute < 60 && 0 <= t.second < 60
  }

  const StartDefault: DateTime := DateTime(2001, 5, 25, 0, 0, 0, 0)
  const EndDefault: DateTime := DateTime(2031, 5, 25, 0, 0, 0, 0)

  // ---------------------------------------------------------------------------
  // The proleptic Gregorian day count

  predicate IsLeap(y: int) {
    y % 4 == 0 && (y % 100 != 0 || y % 400 == 0)
  }

  /** Days from 1 January of year 1 to 1 January of year `y`. */
  function DaysBeforeYear(y: int): int {
    365 * (y - 1) + (y - 1) / 4 - (y - 1) / 100 + (y - 1) / 400
  }

  /** Days from 1 January to the first of `month` in a common year. */
  function CommonDaysBeforeMonth(month: int): int
    requires 1 <= month <= 12
  {
    match month
    case 1 => 0
    case 2 => 31
    case 3 => 59
    case 4 => 90
    case 5 => 120
    case 6 => 151
    case 7 => 181
    case 8 => 212
    case 9 => 243
    case 10 => 273
    case 11 => 304
    case _ => 334
  }

  /** The day number of a date (1 January of year 1 is day 0); the
      difference of two of them is what `Date#-` gives. */
  function DayNumber(year: int, month: int, day: int): int
    requires 1 <= month <= 12
  {
    DaysBeforeYear(year) + CommonDaysBeforeMonth(month) + (if month > 2 && IsLeap(year) then 1 else 0) + day - 1
  }

  /** `Date#next_month` of the first of a month, as (year, month). */
  function NextMonth(year: int, month: int): (int, int)
    requires 1 <= month <= 12
  {
    if month == 12 then (year + 1, 1) else (year, month + 1)
  }

  /** `dt << 1`, as (year, month); the day plays no part in what follows. */
  function PrevMonth(year: int, month: int): (int, int)
    requires 1 <= month <= 12
  {
    if month == 1 then (year - 1, 12) else (year, month - 1)
  }

  /** `days_in_month`: the first of the next month minus the first of this
      one. */
  function DaysInMonth(year: int, month: int): int
    requires 1 <= month <= 12
  {
    var (ny, nm) := NextMonth(year, month);
    DayNumber(ny, nm, 1) - DayNumber(year, month, 1)
  }

  /** The familiar month lengths. */
  function MonthLength(year: int, month: int): int
    requires 1 <= month <= 12
  {
    if month == 2 then (if IsLeap(year) then 29 else 28)
    else if month == 4 || month == 6 || month == 9 || month == 11 then 30
    else 31
  }

  /** A year has 365 days, one more when it is a leap year. */
  lemma YearLength(y: int)
    ensures DaysBeforeYear(y + 1) - DaysBeforeYear(y) == if IsLeap(y) then 366 else 365
  {
    var q4, r4 := y / 4, y % 4;
    var q100, r100 := y / 100, y % 100;
    var q400, r400 := y / 400, y % 400;
    assert (y - 1) / 4 == if r4 == 0 then q4 - 1 else q4;
    assert (y - 1) / 100 == if r100 == 0 then q100 - 1 else q100;
    assert (y - 1) / 400 == if r400 == 0 then q400 - 1 else q400;
  }

  /** `days_in_month` gives the Gregorian month lengths, 29 for February in
      a leap year. */
  lemma DaysInMonthTable(year: int, month: int)
    requires 1 <= month <= 12
    ensures DaysInMonth(year, month) == MonthLength(year, month)
  {
    if month == 12 {
      YearLength(year);
    }
  }

  /** `days_in_prev_month`. */
  function DaysInPrevMonth(t: DateTime): (r: int)
    requires 1 <= t.month <= 12
    ensures 28 <= r <= 31
  {
    var (py, pm) := PrevMonth(t.year, t.month);
    DaysInMonthTable(py, pm);
    DaysInMonth(py, pm)
  }

  // ---------------------------------------------------------------------------
  // diff_breakdown

  /** The instant of a `DateTime`, in seconds. */
  function Seconds(t: DateTime): int
    requires 1 <= t.month <= 12
  {
    DayNumber(t.year, t.month, t.day) * 86400 + t.hour * 3600 + t.minute * 60 + t.second - t.offset
  }

  /** `((b - a) * 24).to_i` for a difference of `x` seconds: whole hours,
      truncated toward zero. */
  function WholeHours(x: int): (q: int)
    ensures x >= 0 ==> 0 <= 3600 * q <= x < 3600 * q + 3600
    ensures x < 0 ==> 3600 * q - 3600 < x <= 3600 * q <= 0
  {
    if x >= 0 then x / 3600 else -((-x) / 3600)
  }

  datatype Breakdown = Breakdown(years: int, months: int, days: int, hours: int)

  /** `diff_breakdown(a, b)`. */
  function DiffBreakdown(a: DateTime, b: DateTime): (r: Breakdown)
    requires 1 <= a.month <= 12 && 1 <= b.month <= 12
    ensures 0 <= r.months <= 11
    ensures 0 <= r.hours <= 23
  {
    var years := b.year - a.year;
    var months := b.month - a.month;
    var days := b.day - a.day;
    var (months1, days1) := if days < 0 then (months - 1, days + DaysInPrevMonth(b)) else (months, days);
    var (years2, months2) := if months1 < 0 then (years - 1, months1 + 12) else (years, months1);
    var hoursTotal := WholeHours(Seconds(b) - Seconds(a));
    Breakdown(years2, months2, days1, hoursTotal % 24)
  }

  /** What the breakdown means: the years and months count whole calendar
      months from a's month to b's, one fewer when b's day comes before
      a's; the days are then the day difference, plus the length of the
      month before b's when a month was borrowed; the hours are the whole
      hours between the two instants, modulo 24. */
  lemma DiffBreakdownSpec(a: DateTime, b: DateTime)
    requires 1 <= a.month <= 12 && 1 <= b.month <= 12
    ensures var r := DiffBreakdown(a, b);
      var borrow := if b.day < a.day then 1 else 0;
      && 12 * r.years + r.months == 12 * (b.year - a.year) + (b.month - a.month) - borrow
      && r.days == b.day - a.day + borrow * DaysInPrevMonth(b)
      && r.hours == WholeHours(Seconds(b) - Seconds(a)) % 24
  {
  }

  /** For valid Gregorian dates the days lie in -2..30: a borrowed month
      may be shorter than the day difference it covers. */
  lemma DiffDaysBounds(a: DateTime, b: DateTime)
    requires ValidDateTime(a) && ValidDateTime(b)
    ensures -2 <= DiffBreakdown(a, b).days <= 30
  {
    DaysInMonthTable(a.year, a.month);
    DaysInMonthTable(b.year, b.month);
    var (py, pm) := PrevMonth(b.year, b.month);
    DaysInMonthTable(py, pm);
  }

  /** From 31 January to 1 March of a common year the breakdown has -2 days. */
  lemma NegativeDays()
    ensures ValidDateTime(DateTime(2023, 1, 31, 0, 0, 0, 0)) && ValidDateTime(DateTime(2023, 3, 1, 0, 0, 0, 0))
    ensures DiffBreakdown(DateTime(2023, 1, 31, 0, 0, 0, 0), DateTime(2023, 3, 1, 0, 0, 0, 0)) == Breakdown(0, 1, -2, 0)
  {
    DaysInMonthTable(2023, 1);
    DaysInMonthTable(2023, 2);
    DaysInMonthTable(2023, 3);
    YearLength(2022);
    assert DayNumber(2023, 3, 1) - DayNumber(2023, 1, 31) == 29;
  }

  // ---------------------------------------------------------------------------
  // fmt and message

  /** `fmt`: "<y>y <m>m <d>d <h>h". */
  function Fmt(h: Breakdown): string {
    IntToString(h.years) + "y " + IntToString(h.months) + "m " + IntToString(h.days) + "d " + IntToString(h.hours) + "h"
  }

  const Title: string := "\U{23F3} *Countdown Timer*"
  const ReachedLine: string := "Milestone *reached* on *25 May 2031*."

  function SinceLine(elapsed: Breakdown): string {
    "Since *25 May 2001*: _" + Fmt(elapsed) + "_"
  }

  function UntilLine(remaining: Breakdown): string {
    "Until *25 May 2031*: _" + Fmt(remaining) + "_"
  }

  /** `now >= to`, on instants. */
  predicate Reached(to: DateTime, now: DateTime)
    requires 1 <= to.month <= 12 && 1 <= now.month <= 12
  {
    Seconds(now) >= Seconds(to)
  }

  /** The lines of `message(from:, to:, now:)`. */
  function MessageLines(from: DateTime, to: DateTime, now: DateTime): seq<string>
    requires 1 <= from.month <= 12 && 1 <= to.month <= 12 && 1 <= now.month <= 12
  {
    if Reached(to, now) then [Title, ReachedLine, SinceLine(DiffBreakdown(from, to))]
    else [Title, SinceLine(DiffBreakdown(from, now)), UntilLine(DiffBreakdown(now, to))]
  }

  /** `message(from:, to:, now:)`: three lines, the title, then either the
      milestone line and the from→to breakdown, or the from→now breakdown
      and the now→to breakdown. */
  function Message(from: DateTime, to: DateTime, now: DateTime): (r: string)
    requires 1 <= from.month <= 12 && 1 <= to.month <= 12 && 1 <= now.month <= 12
    ensures var lines := Split(r, '\n');
      && |lines| == 3 && lines[0] == Title
      && (Reached(to, now) ==> lines[1] == ReachedLine && lines[2] == SinceLine(DiffBreakdown(from, to)))
      && (!Reached(to, now) ==> lines[1] == SinceLine(DiffBreakdown(from, now)) && lines[2] == UntilLine(DiffBreakdown(now, to)))
  {
    MessageLinesHaveNoBreak(from, to, now);
    SplitJoin(MessageLines(from, to, now), '\n');
    Join(MessageLines(from, to, now), "\n")
  }

  /** Once the milestone is reached the message no longer depends on the
      clock. */
  lemma MessageSpec(from: DateTime, to: DateTime, now: DateTime, later: DateTime)
    requires 1 <= from.month <= 12 && 1 <= to.month <= 12 && 1 <= now.month <= 12 && 1 <= later.month <= 12
    ensures Reached(to, now) && Reached(to, later) ==> Message(from, to, now) == Message(from, to, later)
  {
  }

  lemma MessageLinesHaveNoBreak(from: DateTime, to: DateTime, now: DateTime)
    requires 1 <= from.month <= 12 && 1 <= to.month <= 12 && 1 <= now.month <= 12
    ensures |MessageLines(from, to, now)| == 3
    ensures forall i :: 0 <= i < 3 ==> '\n' !in MessageLines(from, to, now)[i]
  {
    var lines := MessageLines(from, to, now);
    FixedLinesHaveNoBreak();
    if Reached(to, now) {
      FmtHasNoBreak(DiffBreakdown(from, to));
      assert lines == [Title, ReachedLine, SinceLine(DiffBreakdown(from, to))];
    } else {
      FmtHasNoBreak(DiffBreakdown(from, now));
      FmtHasNoBreak(DiffBreakdown(now, to));
      assert lines == [Title, SinceLine(DiffBreakdown(from, now)), UntilLine(DiffBreakdown(now, to))];
    }
  }

  lemma FixedLinesHaveNoBreak()
    ensures '\n' !in Title && '\n' !in ReachedLine
  {
    assert forall i :: 0 <= i < |Title| ==> Title[i] != '\n';
    assert forall i :: 0 <= i < |ReachedLine| ==> ReachedLine[i] != '\n';
  }

  lemma FmtHasNoBreak(h: Breakdown)
    ensures '\n' !in SinceLine(h) && '\n' !in UntilLine(h)
  {
    IntHasNoBreak(h.years);
    IntHasNoBreak(h.months);
    IntHasNoBreak(h.days);
    IntHasNoBreak(h.hours);
  }

  lemma IntHasNoBreak(i: int)
    ensures '\n' !in IntToString(i)
  {
    var s := if i < 0 then NatToString(-i) else NatToString(i);
    assert AllDigits(s);
    assert !IsDigit('\n');
  }
}
