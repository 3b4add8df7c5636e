/** Proleptic Gregorian calendar dates and local date-times at minute resolution,
    as java.time's LocalDate / LocalDateTime use them (time zones are dropped). */
module Calendar {

  const MinutesPerDay := 1440

  predicate IsLeapYear(y: int) {
    y % 4 == 0 && (y % 100 != 0 || y % 400 == 0)
  }

  /** LocalDate.lengthOfMonth */
  function DaysInMonth(y: int, m: int): (n: int)
    ensures 28 <= n <= 31
  {
    if m == 2 then (if IsLeapYear(y) then 29 else 28)
    else if m == 4 || m == 6 || m == 9 || m == 11 then 30
    else 31
  }

  function YearLength(y: int): int {
    if IsLeapYear(y) then 366 else 365
  }

  datatype Date = Date(year: int, month: int, day: int)

  predicate ValidDate(d: Date) {
    1 <= d.month <= 12 && 1 <= d.day <= DaysInMonth(d.year, d.month)
  }

  /** Days of year `y` that lie before the first of month `m` */
  function DaysBeforeMonth(y: int, m: int): int
    requires 1 <= m <= 12
  {
    var leap := if IsLeapYear(y) then 1 else 0;
    if m == 1 then 0
    else if m == 2 then 31
    else if m == 3 then 59 + leap
    else if m == 4 then 90 + leap
    else if m == 5 then 120 + leap
    else if m == 6 then 151 + leap
    else if m == 7 then 181 + leap
    else if m == 8 then 212 + leap
    else if m == 9 then 243 + leap
    else if m == 10 then 273 + leap
    else if m == 11 then 304 + leap
    else 334 + leap
  }

  /** Days from 0000-01-01 to the first of January of year `y` (negative before year 0).
      Dafny's division by a positive constant rounds down, so the leap-year count is
      correct for every year. */
  function DaysBeforeYear(y: int): int {
    365 * y + (y + 3) / 4 - (y + 99) / 100 + (y + 399) / 400
  }

  /** Day number of a date: 0 is 0000-01-01 */
  function DayNumber(d: Date): int
    requires ValidDate(d)
  {
    DaysBeforeYear(d.year) + DaysBeforeMonth(d.year, d.month) + d.day - 1
  }

  /** Day of week with Sunday = 0, as `getDayOfWeek().getValue() % 7` gives it
      (0000-01-01 was a Saturday). */
  function DayOfWeek(d: Date): (w: int)
    requires ValidDate(d)
    ensures 0 <= w < 7
  {
    (DayNumber(d) + 6) % 7
  }

  /** LocalDate.plusDays(1) */
  function NextDay(d: Date): Date
    requires ValidDate(d)
  {
    if d.day < DaysInMonth(d.year, d.month) then Date(d.year, d.month, d.day + 1)
    else if d.month < 12 then Date(d.year, d.month + 1, 1)
    else Date(d.year + 1, 1, 1)
  }

  /** LocalDate.plusDays(n) for n >= 0 */
  function AddDays(d: Date, n: nat): Date
    requires ValidDate(d)
    decreases n
  {
    if n == 0 then d else AddDays(NextDay(d), n - 1)
  }

  /** LocalDate.minusDays(1) */
  function PrevDay(d: Date): Date
    requires ValidDate(d)
  {
    if d.day > 1 then Date(d.year, d.month, d.day - 1)
    else if d.month > 1 then Date(d.year, d.month - 1, DaysInMonth(d.year, d.month - 1))
    else Date(d.year - 1, 12, 31)
  }

  /** LocalDate.minusDays(n) for n >= 0 */
  function SubDays(d: Date, n: nat): Date
    requires ValidDate(d)
    decreases n
  {
    if n == 0 then d else SubDays(PrevDay(d), n - 1)
  }

  /** LocalDate.plusDays(n) for any n, negative n going back */
  function PlusDays(d: Date, n: int): Date
    requires ValidDate(d)
  {
    if n >= 0 then AddDays(d, n) else SubDays(d, -n)
  }

  /** Year and month of `plusMonths(1)`; the day is chosen by the caller */
  function NextMonthYear(y: int, m: int): (r: (int, int))
    requires 1 <= m <= 12
    ensures 1 <= r.1 <= 12
  {
    if m == 12 then (y + 1, 1) else (y, m + 1)
  }

  /** A local date-time at minute resolution */
  datatype DateTime = DateTime(date: Date, minute: int)

  predicate ValidDateTime(t: DateTime) {
    ValidDate(t.date) && 0 <= t.minute < MinutesPerDay
  }

  /** Minutes since 0000-01-01T00:00; orders date-times */
  function Stamp(t: DateTime): int
    requires ValidDateTime(t)
  {
    DayNumber(t.date) * 1440 + t.minute
  }

  /** ZonedDateTime.isAfter, zones dropped */
  predicate IsAfter(a: DateTime, b: DateTime)
    requires ValidDateTime(a) && ValidDateTime(b)
  {
    Stamp(a) > Stamp(b)
  }

  // ---- lemmas ----

  /** Date-times order by their dates first */
  lemma StampOrder(a: DateTime, b: DateTime)
    requires ValidDateTime(a) && ValidDateTime(b)
    ensures DayNumber(a.date) < DayNumber(b.date) ==> Stamp(a) < Stamp(b)
    ensures DayNumber(a.date) == DayNumber(b.date) ==> (Stamp(a) < Stamp(b) <==> a.minute < b.minute)
    ensures Stamp(a) < Stamp(b) ==> DayNumber(a.date) <= DayNumber(b.date)
  {
  }

  lemma DivStep4(y: int)
    ensures (y + 4) / 4 - (y + 3) / 4 == (if y % 4 == 0 then 1 else 0)
  {
  }

  lemma DivStep100(y: int)
    ensures (y + 100) / 100 - (y + 99) / 100 == (if y % 100 == 0 then 1 else 0)
  {
  }

  lemma DivStep400(y: int)
    ensures (y + 400) / 400 - (y + 399) / 400 == (if y % 400 == 0 then 1 else 0)
  {
  }

  /** Consecutive years are one year length apart */
  lemma DaysBeforeNextYear(y: int)
    ensures DaysBeforeYear(y + 1) == DaysBeforeYear(y) + YearLength(y)
  {
    DivStep4(y);
    DivStep100(y);
    DivStep400(y);
  }

  /** NextDay yields a valid date exactly one day number later */
  lemma NextDayIsSuccessor(d: Date)
    requires ValidDate(d)
    ensures ValidDate(NextDay(d)) && DayNumber(NextDay(d)) == DayNumber(d) + 1
  {
    if d.day == DaysInMonth(d.year, d.month) && d.month == 12 {
      DaysBeforeNextYear(d.year);
    }
  }

  /** AddDays moves the day number by exactly n */
  lemma {:induction false} AddDaysNumber(d: Date, n: nat)
    requires ValidDate(d)
    ensures ValidDate(AddDays(d, n)) && DayNumber(AddDays(d, n)) == DayNumber(d) + n
    decreases n
  {
    if n > 0 {
      NextDayIsSuccessor(d);
      AddDaysNumber(NextDay(d), n - 1);
    }
  }

  /** PrevDay yields a valid date exactly one day number earlier */
  lemma PrevDayIsPredecessor(d: Date)
    requires ValidDate(d)
    ensures ValidDate(PrevDay(d)) && DayNumber(PrevDay(d)) == DayNumber(d) - 1
  {
    if d.day == 1 && d.month == 1 {
      DaysBeforeNextYear(d.year - 1);
    }
  }

  lemma {:induction false} SubDaysNumber(d: Date, n: nat)
    requires ValidDate(d)
    ensures ValidDate(SubDays(d, n)) && DayNumber(SubDays(d, n)) == DayNumber(d) - n
    decreases n
  {
    if n > 0 {
      PrevDayIsPredecessor(d);
      SubDaysNumber(PrevDay(d), n - 1);
    }
  }

  /** PlusDays moves the day number by exactly n, in either direction */
  lemma PlusDaysNumber(d: Date, n: int)
    requires ValidDate(d)
    ensures ValidDate(PlusDays(d, n)) && DayNumber(PlusDays(d, n)) == DayNumber(d) + n
  {
    if n >= 0 {
      AddDaysNumber(d, n);
    } else {
      SubDaysNumber(d, -n);
    }
  }

  /** Moving k days moves the weekday by k modulo 7 */
  lemma WeekdayShift(d1: Date, d2: Date, k: int)
    requires ValidDate(d1) && ValidDate(d2)
    requires DayNumber(d2) == DayNumber(d1) + k
    ensures DayOfWeek(d2) == (DayOfWeek(d1) + k) % 7
  {
    ModSevenShift(DayNumber(d1) + 6, k);
  }

  lemma ModSevenShift(a: int, k: int)
    ensures (a + k) % 7 == (a % 7 + k) % 7
  {
    assert a == 7 * (a / 7) + a % 7;
  }

  /** Every day of the following month lies after every day of this month */
  lemma NextMonthIsLater(d: Date, k: int)
    requires ValidDate(d)
    requires 1 <= k <= DaysInMonth(NextMonthYear(d.year, d.month).0, NextMonthYear(d.year, d.month).1)
    ensures ValidDate(Date(NextMonthYear(d.year, d.month).0, NextMonthYear(d.year, d.month).1, k))
    ensures DayNumber(Date(NextMonthYear(d.year, d.month).0, NextMonthYear(d.year, d.month).1, k)) > DayNumber(d)
  {
    var last := Date(d.year, d.month, DaysInMonth(d.year, d.month));
    NextDayIsSuccessor(last);
    assert NextDay(last) == Date(NextMonthYear(d.year, d.month).0, NextMonthYear(d.year, d.month).1, 1);
  }
}
