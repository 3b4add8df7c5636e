/** The schedule engine of ScheduleRunner.java: the next-run calculation for
    daily, weekly and monthly rules, and the schedule table that the minute poll,
    the post-run bookkeeping and the create/update/delete operations change. */
module ScheduleRunner {
  import opened Wrappers
  import opened Calendar
  import opened JavaLang

  // ---------------------------------------------------------------------------
  // computeNextRun
  // ---------------------------------------------------------------------------

  /** LocalTime.parse(s, "HH:mm") as a minute of the day, None when Java throws.
      The SMART resolver accepts "24:00" as midnight. */
  function ParseHourMinute(s: string): (r: Option<int>)
    ensures r.Some? ==> 0 <= r.value < MinutesPerDay
  {
    if |s| == 5 && s[2] == ':' && AllDigits(s[..2]) && AllDigits(s[3..]) then
      var h := DigitsValue(s[..2]);
      var m := DigitsValue(s[3..]);
      if h <= 23 && m <= 59 then Some(h * 60 + m)
      else if h == 24 && m == 0 then Some(0)
      else None
    else None
  }

  /** The run time of a schedule: a null text means "00:00", an unparsable one midnight */
  function RunMinute(runAtTime: Option<string>): (m: int)
    ensures 0 <= m < MinutesPerDay
    ensures runAtTime.None? ==> m == 0
    ensures runAtTime.Some? && ParseHourMinute(runAtTime.value).None? ==> m == 0
    ensures runAtTime.Some? && ParseHourMinute(runAtTime.value).Some? ==> m == ParseHourMinute(runAtTime.value).value
  {
    match ParseHourMinute(runAtTime.GetOr("00:00"))
    case Some(v) => v
    case None => 0
  }

  lemma RunMinuteExamples()
    ensures RunMinute(Some("07:30")) == 450
    ensures RunMinute(Some("23:59")) == 1439
    ensures RunMinute(Some("00:00")) == 0
  {
    assert "07:30"[..2] == "07" && "07:30"[3..] == "30";
    assert "07"[..1] == "0" && "30"[..1] == "3";
    assert DigitsValue("3") == 3 && DigitsValue("0") == 0;
    assert DigitsValue("07") == 7 && DigitsValue("30") == 30;
    assert ParseHourMinute("07:30") == Some(450);
    assert "23:59"[..2] == "23" && "23:59"[3..] == "59";
    assert "23"[..1] == "2" && "59"[..1] == "5";
    assert "00:00"[..2] == "00" && "00:00"[3..] == "00";
    assert "00"[..1] == "0";
  }

  /** A text that is not two-digit HH:mm, or a minute past 59, falls back to midnight */
  lemma RunMinuteRejects()
    ensures RunMinute(Some("7:30")) == 0 && RunMinute(Some("12:60")) == 0
  {
    assert "12:60"[..2] == "12" && "12:60"[3..] == "60";
    assert "12"[..1] == "1" && "60"[..1] == "6";
  }

  /** Daily rule: today at the run time if that is still ahead, else tomorrow */
  function DailyNext(m: int, after: DateTime): (r: DateTime)
    requires ValidDateTime(after) && 0 <= m < MinutesPerDay
    ensures ValidDateTime(r) && r.minute == m && IsAfter(r, after)
    ensures Stamp(r) - Stamp(after) <= MinutesPerDay
    ensures r.date == after.date || r.date == NextDay(after.date)
  {
    NextDayIsSuccessor(after.date);
    var today := DateTime(after.date, m);
    if IsAfter(today, after) then today else DateTime(NextDay(after.date), m)
  }

  /** No slot at minute m on any day lies strictly between the anchor and DailyNext */
  lemma DailyNextIsEarliest(m: int, after: DateTime, d: Date)
    requires ValidDateTime(after) && 0 <= m < MinutesPerDay && ValidDate(d)
    requires IsAfter(DateTime(d, m), after)
    ensures Stamp(DailyNext(m, after)) <= Stamp(DateTime(d, m))
  {
    NextDayIsSuccessor(after.date);
    var today := DateTime(after.date, m);
    var tomorrow := DateTime(NextDay(after.date), m);
    StampOrder(DateTime(d, m), today);
    StampOrder(tomorrow, DateTime(d, m));
    StampOrder(DateTime(d, m), after);
  }

  /** The weekly rule once the day offset is known: an offset of 0 means today
      if the run time is still ahead and a week later otherwise. */
  function WeeklyWithOffset(daysUntil: int, m: int, after: DateTime): (r: DateTime)
    requires ValidDateTime(after) && 0 <= m < MinutesPerDay
    ensures ValidDateTime(r) && r.minute == m
  {
    PlusDaysNumber(after.date, daysUntil);
    AddDaysNumber(after.date, 7);
    var today := DateTime(after.date, m);
    if daysUntil == 0 then
      (if IsAfter(today, after) then today else DateTime(AddDays(after.date, 7), m))
    else DateTime(PlusDays(after.date, daysUntil), m)
  }

  /** What WeeklyWithOffset gives for an offset in 0..6 */
  lemma WeeklyWithOffsetFacts(k: int, m: int, after: DateTime)
    requires ValidDateTime(after) && 0 <= m < MinutesPerDay && 0 <= k < 7
    ensures var r := WeeklyWithOffset(k, m, after);
            && IsAfter(r, after)
            && Stamp(r) - Stamp(after) <= 7 * MinutesPerDay
            && DayOfWeek(r.date) == (DayOfWeek(after.date) + k) % 7
            && DayNumber(r.date) - DayNumber(after.date) == (if k == 0 && !IsAfter(DateTime(after.date, m), after) then 7 else k)
  {
    var r := WeeklyWithOffset(k, m, after);
    var today := DateTime(after.date, m);
    var gap := if k == 0 && !IsAfter(today, after) then 7 else k;
    if k == 0 {
      if IsAfter(today, after) {
        assert r == today;
      } else {
        AddDaysNumber(after.date, 7);
        assert r == DateTime(AddDays(after.date, 7), m);
        WeekdayShift(after.date, r.date, 7);
        WeekOn(DayOfWeek(after.date));
      }
    } else {
      PlusDaysNumber(after.date, k);
      assert r == DateTime(PlusDays(after.date, k), m);
    }
    GapStamp(after, r, gap);
    if gap == k {
      WeekdayShift(after.date, r.date, k);
    }
  }

  /** A week on is the same weekday */
  lemma WeekOn(x: int)
    ensures (x + 7) % 7 == (x + 0) % 7
  {
  }

  /** A date-time 0 to 7 days later, at a later minute when on the same day and
      at most the same minute when a week on, is after and within a week */
  lemma GapStamp(a: DateTime, r: DateTime, gap: int)
    requires ValidDateTime(a) && ValidDateTime(r) && 0 <= gap <= 7
    requires DayNumber(r.date) == DayNumber(a.date) + gap
    requires gap == 0 ==> r.minute > a.minute
    requires gap == 7 ==> r.minute <= a.minute
    ensures IsAfter(r, a) && Stamp(r) - Stamp(a) <= 7 * MinutesPerDay
  {
  }

  /** Days from weekday `cur` forward to weekday `target`, as a floor modulus */
  function WeekdayOffset(cur: int, target: int): int {
    (target - cur) % 7
  }

  /** The floor-modulus offset reaches the target weekday */
  lemma OffsetReachesTarget(cur: int, target: int)
    requires 0 <= cur < 7
    ensures 0 <= WeekdayOffset(cur, target) < 7
    ensures (cur + WeekdayOffset(cur, target)) % 7 == target % 7
  {
  }

  /** Weekly rule with the offset computed as a floor modulus (Sunday = 0) */
  function WeeklyNext(target: int, m: int, after: DateTime): (r: DateTime)
    requires ValidDateTime(after) && 0 <= m < MinutesPerDay
    ensures ValidDateTime(r) && r.minute == m && IsAfter(r, after)
    ensures DayOfWeek(r.date) == target % 7
    ensures Stamp(r) - Stamp(after) <= 7 * MinutesPerDay
  {
    var k := WeekdayOffset(DayOfWeek(after.date), target);
    OffsetReachesTarget(DayOfWeek(after.date), target);
    WeeklyWithOffsetFacts(k, m, after);
    WeeklyWithOffset(k, m, after)
  }

  /** No slot on the target weekday lies strictly between the anchor and WeeklyNext */
  lemma WeeklyNextIsEarliest(target: int, m: int, after: DateTime, d: Date)
    requires ValidDateTime(after) && 0 <= m < MinutesPerDay && ValidDate(d)
    requires DayOfWeek(d) == target % 7
    requires IsAfter(DateTime(d, m), after)
    ensures Stamp(WeeklyNext(target, m, after)) <= Stamp(DateTime(d, m))
  {
    var cur := DayOfWeek(after.date);
    var k := WeekdayOffset(cur, target);
    WeeklyWithOffsetFacts(k, m, after);
    var todayOk := IsAfter(DateTime(after.date, m), after);
    var j := DayNumber(d) - DayNumber(after.date);
    StampOrder(after, DateTime(d, m));
    WeekdayShift(after.date, d, j);
    // d on the anchor's own day is the anchor's own slot
    assert j == 0 ==> todayOk;
    FirstHit(cur, target, j, todayOk);
  }

  /** A day offset j landing on the target weekday is at least the offset the
      weekly rule takes, given that offset 0 is only allowed when today's slot is ahead */
  lemma FirstHit(cur: int, target: int, j: int, todayOk: bool)
    requires 0 <= cur < 7 && 0 <= j
    requires (cur + j) % 7 == target % 7
    requires j == 0 ==> todayOk
    ensures j >= (if WeekdayOffset(cur, target) == 0 && !todayOk then 7 else WeekdayOffset(cur, target))
  {
    assert j % 7 == WeekdayOffset(cur, target);
  }

  /** Weekly rule exactly as ScheduleRunner.java:84-93 computes it: the offset
      `(targetDow - currentDow + 7) % 7` uses 32-bit ints and Java's truncating
      remainder, so it is negative when the numerator is. */
  function WeeklyNextAsWritten(target: Int32, m: int, after: DateTime): (r: DateTime)
    requires ValidDateTime(after) && 0 <= m < MinutesPerDay
    ensures ValidDateTime(r) && r.minute == m
  {
    WeeklyWithOffset(DaysUntilAsWritten(target, DayOfWeek(after.date)), m, after)
  }

  /** `(targetDow - currentDow + 7) % 7` in 32-bit ints with the truncating remainder */
  function DaysUntilAsWritten(target: Int32, cur: int): int {
    JavaRem(Wrap32(Wrap32(target - cur) + 7), 7)
  }

  /** For every weekday a caller can mean (and -1) the code agrees with the floor-modulus rule */
  lemma WeeklyAsWrittenAgrees(target: Int32, m: int, after: DateTime)
    requires ValidDateTime(after) && 0 <= m < MinutesPerDay
    requires -1 <= target <= IntMax - 7
    ensures WeeklyNextAsWritten(target, m, after) == WeeklyNext(target, m, after)
  {
    AsWrittenOffset(DayOfWeek(after.date), target);
  }

  /** Without overflow the truncating remainder of a non-negative numerator is the floor modulus */
  lemma AsWrittenOffset(c: int, target: Int32)
    requires 0 <= c < 7 && -1 <= target <= IntMax - 7
    ensures DaysUntilAsWritten(target, c) == WeekdayOffset(c, target)
  {
    assert Wrap32(target - c) == target - c;
    assert Wrap32(target - c + 7) == target - c + 7;
  }

  /** A day-of-month argument clamped to 1..31, 1 when null */
  function ClampDayOfMonth(dom: Option<Int32>): (v: int)
    ensures 1 <= v <= 31
    ensures dom.None? ==> v == 1
    ensures dom.Some? && 1 <= dom.value <= 31 ==> v == dom.value
    ensures dom.Some? && dom.value < 1 ==> v == 1
    ensures dom.Some? && dom.value > 31 ==> v == 31
  {
    match dom
    case None => 1
    case Some(x) => if x < 1 then 1 else if x > 31 then 31 else x
  }

  function Min(a: int, b: int): int {
    if a <= b then a else b
  }

  /** The day `dom` of a month, or its last day when the month is shorter */
  function MonthSlot(y: int, mo: int, dom: int, m: int): (r: DateTime)
    requires 1 <= mo <= 12 && 1 <= dom && 0 <= m < MinutesPerDay
    ensures ValidDateTime(r)
  {
    DateTime(Date(y, mo, Min(dom, DaysInMonth(y, mo))), m)
  }

  /** Monthly rule: this month's slot if it is still ahead, else next month's */
  function MonthlyNext(dom: int, m: int, after: DateTime): (r: DateTime)
    requires ValidDateTime(after) && 1 <= dom <= 31 && 0 <= m < MinutesPerDay
    ensures ValidDateTime(r) && r.minute == m && IsAfter(r, after)
    ensures r.date.day == Min(dom, DaysInMonth(r.date.year, r.date.month))
    ensures var this_ := (after.date.year, after.date.month);
            (r.date.year, r.date.month) == this_ || (r.date.year, r.date.month) == NextMonthYear(this_.0, this_.1)
    ensures (r.date.year, r.date.month) == (after.date.year, after.date.month)
            <==> IsAfter(MonthSlot(after.date.year, after.date.month, dom, m), after)
  {
    var y := after.date.year;
    var mo := after.date.month;
    var cur := MonthSlot(y, mo, dom, m);
    var ny := NextMonthYear(y, mo);
    var d := Min(dom, DaysInMonth(ny.0, ny.1));
    NextMonthIsLater(after.date, d);
    if IsAfter(cur, after) then cur else MonthSlot(ny.0, ny.1, dom, m)
  }

  /** ScheduleRunner.computeNextRun with the weekly offset as a floor modulus;
      the scheduler below uses this one. A null type is "daily", and any type other
      than "weekly" or "monthly" takes the daily rule. */
  function ComputeNextRun(scheduleType: Option<string>, runAtTime: Option<string>,
                          dayOfWeek: Option<Int32>, dayOfMonth: Option<Int32>,
                          after: DateTime): (r: DateTime)
    requires ValidDateTime(after)
    ensures ValidDateTime(r) && IsAfter(r, after)
    ensures r.minute == RunMinute(runAtTime)
  {
    var m := RunMinute(runAtTime);
    var kind := scheduleType.GetOr("daily");
    if kind == "weekly" then WeeklyNext(dayOfWeek.GetOr(0), m, after)
    else if kind == "monthly" then MonthlyNext(ClampDayOfMonth(dayOfMonth), m, after)
    else DailyNext(m, after)
  }

  /** computeNextRun as written: differs from ComputeNextRun only in the weekly offset */
  function ComputeNextRunAsWritten(scheduleType: Option<string>, runAtTime: Option<string>,
                                   dayOfWeek: Option<Int32>, dayOfMonth: Option<Int32>,
                                   after: DateTime): (r: DateTime)
    requires ValidDateTime(after)
    ensures ValidDateTime(r) && r.minute == RunMinute(runAtTime)
    ensures scheduleType != Some("weekly") ==> r == ComputeNextRun(scheduleType, runAtTime, dayOfWeek, dayOfMonth, after)
  {
    if scheduleType == Some("weekly") then WeeklyNextAsWritten(dayOfWeek.GetOr(0), RunMinute(runAtTime), after)
    else ComputeNextRun(scheduleType, runAtTime, dayOfWeek, dayOfMonth, after)
  }

  /** The weekly rule as written gives a next run BEFORE its anchor: a Saturday
      anchor with DayOfWeek = -2 makes the offset (-2 - 6 + 7) % 7 == -1. */
  lemma WeeklyAsWrittenGoesBack()
    ensures var after := DateTime(Date(2000, 1, 1), 0);
            ValidDateTime(after)
            && DayOfWeek(after.date) == 6
            && !IsAfter(ComputeNextRunAsWritten(Some("weekly"), None, Some(-2), None, after), after)
  {
    var after := DateTime(Date(2000, 1, 1), 0);
    assert DayNumber(after.date) == 730485;
    assert DayOfWeek(after.date) == 6;
    assert DaysUntilAsWritten(-2, 6) == -1;
    var r := ComputeNextRunAsWritten(Some("weekly"), None, Some(-2), None, after);
    assert r == WeeklyWithOffset(-1, 0, after);
    assert PlusDays(after.date, -1) == Date(1999, 12, 31);
    assert r.date == Date(1999, 12, 31);
  }

  /** Daily, including a null or unknown type */
  lemma DailyRule(scheduleType: Option<string>, runAtTime: Option<string>,
                  dayOfWeek: Option<Int32>, dayOfMonth: Option<Int32>, after: DateTime)
    requires ValidDateTime(after)
    requires scheduleType.None? || (scheduleType.value != "weekly" && scheduleType.value != "monthly")
    ensures var r := ComputeNextRun(scheduleType, runAtTime, dayOfWeek, dayOfMonth, after);
            var today := DateTime(after.date, RunMinute(runAtTime));
            && (IsAfter(today, after) ==> r == today)
            && (!IsAfter(today, after) ==> r.date == NextDay(after.date))
            && Stamp(r) - Stamp(after) <= MinutesPerDay
  {
  }

  /** Weekly: lands on the target weekday (Sunday = 0), strictly after the anchor, within a week */
  lemma WeeklyRule(runAtTime: Option<string>, dayOfWeek: Option<Int32>, dayOfMonth: Option<Int32>, after: DateTime)
    requires ValidDateTime(after)
    ensures var r := ComputeNextRun(Some("weekly"), runAtTime, dayOfWeek, dayOfMonth, after);
            && DayOfWeek(r.date) == dayOfWeek.GetOr(0) % 7
            && 0 < Stamp(r) - Stamp(after) <= 7 * MinutesPerDay
  {
  }

  /** Monthly: the clamped day, or the month's last day, in the anchor's month or the next */
  lemma MonthlyRule(runAtTime: Option<string>, dayOfWeek: Option<Int32>, dayOfMonth: Option<Int32>, after: DateTime)
    requires ValidDateTime(after)
    ensures var r := ComputeNextRun(Some("monthly"), runAtTime, dayOfWeek, dayOfMonth, after);
            var dom := ClampDayOfMonth(dayOfMonth);
            && r.date.day == Min(dom, DaysInMonth(r.date.year, r.date.month))
            && ((r.date.year, r.date.month) == (after.date.year, after.date.month)
                || (r.date.year, r.date.month) == NextMonthYear(after.date.year, after.date.month))
            && IsAfter(r, after)
  {
  }

  /** dom = 31 in February of a leap year runs on the 29th */
  lemma MonthlyFebruaryExample()
    ensures ComputeNextRun(Some("monthly"), Some("00:00"), None, Some(31), DateTime(Date(2024, 2, 1), 0)).date
            == Date(2024, 2, 29)
  {
    RunMinuteExamples();
  }

  // ---------------------------------------------------------------------------
  // The schedule table
  // ---------------------------------------------------------------------------

  /** A row of PipelineSchedules */
  datatype Schedule = Schedule(
    name: Option<string>,
    scheduleType: Option<string>,
    runAtTime: Option<string>,
    dayOfWeek: Option<Int32>,
    dayOfMonth: Option<Int32>,
    sourcePath: Option<string>,
    enabled: bool,
    createdAt: DateTime,
    updatedAt: DateTime,
    lastRunAt: Option<DateTime>,
    nextRunAt: Option<DateTime>)

  predicate ValidSchedule(s: Schedule) {
    && ValidDateTime(s.createdAt)
    && ValidDateTime(s.updatedAt)
    && (s.lastRunAt.Some? ==> ValidDateTime(s.lastRunAt.value))
    && (s.nextRunAt.Some? ==> ValidDateTime(s.nextRunAt.value))
  }

  /** The poll's WHERE clause: Enabled = 1 AND NextRunAt IS NOT NULL AND NextRunAt <= now */
  predicate IsDue(s: Schedule, now: DateTime)
    requires ValidSchedule(s) && ValidDateTime(now)
  {
    s.enabled && s.nextRunAt.Some? && Stamp(s.nextRunAt.value) <= Stamp(now)
  }

  /** The rules on which computeNextRun as written and the floor-modulus rule
      agree: every type but "weekly", and a weekly day (null reads as 0) in
      -1 .. IntMax - 7. Nothing in the API range-checks DayOfWeek. */
  predicate WeekdayInRange(scheduleType: Option<string>, dayOfWeek: Option<Int32>) {
    scheduleType != Some("weekly") || -1 <= dayOfWeek.GetOr(0) <= IntMax - 7
  }

  /** In that range the code's rule is the corrected one */
  lemma AsWrittenInRange(scheduleType: Option<string>, runAtTime: Option<string>,
                         dayOfWeek: Option<Int32>, dayOfMonth: Option<Int32>, after: DateTime)
    requires ValidDateTime(after) && WeekdayInRange(scheduleType, dayOfWeek)
    ensures ComputeNextRunAsWritten(scheduleType, runAtTime, dayOfWeek, dayOfMonth, after)
            == ComputeNextRun(scheduleType, runAtTime, dayOfWeek, dayOfMonth, after)
  {
    if scheduleType == Some("weekly") {
      WeeklyAsWrittenAgrees(dayOfWeek.GetOr(0), RunMinute(runAtTime), after);
    }
  }

  /** The next run the stored rule of `s` gives after `now`, as the code computes
      it: after `now` whenever the weekly day is in range, at the stored run time. */
  function NextRunOf(s: Schedule, now: DateTime): (r: DateTime)
    requires ValidDateTime(now)
    ensures ValidDateTime(r) && r.minute == RunMinute(s.runAtTime)
    ensures WeekdayInRange(s.scheduleType, s.dayOfWeek) ==> IsAfter(r, now)
  {
    if WeekdayInRange(s.scheduleType, s.dayOfWeek) then
      AsWrittenInRange(s.scheduleType, s.runAtTime, s.dayOfWeek, s.dayOfMonth, now);
      ComputeNextRunAsWritten(s.scheduleType, s.runAtTime, s.dayOfWeek, s.dayOfMonth, now)
    else
      ComputeNextRunAsWritten(s.scheduleType, s.runAtTime, s.dayOfWeek, s.dayOfMonth, now)
  }

  /** updateAfterRun's row change */
  function AfterRun(s: Schedule, now: DateTime): (r: Schedule)
    requires ValidSchedule(s) && ValidDateTime(now)
    ensures ValidSchedule(r)
  {
    s.(lastRunAt := Some(now), nextRunAt := Some(NextRunOf(s, now)), updatedAt := now)
  }

  /** A row that has just been run is no longer due at the same instant, unless
      its weekly day is out of range */
  lemma AfterRunNotDue(s: Schedule, now: DateTime)
    requires ValidSchedule(s) && ValidDateTime(now)
    ensures WeekdayInRange(s.scheduleType, s.dayOfWeek) ==> !IsDue(AfterRun(s, now), now)
    ensures AfterRun(s, now).lastRunAt == Some(now) && AfterRun(s, now).updatedAt == now
  {
  }

  /** Out of range the code stores a past next run: run on a Saturday, a weekly
      row with DayOfWeek = -2 gets the Friday before (offset (-2 - 6 + 7) % 7 == -1)
      and is due again at once. */
  lemma AfterRunStaysDue(s: Schedule, now: DateTime)
    requires ValidSchedule(s) && ValidDateTime(now)
    requires s.enabled && s.scheduleType == Some("weekly") && s.dayOfWeek == Some(-2)
    requires DayOfWeek(now.date) == 6
    ensures IsDue(AfterRun(s, now), now)
    ensures DayNumber(AfterRun(s, now).nextRunAt.value.date) == DayNumber(now.date) - 1
  {
    assert DaysUntilAsWritten(-2, 6) == -1;
    PlusDaysNumber(now.date, -1);
    assert NextRunOf(s, now) == DateTime(PlusDays(now.date, -1), RunMinute(s.runAtTime));
  }

  /** The rows that the poll at `now` selects */
  function DueIds(rows: map<string, Schedule>, now: DateTime): set<string>
    requires forall id :: id in rows ==> ValidSchedule(rows[id])
    requires ValidDateTime(now)
  {
    set id | id in rows && IsDue(rows[id], now)
  }

  /** The table after every row in `done` has been advanced */
  function Advanced(rows: map<string, Schedule>, done: set<string>, now: DateTime): map<string, Schedule>
    requires forall id :: id in rows ==> ValidSchedule(rows[id])
    requires ValidDateTime(now)
  {
    map id | id in rows :: if id in done then AfterRun(rows[id], now) else rows[id]
  }

  /** Advancing one more row extends the advanced set by that row */
  lemma AdvanceOneMore(rows: map<string, Schedule>, done: set<string>, id: string, now: DateTime)
    requires forall k :: k in rows ==> ValidSchedule(rows[k])
    requires ValidDateTime(now) && id in rows && id !in done
    ensures Advanced(rows, done, now)[id := AfterRun(rows[id], now)] == Advanced(rows, done + {id}, now)
  {
  }

  /** After every due row has been advanced, no row with an in-range weekly day
      is due at the same instant */
  lemma NothingDueAfterAdvance(rows: map<string, Schedule>, now: DateTime)
    requires forall k :: k in rows ==> ValidSchedule(rows[k])
    requires ValidDateTime(now)
    ensures var after := Advanced(rows, DueIds(rows, now), now);
            forall id :: id in after && WeekdayInRange(after[id].scheduleType, after[id].dayOfWeek) ==>
              !IsDue(after[id], now)
  {
    var after := Advanced(rows, DueIds(rows, now), now);
    forall id | id in after && WeekdayInRange(after[id].scheduleType, after[id].dayOfWeek)
      ensures !IsDue(after[id], now)
    {
      AfterRunNotDue(rows[id], now);
    }
  }

  /** A weekly row with DayOfWeek = -2 that a Saturday poll runs is selected again
      by the next poll, however soon: runDueSchedules re-triggers it. */
  lemma RetriggeredByNextPoll(rows: map<string, Schedule>, id: string, now: DateTime, later: DateTime)
    requires forall k :: k in rows ==> ValidSchedule(rows[k])
    requires ValidDateTime(now) && ValidDateTime(later) && Stamp(now) <= Stamp(later)
    requires id in rows && IsDue(rows[id], now)
    requires rows[id].scheduleType == Some("weekly") && rows[id].dayOfWeek == Some(-2)
    requires DayOfWeek(now.date) == 6
    ensures var after := Advanced(rows, DueIds(rows, now), now);
            (forall k :: k in after ==> ValidSchedule(after[k]))
            && id in DueIds(after, later)
  {
    var after := Advanced(rows, DueIds(rows, now), now);
    assert after[id] == AfterRun(rows[id], now);
    AfterRunStaysDue(rows[id], now);
  }

  /** The table after the polls in `polls` have each advanced the rows due at them */
  function PolledAt(rows: map<string, Schedule>, polls: seq<DateTime>): (r: map<string, Schedule>)
    requires forall k :: k in rows ==> ValidSchedule(rows[k])
    requires forall i :: 0 <= i < |polls| ==> ValidDateTime(polls[i])
    ensures r.Keys == rows.Keys && forall k :: k in r ==> ValidSchedule(r[k])
    decreases |polls|
  {
    if polls == [] then rows
    else PolledAt(Advanced(rows, DueIds(rows, polls[0]), polls[0]), polls[1..])
  }

  /** Once such a row has fired on a Saturday, every poll of a run of Saturday
      polls selects it again: each one stores the day before as its next run. */
  lemma {:induction false} RetriggeredEverySaturdayPoll(rows: map<string, Schedule>, id: string, polls: seq<DateTime>)
    requires forall k :: k in rows ==> ValidSchedule(rows[k])
    requires forall i :: 0 <= i < |polls| ==> ValidDateTime(polls[i]) && DayOfWeek(polls[i].date) == 6
    requires forall i :: 0 <= i < |polls| - 1 ==> Stamp(polls[i]) <= Stamp(polls[i + 1])
    requires polls != [] && id in rows && IsDue(rows[id], polls[0])
    requires rows[id].scheduleType == Some("weekly") && rows[id].dayOfWeek == Some(-2)
    ensures forall i :: 0 <= i < |polls| ==> id in DueIds(PolledAt(rows, polls[..i]), polls[i])
    decreases |polls|
  {
    assert polls[..0] == [];
    if |polls| > 1 {
      var after := Advanced(rows, DueIds(rows, polls[0]), polls[0]);
      RetriggeredByNextPoll(rows, id, polls[0], polls[1]);
      assert after[id] == AfterRun(rows[id], polls[0]);
      RetriggeredEverySaturdayPoll(after, id, polls[1..]);
      forall i | 1 <= i < |polls|
        ensures id in DueIds(PolledAt(rows, polls[..i]), polls[i])
      {
        assert polls[..i][1..] == polls[1..][..i - 1];
        assert polls[..i][0] == polls[0];
        assert polls[1..][i - 1] == polls[i];
      }
    }
  }

  /** The UPDATE of updateSchedule: each argument replaces the stored value
      unless it is null, and a null name, type or time is written as "", "daily", "00:00". */
  datatype ScheduleUpdate = ScheduleUpdate(
    name: string,
    scheduleType: string,
    runAtTime: string,
    dayOfWeek: Option<Int32>,
    dayOfMonth: Option<Int32>,
    sourcePath: Option<string>,
    enabled: bool,
    nextRunAt: Option<DateTime>)

  /** null-coalescing: `a != null ? a : b` */
  function Or<T>(a: Option<T>, b: Option<T>): Option<T> {
    if a.Some? then a else b
  }

  /** The merge of updateSchedule. `cur` is the stored row, None when the id is
      unknown (the stored values are then null and enabled is true). */
  function MergeUpdate(cur: Option<Schedule>, name: Option<string>, scheduleType: Option<string>,
                       runAtTime: Option<string>, dayOfWeek: Option<Int32>, dayOfMonth: Option<Int32>,
                       sourcePath: Option<string>, enabled: Option<bool>, now: DateTime): (u: ScheduleUpdate)
    requires ValidDateTime(now)
    ensures u.nextRunAt.Some? ==> ValidDateTime(u.nextRunAt.value)
  {
    var n := Or(name, if cur.Some? then cur.value.name else None);
    var t := Or(scheduleType, if cur.Some? then cur.value.scheduleType else None);
    var rt := Or(runAtTime, if cur.Some? then cur.value.runAtTime else None);
    var dow := Or(dayOfWeek, if cur.Some? then cur.value.dayOfWeek else None);
    var dom := Or(dayOfMonth, if cur.Some? then cur.value.dayOfMonth else None);
    var sp := Or(sourcePath, if cur.Some? then cur.value.sourcePath else None);
    var en := if enabled.Some? then enabled.value else if cur.Some? then cur.value.enabled else true;
    var next := if en then Some(ComputeNextRunAsWritten(t, rt, dow, dom, now)) else None;
    ScheduleUpdate(n.GetOr(""), t.GetOr("daily"), rt.GetOr("00:00"), dow, dom, sp, en, next)
  }

  function ApplyUpdate(s: Schedule, u: ScheduleUpdate, now: DateTime): (r: Schedule)
    requires ValidSchedule(s) && ValidDateTime(now)
    requires u.nextRunAt.Some? ==> ValidDateTime(u.nextRunAt.value)
    ensures ValidSchedule(r)
  {
    s.(name := Some(u.name), scheduleType := Some(u.scheduleType), runAtTime := Some(u.runAtTime),
       dayOfWeek := u.dayOfWeek, dayOfMonth := u.dayOfMonth, sourcePath := u.sourcePath,
       enabled := u.enabled, updatedAt := now, nextRunAt := u.nextRunAt)
  }

  lemma DailyDefaultIsDaily(runAtTime: Option<string>, dow: Option<Int32>, dom: Option<Int32>, now: DateTime)
    requires ValidDateTime(now)
    ensures ComputeNextRunAsWritten(None, runAtTime, dow, dom, now)
            == ComputeNextRunAsWritten(Some("daily"), runAtTime, dow, dom, now)
  {
  }

  lemma MidnightDefault()
    ensures RunMinute(None) == RunMinute(Some("00:00"))
  {
    RunMinuteExamples();
  }

  /** The merge keeps every stored value whose argument is null, takes every
      non-null argument, and leaves a disabled schedule with no next run while an
      enabled one gets the next run its own stored rule reproduces, which is after
      `now` whenever the weekly day is in range. */
  lemma MergeUpdateSemantics(s: Schedule, name: Option<string>, scheduleType: Option<string>,
                             runAtTime: Option<string>, dayOfWeek: Option<Int32>, dayOfMonth: Option<Int32>,
                             sourcePath: Option<string>, enabled: Option<bool>, now: DateTime)
    requires ValidSchedule(s) && ValidDateTime(now)
    ensures var u := MergeUpdate(Some(s), name, scheduleType, runAtTime, dayOfWeek, dayOfMonth, sourcePath, enabled, now);
            var r := ApplyUpdate(s, u, now);
            && r.dayOfWeek == (if dayOfWeek.Some? then dayOfWeek else s.dayOfWeek)
            && r.dayOfMonth == (if dayOfMonth.Some? then dayOfMonth else s.dayOfMonth)
            && r.sourcePath == (if sourcePath.Some? then sourcePath else s.sourcePath)
            && r.name == Some(if name.Some? then name.value else s.name.GetOr(""))
            && r.enabled == (if enabled.Some? then enabled.value else s.enabled)
            && (r.enabled <==> r.nextRunAt.Some?)
            && (r.nextRunAt.Some? ==> r.nextRunAt.value == NextRunOf(r, now))
            && (r.nextRunAt.Some? && WeekdayInRange(r.scheduleType, r.dayOfWeek) ==> IsAfter(r.nextRunAt.value, now))
            && r.createdAt == s.createdAt && r.lastRunAt == s.lastRunAt && r.updatedAt == now
  {
    var t := Or(scheduleType, s.scheduleType);
    var rt := Or(runAtTime, s.runAtTime);
    DailyDefaultIsDaily(rt, Or(dayOfWeek, s.dayOfWeek), Or(dayOfMonth, s.dayOfMonth), now);
    MidnightDefault();
  }

  /** With no stored row, enabled defaults to true, so a next run is computed
      unless the caller disables the schedule. */
  lemma MergeUpdateMissingRow(name: Option<string>, scheduleType: Option<string>,
                              runAtTime: Option<string>, dayOfWeek: Option<Int32>, dayOfMonth: Option<Int32>,
                              sourcePath: Option<string>, enabled: Option<bool>, now: DateTime)
    requires ValidDateTime(now)
    ensures var u := MergeUpdate(None, name, scheduleType, runAtTime, dayOfWeek, dayOfMonth, sourcePath, enabled, now);
            && u.enabled == (enabled != Some(false))
            && (u.nextRunAt.Some? <==> enabled != Some(false))
            && u.scheduleType == scheduleType.GetOr("daily")
            && u.runAtTime == runAtTime.GetOr("00:00")
  {
  }

  /** The row createSchedule inserts */
  function NewSchedule(name: Option<string>, scheduleType: Option<string>, runAtTime: Option<string>,
                       dayOfWeek: Option<Int32>, dayOfMonth: Option<Int32>, sourcePath: Option<string>,
                       now: DateTime): (s: Schedule)
    requires ValidDateTime(now)
    ensures ValidSchedule(s)
  {
    Schedule(name, scheduleType, Some(runAtTime.GetOr("00:00")), dayOfWeek, dayOfMonth, sourcePath,
             true, now, now, None, Some(ComputeNextRunAsWritten(scheduleType, runAtTime, dayOfWeek, dayOfMonth, now)))
  }

  /** A new schedule is enabled, has never run, and its next run is the one its
      stored rule gives (a null run time is stored as "00:00"), after `now`
      whenever the weekly day is in range. */
  lemma NewScheduleSemantics(name: Option<string>, scheduleType: Option<string>, runAtTime: Option<string>,
                             dayOfWeek: Option<Int32>, dayOfMonth: Option<Int32>, sourcePath: Option<string>,
                             now: DateTime)
    requires ValidDateTime(now)
    ensures var s := NewSchedule(name, scheduleType, runAtTime, dayOfWeek, dayOfMonth, sourcePath, now);
            && s.enabled && s.lastRunAt.None? && s.createdAt == now && s.updatedAt == now
            && s.runAtTime == Some(runAtTime.GetOr("00:00"))
            && s.nextRunAt.Some? && s.nextRunAt.value == NextRunOf(s, now)
            && (WeekdayInRange(scheduleType, dayOfWeek) ==> IsAfter(s.nextRunAt.value, now))
            && s.scheduleType == scheduleType
  {
    MidnightDefault();
  }

  /** PipelineSchedules, keyed by ScheduleId */
  class ScheduleTable {
    var rows: map<string, Schedule>

    ghost predicate Valid()
      reads this
    {
      forall id :: id in rows ==> ValidSchedule(rows[id])
    }

    constructor()
      ensures rows == map[] && Valid()
    {
      rows := map[];
    }

    /** updateAfterRun: LastRunAt = UpdatedAt = now and NextRunAt recomputed from
        now, for this ScheduleId only (an unknown id matches no row). */
    method UpdateAfterRun(id: string, now: DateTime)
      requires Valid() && ValidDateTime(now)
      modifies this
      ensures Valid()
      ensures id in old(rows) ==> rows == old(rows)[id := AfterRun(old(rows)[id], now)]
      ensures id !in old(rows) ==> rows == old(rows)
    {
      if id in rows {
        rows := rows[id := AfterRun(rows[id], now)];
      }
    }

    /** runDueSchedules: every due row is triggered and then advanced, whether or
        not its trigger threw; `triggerThrows` stands for startPipelineRun failing on
        a source path. The result rows have no order in SQL; `processed` is the
        order this loop chose, `failed` the ids whose trigger threw. The code reads
        two clocks, the poll's SYSDATETIMEOFFSET() and updateAfterRun's
        ZonedDateTime.now(); `now` stands for both. */
    method RunDueSchedules(now: DateTime, triggerThrows: Option<string> -> bool)
      returns (processed: seq<string>, failed: seq<string>)
      requires Valid() && ValidDateTime(now)
      modifies this
      ensures Valid()
      ensures forall id :: id in processed <==> id in DueIds(old(rows), now)
      ensures |processed| == |DueIds(old(rows), now)|
      ensures rows == Advanced(old(rows), DueIds(old(rows), now), now)
      ensures forall id :: id in failed <==> id in old(rows) && id in processed && triggerThrows(old(rows)[id].sourcePath)
      ensures forall id :: id in rows && WeekdayInRange(rows[id].scheduleType, rows[id].dayOfWeek) ==>
                !IsDue(rows[id], now)
    {
      ghost var start := rows;
      var due := DueIds(rows, now);
      processed, failed := RunEach(due, now, triggerThrows);
      NothingDueAfterAdvance(start, now);
    }

    /** The loop of runDueSchedules over the rows it selected */
    method RunEach(due: set<string>, now: DateTime, triggerThrows: Option<string> -> bool)
      returns (processed: seq<string>, failed: seq<string>)
      requires Valid() && ValidDateTime(now) && due <= rows.Keys
      modifies this
      ensures Valid()
      ensures forall id :: id in processed <==> id in due
      ensures |processed| == |due|
      ensures rows == Advanced(old(rows), due, now)
      ensures forall id :: id in failed <==> id in old(rows) && id in processed && triggerThrows(old(rows)[id].sourcePath)
    {
      ghost var start := rows;
      var remaining := due;
      ghost var done: set<string> := {};
      processed := [];
      failed := [];
      while remaining != {}
        invariant Valid()
        invariant forall id :: id in due <==> id in done || id in remaining
        invariant forall id :: id in done ==> id !in remaining
        invariant forall id :: id in processed <==> id in done
        invariant |processed| == |done|
        invariant rows.Keys == start.Keys
        invariant rows == Advanced(start, done, now)
        invariant forall id :: id in failed <==> id in start && id in processed && triggerThrows(start[id].sourcePath)
        decreases remaining
      {
        var id :| id in remaining;
        assert id !in done;
        assert rows[id] == start[id];
        if triggerThrows(rows[id].sourcePath) {
          failed := failed + [id];
        }
        AdvanceOneMore(start, done, id, now);
        UpdateAfterRun(id, now);
        processed := processed + [id];
        done := done + {id};
        remaining := remaining - {id};
      }
      assert done == due;
    }

    /** createSchedule; `id` stands for the random UUID. An id already present is a
        primary-key violation: the insert fails and nothing changes. */
    method CreateSchedule(id: string, name: Option<string>, scheduleType: Option<string>,
                          runAtTime: Option<string>, dayOfWeek: Option<Int32>, dayOfMonth: Option<Int32>,
                          sourcePath: Option<string>, now: DateTime)
      returns (r: Option<string>)
      requires Valid() && ValidDateTime(now)
      modifies this
      ensures Valid()
      ensures id in old(rows) ==> r.None? && rows == old(rows)
      ensures id !in old(rows) ==>
                r == Some(id)
                && rows == old(rows)[id := NewSchedule(name, scheduleType, runAtTime, dayOfWeek, dayOfMonth, sourcePath, now)]
    {
      if id in rows {
        return None;
      }
      rows := rows[id := NewSchedule(name, scheduleType, runAtTime, dayOfWeek, dayOfMonth, sourcePath, now)];
      r := Some(id);
    }

    /** updateSchedule: read, merge, write back; an unknown id updates nothing */
    method UpdateSchedule(id: string, name: Option<string>, scheduleType: Option<string>,
                          runAtTime: Option<string>, dayOfWeek: Option<Int32>, dayOfMonth: Option<Int32>,
                          sourcePath: Option<string>, enabled: Option<bool>, now: DateTime)
      requires Valid() && ValidDateTime(now)
      modifies this
      ensures Valid()
      ensures id in old(rows) ==> rows == old(rows)[id := ApplyUpdate(old(rows)[id],
                MergeUpdate(Some(old(rows)[id]), name, scheduleType, runAtTime, dayOfWeek, dayOfMonth, sourcePath, enabled, now), now)]
      ensures id !in old(rows) ==> rows == old(rows)
    {
      var cur := if id in rows then Some(rows[id]) else None;
      var u := MergeUpdate(cur, name, scheduleType, runAtTime, dayOfWeek, dayOfMonth, sourcePath, enabled, now);
      if id in rows {
        rows := rows[id := ApplyUpdate(rows[id], u, now)];
      }
    }

    /** deleteSchedule */
    method DeleteSchedule(id: string)
      requires Valid()
      modifies this
      ensures Valid()
      ensures rows == old(rows) - {id}
    {
      rows := rows - {id};
    }
  }
}
