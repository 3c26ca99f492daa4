/** The date arithmetic the ingestion scripts get from Python's `datetime`:
    proleptic Gregorian dates, wall-clock date-times, the checks the
    `datetime(...)` constructor makes, and the fixed UTC-5 shift used for
    Colombian local time. Times are counted in seconds since 1970-01-01. */
module Calendar {
  import opened Text

  const SecondsPerDay: int := 86400

  /** The fields of a Python `datetime` (without microseconds). */
  datatype DateTime = DateTime(year: int, month: int, day: int, hour: int, minute: int, second: int)

  predicate IsLeapYear(y: int) {
    y % 4 == 0 && (y % 100 != 0 || y % 400 == 0)
  }

  function DaysInMonth(y: int, m: int): (n: int)
    requires 1 <= m <= 12
    ensures 28 <= n <= 31
  {
    if m == 2 then (if IsLeapYear(y) then 29 else 28)
    else if m == 4 || m == 6 || m == 9 || m == 11 then 30
    else 31
  }

  /** The arguments `datetime(year, month, day, hour, minute, second)`
      accepts; any other combination raises ValueError. */
  predicate IsValidDateTime(dt: DateTime) {
    && 1 <= dt.year <= 9999
    && 1 <= dt.month <= 12
    && 1 <= dt.day <= DaysInMonth(dt.year, dt.month)
    && 0 <= dt.hour <= 23
    && 0 <= dt.minute <= 59
    && 0 <= dt.second <= 59
  }

  /** Days from 1970-01-01 to the given date (negative before it). */
  function DaysFromCivil(y: int, m: int, d: int): int {
    var y' := if m <= 2 then y - 1 else y;
    var era := y' / 400;
    var yoe := y' - era * 400;
    var mp := if m > 2 then m - 3 else m + 9;
    var doy := (153 * mp + 2) / 5 + d - 1;
    var doe := yoe * 365 + yoe / 4 - yoe / 100 + doy;
    era * 146097 + doe - 719468
  }

  /** The (year, month, day) that lies `z` days after 1970-01-01. */
  function CivilFromDays(z: int): (int, int, int) {
    var z' := z + 719468;
    var era := z' / 146097;
    var doe := z' - era * 146097;
    var yoe := (doe - doe / 1460 + doe / 36524 - doe / 146096) / 365;
    var doy := doe - (365 * yoe + yoe / 4 - yoe / 100);
    var mp := (5 * doy + 2) / 153;
    var d := doy - (153 * mp + 2) / 5 + 1;
    var m := if mp < 10 then mp + 3 else mp - 9;
    var y := yoe + era * 400;
    (if m <= 2 then y + 1 else y, m, d)
  }

  /** Days before year `yoe` of a 400-year era whose years start on
      March 1st. */
  function YearStart(yoe: int): int { 365 * yoe + yoe / 4 - yoe / 100 }

  /** `x / k` is `q` when `x` lies in `q`'s block of `k`. */
  lemma DivIs(x: int, k: int, q: int)
    requires k > 0 && q * k <= x < q * k + k
    ensures x / k == q
  {
    var d := x / k;
    if d < q {
      MulMono(d + 1, q, k);
    } else if d > q {
      MulMono(q + 1, d, k);
    }
  }

  lemma MulMono(a: int, b: int, k: int)
    requires a <= b && k > 0
    ensures a * k <= b * k
  {
    assert b * k - a * k == (b - a) * k;
  }

  /** Adding multiples of `n` keeps the remainder. */
  lemma ModShift(x: int, n: int, k: int, a: int)
    requires n > 0 && x == n * k + a
    ensures x % n == a % n
  {
    assert x == (k + a / n) * n + a % n;
    DivIs(x, n, k + a / n);
  }

  /** Day `d` of month `mp` (March is 0) is day `doy` of the March-based
      year, and the month and day come back from it. */
  lemma DayOfYear(mp: int, d: int, len: int)
    requires 0 <= mp <= 11 && 1 <= d <= len
    requires len == (if mp == 11 then 29 else if mp in {1, 3, 6, 8} then 30 else 31)
    ensures var doy := (153 * mp + 2) / 5 + d - 1;
            0 <= doy <= 365 && (doy == 365 ==> mp == 11 && d == 29)
            && (5 * doy + 2) / 153 == mp
  {
    var doy := (153 * mp + 2) / 5 + d - 1;
    DivIs(5 * doy + 2, 153, mp);
  }

  /** Day `doy` of year `yoe` of an era is day `YearStart(yoe) + doy` of the
      era, and the year comes back from it (a 366th day only in a year that
      ends with a leap day). */
  lemma YearOfEra(yoe: int, doy: int)
    requires 0 <= yoe <= 399 && 0 <= doy <= 365
    requires doy == 365 ==> yoe % 4 == 3 && (yoe % 100 != 99 || yoe == 399)
    ensures var doe := YearStart(yoe) + doy;
            0 <= doe <= 146096
            && (doe - doe / 1460 + doe / 36524 - doe / 146096) / 365 == yoe
  {
    var h, q, r := yoe / 100, yoe % 100 / 4, yoe % 4;
    assert yoe == 100 * h + 4 * q + r && 0 <= h <= 3 && 0 <= q <= 24 && 0 <= r <= 3;
    assert yoe / 4 == 25 * h + q;
    var doe := YearStart(yoe) + doy;
    assert doe == 36524 * h + 1461 * q + 365 * r + doy;
    var last := doe == 146096;
    var e := if last then 1 else 0;
    DivIs(doe, 146096, e);
    DivIs(doe, 36524, h + e);
    var c := if 24 * h + q + 365 * r + doy >= 1460 then 1 else 0;
    DivIs(doe, 1460, 25 * h + q + c);
    var x := doe - doe / 1460 + doe / 36524 - doe / 146096;
    assert x == 365 * yoe + doy - c;
    DivIs(x, 365, yoe);
  }

  /** A February 29th valid in the year after year `yoe` of an era ends
      a year that is long in the era's count. */
  lemma LeapInEra(era: int, yoe: int)
    requires 0 <= yoe <= 399 && IsLeapYear(era * 400 + yoe + 1)
    ensures yoe % 4 == 3 && (yoe % 100 != 99 || yoe == 399)
  {
    var y := era * 400 + yoe + 1;
    ModShift(y, 4, era * 100, yoe + 1);
    ModShift(y, 100, era * 4, yoe + 1);
    ModShift(y, 400, era, yoe + 1);
  }

  /** `DaysFromCivil` through its intermediate values. */
  lemma DaysFromCivilAt(y: int, m: int, d: int, era: int, yoe: int, mp: int, doy: int)
    requires era == (if m <= 2 then y - 1 else y) / 400
    requires yoe == (if m <= 2 then y - 1 else y) - era * 400
    requires mp == (if m > 2 then m - 3 else m + 9) && doy == (153 * mp + 2) / 5 + d - 1
    ensures DaysFromCivil(y, m, d) + 719468 == era * 146097 + YearStart(yoe) + doy
  {
  }

  /** `CivilFromDays` through its intermediate values. */
  lemma CivilFromDaysAt(z: int, era: int, doe: int, yoe: int, doy: int, mp: int)
    requires (z + 719468) / 146097 == era && z + 719468 - era * 146097 == doe
    requires (doe - doe / 1460 + doe / 36524 - doe / 146096) / 365 == yoe
    requires doe - (365 * yoe + yoe / 4 - yoe / 100) == doy
    requires (5 * doy + 2) / 153 == mp
    ensures var m := if mp < 10 then mp + 3 else mp - 9;
            var y := yoe + era * 400;
            CivilFromDays(z) == (if m <= 2 then y + 1 else y, m, doy - (153 * mp + 2) / 5 + 1)
  {
  }

  /** The date `z` days after 1970-01-01 when `z` falls on day `doy` of
      year `yoe` of era `era`. */
  lemma CivilFromDaysOfEra(z: int, era: int, yoe: int, doy: int, mp: int)
    requires 0 <= yoe <= 399 && 0 <= doy <= 365
    requires doy == 365 ==> yoe % 4 == 3 && (yoe % 100 != 99 || yoe == 399)
    requires z + 719468 == era * 146097 + YearStart(yoe) + doy
    requires (5 * doy + 2) / 153 == mp
    ensures var m := if mp < 10 then mp + 3 else mp - 9;
            var y := yoe + era * 400;
            CivilFromDays(z) == (if m <= 2 then y + 1 else y, m, doy - (153 * mp + 2) / 5 + 1)
  {
    YearOfEra(yoe, doy);
    var doe := YearStart(yoe) + doy;
    DivIs(z + 719468, 146097, era);
    CivilFromDaysAt(z, era, doe, yoe, doy, mp);
  }

  /** `CivilFromDays` undoes `DaysFromCivil` on every valid date. */
  lemma CivilRoundTrip(y: int, m: int, d: int)
    requires 1 <= m <= 12 && 1 <= d <= DaysInMonth(y, m)
    ensures CivilFromDays(DaysFromCivil(y, m, d)) == (y, m, d)
  {
    var y' := if m <= 2 then y - 1 else y;
    var era := y' / 400;
    var yoe := y' - era * 400;
    var mp := if m > 2 then m - 3 else m + 9;
    var doy := (153 * mp + 2) / 5 + d - 1;
    DayOfYear(mp, d, if mp == 11 then 29 else DaysInMonth(y, m));
    if doy == 365 {
      LeapInEra(era, yoe);
    }
    DaysFromCivilAt(y, m, d, era, yoe, mp, doy);
    CivilFromDaysOfEra(DaysFromCivil(y, m, d), era, yoe, doy, mp);
  }

  /** The wall-clock fields of the moment `t` seconds after 1970-01-01T00:00. */
  function FromSeconds(t: int): (dt: DateTime)
    ensures 0 <= dt.hour <= 23 && 0 <= dt.minute <= 59 && 0 <= dt.second <= 59
  {
    var (y, m, d) := CivilFromDays(t / SecondsPerDay);
    var sod := t % SecondsPerDay;
    DateTime(y, m, d, sod / 3600, sod % 3600 / 60, sod % 60)
  }

  /** Seconds from 1970-01-01T00:00 to the wall-clock moment `dt`: the order
      in which stored timestamps sort. */
  function Instant(dt: DateTime): int {
    DaysFromCivil(dt.year, dt.month, dt.day) * SecondsPerDay
    + dt.hour * 3600 + dt.minute * 60 + dt.second
  }

  /** Python's `date.weekday()` for the day `days` after 1970-01-01 (a
      Thursday): Monday is 0. */
  function Weekday(days: int): (w: int)
    ensures 0 <= w < 7
  {
    (days + 3) % 7
  }

  /** The hour, minute and second of a second-of-day count. */
  lemma ClockOf(sod: int, h: int, mi: int, sec: int)
    requires 0 <= h <= 23 && 0 <= mi <= 59 && 0 <= sec <= 59
    requires sod == h * 3600 + mi * 60 + sec
    ensures sod / 3600 == h && sod % 3600 / 60 == mi && sod % 60 == sec
  {
    DivIs(sod, 3600, h);
    DivIs(sod % 3600, 60, mi);
    DivIs(sod, 60, h * 60 + mi);
  }

  /** The year `yoe` and day `doy` of a 400-year era on which its day `doe`
      falls: the inverse of `YearStart(yoe) + doy`. */
  lemma EraYearOf(doe: int) returns (yoe: int, doy: int)
    requires 0 <= doe <= 146096
    ensures 0 <= yoe <= 399 && 0 <= doy <= 365 && doe == YearStart(yoe) + doy
    ensures doy == 365 ==> yoe % 4 == 3 && (yoe % 100 != 99 || yoe == 399)
  {
    var h := if doe / 36524 > 3 then 3 else doe / 36524;
    var rest := doe - 36524 * h;
    var q := rest / 1461;
    var left := rest - 1461 * q;
    var r := if left / 365 > 3 then 3 else left / 365;
    doy := left - 365 * r;
    yoe := 100 * h + 4 * q + r;
    DivIs(yoe, 4, 25 * h + q);
    DivIs(yoe, 100, h);
  }

  /** The month `mp` (March is 0) and day of day `doy` of a March-based
      year: within that month, and February 29th only as day 365. */
  lemma MonthOfDay(doy: int)
    requires 0 <= doy <= 365
    ensures var mp := (5 * doy + 2) / 153;
            var d := doy - (153 * mp + 2) / 5 + 1;
            && 0 <= mp <= 11
            && 1 <= d <= (if mp == 11 then 29 else if mp in {1, 3, 6, 8} then 30 else 31)
            && (mp == 11 && d == 29 ==> doy == 365)
  {
    var mp := (5 * doy + 2) / 153;
    assert 153 * mp <= 5 * doy + 2 < 153 * mp + 153;
  }

  /** The converse of `LeapInEra`: a year that is long in the era's count
      ends with a February 29th. */
  lemma LeapOfEra(era: int, yoe: int)
    requires 0 <= yoe <= 399 && yoe % 4 == 3 && (yoe % 100 != 99 || yoe == 399)
    ensures IsLeapYear(era * 400 + yoe + 1)
  {
    var y := era * 400 + yoe + 1;
    ModShift(y, 4, era * 100, yoe + 1);
    ModShift(y, 100, era * 4, yoe + 1);
    ModShift(y, 400, era, yoe + 1);
  }

  /** Every day number is a valid date, which `DaysFromCivil` turns back into
      the same day number. */
  lemma CivilFromDaysValid(z: int)
    ensures var (y, m, d) := CivilFromDays(z);
            1 <= m <= 12 && 1 <= d <= DaysInMonth(y, m) && DaysFromCivil(y, m, d) == z
  {
    var era := (z + 719468) / 146097;
    var yoe, doy := EraYearOf(z + 719468 - era * 146097);
    CivilFromDaysOfEra(z, era, yoe, doy, (5 * doy + 2) / 153);
    var t := EraDate(era, yoe, doy);
    assert CivilFromDays(z) == t;
    DateOfEraDay(era, yoe, doy);
  }

  /** The date `CivilFromDays` reads off day `doy` of year `yoe` of era
      `era`. */
  function EraDate(era: int, yoe: int, doy: int): (int, int, int) {
    var mp := (5 * doy + 2) / 153;
    var m := if mp < 10 then mp + 3 else mp - 9;
    var y := yoe + era * 400;
    (if m <= 2 then y + 1 else y, m, doy - (153 * mp + 2) / 5 + 1)
  }

  /** Day `doy` of year `yoe` of era `era`, read as a date, is valid and has
      that day number. */
  lemma DateOfEraDay(era: int, yoe: int, doy: int)
    requires 0 <= yoe <= 399 && 0 <= doy <= 365
    requires doy == 365 ==> yoe % 4 == 3 && (yoe % 100 != 99 || yoe == 399)
    ensures var (y, m, d) := EraDate(era, yoe, doy);
            && 1 <= m <= 12 && 1 <= d <= DaysInMonth(y, m)
            && DaysFromCivil(y, m, d) + 719468 == era * 146097 + YearStart(yoe) + doy
  {
    var mp := (5 * doy + 2) / 153;
    MonthOfDay(doy);
    var m := if mp < 10 then mp + 3 else mp - 9;
    var d := doy - (153 * mp + 2) / 5 + 1;
    if mp == 11 && d == 29 {
      LeapOfEra(era, yoe);
    }
    var y := if m <= 2 then yoe + era * 400 + 1 else yoe + era * 400;
    assert EraDate(era, yoe, doy) == (y, m, d);
    assert d <= (if mp == 11 then 29 else if mp in {1, 3, 6, 8} then 30 else 31);
    assert mp == 11 && d == 29 ==> IsLeapYear(y);
    DivIs(yoe + era * 400, 400, era);
    DaysFromCivilAt(y, m, d, era, yoe, mp, doy);
  }

  /** Consecutive years of an era start 365 or 366 days apart. */
  lemma YearStartStep(yoe: int)
    requires 0 <= yoe < 399
    ensures 365 <= YearStart(yoe + 1) - YearStart(yoe) <= 366
  {
    var a, b := yoe / 4, yoe / 100;
    DivIs(yoe + 1, 4, if (yoe + 1) % 4 == 0 then a + 1 else a);
    DivIs(yoe + 1, 100, if (yoe + 1) % 100 == 0 then b + 1 else b);
  }

  /** A March-based year (March 1st of `y` to the end of February of `y + 1`)
      has 365 or 366 days. */
  lemma MarchYearLength(y: int)
    ensures 365 <= DaysFromCivil(y + 1, 3, 1) - DaysFromCivil(y, 3, 1) <= 366
  {
    var era := y / 400;
    var yoe := y - era * 400;
    DaysFromCivilAt(y, 3, 1, era, yoe, 0, 0);
    if yoe < 399 {
      DivIs(y + 1, 400, era);
      DaysFromCivilAt(y + 1, 3, 1, era, yoe + 1, 0, 0);
      YearStartStep(yoe);
    } else {
      DivIs(y + 1, 400, era + 1);
      DaysFromCivilAt(y + 1, 3, 1, era + 1, 0, 0, 0);
    }
  }

  /** A valid date lies 0 to 365 days after January 1st of its year. */
  lemma DaysIntoYear(y: int, m: int, d: int)
    requires 1 <= m <= 12 && 1 <= d <= DaysInMonth(y, m)
    ensures 0 <= DaysFromCivil(y, m, d) - DaysFromCivil(y, 1, 1) <= 365
  {
    if m >= 3 {
      MarchYearLength(y - 1);
    }
  }

  /** `FromSeconds` through the day count and second of day of `t`. */
  lemma FromSecondsAt(t: int, days: int, sod: int)
    requires t / SecondsPerDay == days && t % SecondsPerDay == sod
    ensures var (y, m, d) := CivilFromDays(days);
            FromSeconds(t) == DateTime(y, m, d, sod / 3600, sod % 3600 / 60, sod % 60)
  {
  }

  /** `FromSeconds` reads back every valid wall-clock moment from its
      second count. */
  lemma FromSecondsOfInstant(dt: DateTime)
    requires IsValidDateTime(dt)
    ensures FromSeconds(Instant(dt)) == dt
  {
    var days := DaysFromCivil(dt.year, dt.month, dt.day);
    var sod := dt.hour * 3600 + dt.minute * 60 + dt.second;
    DivModUnique(Instant(dt), days, sod);
    FromSecondsAt(Instant(dt), days, sod);
    CivilRoundTrip(dt.year, dt.month, dt.day);
    ClockOf(sod, dt.hour, dt.minute, dt.second);
  }

  /** 2024-01-01 was a Monday. */
  lemma WeekdayAnchor()
    ensures Weekday(DaysFromCivil(2024, 1, 1)) == 0
  {
  }

  /** Consecutive days have consecutive weekdays. */
  lemma WeekdayNext(days: int)
    ensures Weekday(days + 1) == (Weekday(days) + 1) % 7
  {
  }

  /** `timetuple().tm_yday`: 1 for January 1st. */
  function YearDay(days: int): (r: int)
    ensures 1 <= r <= 366
  {
    CivilFromDaysValid(days);
    var (y, m, d) := CivilFromDays(days);
    DaysIntoYear(y, m, d);
    days - DaysFromCivil(y, 1, 1) + 1
  }

  /** January 1st is day 1 of its year. */
  lemma YearDayOfNewYear(y: int)
    ensures YearDay(DaysFromCivil(y, 1, 1)) == 1
  {
    CivilRoundTrip(y, 1, 1);
  }

  /** A Python datetime as a wall-clock second count and, when it is aware,
      its UTC offset in seconds. */
  datatype Moment = Moment(wall: int, utcOffset: Option<int>)

  /** The instant a moment denotes, counted in UTC; a naive moment is read as
      UTC, as `normalize_to_colombia_time` does. */
  function UtcInstant(m: Moment): int {
    m.wall - m.utcOffset.GetOr(0)
  }

  /** Colombian time: UTC-5, with no daylight saving. */
  const ColombiaOffset: int := -5 * 3600

  /** `normalize_to_colombia_time`: the same instant, told in UTC-5. */
  function NormalizeToColombiaTime(m: Moment): (r: Moment)
    ensures r.utcOffset == Some(ColombiaOffset)
    ensures UtcInstant(r) == UtcInstant(m)
    ensures m.utcOffset.None? ==> r.wall == m.wall - 5 * 3600
  {
    var utc := if m.utcOffset.None? then m.wall else UtcInstant(m);
    Moment(utc + ColombiaOffset, Some(ColombiaOffset))
  }

  /** Midnight (naive, so read as UTC) of day `day` is 19:00 of the day before
      in Colombia. */
  lemma MidnightInColombia(day: int)
    ensures NormalizeToColombiaTime(Moment(day * SecondsPerDay, None)).wall / SecondsPerDay == day - 1
    ensures var dt := FromSeconds(NormalizeToColombiaTime(Moment(day * SecondsPerDay, None)).wall);
            && (dt.year, dt.month, dt.day) == CivilFromDays(day - 1)
            && dt.hour == 19 && dt.minute == 0 && dt.second == 0
            && Instant(dt) == (day - 1) * SecondsPerDay + 19 * 3600
            && (IsValidDateTime(dt) <==> 1 <= dt.year <= 9999)
  {
    var w := NormalizeToColombiaTime(Moment(day * SecondsPerDay, None)).wall;
    assert w == (day - 1) * SecondsPerDay + 19 * 3600;
    DivModUnique(w, day - 1, 68400);
    ClockedDate(w, day - 1, 19, 0, 0);
  }

  /** The moment `h:mi:sec` of day `z` reads back as that day's date and that
      clock, and denotes that instant again. */
  lemma ClockedDate(t: int, z: int, h: int, mi: int, sec: int)
    requires 0 <= h <= 23 && 0 <= mi <= 59 && 0 <= sec <= 59
    requires t == z * SecondsPerDay + h * 3600 + mi * 60 + sec
    ensures var dt := FromSeconds(t);
            && (dt.year, dt.month, dt.day) == CivilFromDays(z)
            && dt.hour == h && dt.minute == mi && dt.second == sec
            && Instant(dt) == t
            && (IsValidDateTime(dt) <==> 1 <= dt.year <= 9999)
  {
    var sod := h * 3600 + mi * 60 + sec;
    DivModUnique(t, z, sod);
    FromSecondsAt(t, z, sod);
    ClockOf(sod, h, mi, sec);
    CivilFromDaysValid(z);
  }

  lemma DivModUnique(t: int, q: int, r: int)
    requires 0 <= r < SecondsPerDay && t == q * SecondsPerDay + r
    ensures t / SecondsPerDay == q && t % SecondsPerDay == r
  {
  }
}
