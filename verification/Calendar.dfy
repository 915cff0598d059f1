/** The civil calendar of src/envelope.rs and its RFC 3339 time stamps.

    Rust's `div_euclid` is Dafny's `/`; its plain `/` and `%` are only applied to
    non-negative operands here, where the two agree. */
module Calendar {
  datatype Date = Date(y: int, m: int, d: int)

  /** A date counted the way the code does: a 400-year era, a year of it that starts on
      1 March, a month counted from March, a day. */
  datatype MarchDate = MarchDate(era: int, yoe: int, mp: int, d: int)

  // ---- the reference calendar: month lengths and the successor of a day ----

  predicate IsLeap(y: int) {
    y % 4 == 0 && (y % 100 != 0 || y % 400 == 0)
  }

  function DaysInMonth(y: int, m: int): int {
    if m == 2 then (if IsLeap(y) then 29 else 28)
    else if m == 4 || m == 6 || m == 9 || m == 11 then 30
    else 31
  }

  predicate ValidDate(c: Date) {
    1 <= c.m <= 12 && 1 <= c.d <= DaysInMonth(c.y, c.m)
  }

  function NextDay(c: Date): Date {
    if c.d < DaysInMonth(c.y, c.m) then Date(c.y, c.m, c.d + 1)
    else if c.m < 12 then Date(c.y, c.m + 1, 1)
    else Date(c.y + 1, 1, 1)
  }

  predicate Before(a: Date, b: Date) {
    a.y < b.y || (a.y == b.y && (a.m < b.m || (a.m == b.m && a.d < b.d)))
  }

  // ---- the code ----

  /** Day number within a 400-year era of years starting on 1 March. */
  function DayOfEra(yoe: int, doy: int): int {
    yoe * 365 + yoe / 4 - yoe / 100 + doy
  }

  function YearOfEra(doe: int): int {
    (doe - doe / 1460 + doe / 36524 - doe / 146096) / 365
  }

  function MarchOfDate(c: Date): MarchDate {
    var y := if c.m <= 2 then c.y - 1 else c.y;
    var era := y / 400;
    MarchDate(era, y - era * 400, (c.m + 9) % 12, c.d)
  }

  function DaysOfMarch(x: MarchDate): int {
    var doy := (153 * x.mp + 2) / 5 + x.d - 1;
    x.era * 146097 + DayOfEra(x.yoe, doy) - 719468
  }

  function DaysFromCivil(c: Date): int {
    DaysOfMarch(MarchOfDate(c))
  }

  function MarchOfDays(days: int): MarchDate {
    var z := days + 719468;
    var era := z / 146097;
    var doe := z - era * 146097;
    var yoe := YearOfEra(doe);
    var doy := doe - (365 * yoe + yoe / 4 - yoe / 100);
    var mp := (5 * doy + 2) / 153;
    MarchDate(era, yoe, mp, doy - (153 * mp + 2) / 5 + 1)
  }

  function DateOfMarch(x: MarchDate): Date {
    var y := x.yoe + x.era * 400;
    var m := if x.mp < 10 then x.mp + 3 else x.mp - 9;
    Date(if m <= 2 then y + 1 else y, m, x.d)
  }

  function CivilFromDays(days: int): Date {
    DateOfMarch(MarchOfDays(days))
  }

  // ---- the two conversions are inverse to each other ----

  /** A March-based year of the era has 366 days when the year it ends in is a leap year. */
  predicate LongYear(yoe: int) {
    (yoe + 1) % 4 == 0 && ((yoe + 1) % 100 != 0 || yoe + 1 == 400)
  }

  predicate DayOfYear(yoe: int, doy: int) {
    0 <= yoe < 400 && 0 <= doy <= 365 && (doy == 365 ==> LongYear(yoe))
  }

  lemma Mod4(k: int, x: int)
    ensures (4 * k + x) % 4 == x % 4
  {
  }

  lemma Mod100(k: int, x: int)
    ensures (100 * k + x) % 100 == x % 100
  {
  }

  lemma Mod400(k: int, x: int)
    ensures (400 * k + x) % 400 == x % 400
  {
  }

  lemma LeapCycles(c: int, q: int, low: int)
    requires 0 <= low < 2 * 1460
    ensures (1460 * (25 * c + q) + low) / 1460 == 25 * c + q + (if low < 1460 then 0 else 1)
  {
  }

  lemma Years(yoe: int, day: int)
    requires 0 <= day < 365
    ensures (365 * yoe + day) / 365 == yoe
  {
  }

  lemma CenturiesAndCycles(c: int, q: int, r: int)
    requires 0 <= c < 4 && 0 <= q < 25 && 0 <= r < 4
    ensures var yoe := 100 * c + 4 * q + r;
            && yoe / 100 == c && yoe / 4 == 25 * c + q
            && (LongYear(yoe) <==> r == 3 && (q < 24 || c == 3))
  {
    var yoe := 100 * c + 4 * q + r;
    Mod4(25 * c + q, r + 1);
    Mod100(c, 4 * q + r + 1);
    assert yoe + 1 == 4 * (25 * c + q) + (r + 1) == 100 * c + (4 * q + r + 1);
    assert (r + 1) % 4 == 0 <==> r == 3;
    assert (4 * q + r + 1) % 100 == 0 <==> q == 24 && r == 3;
  }

  lemma Centuries(c: int, x: int)
    requires 0 <= c < 4 && 0 <= x < 36524
    ensures (36524 * c + x) / 36524 == c && (36524 * c + x) / 146096 == 0
  {
  }

  /** Centuries, leap cycles and years make the era's day number a mixed-radix numeral. */
  lemma EraDigits(c: int, q: int, r: int, doy: int)
    requires 0 <= c < 4 && 0 <= q < 25 && 0 <= r < 4 && 0 <= doy <= 365
    requires doy == 365 ==> r == 3 && (q < 24 || c == 3)
    ensures DayOfYear(100 * c + 4 * q + r, doy)
    ensures DayOfEra(100 * c + 4 * q + r, doy) == 36524 * c + 1461 * q + 365 * r + doy
    ensures YearOfEra(36524 * c + 1461 * q + 365 * r + doy) == 100 * c + 4 * q + r
  {
    var yoe := 100 * c + 4 * q + r;
    var doe := 36524 * c + 1461 * q + 365 * r + doy;
    CenturiesAndCycles(c, q, r);
    hide LongYear;
    if q == 24 && r == 3 && doy == 365 {
      assert doe == 146096 && YearOfEra(146096) == 399;
    } else {
      hide YearOfEra;
      YearOfEraDigits(c, q, r, doy);
    }
  }

  lemma YearOfEraDigits(c: int, q: int, r: int, doy: int)
    requires 0 <= c < 4 && 0 <= q < 25 && 0 <= r < 4 && 0 <= doy <= 365
    requires doy == 365 ==> r == 3 && q < 24
    ensures YearOfEra(36524 * c + 1461 * q + 365 * r + doy) == 100 * c + 4 * q + r
  {
    var doe := 36524 * c + 1461 * q + 365 * r + doy;
    Centuries(c, 1461 * q + 365 * r + doy);
    var low := 24 * c + q + 365 * r + doy;
    assert doe == 1460 * (25 * c + q) + low;
    LeapCycles(c, q, low);
    var t := if low < 1460 then 0 else 1;
    assert 0 <= doy - t < 365;
    Years(100 * c + 4 * q + r, doy - t);
  }

  lemma EraOfYear(yoe: int, doy: int)
    requires DayOfYear(yoe, doy)
    ensures 0 <= DayOfEra(yoe, doy) < 146097
    ensures YearOfEra(DayOfEra(yoe, doy)) == yoe
  {
    var c, q, r := yoe / 100, (yoe % 100) / 4, yoe % 4;
    assert yoe == 100 * c + 4 * q + r;
    EraDigits(c, q, r, doy);
  }

  lemma YearOfEraSplits(doe: int)
    requires 0 <= doe < 146097
    ensures var yoe := YearOfEra(doe);
            DayOfYear(yoe, doe - (365 * yoe + yoe / 4 - yoe / 100))
  {
    var c := if doe == 146096 then 3 else doe / 36524;
    var century := doe - 36524 * c;
    var q := century / 1461;
    var cycle := century - 1461 * q;
    var r := if cycle == 1460 then 3 else cycle / 365;
    EraDigits(c, q, r, cycle - 365 * r);
  }

  /** Months counted from March: day of year and month determine each other. */
  lemma MonthOfYear(mp: int, d: int)
    requires 0 <= mp < 12 && 1 <= d
    requires d <= (if mp == 11 then 29 else if mp in {1, 3, 6, 8} then 30 else 31)
    ensures var doy := (153 * mp + 2) / 5 + d - 1;
            0 <= doy <= 365 && (5 * doy + 2) / 153 == mp && (doy == 365 <==> mp == 11 && d == 29)
  {
  }

  lemma MonthOfYearSplits(doy: int)
    requires 0 <= doy <= 365
    ensures var mp := (5 * doy + 2) / 153;
            var d := doy - (153 * mp + 2) / 5 + 1;
            && 0 <= mp < 12 && 1 <= d
            && d <= (if mp == 11 then (if doy == 365 then 29 else 28) else if mp in {1, 3, 6, 8} then 30 else 31)
  {
    var mp := (5 * doy + 2) / 153;
    assert 0 <= mp < 12;
    assert 153 * mp <= 5 * doy + 2 < 153 * (mp + 1);
    if mp == 0 || mp == 1 || mp == 2 {
    } else if mp == 3 || mp == 4 || mp == 5 {
    } else if mp == 6 || mp == 7 || mp == 8 {
    } else {
    }
  }

  /** An era holds whole leap cycles, so leap years are decided by the year of the era. */
  lemma LeapOfEra(era: int, yoe: int)
    requires 0 <= yoe < 400
    ensures IsLeap(era * 400 + yoe + 1) <==> LongYear(yoe)
  {
    var x := yoe + 1;
    Mod4(100 * era, x);
    Mod100(4 * era, x);
    Mod400(era, x);
    assert era * 400 + yoe + 1 == 4 * (100 * era) + x == 100 * (4 * era) + x == 400 * era + x;
    LeapInEra(x);
  }

  lemma LeapInEra(x: int)
    requires 1 <= x <= 400
    ensures IsLeap(x) <==> LongYear(x - 1)
  {
  }

  lemma EraOfDays(era: int, doe: int)
    requires 0 <= doe < 146097
    ensures (146097 * era + doe) / 146097 == era
  {
  }

  lemma EraOfYears(era: int, yoe: int)
    requires 0 <= yoe < 400
    ensures (400 * era + yoe) / 400 == era
  {
  }

  predicate ValidMarch(x: MarchDate) {
    && 0 <= x.yoe < 400 && 0 <= x.mp < 12 && 1 <= x.d
    && x.d <= (if x.mp == 11 then (if LongYear(x.yoe) then 29 else 28) else if x.mp in {1, 3, 6, 8} then 30 else 31)
  }

  lemma MarchAndDate(x: MarchDate)
    requires ValidMarch(x)
    ensures ValidDate(DateOfMarch(x)) && MarchOfDate(DateOfMarch(x)) == x
  {
    LeapOfEra(x.era, x.yoe);
    EraOfYears(x.era, x.yoe);
  }

  lemma DateAndMarch(c: Date)
    requires ValidDate(c)
    ensures ValidMarch(MarchOfDate(c)) && DateOfMarch(MarchOfDate(c)) == c
  {
    var y := if c.m <= 2 then c.y - 1 else c.y;
    var era := y / 400;
    LeapOfEra(era, y - era * 400);
  }

  lemma DayNumberOfMarch(x: MarchDate, doe: int)
    requires ValidMarch(x) && doe == DayOfEra(x.yoe, (153 * x.mp + 2) / 5 + x.d - 1)
    ensures 0 <= doe < 146097 && DaysOfMarch(x) + 719468 == 146097 * x.era + doe
    ensures YearOfEra(doe) == x.yoe
    ensures var doy := doe - (365 * x.yoe + x.yoe / 4 - x.yoe / 100);
            (5 * doy + 2) / 153 == x.mp && doy - (153 * x.mp + 2) / 5 + 1 == x.d
  {
    MonthOfYear(x.mp, x.d);
    EraOfYear(x.yoe, (153 * x.mp + 2) / 5 + x.d - 1);
    hide YearOfEra;
  }

  lemma MarchAndDays(x: MarchDate)
    requires ValidMarch(x)
    ensures MarchOfDays(DaysOfMarch(x)) == x
  {
    hide YearOfEra, DayOfEra, LongYear, ValidMarch, DaysOfMarch;
    var doe := DayOfEra(x.yoe, (153 * x.mp + 2) / 5 + x.d - 1);
    DayNumberOfMarch(x, doe);
    EraOfDays(x.era, doe);
  }

  lemma DaysAndMarch(days: int)
    ensures ValidMarch(MarchOfDays(days)) && DaysOfMarch(MarchOfDays(days)) == days
  {
    var z := days + 719468;
    var doe := z - z / 146097 * 146097;
    YearOfEraSplits(doe);
    var yoe := YearOfEra(doe);
    MonthOfYearSplits(doe - (365 * yoe + yoe / 4 - yoe / 100));
  }

  lemma CivilOfDays(c: Date)
    requires ValidDate(c)
    ensures CivilFromDays(DaysFromCivil(c)) == c
  {
    DateAndMarch(c);
    MarchAndDays(MarchOfDate(c));
  }

  lemma DaysOfCivil(days: int)
    ensures ValidDate(CivilFromDays(days))
    ensures DaysFromCivil(CivilFromDays(days)) == days
  {
    DaysAndMarch(days);
    MarchAndDate(MarchOfDays(days));
  }

  // ---- the conversion is the calendar: days are counted one by one ----

  function MarchMonthLength(x: MarchDate): int {
    if x.mp == 11 then (if LongYear(x.yoe) then 29 else 28) else if x.mp in {1, 3, 6, 8} then 30 else 31
  }

  function NextMarch(x: MarchDate): MarchDate {
    if x.d < MarchMonthLength(x) then x.(d := x.d + 1)
    else if x.mp < 11 then x.(mp := x.mp + 1, d := 1)
    else if x.yoe < 399 then x.(yoe := x.yoe + 1, mp := 0, d := 1)
    else MarchDate(x.era + 1, 0, 0, 1)
  }

  lemma MonthLength(x: MarchDate)
    requires ValidMarch(x) && x.mp < 11
    ensures (153 * (x.mp + 1) + 2) / 5 == (153 * x.mp + 2) / 5 + MarchMonthLength(x)
  {
  }

  lemma NextDayInMonth(x: MarchDate)
    requires ValidMarch(x) && x.d < MarchMonthLength(x)
    ensures DaysOfMarch(NextMarch(x)) == DaysOfMarch(x) + 1
  {
  }

  lemma NextMonthInYear(x: MarchDate)
    requires ValidMarch(x) && x.d == MarchMonthLength(x) && x.mp < 11
    ensures DaysOfMarch(NextMarch(x)) == DaysOfMarch(x) + 1
  {
    MonthLength(x);
  }

  lemma NextMarchValid(x: MarchDate)
    requires ValidMarch(x)
    ensures ValidMarch(NextMarch(x))
  {
  }

  lemma FirstAndLastDay(x: MarchDate)
    requires ValidMarch(x) && x.d == MarchMonthLength(x) && x.mp == 11
    ensures 0 <= x.yoe < 400
    ensures DaysOfMarch(x) == x.era * 146097 + DayOfEra(x.yoe, if LongYear(x.yoe) then 365 else 364) - 719468
    ensures var next := NextMarch(x);
            && DaysOfMarch(next) == next.era * 146097 + DayOfEra(next.yoe, 0) - 719468
            && next.yoe == (if x.yoe < 399 then x.yoe + 1 else 0)
            && next.era == (if x.yoe < 399 then x.era else x.era + 1)
  {
    hide DayOfEra;
  }

  lemma NextYear(x: MarchDate)
    requires ValidMarch(x) && x.d == MarchMonthLength(x) && x.mp == 11
    ensures DaysOfMarch(NextMarch(x)) == DaysOfMarch(x) + 1
  {
    hide *;
    FirstAndLastDay(x);
    YearLength(x.yoe);
  }

  lemma NextMarchDays(x: MarchDate)
    requires ValidMarch(x)
    ensures ValidMarch(NextMarch(x)) && DaysOfMarch(NextMarch(x)) == DaysOfMarch(x) + 1
  {
    NextMarchValid(x);
    hide DaysOfMarch, NextMarch;
    if x.d < MarchMonthLength(x) {
      NextDayInMonth(x);
    } else if x.mp < 11 {
      NextMonthInYear(x);
    } else {
      NextYear(x);
    }
  }

  lemma YearLength(yoe: int)
    requires 0 <= yoe < 400
    ensures DayOfEra(yoe, if LongYear(yoe) then 365 else 364) + 1 == if yoe < 399 then DayOfEra(yoe + 1, 0) else 146097
    ensures DayOfEra(0, 0) == 0
  {
    assert (yoe + 1) / 4 == yoe / 4 + (if (yoe + 1) % 4 == 0 then 1 else 0);
    assert (yoe + 1) / 100 == yoe / 100 + (if (yoe + 1) % 100 == 0 then 1 else 0);
    assert (yoe + 1) % 100 == 0 ==> (yoe + 1) % 4 == 0;
  }

  lemma NextMarchDate(x: MarchDate)
    requires ValidMarch(x)
    ensures DateOfMarch(NextMarch(x)) == NextDay(DateOfMarch(x))
  {
    LeapOfEra(x.era, x.yoe);
  }

  lemma DayZero()
    ensures CivilFromDays(0) == Date(1970, 1, 1)
  {
    assert MarchOfDays(0) == MarchDate(4, 369, 10, 1);
  }

  lemma NextNumber(days: int)
    ensures var x := MarchOfDays(days); ValidMarch(x) && MarchOfDays(days + 1) == NextMarch(x)
  {
    var x := MarchOfDays(days);
    DaysAndMarch(days);
    hide DateOfMarch, MarchOfDays, DaysOfMarch, NextMarch, ValidMarch;
    NextMarchDays(x);
    MarchAndDays(NextMarch(x));
  }

  /** Day 0 is 1 January 1970 and each further day is the next one of the Gregorian calendar. */
  lemma CivilCountsDays(days: int)
    ensures CivilFromDays(0) == Date(1970, 1, 1)
    ensures CivilFromDays(days + 1) == NextDay(CivilFromDays(days))
  {
    DayZero();
    hide DateOfMarch, MarchOfDays, NextMarch, NextDay, ValidMarch;
    NextNumber(days);
    NextMarchDate(MarchOfDays(days));
  }

  lemma NextDayIsLater(c: Date)
    requires ValidDate(c)
    ensures Before(c, NextDay(c))
  {
  }

  lemma {:induction false} CivilKeepsOrder(a: int, b: int)
    requires a < b
    ensures Before(CivilFromDays(a), CivilFromDays(b))
    decreases b - a
  {
    hide CivilFromDays, DaysFromCivil;
    CivilCountsDays(b - 1);
    DaysOfCivil(b - 1);
    NextDayIsLater(CivilFromDays(b - 1));
    if a < b - 1 {
      CivilKeepsOrder(a, b - 1);
    }
  }
}
