/**
 * Days since 1970-01-01 to calendar dates, as the clock and the exporter both compute them, against the
 * proleptic Gregorian calendar itself: month lengths, leap years (Appendix C of RFC 3339) and the next day.
 */
module Civil {

  datatype Date = Date(year: int, month: int, day: int)

  /** Integer division as the source's signed types do it: towards zero. */
  function TruncDiv(a: int, b: int): int
    requires b > 0
  {
    if a >= 0 then a / b else -(-a / b)
  }

  /** The day of the 400-year era, and the era, of a day counted from 0000-03-01. */
  function Era(z: int): int {
    TruncDiv(if z >= 0 then z else z - 146096, 146097)
  }

  function YearOfEra(doe: int): int {
    (doe - doe / 1460 + doe / 36524 - doe / 146096) / 365
  }

  /** The month and day of day `doy` of a year that starts in March, with the month's shift into January. */
  function FromMarch(y: int, doy: int): Date {
    var mp := (5 * doy + 2) / 153;
    var d := doy - (153 * mp + 2) / 5 + 1;
    var m := if mp < 10 then mp + 3 else mp - 9;
    Date(if m <= 2 then y + 1 else y, m, d)
  }

  function CivilOfEra(era: int, doe: int): Date {
    var yoe := YearOfEra(doe);
    FromMarch(yoe + era * 400, doe - (365 * yoe + yoe / 4 - yoe / 100))
  }

  function CivilFromDays(days: int): Date {
    var z := days + 719468;
    CivilOfEra(Era(z), z - Era(z) * 146097)
  }

  // -------------------------------------------------------------------------
  // The calendar
  // -------------------------------------------------------------------------

  predicate Leap(y: int) {
    y % 4 == 0 && (y % 100 != 0 || y % 400 == 0)
  }

  function DaysInMonth(y: int, m: int): int {
    if m == 2 then (if Leap(y) then 29 else 28)
    else if m == 4 || m == 6 || m == 9 || m == 11 then 30 else 31
  }

  predicate ValidDate(d: Date) {
    1 <= d.month <= 12 && 1 <= d.day <= DaysInMonth(d.year, d.month)
  }

  function NextDay(d: Date): Date {
    if d.day < DaysInMonth(d.year, d.month) then d.(day := d.day + 1)
    else if d.month < 12 then Date(d.year, d.month + 1, 1)
    else Date(d.year + 1, 1, 1)
  }

  // -------------------------------------------------------------------------
  // Years that start in March
  // -------------------------------------------------------------------------

  /** Days before 1 March of year `y`, counted from 0000-03-01; division rounds down. */
  function MarchDays(y: int): int {
    365 * y + y / 4 - y / 100 + y / 400
  }

  function MarchLength(y: int): int {
    if Leap(y + 1) then 366 else 365
  }

  lemma Multiples(b: int, k: int)
    requires b > 0
    ensures k >= 1 ==> b * k >= b
    ensures k <= -1 ==> b * k <= -b
  {
  }

  lemma Quotient(a: int, b: int, q: int)
    requires b > 0 && b * q <= a < b * q + b
    ensures a / b == q && a % b == a - b * q
  {
    var k := a / b - q;
    assert b * k == b * (a / b) - b * q;
    Multiples(b, k);
  }

  lemma NextQuotient(y: int, b: int)
    requires b > 1
    ensures (y + 1) / b == y / b + Bit((y + 1) % b == 0)
  {
    var q, r := y / b, y % b;
    assert y == b * q + r;
    if r + 1 < b {
      Quotient(y + 1, b, q);
    } else {
      assert b * (q + 1) == b * q + b;
      Quotient(y + 1, b, q + 1);
    }
  }

  function Bit(b: bool): int {
    if b then 1 else 0
  }

  /** The leap rule counts the multiples of 4, without those of 100, with those of 400. */
  lemma LeapBits(y: int)
    ensures Bit(y % 4 == 0) - Bit(y % 100 == 0) + Bit(y % 400 == 0) == Bit(Leap(y))
  {
    if y % 400 == 0 {
      assert y == 400 * (y / 400);
      Quotient(y, 100, 4 * (y / 400));
    }
    if y % 100 == 0 {
      assert y == 100 * (y / 100);
      Quotient(y, 4, 25 * (y / 100));
    }
  }

  lemma MarchYears(y: int)
    ensures MarchDays(y + 1) == MarchDays(y) + MarchLength(y)
  {
    NextQuotient(y, 4);
    NextQuotient(y, 100);
    NextQuotient(y, 400);
    LeapBits(y + 1);
  }

  lemma {:induction false} MarchDaysGrow(y: int, y': int)
    requires y < y'
    ensures MarchDays(y) + MarchLength(y) <= MarchDays(y')
    decreases y' - y
  {
    MarchYears(y);
    if y + 1 < y' {
      MarchDaysGrow(y + 1, y');
    }
  }

  /** A day has one March year and one place in it. */
  lemma MarchIsUnique(y: int, doy: int, y': int, doy': int)
    requires 0 <= doy < MarchLength(y) && 0 <= doy' < MarchLength(y')
    requires MarchDays(y) + doy == MarchDays(y') + doy'
    ensures y == y' && doy == doy'
  {
    if y < y' {
      MarchDaysGrow(y, y');
    } else if y' < y {
      MarchDaysGrow(y', y);
    }
  }

  lemma EraIsFloor(z: int)
    ensures 0 <= z - Era(z) * 146097 < 146097
  {
    if z < 0 {
      var q := (146096 - z) / 146097;
      assert q * 146097 <= 146096 - z < (q + 1) * 146097;
    }
  }

  /**
   * A day of an era by century, by four-year group, and within the group. Only the last day of the era ends
   * the group that a century cuts short.
   */
  ghost predicate Split(doe: int, c: int, q: int, t: int) {
    && doe == 36524 * c + 1461 * q + t
    && 0 <= c <= 3 && 0 <= q <= 24 && 0 <= t <= 1460
    && (q == 24 && t == 1460 ==> c == 3)
  }

  lemma SplitExists(doe: int) returns (c: int, q: int, t: int)
    requires 0 <= doe < 146097
    ensures Split(doe, c, q, t)
  {
    c := if doe == 146096 then 3 else doe / 36524;
    var r := doe - 36524 * c;
    q := if r == 36524 then 24 else r / 1461;
    t := r - 1461 * q;
  }

  function YearOfGroup(t: int): int {
    if t < 365 then 0 else if t < 730 then 1 else if t < 1095 then 2 else 3
  }

  /** The corrections in the year formula cancel the leap days exactly. */
  lemma YearOfSplit(doe: int, c: int, q: int, t: int)
    requires Split(doe, c, q, t)
    ensures YearOfEra(doe) == 100 * c + 4 * q + YearOfGroup(t)
  {
    var e := if 24 * c + q + t >= 1460 then 1 else 0;
    Quotient(doe, 1460, 25 * c + q + e);
    if doe == 146096 {
      Quotient(doe, 36524, 4);
      Quotient(doe, 146096, 1);
      Quotient(145999, 365, 399);
    } else {
      Quotient(doe, 36524, c);
      Quotient(doe, 146096, 0);
      Quotient(36500 * c + 1460 * q + t - e, 365, 100 * c + 4 * q + YearOfGroup(t));
    }
  }

  lemma DayOfYear(doe: int, c: int, q: int, t: int)
    requires Split(doe, c, q, t)
    ensures var yoe := YearOfEra(doe);
            yoe == 100 * c + 4 * q + YearOfGroup(t)
            && doe - (365 * yoe + yoe / 4 - yoe / 100) == t - 365 * YearOfGroup(t)
  {
    YearOfSplit(doe, c, q, t);
    Quotient(YearOfEra(doe), 4, 25 * c + q);
    Quotient(YearOfEra(doe), 100, c);
  }

  lemma MarchDaysOfSplit(era: int, doe: int, c: int, q: int, t: int)
    requires Split(doe, c, q, t)
    ensures var y := 400 * era + 100 * c + 4 * q + YearOfGroup(t);
            MarchDays(y) + t - 365 * YearOfGroup(t) == 146097 * era + doe
  {
    var y := 400 * era + 100 * c + 4 * q + YearOfGroup(t);
    Quotient(y, 4, 100 * era + 25 * c + q);
    Quotient(y, 100, 4 * era + c);
    Quotient(y, 400, era);
  }

  /** Only a leap year has a day 365. */
  lemma GroupFits(era: int, doe: int, c: int, q: int, t: int)
    requires Split(doe, c, q, t)
    ensures 0 <= t - 365 * YearOfGroup(t) < MarchLength(400 * era + 100 * c + 4 * q + YearOfGroup(t))
  {
    if t == 1460 {
      var y := 400 * era + 100 * c + 4 * q + 4;
      Quotient(y, 4, 100 * era + 25 * c + q + 1);
      if q == 24 {
        Quotient(y, 400, era + 1);
      } else {
        Quotient(y, 100, 4 * era + c);
      }
    }
  }

  lemma MarchOfEra(era: int, doe: int) returns (y: int, doy: int)
    requires 0 <= doe < 146097
    ensures CivilOfEra(era, doe) == FromMarch(y, doy)
    ensures 0 <= doy < MarchLength(y) && MarchDays(y) + doy == 146097 * era + doe
  {
    var c, q, t := SplitExists(doe);
    DayOfYear(doe, c, q, t);
    MarchDaysOfSplit(era, doe, c, q, t);
    GroupFits(era, doe, c, q, t);
    y, doy := 400 * era + 100 * c + 4 * q + YearOfGroup(t), t - 365 * YearOfGroup(t);
  }

  /** The March year and day that `days` falls on. */
  lemma MarchOf(days: int) returns (y: int, doy: int)
    ensures CivilFromDays(days) == FromMarch(y, doy)
    ensures 0 <= doy < MarchLength(y) && MarchDays(y) + doy == days + 719468
  {
    var era := Era(days + 719468);
    EraIsFloor(days + 719468);
    y, doy := MarchOfEra(era, days + 719468 - era * 146097);
  }

  // -------------------------------------------------------------------------
  // Months
  // -------------------------------------------------------------------------

  /** Days before month `mp` of a March year: 31, 30, 31, 30, 31 and again. */
  function MonthStart(mp: int): int {
    (153 * mp + 2) / 5
  }

  lemma MonthOf(doy: int)
    requires 0 <= doy <= 365
    ensures var mp := (5 * doy + 2) / 153;
            0 <= mp <= 11 && MonthStart(mp) <= doy && (mp < 11 ==> doy < MonthStart(mp + 1))
  {
    var mp := (5 * doy + 2) / 153;
    assert 153 * mp <= 5 * doy + 2 < 153 * mp + 153;
  }

  /** The calendar's lengths of those months. */
  lemma MonthLengths(y: int, mp: int)
    requires 0 <= mp <= 11
    ensures var m := if mp < 10 then mp + 3 else mp - 9;
            var year := if m <= 2 then y + 1 else y;
            DaysInMonth(year, m) == (if mp == 11 then MarchLength(y) else MonthStart(mp + 1)) - MonthStart(mp)
  {
    assert MonthStart(0) == 0 && MonthStart(1) == 31 && MonthStart(2) == 61 && MonthStart(3) == 92;
    assert MonthStart(4) == 122 && MonthStart(5) == 153 && MonthStart(6) == 184 && MonthStart(7) == 214;
    assert MonthStart(8) == 245 && MonthStart(9) == 275 && MonthStart(10) == 306 && MonthStart(11) == 337;
  }

  lemma MonthIs(doy: int, mp: int)
    requires 0 <= mp <= 11 && MonthStart(mp) <= doy <= 365 && (mp < 11 ==> doy < MonthStart(mp + 1))
    ensures (5 * doy + 2) / 153 == mp
  {
    assert 5 * MonthStart(mp) + 2 >= 153 * mp;
    assert mp < 11 ==> 5 * MonthStart(mp + 1) <= 153 * (mp + 1) + 2;
    Quotient(5 * doy + 2, 153, mp);
  }

  lemma FromMarchIsValid(y: int, doy: int)
    requires 0 <= doy < MarchLength(y)
    ensures ValidDate(FromMarch(y, doy))
  {
    MonthOf(doy);
    MonthLengths(y, (5 * doy + 2) / 153);
  }

  /** Within a March year, and across its end, the calendar's next day is the next day. */
  lemma FromMarchSteps(y: int, doy: int)
    requires 0 <= doy < MarchLength(y)
    ensures doy + 1 < MarchLength(y) ==> FromMarch(y, doy + 1) == NextDay(FromMarch(y, doy))
    ensures doy + 1 == MarchLength(y) ==> FromMarch(y + 1, 0) == NextDay(FromMarch(y, doy))
  {
    MonthOf(doy);
    var mp := (5 * doy + 2) / 153;
    MonthLengths(y, mp);
    if doy + 1 < MarchLength(y) {
      MonthIs(doy + 1, if mp < 11 && doy + 1 == MonthStart(mp + 1) then mp + 1 else mp);
    } else {
      assert mp == 11;
    }
  }

  // -------------------------------------------------------------------------
  // The conversion is the calendar
  // -------------------------------------------------------------------------

  lemma EpochIsDayZero()
    ensures CivilFromDays(0) == Date(1970, 1, 1)
  {
    assert Era(719468) == 4;
    assert Split(135080, 3, 17, 671);
    YearOfSplit(135080, 3, 17, 671);
  }

  lemma MarchNext(y: int, doy: int, y': int, doy': int)
    requires 0 <= doy < MarchLength(y) && 0 <= doy' < MarchLength(y')
    requires MarchDays(y') + doy' == MarchDays(y) + doy + 1
    ensures (y', doy') == if doy + 1 < MarchLength(y) then (y, doy + 1) else (y + 1, 0)
  {
    if doy + 1 < MarchLength(y) {
      MarchIsUnique(y, doy + 1, y', doy');
    } else {
      MarchYears(y);
      MarchIsUnique(y + 1, 0, y', doy');
    }
  }

  /** Every day number gives a valid date, and the next number gives the calendar's next day. */
  lemma CivilIsTheCalendar(days: int)
    ensures ValidDate(CivilFromDays(days))
    ensures CivilFromDays(days + 1) == NextDay(CivilFromDays(days))
  {
    var y, doy := MarchOf(days);
    var y', doy' := MarchOf(days + 1);
    MarchNext(y, doy, y', doy');
    FromMarchIsValid(y, doy);
    FromMarchSteps(y, doy);
  }

  // -------------------------------------------------------------------------
  // Counting days back from dates
  // -------------------------------------------------------------------------

  function DaysBeforeYear(y: int): int {
    365 * (y - 1) + (y - 1) / 4 - (y - 1) / 100 + (y - 1) / 400
  }

  function DaysBeforeMonth(y: int, m: int): int
    requires 1 <= m <= 13
    decreases m
  {
    if m == 1 then 0 else DaysBeforeMonth(y, m - 1) + DaysInMonth(y, m - 1)
  }

  /** Days since 1970-01-01, by counting whole years and whole months. */
  function DayNumber(d: Date): int
    requires ValidDate(d)
  {
    DaysBeforeYear(d.year) + DaysBeforeMonth(d.year, d.month) + d.day - 1 - 719162
  }

  lemma WholeYear(y: int)
    ensures DaysBeforeYear(y + 1) == DaysBeforeYear(y) + DaysBeforeMonth(y, 13)
    ensures DaysBeforeMonth(y, 13) == 365 + Bit(Leap(y))
  {
    NextQuotient(y - 1, 4);
    NextQuotient(y - 1, 100);
    NextQuotient(y - 1, 400);
    LeapBits(y);
    assert DaysBeforeMonth(y, 4) == 90 + Bit(Leap(y));
    assert DaysBeforeMonth(y, 7) == 181 + Bit(Leap(y));
    assert DaysBeforeMonth(y, 10) == 273 + Bit(Leap(y));
  }

  lemma NextDayCounts(d: Date)
    requires ValidDate(d)
    ensures ValidDate(NextDay(d)) && DayNumber(NextDay(d)) == DayNumber(d) + 1
  {
    WholeYear(d.year);
  }

  /** The number a day's date counts back to. */
  function CountedBack(): int -> int {
    (days: int) => CivilIsTheCalendar(days); DayNumber(CivilFromDays(days))
  }

  ghost predicate StepsByOne(f: int -> int, n: int) {
    f(n + 1) == f(n) + 1
  }

  lemma {:induction false} StepsFromZero(f: int -> int, n: int)
    requires f(0) == 0 && forall k :: StepsByOne(f, k)
    ensures f(n) == n
    decreases if n < 0 then -n else n
  {
    if n > 0 {
      StepsFromZero(f, n - 1);
      assert StepsByOne(f, n - 1);
    } else if n < 0 {
      StepsFromZero(f, n + 1);
      assert StepsByOne(f, n);
    }
  }

  lemma CountedBackSteps(days: int)
    ensures StepsByOne(CountedBack(), days)
  {
    CivilIsTheCalendar(days);
    NextDayCounts(CivilFromDays(days));
  }

  lemma EpochIsNumberZero(days: int)
    requires CivilFromDays(days) == Date(1970, 1, 1)
    ensures CountedBack()(days) == 0
  {
    assert DaysBeforeYear(1970) == 719162;
  }

  /** The conversion inverts counting. */
  lemma DaysComeBack(days: int)
    ensures ValidDate(CivilFromDays(days)) && DayNumber(CivilFromDays(days)) == days
  {
    EpochIsDayZero();
    EpochIsNumberZero(0);
    forall k
      ensures StepsByOne(CountedBack(), k)
    {
      CountedBackSteps(k);
    }
    StepsFromZero(CountedBack(), days);
    CivilIsTheCalendar(days);
  }

  /** Calendar order. */
  predicate Earlier(a: Date, b: Date) {
    a.year < b.year || (a.year == b.year && (a.month < b.month || (a.month == b.month && a.day < b.day)))
  }

  lemma {:induction false} MonthsAddUp(y: int, m: int, n: int)
    requires 1 <= m < n <= 13
    ensures DaysBeforeMonth(y, m) + DaysInMonth(y, m) <= DaysBeforeMonth(y, n)
    decreases n
  {
    if m + 1 < n {
      MonthsAddUp(y, m, n - 1);
    }
  }

  lemma {:induction false} YearsAddUp(y: int, z: int)
    requires y < z
    ensures DaysBeforeYear(y) + DaysBeforeMonth(y, 13) <= DaysBeforeYear(z)
    decreases z - y
  {
    WholeYear(y);
    if y + 1 < z {
      YearsAddUp(y + 1, z);
      WholeYear(y + 1);
    }
  }

  lemma CountingKeepsOrder(a: Date, b: Date)
    requires ValidDate(a) && ValidDate(b) && Earlier(a, b)
    ensures DayNumber(a) < DayNumber(b)
  {
    if a.year < b.year {
      YearsAddUp(a.year, b.year);
      MonthsAddUp(a.year, a.month, 13);
      MonthsNotNegative(b.year, b.month);
    } else if a.month < b.month {
      MonthsAddUp(a.year, a.month, b.month);
    }
  }

  lemma {:induction false} MonthsNotNegative(y: int, m: int)
    requires 1 <= m <= 13
    ensures DaysBeforeMonth(y, m) >= 0
    decreases m
  {
    if m > 1 {
      MonthsNotNegative(y, m - 1);
    }
  }

  /** Counting inverts the conversion: valid dates and day numbers correspond one to one. */
  lemma DatesComeBack(d: Date)
    requires ValidDate(d)
    ensures CivilFromDays(DayNumber(d)) == d
  {
    var e := CivilFromDays(DayNumber(d));
    DaysComeBack(DayNumber(d));
    if Earlier(d, e) {
      CountingKeepsOrder(d, e);
    } else if Earlier(e, d) {
      CountingKeepsOrder(e, d);
    }
  }

  /** Later days have later dates. */
  lemma ConversionKeepsOrder(m: int, n: int)
    requires m < n
    ensures Earlier(CivilFromDays(m), CivilFromDays(n))
  {
    DaysComeBack(m);
    DaysComeBack(n);
    if Earlier(CivilFromDays(n), CivilFromDays(m)) {
      CountingKeepsOrder(CivilFromDays(n), CivilFromDays(m));
    }
  }
}
