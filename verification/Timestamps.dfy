/**
 * The two timestamp formatters, and why their strings sort in time order: fixed-width zero-padded fields, most
 * significant first (sections 5.1 and 5.6 of RFC 3339).
 */
module Timestamps {
  import opened Basics
  import opened Civil
  import opened Ordering
  import opened Text

  const DAY_SECONDS := 86400

  /** The first millisecond of the year 10000, whose year no longer fits four digits. */
  const YEAR_10000 := 253402300800000

  /** As the formatter writes it: a sign takes one place of the width. */
  function Padded(n: int, width: nat): string {
    if n >= 0 then Digits(n, width) else "-" + Digits(-n, if width == 0 then 0 else width - 1)
  }

  /** A number, its width, and the character after it. */
  datatype Field = Field(value: int, width: nat, after: char)

  function Render(fields: seq<Field>): string {
    if fields == [] then ""
    else Padded(fields[0].value, fields[0].width) + [fields[0].after] + Render(fields[1..])
  }

  /** The clock's civil conversion of a day of an era, on signed numbers throughout. */
  function ClockOfEra(era: int, doe: int): Date {
    var yoe := TruncDiv(doe - TruncDiv(doe, 1460) + TruncDiv(doe, 36524) - TruncDiv(doe, 146096), 365);
    var doy := doe - (365 * yoe + TruncDiv(yoe, 4) - TruncDiv(yoe, 100));
    var mp := TruncDiv(5 * doy + 2, 153);
    var d := doy - TruncDiv(153 * mp + 2, 5) + 1;
    var m := if mp < 10 then mp + 3 else mp - 9;
    Date(if m <= 2 then yoe + era * 400 + 1 else yoe + era * 400, m, d)
  }

  function ClockCivil(days: int): Date {
    var z := days + 719468;
    ClockOfEra(Era(z), z - Era(z) * 146097)
  }

  datatype Moment = Moment(date: Date, hour: int, minute: int, second: int, milli: int)

  function MomentOf(ms: nat): Moment {
    var secs := ms / 1000;
    var rem := secs % DAY_SECONDS;
    Moment(ClockCivil(secs / DAY_SECONDS), rem / 3600, rem % 3600 / 60, rem % 60, ms % 1000)
  }

  function StampFields(m: Moment): seq<Field> {
    [Field(m.date.year, 4, '-'), Field(m.date.month, 2, '-'), Field(m.date.day, 2, 'T'),
     Field(m.hour, 2, ':'), Field(m.minute, 2, ':'), Field(m.second, 2, '.'), Field(m.milli, 3, 'Z')]
  }

  /** The clock's string for milliseconds since the epoch. */
  function FormatRfc3339Ms(ms: nat): string {
    Render(StampFields(MomentOf(ms)))
  }

  function SecondFields(date: Date, hour: int, minute: int, second: int): seq<Field> {
    [Field(date.year, 4, '-'), Field(date.month, 2, '-'), Field(date.day, 2, 'T'),
     Field(hour, 2, ':'), Field(minute, 2, ':'), Field(second, 2, 'Z')]
  }

  function ExportMoment(secs: int): Moment {
    var rem := secs % DAY_SECONDS;
    Moment(CivilFromDays(secs / DAY_SECONDS), rem / 3600, rem % 3600 / 60, rem % 60, 0)
  }

  function ExportFields(m: Moment): seq<Field> {
    SecondFields(m.date, m.hour, m.minute, m.second)
  }

  /** The exporter's string for seconds since the epoch; days round down, so earlier times work too. */
  function Rfc3339FromUnix(secs: int): string {
    Render(ExportFields(ExportMoment(secs)))
  }

  // -------------------------------------------------------------------------
  // The two conversions agree
  // -------------------------------------------------------------------------

  lemma ErasAgree(era: int, doe: int)
    requires 0 <= doe < 146097
    ensures ClockOfEra(era, doe) == CivilOfEra(era, doe)
  {
    var c, q, t := SplitExists(doe);
    DayOfYear(doe, c, q, t);
    GroupFits(era, doe, c, q, t);
  }

  /** On every day the clock's signed conversion is the exporter's, which works on unsigned days of the era. */
  lemma ClockAgreesWithExport(days: int)
    ensures ClockCivil(days) == CivilFromDays(days)
  {
    EraIsFloor(days + 719468);
    ErasAgreeOn(days, Era(days + 719468), days + 719468 - Era(days + 719468) * 146097);
  }

  lemma ErasAgreeOn(days: int, era: int, doe: int)
    requires era == Era(days + 719468) && doe == days + 719468 - era * 146097 && 0 <= doe < 146097
    ensures ClockCivil(days) == CivilFromDays(days)
  {
    ErasAgree(era, doe);
  }

  lemma {:induction false} RenderLast(fields: seq<Field>, last: Field)
    ensures Render(fields + [last]) == Render(fields) + (Padded(last.value, last.width) + [last.after])
  {
    var shown := Padded(last.value, last.width) + [last.after];
    if fields == [] {
      assert fields + [last] == [last];
      assert [last][1..] == [];
      assert "" + shown == shown && shown + "" == shown;
    } else {
      RenderLast(fields[1..], last);
      assert (fields + [last])[1..] == fields[1..] + [last];
      Regroup(Padded(fields[0].value, fields[0].width) + [fields[0].after], Render(fields[1..]), shown);
    }
  }

  lemma RenderLastTwo(fields: seq<Field>, a: Field, b: Field)
    ensures Render(fields + [a] + [b])
         == Render(fields) + (Padded(a.value, a.width) + [a.after]) + (Padded(b.value, b.width) + [b.after])
  {
    RenderLast(fields, a);
    RenderLast(fields + [a], b);
  }

  lemma ReplaceLast(front: string, second: string, milli: string, withZ: string, whole: string)
    requires withZ == front + (second + ['Z']) && whole == front + (second + ['.']) + (milli + ['Z'])
    ensures withZ != "" && whole == withZ[..|withZ| - 1] + "." + milli + "Z"
  {
    assert withZ[..|withZ| - 1] == front + second;
  }

  lemma MilliReplaces(init: seq<Field>, z: Field, dot: Field, milli: Field, front: string, second: string,
                      shown: string)
    requires z.after == 'Z' && dot.after == '.' && milli.after == 'Z' && front == Render(init)
    requires second == Padded(z.value, z.width) == Padded(dot.value, dot.width)
    requires shown == Padded(milli.value, milli.width)
    ensures Render(init + [z]) == front + (second + ['Z'])
    ensures Render(init + [dot] + [milli]) == front + (second + ['.']) + (shown + ['Z'])
  {
    RenderLast(init, z);
    RenderLastTwo(init, dot, milli);
  }

  /** The same six fields, the last one followed by milliseconds or by the final Z. */
  lemma MillisAfter(m: Moment)
    ensures var withZ := Render(SecondFields(m.date, m.hour, m.minute, m.second));
            withZ != "" && Render(StampFields(m)) == withZ[..|withZ| - 1] + "." + Padded(m.milli, 3) + "Z"
  {
    var init := SecondFields(m.date, m.hour, m.minute, m.second)[..5];
    var z, dot, milli := Field(m.second, 2, 'Z'), Field(m.second, 2, '.'), Field(m.milli, 3, 'Z');
    assert SecondFields(m.date, m.hour, m.minute, m.second) == init + [z] && StampFields(m) == init + [dot] + [milli];
    var front, second, shown := Render(init), Padded(m.second, 2), Padded(m.milli, 3);
    MilliReplaces(init, z, dot, milli, front, second, shown);
    ReplaceLast(front, second, shown, front + (second + ['Z']), front + (second + ['.']) + (shown + ['Z']));
  }

  /** The clock's string is the exporter's for the same second, with the milliseconds before the final Z. */
  lemma StampsAgree(ms: nat)
    ensures var exported := Rfc3339FromUnix(ms / 1000);
            exported != "" && FormatRfc3339Ms(ms) == exported[..|exported| - 1] + "." + Padded(ms % 1000, 3) + "Z"
  {
    ClockAgreesWithExport(ms / 1000 / DAY_SECONDS);
    MillisAfter(MomentOf(ms));
  }

  // -------------------------------------------------------------------------
  // Order
  // -------------------------------------------------------------------------

  ghost predicate Less(a: string, b: string) {
    StringLe(a, b) && a != b
  }

  function Pow10(w: nat): nat {
    if w == 0 then 1 else 10 * Pow10(w - 1)
  }

  lemma {:induction false} LessPrefix(a: string, b: string, x: string, y: string)
    requires |a| == |b| && Less(a, b)
    ensures Less(a + x, b + y)
  {
    if a != "" {
      assert (a + x)[1..] == a[1..] + x && (b + y)[1..] == b[1..] + y;
      if a[0] == b[0] {
        assert a == [a[0]] + a[1..] && b == [b[0]] + b[1..];
        LessPrefix(a[1..], b[1..], x, y);
      }
    }
  }

  lemma {:induction false} SamePrefix(a: string, x: string, y: string)
    requires Less(x, y)
    ensures Less(a + x, a + y)
  {
    if a == "" {
      assert a + x == x && a + y == y;
    } else {
      SamePrefix(a[1..], x, y);
      assert (a + x)[1..] == a[1..] + x && (a + y)[1..] == a[1..] + y;
    }
  }

  lemma {:induction false} DigitsFit(n: nat, width: nat)
    requires 1 <= width && n < Pow10(width)
    ensures |Digits(n, width)| == width
    decreases width
  {
    if width > 1 {
      DigitsFit(n / 10, width - 1);
    }
  }

  lemma {:induction false} DigitsKeepOrder(m: nat, n: nat, width: nat)
    requires 1 <= width && m < n < Pow10(width)
    ensures Less(Digits(m, width), Digits(n, width))
    decreases width
  {
    if width == 1 {
      DigitLess(m, n);
    } else {
      DigitsFit(m / 10, width - 1);
      DigitsFit(n / 10, width - 1);
      if m / 10 < n / 10 {
        DigitsKeepOrder(m / 10, n / 10, width - 1);
        LessPrefix(Digits(m / 10, width - 1), Digits(n / 10, width - 1), [Digit(m % 10)], [Digit(n % 10)]);
      } else {
        DigitLess(m % 10, n % 10);
        SamePrefix(Digits(m / 10, width - 1), [Digit(m % 10)], [Digit(n % 10)]);
      }
    }
  }

  lemma DigitLess(m: int, n: int)
    requires 0 <= m < n <= 9
    ensures Less([Digit(m)], [Digit(n)])
  {
    assert Digit(m) < Digit(n);
  }

  /** Fields that can be compared place by place: same widths and separators, values that fit. */
  ghost predicate Aligned(a: seq<Field>, b: seq<Field>) {
    |a| == |b| && forall i :: 0 <= i < |a| ==> AlignedAt(a[i], b[i])
  }

  ghost predicate AlignedAt(a: Field, b: Field) {
    && a.width == b.width >= 1 && a.after == b.after
    && 0 <= a.value < Pow10(a.width) && 0 <= b.value < Pow10(b.width)
  }

  /** Equal before place `k`, and smaller there. */
  ghost predicate SmallerAt(a: seq<Field>, b: seq<Field>, k: nat)
    requires |a| == |b|
  {
    k < |a| && a[k].value < b[k].value && forall i :: 0 <= i < k ==> a[i].value == b[i].value
  }

  lemma {:induction false} RenderKeepsOrder(a: seq<Field>, b: seq<Field>, k: nat)
    requires Aligned(a, b) && SmallerAt(a, b, k)
    ensures Less(Render(a), Render(b))
    decreases k
  {
    assert AlignedAt(a[0], b[0]);
    var x, y := Padded(a[0].value, a[0].width), Padded(b[0].value, b[0].width);
    DigitsFit(a[0].value, a[0].width);
    DigitsFit(b[0].value, b[0].width);
    var restA, restB := [a[0].after] + Render(a[1..]), [b[0].after] + Render(b[1..]);
    assert Render(a) == x + restA && Render(b) == y + restB;
    if k == 0 {
      DigitsKeepOrder(a[0].value, b[0].value, a[0].width);
      LessPrefix(x, y, restA, restB);
    } else {
      TailAligned(a, b, k);
      RenderKeepsOrder(a[1..], b[1..], k - 1);
      SamePrefix([a[0].after], Render(a[1..]), Render(b[1..]));
      SamePrefix(x, restA, restB);
    }
  }

  lemma TailAligned(a: seq<Field>, b: seq<Field>, k: nat)
    requires Aligned(a, b) && SmallerAt(a, b, k) && k > 0
    ensures Aligned(a[1..], b[1..]) && SmallerAt(a[1..], b[1..], k - 1)
  {
    forall i | 0 <= i < |a[1..]|
      ensures AlignedAt(a[1..][i], b[1..][i])
    {
      assert AlignedAt(a[i + 1], b[i + 1]);
    }
  }

  /** The first place at which two moments differ, in order of significance. */
  ghost predicate MomentLess(a: Moment, b: Moment) {
    || Earlier(a.date, b.date)
    || (a.date == b.date && (a.hour < b.hour || (a.hour == b.hour && (a.minute < b.minute
       || (a.minute == b.minute && (a.second < b.second || (a.second == b.second && a.milli < b.milli)))))))
  }

  lemma ClockOrder(r: int, q: int)
    requires 0 <= r < q
    ensures r / 3600 <= q / 3600
    ensures r / 3600 == q / 3600 ==> r % 3600 / 60 <= q % 3600 / 60
    ensures r / 3600 == q / 3600 && r % 3600 / 60 == q % 3600 / 60 ==> r % 60 < q % 60
  {
    assert r == 3600 * (r / 3600) + r % 3600 && q == 3600 * (q / 3600) + q % 3600;
    var s, t := r % 3600, q % 3600;
    assert s == 60 * (s / 60) + s % 60 && t == 60 * (t / 60) + t % 60;
    Quotient(r, 60, 60 * (r / 3600) + s / 60);
    Quotient(q, 60, 60 * (q / 3600) + t / 60);
  }

  lemma SameDayOrder(m: nat, n: nat)
    requires m < n && m / 1000 / DAY_SECONDS == n / 1000 / DAY_SECONDS
    ensures m / 1000 % DAY_SECONDS <= n / 1000 % DAY_SECONDS
    ensures m / 1000 % DAY_SECONDS == n / 1000 % DAY_SECONDS ==> m % 1000 < n % 1000
  {
  }

  /** Time order is the order of the printed parts. */
  lemma LaterIsGreater(m: nat, n: nat)
    requires m < n
    ensures MomentLess(MomentOf(m), MomentOf(n))
  {
    var p, q := m / 1000 / DAY_SECONDS, n / 1000 / DAY_SECONDS;
    if p < q {
      ClockAgreesWithExport(p);
      ClockAgreesWithExport(q);
      ConversionKeepsOrder(p, q);
    } else {
      SameDayOrder(m, n);
      if m / 1000 % DAY_SECONDS < n / 1000 % DAY_SECONDS {
        ClockOrder(m / 1000 % DAY_SECONDS, n / 1000 % DAY_SECONDS);
      }
    }
  }

  lemma FirstDifference(a: Moment, b: Moment) returns (k: nat)
    requires MomentLess(a, b)
    ensures SmallerAt(StampFields(a), StampFields(b), k)
  {
    k := if a.date.year != b.date.year then 0
         else if a.date.month != b.date.month then 1
         else if a.date.day != b.date.day then 2
         else if a.hour != b.hour then 3
         else if a.minute != b.minute then 4
         else if a.second != b.second then 5 else 6;
  }

  lemma Powers()
    ensures Pow10(2) == 100 && Pow10(3) == 1000 && Pow10(4) == 10000
  {
    assert Pow10(1) == 10;
  }

  ghost predicate FourDigitYears(m: Moment) {
    && ValidDate(m.date) && 0 <= m.date.year <= 9999
    && 0 <= m.hour <= 23 && 0 <= m.minute <= 59 && 0 <= m.second <= 59 && 0 <= m.milli <= 999
  }

  lemma YearTenThousand()
    ensures CivilFromDays(2932897) == Date(10000, 1, 1)
  {
    DatesComeBack(Date(10000, 1, 1));
  }

  lemma YearsInOrder(a: Date, d: Date, y: int)
    requires ValidDate(d) && (a == d || Earlier(a, d)) && Earlier(d, Date(y, 1, 1))
    ensures a.year <= d.year < y
  {
  }

  lemma YearsWithin(first: int, days: int, last: int)
    requires first <= days < last
    requires CivilFromDays(first) == Date(1970, 1, 1) && CivilFromDays(last) == Date(10000, 1, 1)
    ensures 1970 <= CivilFromDays(days).year <= 9999
  {
    ConversionKeepsOrder(days, last);
    CivilIsTheCalendar(days);
    if first < days {
      ConversionKeepsOrder(first, days);
    }
    YearsInOrder(CivilFromDays(first), CivilFromDays(days), 10000);
  }

  lemma DateBefore10000(days: nat)
    requires days < 2932897
    ensures ValidDate(ClockCivil(days)) && 1970 <= ClockCivil(days).year <= 9999
  {
    ClockAgreesWithExport(days);
    CivilIsTheCalendar(days);
    EpochIsDayZero();
    YearTenThousand();
    YearsWithin(0, days, 2932897);
  }

  lemma MomentFits(ms: nat)
    requires ms < YEAR_10000
    ensures FourDigitYears(MomentOf(ms))
  {
    DateBefore10000(ms / 1000 / DAY_SECONDS);
  }

  lemma StampsAlign(a: Moment, b: Moment)
    requires FourDigitYears(a) && FourDigitYears(b)
    ensures Aligned(StampFields(a), StampFields(b))
  {
    Powers();
  }

  /** Through the year 9999, an earlier moment has the smaller string. */
  lemma StampsSort(m: nat, n: nat)
    requires m < n < YEAR_10000
    ensures Less(FormatRfc3339Ms(m), FormatRfc3339Ms(n))
  {
    MomentFits(m);
    MomentFits(n);
    StampsAlign(MomentOf(m), MomentOf(n));
    LaterIsGreater(m, n);
    var k := FirstDifference(MomentOf(m), MomentOf(n));
    RenderKeepsOrder(StampFields(MomentOf(m)), StampFields(MomentOf(n)), k);
  }

  lemma FirstDigit(fields: seq<Field>, d: char)
    requires fields != [] && fields[0].width == 4
    requires (fields[0].value == 9999 && d == '9') || (fields[0].value == 10000 && d == '1')
    ensures Render(fields) != "" && Render(fields)[0] == d
  {
    assert Digits(9999, 4) == "9999" by {
      assert Digits(9, 1) == "9" && Digits(99, 2) == "99" && Digits(999, 3) == "999";
    }
    assert Digits(10000, 4) == "10000" by {
      assert Digits(1, 1) == "1" && Digits(10, 1) == "10" && Digits(100, 2) == "100" && Digits(1000, 3) == "1000";
    }
  }

  lemma ClockShows(days: nat, d: Date)
    requires ValidDate(d) && DayNumber(d) == days
    ensures ClockCivil(days) == d
  {
    ClockAgreesWithExport(days);
    DatesComeBack(d);
  }

  lemma NewYear10000()
    ensures DayNumber(Date(10000, 1, 1)) == 2932897
    ensures DayNumber(Date(9999, 12, 31)) == 2932896
  {
    NextDayCounts(Date(9999, 12, 31));
  }

  lemma YearAround10000(ms: nat)
    requires ms == YEAR_10000 - 1 || ms == YEAR_10000
    ensures MomentOf(ms).date.year == if ms < YEAR_10000 then 9999 else 10000
  {
    NewYear10000();
    var d := if ms < YEAR_10000 then Date(9999, 12, 31) else Date(10000, 1, 1);
    ClockShows(ms / 1000 / DAY_SECONDS, d);
  }

  /** The first moment after the year 9999 sorts before the one it follows. */
  lemma OrderBreaksAt10000(before: nat, after: nat)
    requires before == YEAR_10000 - 1 && after == YEAR_10000
    ensures !Less(FormatRfc3339Ms(before), FormatRfc3339Ms(after))
  {
    YearAround10000(before);
    YearAround10000(after);
    FirstDigit(StampFields(MomentOf(before)), '9');
    FirstDigit(StampFields(MomentOf(after)), '1');
  }

  /** The strings of all moments before `limit` sort in time order exactly when `limit` stays within year 9999. */
  lemma StampsSortThrough9999(limit: nat)
    ensures (forall m: nat, n: nat :: m < n < limit ==> Less(FormatRfc3339Ms(m), FormatRfc3339Ms(n)))
       <==> limit <= YEAR_10000
  {
    if limit <= YEAR_10000 {
      forall m: nat, n: nat | m < n < limit
        ensures Less(FormatRfc3339Ms(m), FormatRfc3339Ms(n))
      {
        StampsSort(m, n);
      }
    } else {
      OrderBreaksAt10000(YEAR_10000 - 1, YEAR_10000);
    }
  }

  // -------------------------------------------------------------------------
  // Order of the exporter's strings
  // -------------------------------------------------------------------------

  /** The first second of the year -1, which the formatter prints as -001. */
  const YEAR_MINUS_1_SECONDS := -62198755200

  const YEAR_10000_SECONDS := 253402300800

  lemma DaysAndRest(a: int, b: int)
    requires a < b
    ensures a / DAY_SECONDS <= b / DAY_SECONDS
    ensures a / DAY_SECONDS == b / DAY_SECONDS ==> a % DAY_SECONDS < b % DAY_SECONDS
  {
  }

  lemma LaterSecondIsGreater(a: int, b: int)
    requires a < b
    ensures MomentLess(ExportMoment(a), ExportMoment(b))
  {
    DaysAndRest(a, b);
    if a / DAY_SECONDS < b / DAY_SECONDS {
      ConversionKeepsOrder(a / DAY_SECONDS, b / DAY_SECONDS);
    } else {
      ClockOrder(a % DAY_SECONDS, b % DAY_SECONDS);
    }
  }

  lemma FirstExportDifference(a: Moment, b: Moment) returns (k: nat)
    requires MomentLess(a, b) && a.milli == b.milli
    ensures SmallerAt(ExportFields(a), ExportFields(b), k)
  {
    k := if a.date.year != b.date.year then 0
         else if a.date.month != b.date.month then 1
         else if a.date.day != b.date.day then 2
         else if a.hour != b.hour then 3
         else if a.minute != b.minute then 4 else 5;
  }

  /** Everything after the year fits its two digits. */
  ghost predicate TimeFits(m: Moment) {
    ValidDate(m.date) && 0 <= m.hour <= 23 && 0 <= m.minute <= 59 && 0 <= m.second <= 59
  }

  lemma ExportFits(secs: int)
    ensures TimeFits(ExportMoment(secs))
  {
    CivilIsTheCalendar(secs / DAY_SECONDS);
  }

  lemma ExportTailsAlign(a: Moment, b: Moment)
    requires TimeFits(a) && TimeFits(b)
    ensures Aligned(ExportFields(a)[1..], ExportFields(b)[1..])
    ensures 0 <= a.date.year <= 9999 && 0 <= b.date.year <= 9999 ==> Aligned(ExportFields(a), ExportFields(b))
  {
    Powers();
  }

  lemma TailSmaller(a: seq<Field>, b: seq<Field>, k: nat)
    requires |a| == |b| && k > 0 && SmallerAt(a, b, k)
    ensures SmallerAt(a[1..], b[1..], k - 1)
  {
  }

  /** In one year, whatever it is, the order is that of the rest. */
  lemma SameYearSorts(a: Moment, b: Moment, k: nat)
    requires TimeFits(a) && TimeFits(b) && a.date.year == b.date.year && SmallerAt(ExportFields(a), ExportFields(b), k)
    ensures Less(Render(ExportFields(a)), Render(ExportFields(b)))
  {
    var x, y := ExportFields(a), ExportFields(b);
    ExportTailsAlign(a, b);
    TailSmaller(x, y, k);
    RenderKeepsOrder(x[1..], y[1..], k - 1);
    SamePrefix(Padded(x[0].value, 4) + ['-'], Render(x[1..]), Render(y[1..]));
  }

  lemma SignFirst(fields: seq<Field>)
    requires fields != []
    ensures Render(fields) != ""
    ensures fields[0].value < 0 ==> Render(fields)[0] == '-'
    ensures fields[0].value >= 0 ==> '0' <= Render(fields)[0] <= '9'
  {
    if fields[0].value >= 0 {
      DigitsStart(fields[0].value, fields[0].width);
    }
  }

  lemma {:induction false} DigitsStart(n: nat, width: nat)
    ensures '0' <= Digits(n, width)[0] <= '9'
    decreases n + width
  {
    if !(width <= 1 && n < 10) {
      DigitsStart(n / 10, if width <= 1 then 1 else width - 1);
    }
  }

  /** From the year -1 through the year 9999, an earlier second has the smaller string. */
  lemma ExportsSort(a: int, b: int)
    requires a < b && -1 <= ExportMoment(a).date.year && ExportMoment(b).date.year <= 9999
    ensures Less(Rfc3339FromUnix(a), Rfc3339FromUnix(b))
  {
    var m, n := ExportMoment(a), ExportMoment(b);
    LaterSecondIsGreater(a, b);
    ExportFits(a);
    ExportFits(b);
    var k := FirstExportDifference(m, n);
    if m.date.year == n.date.year {
      SameYearSorts(m, n, k);
    } else if m.date.year < 0 {
      SignFirst(ExportFields(m));
      SignFirst(ExportFields(n));
    } else {
      ExportTailsAlign(m, n);
      RenderKeepsOrder(ExportFields(m), ExportFields(n), k);
    }
  }

  lemma NewYearMinus1()
    ensures DayNumber(Date(-1, 1, 1)) == -719893
    ensures DayNumber(Date(-2, 12, 31)) == -719894
  {
    NextDayCounts(Date(-2, 12, 31));
  }

  lemma ExportShows(secs: int, d: Date)
    requires ValidDate(d) && DayNumber(d) == secs / DAY_SECONDS
    ensures ExportMoment(secs).date == d
  {
    DatesComeBack(d);
  }

  lemma YearsAtTheEdges()
    ensures ExportMoment(YEAR_MINUS_1_SECONDS - 1).date.year == -2
    ensures ExportMoment(YEAR_MINUS_1_SECONDS).date.year == -1
    ensures ExportMoment(YEAR_10000_SECONDS - 1).date.year == 9999
    ensures ExportMoment(YEAR_10000_SECONDS).date.year == 10000
  {
    NewYearMinus1();
    NewYear10000();
    ExportShows(YEAR_MINUS_1_SECONDS - 1, Date(-2, 12, 31));
    ExportShows(YEAR_MINUS_1_SECONDS, Date(-1, 1, 1));
    ExportShows(YEAR_10000_SECONDS - 1, Date(9999, 12, 31));
    ExportShows(YEAR_10000_SECONDS, Date(10000, 1, 1));
  }

  lemma YearsGrow(a: int, b: int)
    requires a <= b
    ensures ExportMoment(a).date.year <= ExportMoment(b).date.year
  {
    if a < b {
      LaterSecondIsGreater(a, b);
    }
  }

  lemma NegativeYears(fields: seq<Field>)
    requires fields != [] && fields[0].width == 4 && (fields[0].value == -1 || fields[0].value == -2)
    ensures |Render(fields)| >= 4
    ensures Render(fields)[..4] == if fields[0].value == -1 then "-001" else "-002"
  {
    assert Digits(1, 3) == "001" by {
      assert Digits(0, 1) == "0" && Digits(0, 2) == "00";
    }
    assert Digits(2, 3) == "002" by {
      assert Digits(0, 1) == "0" && Digits(0, 2) == "00";
    }
  }

  lemma OrderBreaksAtTheEdges()
    ensures !Less(Rfc3339FromUnix(YEAR_MINUS_1_SECONDS - 1), Rfc3339FromUnix(YEAR_MINUS_1_SECONDS))
    ensures !Less(Rfc3339FromUnix(YEAR_10000_SECONDS - 1), Rfc3339FromUnix(YEAR_10000_SECONDS))
  {
    YearsAtTheEdges();
    FirstDigit(ExportFields(ExportMoment(YEAR_10000_SECONDS - 1)), '9');
    FirstDigit(ExportFields(ExportMoment(YEAR_10000_SECONDS)), '1');
    BackwardsBelowZero(ExportFields(ExportMoment(YEAR_MINUS_1_SECONDS - 1)),
                       ExportFields(ExportMoment(YEAR_MINUS_1_SECONDS)));
  }

  lemma {:induction false} GreaterAt(x: string, y: string, k: nat)
    requires k < |x| && k < |y| && x[k] > y[k] && forall i :: 0 <= i < k ==> x[i] == y[i]
    ensures !StringLe(x, y)
  {
    if k > 0 {
      GreaterAt(x[1..], y[1..], k - 1);
    }
  }

  lemma BackwardsBelowZero(a: seq<Field>, b: seq<Field>)
    requires a != [] && b != [] && a[0].width == b[0].width == 4 && a[0].value == -2 && b[0].value == -1
    ensures !Less(Render(a), Render(b))
  {
    NegativeYears(a);
    NegativeYears(b);
    var x, y := Render(a), Render(b);
    assert x[..4] == "-002" && y[..4] == "-001";
    assert x[0] == y[0] && x[1] == y[1] && x[2] == y[2] && x[3] > y[3];
    GreaterAt(x, y, 3);
  }

  /**
   * The exporter's strings over any stretch of time that holds the epoch sort in time order exactly when the stretch
   * stays within the years -1 to 9999; the year -1 still does because a minus sign comes before every digit.
   */
  lemma ExportsSortExactly(first: int, limit: int)
    requires first <= 0 < limit
    ensures (forall a: int, b: int :: first <= a < b < limit ==> Less(Rfc3339FromUnix(a), Rfc3339FromUnix(b)))
       <==> YEAR_MINUS_1_SECONDS <= first && limit <= YEAR_10000_SECONDS
  {
    if YEAR_MINUS_1_SECONDS <= first && limit <= YEAR_10000_SECONDS {
      YearsAtTheEdges();
      forall a: int, b: int | first <= a < b < limit
        ensures Less(Rfc3339FromUnix(a), Rfc3339FromUnix(b))
      {
        YearsGrow(YEAR_MINUS_1_SECONDS, a);
        YearsGrow(b, YEAR_10000_SECONDS - 1);
        ExportsSort(a, b);
      }
    } else {
      OrderBreaksAtTheEdges();
    }
  }

  // -------------------------------------------------------------------------
  // Reading a stamp back
  // -------------------------------------------------------------------------

  ghost predicate AllDigits(s: string) {
    forall i :: 0 <= i < |s| ==> '0' <= s[i] <= '9'
  }

  /** The number a run of decimal digits reads as. */
  ghost function Number(s: string): int {
    if s == "" then 0 else 10 * Number(s[..|s| - 1]) + (s[|s| - 1] as int - '0' as int)
  }

  lemma {:induction false} DigitsRead(n: nat, width: nat)
    ensures AllDigits(Digits(n, width)) && Number(Digits(n, width)) == n
    decreases n, width
  {
    var s := Digits(n, width);
    if width <= 1 && n < 10 {
      assert s[..0] == "";
    } else {
      DigitsRead(n / 10, if width <= 1 then 1 else width - 1);
      assert s[..|s| - 1] == Digits(n / 10, if width <= 1 then 1 else width - 1);
    }
  }

  /** `s` shows this number in the places from `i` up to `j`, and this character at `j`. */
  ghost predicate ShowsAt(s: string, i: nat, j: nat, value: int, after: char) {
    i <= j < |s| && AllDigits(s[i..j]) && Number(s[i..j]) == value && s[j] == after
  }

  /** Where the fields of a rendered string start. */
  ghost function Starts(fields: seq<Field>, k: nat): nat {
    if k == 0 || fields == [] then 0 else fields[0].width + 1 + Starts(fields[1..], k - 1)
  }

  ghost predicate Fit(fields: seq<Field>) {
    forall i :: 0 <= i < |fields| ==> AlignedAt(fields[i], fields[i])
  }

  lemma TailFits(fields: seq<Field>)
    requires Fit(fields) && fields != []
    ensures Fit(fields[1..])
  {
    forall i | 0 <= i < |fields[1..]|
      ensures AlignedAt(fields[1..][i], fields[1..][i])
    {
      assert AlignedAt(fields[i + 1], fields[i + 1]);
    }
  }

  function Rendered(f: Field): string {
    Padded(f.value, f.width) + [f.after]
  }

  lemma HeadRendered(fields: seq<Field>)
    requires Fit(fields) && fields != []
    ensures Render(fields) == Rendered(fields[0]) + Render(fields[1..]) && |Rendered(fields[0])| == fields[0].width + 1
  {
    assert AlignedAt(fields[0], fields[0]);
    DigitsFit(fields[0].value, fields[0].width);
  }

  lemma OccursFurtherOn(front: string, rest: string, all: string, part: string, k: nat)
    requires all == front + rest && OccursAt(rest, part, k)
    ensures OccursAt(all, part, |front| + k)
  {
    assert all[|front| + k..|front| + k + |part|] == rest[k..k + |part|];
  }

  lemma OccursFirst(front: string, rest: string, all: string)
    requires all == front + rest
    ensures OccursAt(all, front, 0)
  {
    assert all[0..|front|] == front;
  }

  lemma {:induction false} FieldStands(fields: seq<Field>, k: nat, part: string, at: nat)
    requires Fit(fields) && k < |fields| && part == Rendered(fields[k]) && at == Starts(fields, k)
    ensures OccursAt(Render(fields), part, at)
  {
    HeadRendered(fields);
    var front, rest := Rendered(fields[0]), fields[1..];
    if k == 0 {
      OccursFirst(front, Render(rest), Render(fields));
    } else {
      TailFits(fields);
      FieldStands(rest, k - 1, part, at - |front|);
      OccursFurtherOn(front, Render(rest), Render(fields), part, at - |front|);
    }
  }

  lemma RenderedReads(s: string, f: Field, at: nat)
    requires AlignedAt(f, f) && OccursAt(s, Rendered(f), at)
    ensures ShowsAt(s, at, at + f.width, f.value, f.after)
  {
    DigitsFit(f.value, f.width);
    DigitsRead(f.value, f.width);
    PartBefore(s, Digits(f.value, f.width), f.after, at, at + f.width);
    ReadsAs(s, Digits(f.value, f.width), at, at + f.width, f.value, f.after);
  }

  lemma ReadsAs(s: string, part: string, i: nat, j: nat, value: int, after: char)
    requires i <= j < |s| && part == s[i..j] && s[j] == after && AllDigits(part) && Number(part) == value
    ensures ShowsAt(s, i, j, value, after)
  {
  }

  lemma PartBefore(s: string, part: string, after: char, i: nat, j: nat)
    requires OccursAt(s, part + [after], i) && j == i + |part|
    ensures j < |s| && s[i..j] == part && s[j] == after
  {
    var both := part + [after];
    assert s[i..j + 1] == both;
    assert s[j] == both[|part|];
    assert s[i..j] == both[..|part|];
  }

  lemma FieldReadsAt(fields: seq<Field>, k: nat, f: Field, at: nat)
    requires Fit(fields) && k < |fields| && f == fields[k] && at == Starts(fields, k)
    ensures ShowsAt(Render(fields), at, at + f.width, f.value, f.after)
  {
    FieldStands(fields, k, Rendered(f), at);
    assert AlignedAt(fields[k], fields[k]);
    RenderedReads(Render(fields), f, at);
  }

  lemma {:induction false} RenderedLength(fields: seq<Field>)
    requires Fit(fields)
    ensures |Render(fields)| == Starts(fields, |fields|)
  {
    if fields != [] {
      HeadRendered(fields);
      TailFits(fields);
      RenderedLength(fields[1..]);
    }
  }

  /** The fields of a stamp lie in these places. */
  lemma StampPlaces(m: Moment)
    ensures var f := StampFields(m);
            && Starts(f, 0) == 0 && Starts(f, 1) == 5 && Starts(f, 2) == 8 && Starts(f, 3) == 11
            && Starts(f, 4) == 14 && Starts(f, 5) == 17 && Starts(f, 6) == 20 && Starts(f, 7) == 24
  {
    var f := StampFields(m);
    StartsStep(f, 0);
    StartsStep(f, 1);
    StartsStep(f, 2);
    StartsStep(f, 3);
    StartsStep(f, 4);
    StartsStep(f, 5);
    StartsStep(f, 6);
  }

  lemma {:induction false} StartsStep(fields: seq<Field>, k: nat)
    requires k < |fields|
    ensures Starts(fields, 0) == 0 && Starts(fields, k + 1) == Starts(fields, k) + fields[k].width + 1
  {
    if k > 0 {
      StartsStep(fields[1..], k - 1);
    }
  }

  lemma StampDateReads(m: Moment, f: seq<Field>)
    requires FourDigitYears(m) && f == StampFields(m)
    ensures var s := Render(f);
            && |s| == 24 && ShowsAt(s, 0, 4, m.date.year, '-') && ShowsAt(s, 5, 7, m.date.month, '-')
            && ShowsAt(s, 8, 10, m.date.day, 'T')
  {
    StampsAlign(m, m);
    StampPlaces(m);
    RenderedLength(f);
    FieldReadsAt(f, 0, f[0], 0);
    FieldReadsAt(f, 1, f[1], 5);
    FieldReadsAt(f, 2, f[2], 8);
  }

  lemma StampTimeReads(m: Moment, f: seq<Field>)
    requires FourDigitYears(m) && f == StampFields(m)
    ensures var s := Render(f);
            && ShowsAt(s, 11, 13, m.hour, ':') && ShowsAt(s, 14, 16, m.minute, ':')
            && ShowsAt(s, 17, 19, m.second, '.') && ShowsAt(s, 20, 23, m.milli, 'Z')
  {
    StampsAlign(m, m);
    StampPlaces(m);
    FieldReadsAt(f, 3, f[3], 11);
    FieldReadsAt(f, 4, f[4], 14);
    FieldReadsAt(f, 5, f[5], 17);
    FieldReadsAt(f, 6, f[6], 20);
  }

  lemma DayParts(rem: nat)
    requires rem < DAY_SECONDS
    ensures rem == 3600 * (rem / 3600) + 60 * (rem % 3600 / 60) + rem % 60
  {
    var s := rem % 3600;
    assert rem == 3600 * (rem / 3600) + s && s == 60 * (s / 60) + s % 60;
    Quotient(rem, 60, 60 * (rem / 3600) + s / 60);
  }

  /**
   * Through the year 9999 the clock's string is four, two, two, two, two, two and three digits with - - T : : . Z after
   * them; the first three are a date, and the time they spell is the moment that was formatted.
   */
  lemma StampReadsBack(ms: nat) returns (m: Moment)
    requires ms < YEAR_10000
    ensures var s, d := FormatRfc3339Ms(ms), m.date;
            && |s| == 24 && ShowsAt(s, 0, 4, d.year, '-') && ShowsAt(s, 5, 7, d.month, '-')
            && ShowsAt(s, 8, 10, d.day, 'T') && ShowsAt(s, 11, 13, m.hour, ':') && ShowsAt(s, 14, 16, m.minute, ':')
            && ShowsAt(s, 17, 19, m.second, '.') && ShowsAt(s, 20, 23, m.milli, 'Z')
    ensures ValidDate(m.date) && 0 <= m.hour < 24 && 0 <= m.minute < 60 && 0 <= m.second < 60 && 0 <= m.milli < 1000
    ensures ms == 1000 * (86400 * DayNumber(m.date) + 3600 * m.hour + 60 * m.minute + m.second) + m.milli
  {
    var secs := ms / 1000;
    m := MomentOf(ms);
    MomentFits(ms);
    StampDateReads(m, StampFields(m));
    StampTimeReads(m, StampFields(m));
    ClockAgreesWithExport(secs / DAY_SECONDS);
    DaysComeBack(secs / DAY_SECONDS);
    DayParts(secs % DAY_SECONDS);
  }
}
