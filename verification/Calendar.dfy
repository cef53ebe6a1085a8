// Turning a clock reading into the date in a snapshot's name.

module Calendar {
  import opened Text

  const U64 := 0x1_0000_0000_0000_0000
  const I64 := 0x8000_0000_0000_0000

  datatype Civil = Civil(year: int, month: int, day: int, hour: int, minute: int, second: int)

  /** `try_from(x).unwrap_or(fallback)` into an unsigned width. */
  function Narrow(x: int, width: int, fallback: int): int {
    if 0 <= x < width then x else fallback
  }

  // The algorithm, in the source's own steps.

  function DayOfEra(z: int): int { z - z / 146_097 * 146_097 }

  function YearOfEra(doe: int): int { (doe - doe / 1460 + doe / 36_524 - doe / 146_096) / 365 }

  function DayOfYear(doe: int, yoe: int): int { doe - (365 * yoe + yoe / 4 - yoe / 100) }

  function MarchMonth(doy: int): int { (5 * doy + 2) / 153 }

  function MonthStart(mp: int): int { (153 * mp + 2) / 5 }

  function CivilFromUnix(secs: int): Civil {
    var days, ofDay := secs / 86_400, Narrow(secs % 86_400, U32, 0);
    var z := days + 719_468;
    var doe := DayOfEra(z);
    var yoe := YearOfEra(doe);
    var y := Narrow(yoe + z / 146_097 * 400, I64, 0);
    var doy := DayOfYear(doe, yoe);
    var mp := MarchMonth(doy);
    var day := Narrow(doy - MonthStart(mp) + 1, U32, 1);
    var month := Narrow(if mp < 10 then mp + 3 else mp - 9, U32, 1);
    Civil(if month <= 2 then y + 1 else y, month, day, ofDay / 3600, ofDay % 3600 / 60, ofDay % 60)
  }

  /** The way back. */
  function UnixFor(c: Civil): int {
    var y := if c.month <= 2 then c.year - 1 else c.year;
    var era := y / 400;
    var yoe := y - era * 400;
    var mp := if c.month > 2 then c.month - 3 else c.month + 9;
    var doe := yoe * 365 + yoe / 4 - yoe / 100 + MonthStart(mp) + c.day - 1;
    (era * 146_097 + doe - 719_468) * 86_400 + c.hour * 3600 + c.minute * 60 + c.second
  }

  // -------------------------------------------------------------------------
  // The Gregorian calendar, by its rules
  // -------------------------------------------------------------------------

  predicate Leap(y: int) {
    y % 4 == 0 && (y % 100 != 0 || y % 400 == 0)
  }

  function DaysInYear(y: int): int { if Leap(y) then 366 else 365 }

  function DaysInMonth(y: int, m: int): int {
    if m == 2 then if Leap(y) then 29 else 28
    else if m == 4 || m == 6 || m == 9 || m == 11 then 30 else 31
  }

  /** Days from the start of year 0 to the start of year `y`. */
  function DaysBeforeYear(y: nat): int {
    if y == 0 then 0 else DaysBeforeYear(y - 1) + DaysInYear(y - 1)
  }

  /** Days from the start of the year to the start of month `m`. */
  function DaysBeforeMonth(y: int, m: int): int
    decreases m
  {
    if m <= 1 then 0 else DaysBeforeMonth(y, m - 1) + DaysInMonth(y, m - 1)
  }

  predicate Valid(c: Civil) {
    && c.year >= 0 && 1 <= c.month <= 12 && 1 <= c.day <= DaysInMonth(c.year, c.month)
    && 0 <= c.hour < 24 && 0 <= c.minute < 60 && 0 <= c.second < 60
  }

  /** The number of a date, counted year by year and month by month from 1 January of year 0. */
  function DayNumber(c: Civil): int
    requires Valid(c)
  {
    DaysBeforeYear(c.year) + DaysBeforeMonth(c.year, c.month) + c.day - 1
  }

  // -------------------------------------------------------------------------
  // Eras
  // -------------------------------------------------------------------------

  lemma OneYear(x: int, q: int, r: int)
    requires x == 365 * q + r && 0 <= r < 365
    ensures x / 365 == q
  {}

  lemma YearOfEraIs(doe: int, fours: int, centuries: int, y: int, r: int)
    requires 0 <= doe && doe / 1460 == fours && doe / 36_524 - doe / 146_096 == centuries
    requires doe - fours + centuries == 365 * y + r && 0 <= r < 365
    ensures YearOfEra(doe) == y
  {
    OneYear(365 * y + r, y, r);
  }

  lemma YearParts(y: int, h: int, k: int, j: int)
    requires y == 100 * h + 4 * k + j && 0 <= k <= 24 && 0 <= j <= 3
    ensures y / 4 == 25 * h + k && y / 100 == h
  {}

  lemma DayOfYearIs(doe: int, y: int, h: int, k: int, j: int)
    requires y == 100 * h + 4 * k + j && 0 <= h && 0 <= k <= 24 && 0 <= j <= 3
    ensures DayOfYear(doe, y) == doe - (365 * y + 25 * h + k - h)
  {
    YearParts(y, h, k, j);
  }

  lemma FourYears(x: int, q: int, r: int)
    requires x == 1460 * q + r && 0 <= r < 1460
    ensures x / 1460 == q
  {}

  /** The last day of the era is the one day a plain division by centuries misplaces. */
  lemma Centuries(doe: int, h: int)
    requires 0 <= h <= 3 && 36_524 * h <= doe
    requires doe < 36_524 * (h + 1) || (h == 3 && doe == 146_096)
    ensures doe / 36_524 - doe / 146_096 == h
  {}

  lemma EraYear(h: int, k: int, j: int, d: int)
    requires 0 <= h <= 3 && 0 <= k <= 24 && 0 <= j <= 3 && 0 <= d <= 365
    requires d == 365 ==> j == 3 && (k < 24 || h == 3)
    ensures var doe := 36_524 * h + 1461 * k + 365 * j + d;
      YearOfEra(doe) == 100 * h + 4 * k + j && DayOfYear(doe, YearOfEra(doe)) == d
  {
    hide YearOfEra, DayOfYear;
    var doe, y := 36_524 * h + 1461 * k + 365 * j + d, 100 * h + 4 * k + j;
    var e := if 24 * h + k + 365 * j + d < 1460 then 0 else 1;
    FourYears(doe, 25 * h + k + e, 24 * h + k + 365 * j + d - 1460 * e);
    Centuries(doe, h);
    YearOfEraIs(doe, 25 * h + k + e, h, y, d - e);
    DayOfYearIs(doe, y, h, k, j);
  }

  /** A day of the 400-year era in centuries, four-year groups, years and days, each year starting in March. */
  lemma Era(doe: int) returns (h: int, k: int, j: int, d: int)
    requires 0 <= doe <= 146_096
    ensures 0 <= h <= 3 && 0 <= k <= 24 && 0 <= j <= 3 && 0 <= d <= 365
    ensures d == 365 ==> j == 3 && (k < 24 || h == 3)
    ensures YearOfEra(doe) == 100 * h + 4 * k + j && DayOfYear(doe, YearOfEra(doe)) == d
  {
    h := if doe == 146_096 then 3 else doe / 36_524;
    var rest := doe - 36_524 * h;
    k := rest / 1461;
    var rest2 := rest - 1461 * k;
    j := if rest2 == 1460 then 3 else rest2 / 365;
    d := rest2 - 365 * j;
    EraYear(h, k, j, d);
  }

  /** The month table of a year starting in March. */
  lemma MonthTable(doy: int)
    requires 0 <= doy <= 365
    ensures var mp := MarchMonth(doy);
      0 <= mp <= 11 && MonthStart(mp) <= doy && (mp < 11 ==> doy < MonthStart(mp + 1))
  {}

  lemma MonthStarts(mp: int)
    requires 0 <= mp <= 11
    ensures MonthStart(mp) == (if mp == 0 then 0 else if mp == 1 then 31 else if mp == 2 then 61 else if mp == 3 then 92
      else if mp == 4 then 122 else if mp == 5 then 153 else if mp == 6 then 184 else if mp == 7 then 214
      else if mp == 8 then 245 else if mp == 9 then 275 else if mp == 10 then 306 else 337)
  {}

  /** The same months counted from January. */
  lemma BeforeMonth(y: int, m: int)
    requires 1 <= m <= 12
    ensures DaysBeforeMonth(y, m) == if m <= 2 then MonthStart(m + 9) - 306
                                     else 59 + (if Leap(y) then 1 else 0) + MonthStart(m - 3)
  {
    if m == 1 {
      MonthStarts(10);
    } else {
      BeforeMonth(y, m - 1);
      MonthStarts(if m <= 2 then m + 9 else m - 3);
      MonthStarts(if m <= 3 then m + 8 else m - 4);
    }
  }

  lemma Tick4(y: nat)
    ensures (y + 4) / 4 == (y + 3) / 4 + if y % 4 == 0 then 1 else 0
  {}

  lemma Tick100(y: nat)
    ensures (y + 100) / 100 == (y + 99) / 100 + if y % 100 == 0 then 1 else 0
    ensures y % 100 == 0 ==> y % 4 == 0
  {
    var q, r := y / 100, y % 100;
    assert y == 100 * q + r;
    assert y + 100 == 100 * (q + 1) + r && y + 99 == 100 * q + (r + 99);
    assert r == 0 ==> y == 4 * (25 * q);
  }

  lemma Tick400(y: nat)
    ensures (y + 400) / 400 == (y + 399) / 400 + if y % 400 == 0 then 1 else 0
    ensures y % 400 == 0 ==> y % 100 == 0
  {
    var q, r := y / 400, y % 400;
    assert y == 400 * q + r;
    assert y + 400 == 400 * (q + 1) + r && y + 399 == 400 * q + (r + 399);
    assert r == 0 ==> y == 100 * (4 * q);
  }

  lemma LeapStep(y: nat)
    ensures (y + 4) / 4 - (y + 100) / 100 + (y + 400) / 400 ==
      (y + 3) / 4 - (y + 99) / 100 + (y + 399) / 400 + if Leap(y) then 1 else 0
  {
    Tick4(y);
    Tick100(y);
    Tick400(y);
  }

  /** Years counted one by one are years counted by the leap rule. */
  lemma {:induction false} BeforeYear(y: nat)
    ensures DaysBeforeYear(y) == 365 * y + (y + 3) / 4 - (y + 99) / 100 + (y + 399) / 400
  {
    if y > 0 {
      BeforeYear(y - 1);
      LeapStep(y - 1);
    }
  }

  // -------------------------------------------------------------------------
  // The date is right
  // -------------------------------------------------------------------------

  /** A date in the terms of the algorithm: era, year and day of a year starting in March. */
  predicate MarchDate(era: int, yoe: int, doy: int) {
    0 <= era && 0 <= yoe <= 399 && 0 <= doy <= 365 && (doy == 365 ==> Leap(400 * era + yoe + 1))
  }

  lemma FourthYear(y: int, q: int)
    requires y == 4 * q
    ensures y % 4 == 0
  {}

  lemma OfCentury(y: int, q: int, r: int)
    requires y == 100 * q + r && 0 <= r < 100
    ensures y % 100 == r
  {}

  lemma LeapOfEra(era: int, h: int, k: int, j: int)
    requires 0 <= h <= 3 && 0 <= k <= 24 && j == 3 && (k < 24 || h == 3)
    ensures Leap(400 * era + 100 * h + 4 * k + j + 1)
  {
    var y := 400 * era + 100 * h + 4 * k + 4;
    FourthYear(y, 100 * era + 25 * h + k + 1);
    if k < 24 {
      OfCentury(y, 4 * era + h, 4 * k + 4);
    } else {
      assert y == 400 * (era + 1);
    }
  }

  lemma SplitDays(z: nat) returns (era: int, yoe: int, doy: int)
    ensures era == z / 146_097 && yoe == YearOfEra(DayOfEra(z)) && doy == DayOfYear(DayOfEra(z), yoe)
    ensures MarchDate(era, yoe, doy)
    ensures z == 146_097 * era + 365 * yoe + yoe / 4 - yoe / 100 + doy
  {
    era := z / 146_097;
    var doe := DayOfEra(z);
    var h, k, j, d := Era(doe);
    yoe, doy := YearOfEra(doe), d;
    if d == 365 {
      LeapOfEra(era, h, k, j);
    }
  }

  /** The calendar date of a March date. */
  function DateOf(era: int, yoe: int, doy: int, ofDay: int): Civil {
    var mp := MarchMonth(doy);
    var month := if mp < 10 then mp + 3 else mp - 9;
    Civil(400 * era + yoe + (if month <= 2 then 1 else 0), month, doy - MonthStart(mp) + 1,
          ofDay / 3600, ofDay % 3600 / 60, ofDay % 60)
  }

  lemma TimeOfDay(ofDay: int)
    requires 0 <= ofDay < 86_400
    ensures 0 <= ofDay / 3600 < 24 && 0 <= ofDay % 3600 / 60 < 60 && 0 <= ofDay % 60 < 60
    ensures ofDay / 3600 * 3600 + ofDay % 3600 / 60 * 60 + ofDay % 60 == ofDay
  {
    assert ofDay % 3600 % 60 == ofDay % 60;
  }

  lemma DateIsValid(era: int, yoe: int, doy: int, ofDay: int)
    requires MarchDate(era, yoe, doy) && 0 <= ofDay < 86_400
    ensures Valid(DateOf(era, yoe, doy, ofDay))
  {
    hide Leap;
    var mp := MarchMonth(doy);
    MonthTable(doy);
    MonthStarts(mp);
    if mp < 11 {
      MonthStarts(mp + 1);
    }
    TimeOfDay(ofDay);
  }

  lemma EraParts(era: int, yoe: int)
    requires 0 <= era && 0 <= yoe <= 399
    ensures var y := 400 * era + yoe;
      && (y + 4) / 4 == 100 * era + yoe / 4 + 1 && (y + 100) / 100 == 4 * era + yoe / 100 + 1 &&
        (y + 400) / 400 == era + 1
  {}

  /** Counted by the calendar's rules, the date lies exactly as many days after 1 March of year 0. */
  lemma DateNumber(era: int, yoe: int, doy: int, ofDay: int)
    requires MarchDate(era, yoe, doy) && 0 <= ofDay < 86_400
    ensures Valid(DateOf(era, yoe, doy, ofDay))
    ensures DayNumber(DateOf(era, yoe, doy, ofDay)) == 146_097 * era + 365 * yoe + yoe / 4 - yoe / 100 + doy + 60
  {
    hide Leap, MonthStart, DaysBeforeYear, DaysBeforeMonth, MarchMonth, Valid;
    DateIsValid(era, yoe, doy, ofDay);
    MonthTable(doy);
    var c := DateOf(era, yoe, doy, ofDay);
    var y: nat := 400 * era + yoe;
    BeforeMonth(c.year, c.month);
    BeforeYear(c.year);
    LeapStep(y);
    EraParts(era, yoe);
    MonthStarts(10);
  }

  /** Every step fits the width it is computed in, and no conversion falls back. */
  lemma NothingOverflows(secs: nat)
    requires secs < U64
    ensures var z := secs / 86_400 + 719_468;
      var doe := DayOfEra(z);
      var yoe := YearOfEra(doe);
      var doy := DayOfYear(doe, yoe);
      var mp := MarchMonth(doy);
      && z < U64 && 0 <= doe && doe / 1460 <= doe && doe / 146_096 <= doe - doe / 1460 + doe / 36_524 < U64
      && 0 <= 365 * yoe + yoe / 4 - yoe / 100 <= doe && 5 * doy + 2 < U64 && MonthStart(mp) <= doy
      && secs % 86_400 < U32 && 0 <= yoe + z / 146_097 * 400 && yoe + z / 146_097 * 400 + 1 < I64
      && 1 <= doy - MonthStart(mp) + 1 <= 31 && 0 <= mp <= 11
  {
    hide YearOfEra, Leap;
    var z := secs / 86_400 + 719_468;
    var era, yoe, doy := SplitDays(z);
    MonthTable(doy);
    MonthStarts(MarchMonth(doy));
    if MarchMonth(doy) < 11 {
      MonthStarts(MarchMonth(doy) + 1);
    }
  }

  lemma CivilIsDate(secs: nat) returns (era: int, yoe: int, doy: int)
    requires secs < U64
    ensures MarchDate(era, yoe, doy) && CivilFromUnix(secs) == DateOf(era, yoe, doy, secs % 86_400)
    ensures secs / 86_400 + 719_468 == 146_097 * era + 365 * yoe + yoe / 4 - yoe / 100 + doy
  {
    hide YearOfEra, DayOfYear, Leap, MonthStart, MarchMonth, DayOfEra;
    NothingOverflows(secs);
    era, yoe, doy := SplitDays(secs / 86_400 + 719_468);
  }

  lemma EpochNumber()
    ensures Valid(Civil(1970, 1, 1, 0, 0, 0)) && DayNumber(Civil(1970, 1, 1, 0, 0, 0)) == 719_528
  {
    BeforeYear(1970);
  }

  /** The conversion gives a valid date, as many days after 1 January 1970 as have passed, and loses nothing. */
  lemma CivilIsExact(secs: nat)
    requires secs < U64
    ensures var c := CivilFromUnix(secs);
      && Valid(c) && DayNumber(c) == DayNumber(Civil(1970, 1, 1, 0, 0, 0)) + secs / 86_400
      && c.hour * 3600 + c.minute * 60 + c.second == secs % 86_400
      && UnixFor(c) == secs
  {
    hide Leap, DayNumber, CivilFromUnix, MonthStart, MarchMonth;
    var era, yoe, doy := CivilIsDate(secs);
    DateNumber(era, yoe, doy, secs % 86_400);
    EpochNumber();
    TimeOfDay(secs % 86_400);
    MonthTable(doy);
    assert (400 * era + yoe) / 400 == era;
  }

  // -------------------------------------------------------------------------
  // Names
  // -------------------------------------------------------------------------

  function Digit(n: nat): char
    requires n < 10
  {
    "0123456789"[n]
  }

  /** Decimal, zero-padded to at least `w` digits. */
  function Padded(n: nat, w: nat): string
    decreases n + w
  {
    if n < 10 && w <= 1 then [Digit(n)] else Padded(n / 10, if w > 0 then w - 1 else 0) + [Digit(n % 10)]
  }

  function TimeText(c: Civil): string
    requires Valid(c)
  {
    Padded(c.hour, 2) + (Padded(c.minute, 2) + (Padded(c.second, 2) + "Z"))
  }

  /** `YYYYMMDDTHHMMSSZ`. */
  function StampOf(c: Civil): string
    requires Valid(c)
  {
    Padded(c.year, 4) + (Padded(c.month, 2) + (Padded(c.day, 2) + ("T" + TimeText(c))))
  }

  /** `snapshot-<stamp>`, and `rollback-<stamp>` for a rollback. */
  function DefaultName(prefix: string, secs: nat): string
    requires secs < U64
  {
    CivilIsExact(secs);
    prefix + StampOf(CivilFromUnix(secs))
  }

  function Pow10(w: nat): nat {
    if w == 0 then 1 else 10 * Pow10(w - 1)
  }

  lemma DigitsOrdered(m: nat, n: nat)
    requires m < n < 10
    ensures Digit(m) < Digit(n)
  {}

  /** The order is settled at the first difference. */
  lemma {:induction false} LessBefore(a: string, x: string, b: string, y: string)
    requires |a| == |b| && NameLess(a, b)
    ensures NameLess(a + x, b + y)
  {
    if a[0] == b[0] {
      LessBefore(a[1..], x, b[1..], y);
    }
    if a != "" {
      assert (a + x)[1..] == a[1..] + x && (b + y)[1..] == b[1..] + y;
    }
  }

  lemma {:induction false} LessAfter(a: string, x: string, y: string)
    requires NameLess(x, y)
    ensures NameLess(a + x, a + y)
  {
    if a == "" {
      assert a + x == x && a + y == y;
    } else {
      LessAfter(a[1..], x, y);
      assert (a + x)[1..] == a[1..] + x && (a + y)[1..] == a[1..] + y;
    }
  }

  /** At a fixed width, smaller numbers come first. */
  lemma {:induction false} PaddedOrdered(m: nat, n: nat, w: nat)
    requires m <= n < Pow10(w) && w >= 1
    ensures |Padded(m, w)| == |Padded(n, w)| == w
    ensures m < n ==> NameLess(Padded(m, w), Padded(n, w))
  {
    if w == 1 {
      assert Pow10(0) == 1;
      if m < n {
        DigitsOrdered(m, n);
      }
    } else {
      PaddedOrdered(m / 10, n / 10, w - 1);
      var a, b := Padded(m / 10, w - 1), Padded(n / 10, w - 1);
      if m / 10 < n / 10 {
        LessBefore(a, [Digit(m % 10)], b, [Digit(n % 10)]);
      } else if m < n {
        DigitsOrdered(m % 10, n % 10);
        LessAfter(a, [Digit(m % 10)], [Digit(n % 10)]);
      }
    }
  }

  predicate Earlier(a: Civil, b: Civil) {
    || a.year < b.year
    || (a.year == b.year && (a.month < b.month
    || (a.month == b.month && (a.day < b.day
    || (a.day == b.day && (a.hour < b.hour
    || (a.hour == b.hour && (a.minute < b.minute
    || (a.minute == b.minute && a.second < b.second)))))))))
  }

  /** Two fixed-width fields in a row: the first decides, then the second. */
  lemma TwoFields(m: nat, n: nat, w: nat, x: string, y: string)
    requires m <= n < Pow10(w) && w >= 1 && (m == n ==> NameLess(x, y))
    ensures NameLess(Padded(m, w) + x, Padded(n, w) + y)
  {
    PaddedOrdered(m, n, w);
    if m < n {
      LessBefore(Padded(m, w), x, Padded(n, w), y);
    } else {
      LessAfter(Padded(m, w), x, y);
    }
  }

  lemma TimeOrdered(a: Civil, b: Civil)
    requires Valid(a) && Valid(b) && Earlier(a, b) && a.year == b.year && a.month == b.month && a.day == b.day
    ensures NameLess(TimeText(a), TimeText(b))
  {
    hide Padded, NameLess;
    assert Pow10(2) == 100;
    if a.hour == b.hour {
      if a.minute == b.minute {
        PaddedOrdered(a.second, b.second, 2);
        LessBefore(Padded(a.second, 2), "Z", Padded(b.second, 2), "Z");
      }
      TwoFields(a.minute, b.minute, 2, Padded(a.second, 2) + "Z", Padded(b.second, 2) + "Z");
    }
    TwoFields(a.hour, b.hour, 2, Padded(a.minute, 2) + (Padded(a.second, 2) + "Z"),
      Padded(b.minute, 2) + (Padded(b.second, 2) + "Z"));
  }

  lemma FourDigits()
    ensures Pow10(4) == 10_000
  {
    assert Pow10(2) == 100;
  }

  // Later dates have larger numbers, so a larger clock reading gives a later date.

  lemma StampOrdered(a: Civil, b: Civil)
    requires Valid(a) && Valid(b) && Earlier(a, b) && b.year <= 9999
    ensures NameLess(StampOf(a), StampOf(b))
  {
    hide Padded, NameLess, TimeText;
    assert Pow10(2) == 100;
    FourDigits();
    var ta, tb := "T" + TimeText(a), "T" + TimeText(b);
    if a.year == b.year {
      if a.month == b.month {
        if a.day == b.day {
          TimeOrdered(a, b);
          LessAfter("T", TimeText(a), TimeText(b));
        }
        TwoFields(a.day, b.day, 2, ta, tb);
      }
      TwoFields(a.month, b.month, 2, Padded(a.day, 2) + ta, Padded(b.day, 2) + tb);
    }
    TwoFields(a.year, b.year, 4, Padded(a.month, 2) + (Padded(a.day, 2) + ta),
      Padded(b.month, 2) + (Padded(b.day, 2) + tb));
  }

  lemma {:induction false} MonthsAdd(y: int, m: int, n: int)
    requires 1 <= m < n <= 13
    ensures DaysBeforeMonth(y, m) + DaysInMonth(y, m) <= DaysBeforeMonth(y, n)
    decreases n
  {
    if m < n - 1 {
      MonthsAdd(y, m, n - 1);
    }
  }

  lemma {:induction false} YearsAdd(y: nat, z: nat)
    requires y < z
    ensures DaysBeforeYear(y) + DaysInYear(y) <= DaysBeforeYear(z)
  {
    if y < z - 1 {
      YearsAdd(y, z - 1);
    }
  }

  lemma WholeYear(y: nat)
    ensures DaysBeforeMonth(y, 13) == DaysInYear(y)
  {
    BeforeMonth(y, 12);
    MonthStarts(9);
  }

  lemma FirstMonth(y: int, m: int)
    requires 1 <= m <= 12
    ensures DaysBeforeMonth(y, m) >= 0
  {
    BeforeMonth(y, m);
    MonthStarts(if m <= 2 then m + 9 else m - 3);
  }

  lemma EarlierDay(a: Civil, b: Civil)
    requires Valid(a) && Valid(b)
    requires a.year < b.year || (a.year == b.year && (a.month < b.month || (a.month == b.month && a.day < b.day)))
    ensures DayNumber(a) < DayNumber(b)
  {
    hide DaysInMonth, DaysInYear, DaysBeforeMonth, DaysBeforeYear;
    if a.year < b.year {
      YearsAdd(a.year, b.year);
      MonthsAdd(a.year, a.month, 13);
      WholeYear(a.year);
      FirstMonth(b.year, b.month);
    } else if a.month < b.month {
      MonthsAdd(a.year, a.month, b.month);
    }
  }

  lemma LaterIsLater(s: nat, t: nat)
    requires s < t < U64
    ensures Valid(CivilFromUnix(s)) && Valid(CivilFromUnix(t)) && Earlier(CivilFromUnix(s), CivilFromUnix(t))
  {
    hide CivilFromUnix, UnixFor, Leap, DaysInMonth, DaysBeforeYear, DaysBeforeMonth;
    CivilIsExact(s);
    CivilIsExact(t);
    var a, b := CivilFromUnix(s), CivilFromUnix(t);
    if b.year < a.year || (b.year == a.year && (b.month < a.month || (b.month == a.month && b.day < a.day))) {
      EarlierDay(b, a);
    }
  }

  /** The first instant of year 10000, and the last one before it. */
  const YEAR_10000 := 253_402_300_800

  lemma MonthBounds(doy: int)
    requires 0 <= doy <= 365
    ensures var mp := MarchMonth(doy); 0 <= MonthStart(mp) <= doy < MonthStart(mp) + 31
  {
    MonthTable(doy);
    MonthStarts(MarchMonth(doy));
    if MarchMonth(doy) < 11 {
      MonthStarts(MarchMonth(doy) + 1);
    }
  }

  /** A reading taken apart by hand, near the end of its era. */
  lemma DayBased(days: nat, ofDay: nat, doe: nat)
    requires days + 719_468 == 24 * 146_097 + doe && ofDay < 86_400 && 146_000 < doe < 146_096
    ensures var doy := doe - 145_731; var mp := MarchMonth(doy);
      CivilFromUnix(days * 86_400 + ofDay) ==
        Civil(if mp < 10 then 9_999 else 10_000, if mp < 10 then mp + 3 else mp - 9, doy - MonthStart(mp) + 1,
              ofDay / 3600, ofDay % 3600 / 60, ofDay % 60)
  {
    hide MonthStart, MarchMonth;
    var secs := days * 86_400 + ofDay;
    assert secs / 86_400 == days && secs % 86_400 == ofDay;
    assert DayOfEra(days + 719_468) == doe;
    assert YearOfEra(doe) == 399;
    assert DayOfYear(doe, 399) == doe - 145_731;
    MonthTable(doe - 145_731);
    MonthBounds(doe - 145_731);
  }

  lemma YearTenThousand()
    ensures CivilFromUnix(YEAR_10000) == Civil(10_000, 1, 1, 0, 0, 0)
    ensures CivilFromUnix(YEAR_10000 - 1) == Civil(9_999, 12, 31, 23, 59, 59)
  {
    hide CivilFromUnix, MonthStart;
    MonthStarts(9);
    MonthStarts(10);
    DayBased(2_932_897, 0, 146_037);
    DayBased(2_932_896, 86_399, 146_036);
  }

  lemma NamesOrdered(prefix: string, s: nat, t: nat)
    requires s < t < U64 && CivilFromUnix(t).year <= 9999
    ensures NameLess(DefaultName(prefix, s), DefaultName(prefix, t))
  {
    hide CivilFromUnix, StampOf, NameLess;
    LaterIsLater(s, t);
    StampOrdered(CivilFromUnix(s), CivilFromUnix(t));
    LessAfter(prefix, StampOf(CivilFromUnix(s)), StampOf(CivilFromUnix(t)));
  }

  ghost predicate NamesInOrder(prefix: string, limit: nat)
    requires limit < U64
  {
    forall s: nat, t: nat :: s < t <= limit ==> NameLess(DefaultName(prefix, s), DefaultName(prefix, t))
  }

  /** One second later, and the name sorts before. */
  lemma LastNameFirst(prefix: string)
    ensures !NameLess(DefaultName(prefix, YEAR_10000 - 1), DefaultName(prefix, YEAR_10000))
  {
    hide CivilFromUnix, UnixFor, DayNumber, Valid, TimeText;
    YearTenThousand();
    CivilIsExact(YEAR_10000 - 1);
    CivilIsExact(YEAR_10000);
    var a, b := StampOf(CivilFromUnix(YEAR_10000 - 1)), StampOf(CivilFromUnix(YEAR_10000));
    assert Padded(9_999, 4)[0] == '9';
    assert Padded(10_000, 4)[0] == '1';
    assert a[0] == '9' && b[0] == '1';
    assert NameLess(b, a);
    LessAfter(prefix, b, a);
    NameLessAsymmetric(prefix + b, prefix + a);
  }

  /** The names sort like the times they were taken at exactly as long as years have four digits. */
  lemma NamesSortUntilYear9999(prefix: string, limit: nat)
    requires limit < U64
    ensures NamesInOrder(prefix, limit) <==> CivilFromUnix(limit).year <= 9999
  {
    hide CivilFromUnix, DefaultName, NameLess, UnixFor, DayNumber;
    YearTenThousand();
    if CivilFromUnix(limit).year <= 9999 {
      forall s: nat, t: nat | s < t <= limit ensures NameLess(DefaultName(prefix, s), DefaultName(prefix, t)) {
        if t < limit {
          LaterIsLater(t, limit);
        }
        NamesOrdered(prefix, s, t);
      }
    } else {
      if limit < YEAR_10000 {
        if limit < YEAR_10000 - 1 {
          LaterIsLater(limit, YEAR_10000 - 1);
        }
        assert false;
      }
      LastNameFirst(prefix);
    }
  }

  // -------------------------------------------------------------------------
  // Reading a name back
  // -------------------------------------------------------------------------

  /** The number a string of decimal digits stands for. */
  function Decimal(s: string): int {
    if s == "" then 0 else 10 * Decimal(s[..|s| - 1]) + (s[|s| - 1] as int - '0' as int)
  }

  lemma DigitReads(n: nat)
    requires n < 10
    ensures Digit(n) as int - '0' as int == n
  {}

  lemma {:induction false} PaddedReads(n: nat, w: nat)
    requires n < Pow10(w) && w >= 1
    ensures |Padded(n, w)| == w && Decimal(Padded(n, w)) == n
  {
    if w == 1 {
      assert Pow10(0) == 1;
      DigitReads(n);
      assert [Digit(n)][..0] == "";
    } else {
      PaddedReads(n / 10, w - 1);
      DigitReads(n % 10);
      assert (Padded(n / 10, w - 1) + [Digit(n % 10)])[..w - 1] == Padded(n / 10, w - 1);
    }
  }

  /** Up to year 9999 the sixteen characters of a stamp are the date, a `T`, the time and a `Z`. */
  lemma StampReads(c: Civil)
    requires Valid(c) && 0 <= c.year <= 9999
    ensures var s := StampOf(c);
      && |s| == 16 && s[8] == 'T' && s[15] == 'Z'
      && Decimal(s[..4]) == c.year && Decimal(s[4..6]) == c.month && Decimal(s[6..8]) == c.day
      && Decimal(s[9..11]) == c.hour && Decimal(s[11..13]) == c.minute && Decimal(s[13..15]) == c.second
  {
    hide Padded, Decimal;
    assert Pow10(2) == 100 && Pow10(4) == 10_000;
    PaddedReads(c.year, 4);
    PaddedReads(c.month, 2);
    PaddedReads(c.day, 2);
    PaddedReads(c.hour, 2);
    PaddedReads(c.minute, 2);
    PaddedReads(c.second, 2);
    var s := StampOf(c);
    assert s[..4] == Padded(c.year, 4) && s[4..6] == Padded(c.month, 2) && s[6..8] == Padded(c.day, 2);
    assert s[9..11] == Padded(c.hour, 2) && s[11..13] == Padded(c.minute, 2) && s[13..15] == Padded(c.second, 2);
  }
}
