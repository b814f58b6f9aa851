/**
 Days since 1970-01-01 to a civil date, by the closed-form arithmetic the vault uses, against
 the Gregorian calendar counted day by day (RFC 3339, section 5.7 and Appendix C).
 */
module CivilDate {
  import opened Text

  datatype Date = Date(year: nat, month: nat, day: nat)

  // ---------- the calendar ----------

  predicate Leap(y: nat) {
    y % 4 == 0 && (y % 100 != 0 || y % 400 == 0)
  }

  function MonthLength(y: nat, m: nat): nat {
    if m == 2 then (if Leap(y) then 29 else 28)
    else if m == 4 || m == 6 || m == 9 || m == 11 then 30
    else 31
  }

  predicate Valid(d: Date) {
    1 <= d.month <= 12 && 1 <= d.day <= MonthLength(d.year, d.month)
  }

  function NextDay(d: Date): Date {
    if d.day < MonthLength(d.year, d.month) then d.(day := d.day + 1)
    else if d.month < 12 then Date(d.year, d.month + 1, 1)
    else Date(d.year + 1, 1, 1)
  }

  /** Counting days one at a time from the epoch. */
  function Count(days: nat): Date {
    if days == 0 then Date(1970, 1, 1) else NextDay(Count(days - 1))
  }

  // ---------- the closed form ----------

  function YearOfEra(doe: nat): nat {
    (doe - doe / 1460 + doe / 36524 - doe / 146096) / 365
  }

  /** Days from the start of an era (a 1 March) to the start of its year `y`. */
  function YearStart(y: nat): nat {
    365 * y + y / 4 - y / 100 + y / 400
  }

  function MonthStart(mp: nat): nat {
    (153 * mp + 2) / 5
  }

  /** Month and day of a day counted from 1 March of year `y`. */
  function FromMarch(y: nat, doy: nat): Date
  {
    var mp := (5 * doy + 2) / 153;
    var d := doy - MonthStart(mp) + 1;
    var m := if mp < 10 then mp + 3 else mp - 9;
    Date(if m <= 2 then y + 1 else y, m, d)
  }

  // ---------- the year within an era ----------

  /** Century, 4-year group, year and day of a day within its era. */
  ghost predicate Splits(doe: nat, c: nat, q: nat, k: nat, s: nat) {
    && doe == 36524 * c + 1461 * q + 365 * k + s
    && c <= 3 && q <= 24 && k <= 3 && s <= 365
    && (s == 365 ==> k == 3 && (q < 24 || c == 3))
  }

  lemma Split(doe: nat) returns (c: nat, q: nat, k: nat, s: nat)
    requires doe < 146097
    ensures Splits(doe, c, q, k, s)
  {
    c := if doe < 36524 then 0 else if doe < 73048 then 1 else if doe < 109572 then 2 else 3;
    var r := doe - 36524 * c;
    q := r / 1461;
    var d := r - 1461 * q;
    k := if d < 365 then 0 else if d < 730 then 1 else if d < 1095 then 2 else 3;
    s := d - 365 * k;
  }

  lemma SplitYear(c: nat, q: nat, k: nat)
    requires c <= 3 && q <= 24 && k <= 3
    ensures var y := 100 * c + 4 * q + k;
            && y < 400 && y / 4 == 25 * c + q && y / 100 == c && y / 400 == 0
            && YearStart(y) == 36524 * c + 1461 * q + 365 * k
            && YearStart(y + 1) == YearStart(y) + (if k == 3 && (q < 24 || c == 3) then 366 else 365)
  {
    var y := 100 * c + 4 * q + k;
    Quarters(y, 25 * c + q, k);
    Centuries(y, c, 4 * q + k);
    if k < 3 {
      Quarters(y + 1, 25 * c + q, k + 1);
    } else {
      Quarters(y + 1, 25 * c + q + 1, 0);
    }
    if 4 * q + k < 99 {
      Centuries(y + 1, c, 4 * q + k + 1);
    } else {
      Centuries(y + 1, c + 1, 0);
    }
  }

  lemma Quarters(y: nat, q: nat, r: nat)
    requires y == 4 * q + r && r < 4
    ensures y / 4 == q
  {
  }

  lemma Centuries(y: nat, q: nat, r: nat)
    requires y == 100 * q + r && r < 100
    ensures y / 100 == q
  {
  }

  lemma Div1460(x: nat, q: nat, r: nat)
    requires x == 1460 * q + r && r < 1460
    ensures x / 1460 == q
  {
  }

  lemma Div36524(x: nat, q: nat, r: nat)
    requires x == 36524 * q + r && r < 36524
    ensures x / 36524 == q
  {
  }

  lemma Div146096(x: nat)
    requires x < 146097
    ensures x / 146096 == if x == 146096 then 1 else 0
  {
  }

  lemma SplitQuotients(doe: nat, c: nat, q: nat, k: nat, s: nat)
    requires Splits(doe, c, q, k, s)
    ensures doe / 36524 - doe / 146096 == c
    ensures doe / 1460 == 25 * c + q + (if 24 * c + q + 365 * k + s >= 1460 then 1 else 0)
  {
    var e := 24 * c + q + 365 * k + s;
    assert doe == 1460 * (25 * c + q) + e;
    if e >= 1460 {
      Div1460(doe, 25 * c + q + 1, e - 1460);
    } else {
      Div1460(doe, 25 * c + q, e);
    }
    Div146096(doe);
    if doe == 146096 {
      Div36524(doe, 4, 0);
    } else {
      Div36524(doe, c, 1461 * q + 365 * k + s);
    }
  }

  lemma YearBounds(doe: nat)
    requires doe < 146097
    ensures YearOfEra(doe) < 400
    ensures YearStart(YearOfEra(doe)) <= doe < YearStart(YearOfEra(doe) + 1)
  {
    hide YearStart;
    var c, q, k, s := Split(doe);
    SplitYear(c, q, k);
    SplitQuotients(doe, c, q, k, s);
    var e := if 24 * c + q + 365 * k + s >= 1460 then 1 else 0;
    assert doe - doe / 1460 + doe / 36524 - doe / 146096 == 365 * (100 * c + 4 * q + k) + (s - e);
    assert 0 <= s - e < 365;
    assert YearOfEra(doe) == 100 * c + 4 * q + k;
  }

  function YearLength(y: nat): nat {
    if Leap(y + 1) then 366 else 365
  }

  lemma Mod4(x: nat, q: nat, r: nat)
    requires x == 4 * q + r && r < 4
    ensures x % 4 == r
  {
  }

  lemma Mod100(x: nat, q: nat, r: nat)
    requires x == 100 * q + r && r < 100
    ensures x % 100 == r
  {
  }

  lemma Mod400(x: nat, q: nat, r: nat)
    requires x == 400 * q + r && r < 400
    ensures x % 400 == r
  {
  }

  /** Leap years in terms of century, group and year, in any era. */
  lemma SplitLeap(c: nat, q: nat, k: nat, era: nat)
    requires c <= 3 && q <= 24 && k <= 3
    ensures Leap(100 * c + 4 * q + k + 1 + 400 * era) <==> k == 3 && (q < 24 || c == 3)
  {
    var y := 100 * c + 4 * q + k + 1 + 400 * era;
    if k < 3 {
      Mod4(y, 25 * c + q + 100 * era, k + 1);
    } else {
      Mod4(y, 25 * c + q + 1 + 100 * era, 0);
      if q < 24 {
        Mod100(y, c + 4 * era, 4 * q + 4);
      } else {
        Mod100(y, c + 1 + 4 * era, 0);
        if c < 3 {
          Mod400(y, era, 100 * c + 100);
        } else {
          Mod400(y, era + 1, 0);
        }
      }
    }
  }

  lemma SplitOf(y: nat) returns (c: nat, q: nat, k: nat)
    requires y < 400
    ensures y == 100 * c + 4 * q + k && c <= 3 && q <= 24 && k <= 3
  {
    c := y / 100;
    q := (y - 100 * c) / 4;
    k := y - 100 * c - 4 * q;
  }

  /** A March year is as long as the February it ends with says. */
  lemma YearStep(y: nat, era: nat)
    requires y < 400
    ensures YearStart(y + 1) == YearStart(y) + YearLength(y + 400 * era)
  {
    hide Leap, YearStart;
    var c, q, k := SplitOf(y);
    SplitYear(c, q, k);
    SplitLeap(c, q, k, era);
    assert y + 400 * era + 1 == 100 * c + 4 * q + k + 1 + 400 * era;
  }

  // ---------- the month within a year ----------

  /** The month boundaries of the 153-day rule are those of the calendar. */
  lemma MonthOf(doy: nat) returns (mp: nat)
    requires doy < 366
    ensures mp == (5 * doy + 2) / 153 && mp <= 11
    ensures MonthStart(mp) <= doy < MonthStart(mp + 1)
  {
    mp := (5 * doy + 2) / 153;
  }

  lemma MonthSpan(y: nat, mp: nat)
    requires mp <= 10
    ensures MonthStart(mp + 1) - MonthStart(mp) == MonthLength(if mp < 10 then y else y + 1, if mp < 10 then mp + 3 else mp - 9)
    ensures MonthStart(11) == 337 && MonthStart(0) == 0
  {
  }

  lemma FromMarchNext(y: nat, doy: nat)
    requires doy + 1 < YearLength(y)
    ensures FromMarch(y, doy + 1) == NextDay(FromMarch(y, doy))
  {
    var mp := MonthOf(doy);
    var mp' := MonthOf(doy + 1);
    if mp <= 10 {
      MonthSpan(y, mp);
    } else {
      MonthSpan(y, 10);
    }
  }

  lemma FromMarchLast(y: nat)
    ensures NextDay(FromMarch(y, YearLength(y) - 1)) == FromMarch(y + 1, 0)
  {
    var mp := MonthOf(YearLength(y) - 1);
  }

  lemma FromMarchValid(y: nat, doy: nat)
    requires doy < YearLength(y)
    ensures Valid(FromMarch(y, doy))
  {
    var mp := MonthOf(doy);
    if mp <= 10 {
      MonthSpan(y, mp);
    } else {
      MonthSpan(y, 10);
    }
  }

  // ---------- the whole conversion ----------

  function DaysToDate(days: nat): Date {
    var z := days + 719468;
    var era := z / 146097;
    var doe := z % 146097;
    var yoe := YearOfEra(doe);
    YearBounds(doe);
    YearStartUnder400(yoe);
    var doy := doe - (365 * yoe + yoe / 4 - yoe / 100);
    FromMarch(yoe + era * 400, doy)
  }

  lemma YearStartUnder400(y: nat)
    requires y < 400
    ensures YearStart(y) == 365 * y + y / 4 - y / 100
  {
  }

  /** A day count in March-based terms. */
  ghost predicate At(days: nat, era: nat, yoe: nat, doy: nat) {
    && yoe < 400 && doy < YearLength(yoe + 400 * era)
    && days + 719468 == 146097 * era + YearStart(yoe) + doy
  }

  lemma Locate(days: nat) returns (era: nat, yoe: nat, doy: nat)
    ensures At(days, era, yoe, doy)
    ensures DaysToDate(days) == FromMarch(yoe + 400 * era, doy)
  {
    hide YearOfEra, FromMarch, Leap;
    var z := days + 719468;
    era := z / 146097;
    var doe := z % 146097;
    YearBounds(doe);
    yoe := YearOfEra(doe);
    YearStartUnder400(yoe);
    YearStep(yoe, era);
    doy := doe - YearStart(yoe);
  }

  lemma YearStartGrows(a: nat, b: nat)
    requires a < b <= 400
    ensures YearStart(a + 1) <= YearStart(b)
    decreases b
  {
    if a + 1 < b {
      YearStartGrows(a, b - 1);
      YearStep(b - 1, 0);
    }
  }

  lemma EraSpan()
    ensures YearStart(0) == 0 && YearStart(400) == 146097
  {
  }

  /** The March-based position of a day count is unique. */
  lemma AtUnique(days: nat, era: nat, yoe: nat, doy: nat, era': nat, yoe': nat, doy': nat)
    requires At(days, era, yoe, doy) && At(days, era', yoe', doy')
    ensures era == era' && yoe == yoe' && doy == doy'
  {
    EraSpan();
    YearStep(yoe, era);
    YearStep(yoe', era');
    if yoe < 399 { YearStartGrows(yoe, 400); }
    if yoe' < 399 { YearStartGrows(yoe', 400); }
    if yoe < yoe' { YearStartGrows(yoe, yoe'); }
    if yoe' < yoe { YearStartGrows(yoe', yoe); }
  }

  lemma DateAt(days: nat, era: nat, yoe: nat, doy: nat)
    requires At(days, era, yoe, doy)
    ensures DaysToDate(days) == FromMarch(yoe + 400 * era, doy)
  {
    var e, y, d := Locate(days);
    AtUnique(days, e, y, d, era, yoe, doy);
  }

  /** One more day is the calendar's next day. */
  lemma DateStep(days: nat)
    ensures DaysToDate(days + 1) == NextDay(DaysToDate(days))
    ensures Valid(DaysToDate(days))
  {
    hide DaysToDate, FromMarch, NextDay, Valid, Leap;
    var era, yoe, doy := Locate(days);
    var y := yoe + 400 * era;
    FromMarchValid(y, doy);
    YearStep(yoe, era);
    if doy + 1 < YearLength(y) {
      DateAt(days + 1, era, yoe, doy + 1);
      FromMarchNext(y, doy);
    } else {
      FromMarchLast(y);
      EraSpan();
      if yoe < 399 {
        DateAt(days + 1, era, yoe + 1, 0);
      } else {
        DateAt(days + 1, era + 1, 0, 0);
      }
    }
  }

  /** The closed form is the day-by-day calendar, for every day count. */
  lemma {:induction false} DateIsCount(days: nat)
    ensures DaysToDate(days) == Count(days) && Valid(Count(days))
  {
    hide DaysToDate, NextDay, Valid;
    DateStep(days);
    if days == 0 {
      FirstDay();
    } else {
      DateIsCount(days - 1);
      DateStep(days - 1);
    }
  }

  lemma FirstDay()
    ensures DaysToDate(0) == Date(1970, 1, 1)
  {
    hide DaysToDate;
    assert YearStart(369) == 134774;
    DateAt(0, 4, 369, 306);
  }

  /** 2026-07-30 is day 20664; day 20669 is five days later. */
  lemma KnownDays()
    ensures DaysToDate(20664) == Date(2026, 7, 30) && DaysToDate(20669) == Date(2026, 8, 4)
  {
    hide DaysToDate;
    assert YearStart(26) == 9496;
    DateAt(20664, 5, 26, 151);
    DateAt(20669, 5, 26, 156);
  }

  predicate Before(a: Date, b: Date) {
    a.year < b.year || (a.year == b.year && (a.month < b.month || (a.month == b.month && a.day < b.day)))
  }

  /** Later days get later dates, so the conversion is injective. */
  lemma {:induction false} DateOrder(a: nat, b: nat)
    requires a < b
    ensures Before(DaysToDate(a), DaysToDate(b))
    decreases b
  {
    hide DaysToDate;
    DateStep(b - 1);
    if a < b - 1 {
      DateOrder(a, b - 1);
    }
  }

  /** Every valid date from 1970 on is reached. */
  lemma {:induction false} DateOnto(d: Date) returns (days: nat)
    requires Valid(d) && d.year >= 1970
    ensures DaysToDate(days) == d
    decreases d.year, d.month, d.day
  {
    hide DaysToDate;
    if d == Date(1970, 1, 1) {
      DateIsCount(0);
      days := 0;
    } else {
      var p := if d.day > 1 then d.(day := d.day - 1)
               else if d.month > 1 then Date(d.year, d.month - 1, MonthLength(d.year, d.month - 1))
               else Date(d.year - 1, 12, 31);
      var k := DateOnto(p);
      DateStep(k);
      days := k + 1;
    }
  }

  // ---------- day epochs: dates as text ----------

  /** `n` in `width` digits, zero padded. */
  function Pad(n: nat, width: nat): string {
    if width == 0 then "" else Pad(n / 10, width - 1) + [Digit(n % 10)]
  }

  /** `{y:04}-{m:02}-{d:02}`: a year above 9999 takes the digits it needs. */
  function DayEpoch(d: Date): string {
    (if d.year < 10000 then Pad(d.year, 4) else Decimal(d.year)) + "-" + Pad(d.month, 2) + "-" + Pad(d.day, 2)
  }

  lemma {:induction false} PadOrder(m: nat, n: nat, width: nat)
    requires m < Pow10(width) && n < Pow10(width)
    ensures |Pad(m, width)| == |Pad(n, width)| == width
    ensures Less(Pad(m, width), Pad(n, width)) <==> m < n
    ensures Pad(m, width) == Pad(n, width) <==> m == n
  {
    if width > 0 {
      PadOrder(m / 10, n / 10, width - 1);
      LessApp(Pad(m / 10, width - 1), Pad(n / 10, width - 1), [Digit(m % 10)], [Digit(n % 10)]);
      LessOne(Digit(m % 10), Digit(n % 10));
      assert Pad(m, width)[..width - 1] == Pad(m / 10, width - 1) && Pad(n, width)[..width - 1] == Pad(n / 10, width - 1);
      assert Pad(m, width)[width - 1] == Digit(m % 10) && Pad(n, width)[width - 1] == Digit(n % 10);
    }
  }

  function Pow10(k: nat): nat {
    if k == 0 then 1 else 10 * Pow10(k - 1)
  }

  /** Day epochs sort as dates, for every pair of dates up to the year 9999. */
  lemma DayEpochOrder(a: Date, b: Date)
    requires Valid(a) && Valid(b) && a.year <= 9999 && b.year <= 9999
    ensures Less(DayEpoch(a), DayEpoch(b)) <==> Before(a, b)
  {
    assert Pow10(2) == 100 && Pow10(4) == 10000;
    PadOrder(a.year, b.year, 4);
    PadOrder(a.month, b.month, 2);
    PadOrder(a.day, b.day, 2);
    hide Less, Pad, Decimal, Pow10;
    var (ya, ma, da) := (Pad(a.year, 4), Pad(a.month, 2), Pad(a.day, 2));
    var (yb, mb, db) := (Pad(b.year, 4), Pad(b.month, 2), Pad(b.day, 2));
    LessApp(ya + "-" + ma + "-", yb + "-" + mb + "-", da, db);
    LessDash(ya + "-" + ma, yb + "-" + mb);
    LessApp(ya + "-", yb + "-", ma, mb);
    LessDash(ya, yb);
    assert (ya + "-")[..4] == ya && (yb + "-")[..4] == yb;
    assert (ya + "-" + ma)[..5] == ya + "-" && (yb + "-" + mb)[..5] == yb + "-";
    assert (ya + "-" + ma)[5..] == ma && (yb + "-" + mb)[5..] == mb;
    assert (ya + "-" + ma + "-")[..7] == ya + "-" + ma && (yb + "-" + mb + "-")[..7] == yb + "-" + mb;
  }

  lemma LessDash(a: string, b: string)
    requires |a| == |b|
    ensures Less(a + "-", b + "-") <==> Less(a, b)
  {
    LessApp(a, b, "-", "-");
    LessOne('-', '-');
  }

  /** The last day epoch that sorts after its past: the day after 9999-12-31 sorts before it. */
  lemma DayEpochOrderEnds()
    ensures DaysToDate(2932896) == Date(9999, 12, 31)
    ensures DaysToDate(2932897) == Date(10000, 1, 1)
    ensures Less(DayEpoch(DaysToDate(2932897)), DayEpoch(DaysToDate(2932896)))
  {
    var d9999 := Date(9999, 12, 31);
    assert At(2932896, 24, 399, 305) by {
      assert YearStart(399) == 145731;
    }
    DateAt(2932896, 24, 399, 305);
    DateStep(2932896);
    hide DaysToDate;
    FirstDigits();
  }

  lemma FirstDigits()
    ensures Less(DayEpoch(Date(10000, 1, 1)), DayEpoch(Date(9999, 12, 31)))
  {
    assert Decimal(10) == "10";
    assert Decimal(100) == Decimal(10) + "0";
    assert Decimal(1000) == Decimal(100) + "0";
    assert Decimal(10000) == Decimal(1000) + "0";
    assert Pad(9, 1) == "9";
    assert Pad(99, 2) == Pad(9, 1) + "9";
    assert Pad(999, 3) == Pad(99, 2) + "9";
    assert Pad(9999, 4) == Pad(999, 3) + "9";
    assert DayEpoch(Date(10000, 1, 1))[0] == '1' && DayEpoch(Date(9999, 12, 31))[0] == '9';
  }

  lemma {:induction false} PadReads(n: nat, width: nat)
    requires n < Pow10(width)
    ensures |Pad(n, width)| == width && Number(Pad(n, width)) == n
  {
    if width > 0 {
      PadReads(n / 10, width - 1);
      assert Pad(n, width)[..width - 1] == Pad(n / 10, width - 1);
    }
  }

  /** A day text reads back as the year, the month and the day, at fixed places counted from the end. */
  lemma DayEpochReads(d: Date)
    requires Valid(d)
    ensures var s := DayEpoch(d);
            var n := |s|;
            && n >= 10 && (d.year < 10000 ==> n == 10) && s[n - 6] == '-' && s[n - 3] == '-'
            && Number(s[..n - 6]) == d.year && Number(s[n - 5..n - 3]) == d.month && Number(s[n - 2..]) == d.day
  {
    hide Pad, Decimal, Number, Pow10;
    SmallPowers();
    PadReads(d.month, 2);
    PadReads(d.day, 2);
    YearReads(d.year);
    var year := if d.year < 10000 then Pad(d.year, 4) else Decimal(d.year);
    DateParts(year, Pad(d.month, 2), Pad(d.day, 2));
  }

  lemma SmallPowers()
    ensures Pow10(2) == 100 && Pow10(4) == 10000
  {
  }

  lemma YearReads(y: nat)
    ensures var year := if y < 10000 then Pad(y, 4) else Decimal(y);
            Number(year) == y && |year| >= 4 && (y < 10000 ==> |year| == 4)
  {
    hide Pad, Decimal, Number, Pow10;
    SmallPowers();
    if y < 10000 {
      PadReads(y, 4);
    } else {
      DecimalReads(y);
      DecimalSize(y);
    }
  }

  lemma DateParts(year: string, month: string, day: string)
    requires |month| == 2 && |day| == 2
    ensures var s := year + "-" + month + "-" + day;
            var n := |s|;
            && n == |year| + 6 && s[n - 6] == '-' && s[n - 3] == '-'
            && s[..n - 6] == year && s[n - 5..n - 3] == month && s[n - 2..] == day
  {
  }

  lemma {:induction false} DecimalSize(n: nat)
    ensures n >= 1000 ==> |Decimal(n)| >= 4
    ensures n >= 100 ==> |Decimal(n)| >= 3
    ensures n >= 10 ==> |Decimal(n)| >= 2
    ensures |Decimal(n)| >= 1
  {
    if n >= 10 {
      DecimalSize(n / 10);
    }
  }
}
