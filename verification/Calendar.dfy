/**
 The keys of the delayed bucket: instants printed in UTC by the `time.RFC3339` layout.

 Seconds are counted from 0000-01-01T00:00:00Z in the proleptic Gregorian calendar, and the
 nanosecond clock from the same instant.  The printer covers the years 0 to 9999.
 */
module Calendar {
  import opened Text

  const SECONDS_PER_DAY: nat := 86400
  const NANOS: nat := 1_000_000_000
  const TWO_63: int := 0x8000_0000_0000_0000
  const TWO_64: int := 0x1_0000_0000_0000_0000

  predicate IsLeap(y: nat)
  {
    y % 4 == 0 && (y % 100 != 0 || y % 400 == 0)
  }

  function DaysInYear(y: nat): nat
  {
    if IsLeap(y) then 366 else 365
  }

  function DaysBeforeYear(y: nat): nat
  {
    if y == 0 then 0 else DaysBeforeYear(y - 1) + DaysInYear(y - 1)
  }

  /** Days before the first of month `m`; month 13 is the end of the year. */
  function DaysBeforeMonth(y: nat, m: nat): nat
    requires 1 <= m <= 13
  {
    [0, 31, 59, 90, 120, 151, 181, 212, 243, 273, 304, 334, 365][m - 1]
    + if m > 2 && IsLeap(y) then 1 else 0
  }

  function YearFrom(day: nat, y: nat): (r: nat)
    requires DaysBeforeYear(y) <= day
    ensures DaysBeforeYear(r) <= day < DaysBeforeYear(r + 1)
    decreases day - DaysBeforeYear(y)
  {
    if day < DaysBeforeYear(y + 1) then y else YearFrom(day, y + 1)
  }

  function MonthFrom(y: nat, day: nat, m: nat): (r: nat)
    requires 1 <= m <= 12 && DaysBeforeMonth(y, m) <= day < DaysInYear(y)
    ensures 1 <= r <= 12 && DaysBeforeMonth(y, r) <= day < DaysBeforeMonth(y, r + 1)
    decreases 12 - m
  {
    if m == 12 || day < DaysBeforeMonth(y, m + 1) then m else MonthFrom(y, day, m + 1)
  }

  function YearOf(day: nat): (y: nat)
    ensures DaysBeforeYear(y) <= day < DaysBeforeYear(y + 1)
  {
    YearFrom(day, 0)
  }

  function DayOfYear(day: nat): (d: nat)
    ensures d < DaysInYear(YearOf(day))
  {
    day - DaysBeforeYear(YearOf(day))
  }

  function MonthOf(day: nat): (m: nat)
    ensures 1 <= m <= 12
    ensures DaysBeforeMonth(YearOf(day), m) <= DayOfYear(day) < DaysBeforeMonth(YearOf(day), m + 1)
  {
    MonthFrom(YearOf(day), DayOfYear(day), 1)
  }

  function DayOf(day: nat): (d: nat)
    ensures 1 <= d <= 31
  {
    DayOfYear(day) - DaysBeforeMonth(YearOf(day), MonthOf(day)) + 1
  }

  function Year(t: nat): nat
  {
    YearOf(t / SECONDS_PER_DAY)
  }

  /** The instants whose year has at most four digits. */
  predicate Printable(t: nat)
  {
    Year(t) < 10000
  }

  lemma {:induction false} YearsAreLong(y: nat, k: nat)
    ensures DaysBeforeYear(y + k) >= DaysBeforeYear(y) + 365 * k
  {
    if k > 0 {
      YearsAreLong(y, k - 1);
    }
  }

  /** The year of a day is below `y` exactly when the day precedes the first day of `y`. */
  lemma YearBound(day: nat, y: nat)
    ensures YearOf(day) < y <==> day < DaysBeforeYear(y)
  {
    var r := YearOf(day);
    if r < y {
      YearsAreLong(r + 1, y - (r + 1));
    } else {
      YearsAreLong(y, r - y);
    }
  }

  /** Three numerals joined by a separator, as a date and a time of day are. */
  function Joined(w: nat, a: nat, b: nat, c: nat, sep: char): (s: string)
    requires a < Pow10(w) && b < Pow10(2) && c < Pow10(2)
    ensures |s| == w + 6
  {
    Numeral(w, a) + ([sep] + (Numeral(2, b) + ([sep] + Numeral(2, c))))
  }

  lemma JoinedOrder(w: nat, a: nat, b: nat, c: nat, x: nat, y: nat, z: nat, sep: char)
    requires a < Pow10(w) && b < Pow10(2) && c < Pow10(2)
    requires x < Pow10(w) && y < Pow10(2) && z < Pow10(2)
    requires a < x || (a == x && (b < y || (b == y && c < z)))
    ensures Less(Joined(w, a, b, c, sep), Joined(w, x, y, z, sep))
  {
    var bc, yz := Numeral(2, b) + ([sep] + Numeral(2, c)), Numeral(2, y) + ([sep] + Numeral(2, z));
    LessByParts(Numeral(w, a), Numeral(w, x), [sep] + bc, [sep] + yz);
    if a < x {
      NumeralOrder(w, a, x);
    } else {
      LessByParts([sep], [sep], bc, yz);
      LessByParts(Numeral(2, b), Numeral(2, y), [sep] + Numeral(2, c), [sep] + Numeral(2, z));
      if b < y {
        NumeralOrder(2, b, y);
      } else {
        LessByParts([sep], [sep], Numeral(2, c), Numeral(2, z));
        NumeralOrder(2, c, z);
      }
    }
  }

  function DatePart(day: nat): (s: string)
    requires YearOf(day) < 10000
    ensures |s| == 10
  {
    assert Pow10(4) == 10000 && Pow10(2) == 100;
    Joined(4, YearOf(day), MonthOf(day), DayOf(day), '-')
  }

  function ClockPart(s: nat): (r: string)
    requires s < SECONDS_PER_DAY
    ensures |r| == 8
  {
    assert Pow10(2) == 100;
    Joined(2, s / 3600, s / 60 % 60, s % 60, ':')
  }

  /** `Format(time.RFC3339)` of a UTC instant. */
  function Format(t: nat): (s: string)
    requires Printable(t)
    ensures |s| == 20
  {
    DatePart(t / SECONDS_PER_DAY) + ("T" + (ClockPart(t % SECONDS_PER_DAY) + "Z"))
  }

  lemma ClockFields(a: nat)
    requires a < SECONDS_PER_DAY
    ensures a == 3600 * (a / 3600) + 60 * (a / 60 % 60) + a % 60
  {
    var m := a / 60;
    assert m / 60 == a / 3600;
  }

  lemma ClockOrder(a: nat, b: nat)
    requires a < b < SECONDS_PER_DAY
    ensures Less(ClockPart(a), ClockPart(b))
  {
    ClockFields(a);
    ClockFields(b);
    assert Pow10(2) == 100;
    JoinedOrder(2, a / 3600, a / 60 % 60, a % 60, b / 3600, b / 60 % 60, b % 60, ':');
  }

  lemma MonthsIncrease(y: nat, m: nat, n: nat)
    requires 1 <= m <= n <= 13
    ensures DaysBeforeMonth(y, m) <= DaysBeforeMonth(y, n)
  {
  }

  lemma MonthFieldsOrder(y: nat, a: nat, b: nat, m: nat, n: nat)
    requires a < b && 1 <= m <= 12 && 1 <= n <= 12
    requires DaysBeforeMonth(y, m) <= a && b < DaysBeforeMonth(y, n + 1)
    ensures m <= n
  {
    if n < m {
      MonthsIncrease(y, n + 1, m);
    }
  }

  /** Later days have a larger year, or the same year and a larger month, or differ in the day only. */
  lemma DateFieldsOrder(a: nat, b: nat)
    requires a < b
    ensures YearOf(a) < YearOf(b)
         || (YearOf(a) == YearOf(b) && (MonthOf(a) < MonthOf(b) || (MonthOf(a) == MonthOf(b) && DayOf(a) < DayOf(b))))
  {
    YearBound(a, YearOf(b) + 1);
    if YearOf(a) == YearOf(b) {
      MonthFieldsOrder(YearOf(a), DayOfYear(a), DayOfYear(b), MonthOf(a), MonthOf(b));
    }
  }

  lemma DateOrder(a: nat, b: nat)
    requires a < b && YearOf(a) < 10000 && YearOf(b) < 10000
    ensures Less(DatePart(a), DatePart(b))
  {
    assert Pow10(4) == 10000 && Pow10(2) == 100;
    DateFieldsOrder(a, b);
    JoinedOrder(4, YearOf(a), MonthOf(a), DayOf(a), YearOf(b), MonthOf(b), DayOf(b), '-');
  }

  /** Key order is time order: the strings compare exactly as the instants do. */
  lemma FormatOrder(a: nat, b: nat)
    requires Printable(a) && Printable(b)
    ensures Less(Format(a), Format(b)) <==> a < b
    ensures Format(a) == Format(b) <==> a == b
    ensures AtMost(Format(a), Format(b)) <==> a <= b
  {
    if a < b {
      FormatIncreases(a, b);
      LessAsymmetric(Format(a), Format(b));
    } else if b < a {
      FormatIncreases(b, a);
      LessAsymmetric(Format(b), Format(a));
    } else {
      LessIrreflexive(Format(a));
    }
  }

  lemma StampOrder(d: string, e: string, x: string, y: string)
    requires |d| == |e| && |x| == |y|
    requires Less(d, e) || (d == e && Less(x, y))
    ensures Less(d + ("T" + (x + "Z")), e + ("T" + (y + "Z")))
  {
    LessByParts(d, e, "T" + (x + "Z"), "T" + (y + "Z"));
    LessByParts("T", "T", x + "Z", y + "Z");
    LessByParts(x, y, "Z", "Z");
  }

  lemma FormatIncreases(a: nat, b: nat)
    requires a < b && Printable(a) && Printable(b)
    ensures Less(Format(a), Format(b))
  {
    var da, db := a / SECONDS_PER_DAY, b / SECONDS_PER_DAY;
    var ca, cb := a % SECONDS_PER_DAY, b % SECONDS_PER_DAY;
    if da < db {
      DateOrder(da, db);
    } else {
      assert da == db && ca < cb;
      ClockOrder(ca, cb);
    }
    StampOrder(DatePart(da), DatePart(db), ClockPart(ca), ClockPart(cb));
  }

  lemma FirstYear(y: nat)
    ensures YearOf(DaysBeforeYear(y)) == y
  {
    var day := DaysBeforeYear(y);
    YearBound(day, y);
    YearBound(day, y + 1);
  }

  lemma FirstDay(day: nat)
    requires DayOfYear(day) == 0
    ensures MonthOf(day) == 1 && DayOf(day) == 1
  {
    MonthsIncrease(YearOf(day), 2, MonthOf(day) + 1);
  }

  // The calendar, day by day

  /** The length of a month, February by the leap years. */
  function MonthLength(y: nat, m: nat): nat
  {
    if m == 2 then if y % 4 == 0 && (y % 100 != 0 || y % 400 == 0) then 29 else 28
    else if m == 4 || m == 6 || m == 9 || m == 11 then 30
    else 31
  }

  lemma DayZero()
    ensures YearOf(0) == 0 && MonthOf(0) == 1 && DayOf(0) == 1
  {
    FirstYear(0);
    FirstDay(0);
  }

  lemma MonthLengths(y: nat, m: nat)
    requires 1 <= m <= 12
    ensures DaysBeforeMonth(y, m + 1) == DaysBeforeMonth(y, m) + MonthLength(y, m)
    ensures DaysBeforeMonth(y, 1) == 0 && DaysBeforeMonth(y, 13) == DaysInYear(y)
  {
  }

  /** The month of a day is the one whose days include it. */
  lemma MonthIs(day: nat, m: nat)
    requires 1 <= m <= 12 && DaysBeforeMonth(YearOf(day), m) <= DayOfYear(day) < DaysBeforeMonth(YearOf(day), m + 1)
    ensures MonthOf(day) == m
  {
    var y, r := YearOf(day), MonthOf(day);
    if r < m {
      MonthsIncrease(y, r + 1, m);
    } else if m < r {
      MonthsIncrease(y, m + 1, r);
    }
  }

  lemma YearIs(day: nat, y: nat)
    requires DaysBeforeYear(y) <= day < DaysBeforeYear(y + 1)
    ensures YearOf(day) == y
  {
    YearBound(day, y);
    YearBound(day, y + 1);
  }

  lemma NextDayOfYear(day: nat)
    requires DayOfYear(day) + 1 < DaysInYear(YearOf(day))
    ensures YearOf(day + 1) == YearOf(day) && DayOfYear(day + 1) == DayOfYear(day) + 1
  {
    YearIs(day + 1, YearOf(day));
  }

  lemma NextDayInYear(day: nat)
    requires DayOfYear(day) + 1 < DaysInYear(YearOf(day))
    ensures YearOf(day + 1) == YearOf(day) && DayOfYear(day + 1) == DayOfYear(day) + 1
    ensures var m := MonthOf(day);
            if DayOfYear(day) + 1 < DaysBeforeMonth(YearOf(day), m + 1) then MonthOf(day + 1) == m
            else m < 12 && MonthOf(day + 1) == m + 1
  {
    var y, m := YearOf(day), MonthOf(day);
    NextDayOfYear(day);
    if DayOfYear(day) + 1 < DaysBeforeMonth(y, m + 1) {
      MonthIs(day + 1, m);
    } else {
      MonthLengths(y, m + 1);
      MonthIs(day + 1, m + 1);
    }
  }

  lemma NextDayIsNewYear(day: nat)
    requires DayOfYear(day) + 1 == DaysInYear(YearOf(day))
    ensures YearOf(day + 1) == YearOf(day) + 1 && MonthOf(day + 1) == 1 && DayOf(day + 1) == 1
    ensures MonthOf(day) == 12 && DayOf(day) == 31
  {
    FirstYear(YearOf(day) + 1);
    FirstDay(day + 1);
    MonthIs(day, 12);
  }

  /**
   The day after: the next of the month while there is one, else the first of the next month, and after
   December of the next year.  With `DayZero` this determines every date.
   */
  lemma NextDay(day: nat)
    ensures var y, m, d := YearOf(day), MonthOf(day), DayOf(day);
            var y', m', d' := YearOf(day + 1), MonthOf(day + 1), DayOf(day + 1);
            if d < MonthLength(y, m) then y' == y && m' == m && d' == d + 1
            else if m < 12 then y' == y && m' == m + 1 && d' == 1
            else y' == y + 1 && m' == 1 && d' == 1
  {
    MonthLengths(YearOf(day), MonthOf(day));
    if DayOfYear(day) + 1 < DaysInYear(YearOf(day)) {
      NextDayInYear(day);
    } else {
      NextDayIsNewYear(day);
    }
  }

  // What is printed

  /** The characters from `i` to `j` are a numeral of the number. */
  predicate Reads(s: string, i: nat, j: nat, n: nat)
  {
    i <= j <= |s| && AllDigits(s[i..j]) && ValueOf(s[i..j]) == n
  }

  lemma ReadsWithin(before: string, s: string, after: string, i: nat, j: nat, n: nat)
    requires Reads(s, i, j, n)
    ensures Reads(before + (s + after), |before| + i, |before| + j, n)
  {
    assert (before + (s + after))[|before| + i..|before| + j] == s[i..j];
  }

  lemma PartsOf(x: string, y: string, z: string, sep: char)
    requires |y| == 2 && |z| == 2
    ensures var s, w := x + ([sep] + (y + ([sep] + z))), |x|;
            && |s| == w + 6 && s[w] == sep && s[w + 3] == sep
            && s[0..w] == x && s[w + 1..w + 3] == y && s[w + 4..w + 6] == z
  {
  }

  lemma JoinedReadsBack(w: nat, a: nat, b: nat, c: nat, sep: char)
    requires a < Pow10(w) && b < Pow10(2) && c < Pow10(2)
    ensures var s := Joined(w, a, b, c, sep);
            && s[w] == sep && s[w + 3] == sep
            && Reads(s, 0, w, a) && Reads(s, w + 1, w + 3, b) && Reads(s, w + 4, w + 6, c)
  {
    PartsOf(Numeral(w, a), Numeral(2, b), Numeral(2, c), sep);
    NumeralHasTheValue(w, a);
    NumeralHasTheValue(2, b);
    NumeralHasTheValue(2, c);
  }

  lemma DateReadsBack(day: nat)
    requires YearOf(day) < 10000
    ensures var s := DatePart(day);
            && s[4] == '-' && s[7] == '-'
            && Reads(s, 0, 4, YearOf(day)) && Reads(s, 5, 7, MonthOf(day)) && Reads(s, 8, 10, DayOf(day))
  {
    assert Pow10(4) == 10000 && Pow10(2) == 100;
    JoinedReadsBack(4, YearOf(day), MonthOf(day), DayOf(day), '-');
  }

  lemma ClockReadsBack(c: nat)
    requires c < SECONDS_PER_DAY
    ensures var s := ClockPart(c);
            && s[2] == ':' && s[5] == ':'
            && Reads(s, 0, 2, c / 3600) && Reads(s, 3, 5, c / 60 % 60) && Reads(s, 6, 8, c % 60)
  {
    assert Pow10(2) == 100;
    JoinedReadsBack(2, c / 3600, c / 60 % 60, c % 60, ':');
  }

  lemma StampDate(d: string, k: string, y: nat, m: nat, n: nat)
    requires |d| == 10 && Reads(d, 0, 4, y) && Reads(d, 5, 7, m) && Reads(d, 8, 10, n)
    ensures var s := d + ("T" + (k + "Z"));
            && s[4] == d[4] && s[7] == d[7] && s[10] == 'T'
            && Reads(s, 0, 4, y) && Reads(s, 5, 7, m) && Reads(s, 8, 10, n)
  {
    var after := "T" + (k + "Z");
    ReadsWithin("", d, after, 0, 4, y);
    ReadsWithin("", d, after, 5, 7, m);
    ReadsWithin("", d, after, 8, 10, n);
    assert "" + (d + after) == d + after;
  }

  lemma StampClock(d: string, k: string, h: nat, m: nat, n: nat)
    requires |d| == 10 && |k| == 8 && Reads(k, 0, 2, h) && Reads(k, 3, 5, m) && Reads(k, 6, 8, n)
    ensures var s := d + ("T" + (k + "Z"));
            && s[13] == k[2] && s[16] == k[5] && s[19] == 'Z'
            && Reads(s, 11, 13, h) && Reads(s, 14, 16, m) && Reads(s, 17, 19, n)
  {
    ReadsWithin(d + "T", k, "Z", 0, 2, h);
    ReadsWithin(d + "T", k, "Z", 3, 5, m);
    ReadsWithin(d + "T", k, "Z", 6, 8, n);
    assert (d + "T") + (k + "Z") == d + ("T" + (k + "Z"));
  }

  /** A printed instant read back: year, month and day of its day, and hour, minute and second of its time. */
  lemma FormatReadsBack(t: nat)
    requires Printable(t)
    ensures var s := Format(t);
            s[4] == '-' && s[7] == '-' && s[10] == 'T' && s[13] == ':' && s[16] == ':' && s[19] == 'Z'
    ensures var s, day := Format(t), t / 86400;
            Reads(s, 0, 4, YearOf(day)) && Reads(s, 5, 7, MonthOf(day)) && Reads(s, 8, 10, DayOf(day))
    ensures var s, c := Format(t), t % 86400;
            Reads(s, 11, 13, c / 3600) && Reads(s, 14, 16, c / 60 % 60) && Reads(s, 17, 19, c % 60)
  {
    var day, c := t / SECONDS_PER_DAY, t % SECONDS_PER_DAY;
    DateReadsBack(day);
    ClockReadsBack(c);
    StampDate(DatePart(day), ClockPart(c), YearOf(day), MonthOf(day), DayOf(day));
    StampClock(DatePart(day), ClockPart(c), c / 3600, c / 60 % 60, c % 60);
  }

  lemma FirstNumerals()
    ensures Pow10(4) == 10000 && Pow10(2) == 100
    ensures Numeral(4, 1990) == "1990" && Numeral(2, 1) == "01" && Numeral(2, 0) == "00"
  {
    assert Pow10(1) == 10 && Pow10(2) == 100 && Pow10(3) == 1000;
    assert Numeral(0, 0) == "";
    assert Numeral(1, 0) == "0" && Numeral(1, 1) == "1";
    assert Numeral(2, 19) == "19";
    assert Numeral(3, 199) == "199";
  }

  lemma MidnightClock()
    ensures ClockPart(0) == "00:00:00"
  {
    FirstNumerals();
    assert ClockPart(0) == "00" + (":" + ("00" + (":" + "00")));
  }

  lemma NewYearDate(day: nat)
    requires YearOf(day) < 10000 && DayOfYear(day) == 0
    ensures YearOf(day) < Pow10(4)
    ensures DatePart(day) == Numeral(4, YearOf(day)) + "-01-01"
  {
    FirstNumerals();
    FirstDay(day);
    assert DatePart(day) == Joined(4, YearOf(day), 1, 1, '-');
    assert "-" + ("01" + ("-" + "01")) == "-01-01";
  }

  const MIDNIGHT: string := "T" + ("00:00:00" + "Z")

  lemma NewYearStamp(y: nat)
    requires y < 10000
    ensures Printable(DaysBeforeYear(y) * SECONDS_PER_DAY)
    ensures y < Pow10(4) && Format(DaysBeforeYear(y) * SECONDS_PER_DAY) == (Numeral(4, y) + "-01-01") + MIDNIGHT
  {
    var day := DaysBeforeYear(y);
    var t := day * SECONDS_PER_DAY;
    assert t / SECONDS_PER_DAY == day && t % SECONDS_PER_DAY == 0;
    FirstYear(y);
    NewYearDate(day);
    MidnightClock();
  }

  /** A printed instant is at or after the first key of a year exactly when its year is. */
  lemma KeysFromYear(y: nat, t: nat)
    requires y < Pow10(4) && Printable(t)
    ensures AtMost((Numeral(4, y) + "-01-01") + MIDNIGHT, Format(t)) <==> y <= Year(t)
  {
    assert Pow10(4) == 10000;
    NewYearStamp(y);
    FormatOrder(DaysBeforeYear(y) * SECONDS_PER_DAY, t);
    YearBound(t / SECONDS_PER_DAY, y);
  }

  /** The key that the delayed scan seeks first. */
  const SCAN_START: string := "1990-01-01" + MIDNIGHT

  lemma ScanStartsAt1990(t: nat)
    requires Printable(t)
    ensures AtMost(SCAN_START, Format(t)) <==> 1990 <= Year(t)
  {
    FirstNumerals();
    KeysFromYear(1990, t);
    assert Numeral(4, 1990) + "-01-01" == "1990-01-01";
  }

  /** Two's complement reduction of a signed 64-bit product. */
  function Wrap64(x: int): (r: int)
    ensures -TWO_63 <= r < TWO_63 && (x - r) % TWO_64 == 0
  {
    (x + TWO_63) % TWO_64 - TWO_63
  }

  /** Clocks that can be printed, from the year the scan starts with. */
  predicate ClockOk(now: nat)
  {
    1990 <= Year(now / NANOS) < 10000
  }

  const LARGEST_DELAY: int := 9_223_372_036

  /** The calendar begins long enough before 1990 for the reach of a 64-bit duration, 292 years and a bit. */
  lemma ReachBack(now: nat, d: int)
    requires ClockOk(now) && -TWO_63 <= d
    ensures now + d >= 0
  {
    var s := now / NANOS;
    YearBound(s / SECONDS_PER_DAY, 1990);
    YearsAreLong(0, 1990);
    assert s >= 1990 * 365 * SECONDS_PER_DAY;
  }

  /** The second `time.Now().Add(time.Second * time.Duration(delay))` falls in. */
  function DueSecond(now: nat, delay: int): (t: nat)
    requires ClockOk(now)
  {
    ReachBack(now, Wrap64(delay * NANOS));
    (now + Wrap64(delay * NANOS)) / NANOS
  }

  /** The due time has a year of four digits. */
  predicate DueOk(now: nat, delay: int)
    requires ClockOk(now)
  {
    Printable(DueSecond(now, delay))
  }

  /** On a clock before the year 9700 every due time can be printed, whatever the delay. */
  lemma EveryDelayIsOk(now: nat, delay: int)
    requires ClockOk(now) && Year(now / NANOS) < 9700
    ensures DueOk(now, delay)
  {
    var s, t := now / NANOS, DueSecond(now, delay);
    assert t <= s + LARGEST_DELAY + 1;
    var y := Year(s);
    YearBound(s / SECONDS_PER_DAY, y + 1);
    YearsAreLong(y + 1, 300);
    assert t / SECONDS_PER_DAY <= s / SECONDS_PER_DAY + 300 * 365;
    YearBound(t / SECONDS_PER_DAY, y + 301);
  }

  /** Delays of up to 292 years are honoured; a longer one overflows the duration and comes out earlier. */
  lemma DueSecondExact(now: nat, delay: int)
    requires ClockOk(now) && delay > 0
    ensures DueSecond(now, delay) == now / NANOS + delay <==> delay <= LARGEST_DELAY
    ensures DueSecond(now, delay) <= now / NANOS + delay
    ensures delay <= LARGEST_DELAY ==> Year(DueSecond(now, delay)) >= 1990
  {
    var x := delay * NANOS;
    var t := DueSecond(now, delay);
    if delay <= LARGEST_DELAY {
      assert Wrap64(x) == x;
      assert t == now / NANOS + delay;
      YearBound(now / NANOS / SECONDS_PER_DAY, 1990);
      YearBound(t / SECONDS_PER_DAY, 1990);
    } else {
      assert Wrap64(x) <= x - TWO_64;
    }
  }

  /** The key under which a job is delayed. */
  function DelayKey(now: nat, delay: int): string
    requires ClockOk(now) && DueOk(now, delay)
  {
    Format(DueSecond(now, delay))
  }
}
