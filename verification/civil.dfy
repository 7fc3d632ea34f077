/**
 * Proleptic Gregorian calendar arithmetic behind Go's
 * `time.Unix(...).Format("20060102")`: day numbers counted from
 * 0001-01-01, their civil dates, and the eight-digit rendering.
 */
module Civil {
  import Strconv

  datatype Date = Date(year: int, month: int, day: int)

  predicate IsLeap(y: int) {
    y % 4 == 0 && (y % 100 != 0 || y % 400 == 0)
  }

  function DaysInYear(y: int): int {
    if IsLeap(y) then 366 else 365
  }

  function DaysInMonth(y: int, m: int): (n: int)
    requires 1 <= m <= 12
    ensures 28 <= n <= 31
  {
    if m == 2 then (if IsLeap(y) then 29 else 28)
    else if m == 4 || m == 6 || m == 9 || m == 11 then 30
    else 31
  }

  /** Days in the months of year `y` before month `m`. */
  function DaysBeforeMonth(y: int, m: int): int
    requires 1 <= m <= 12
  {
    var base := [0, 31, 59, 90, 120, 151, 181, 212, 243, 273, 304, 334][m - 1];
    if m > 2 && IsLeap(y) then base + 1 else base
  }

  predicate ValidDate(d: Date) {
    1 <= d.month <= 12 && 1 <= d.day <= DaysInMonth(d.year, d.month)
  }

  /** Days from 0001-01-01 to the first of January of year `y`. */
  function DaysBeforeYear(y: int): int {
    365 * (y - 1) + (y - 1) / 4 - (y - 1) / 100 + (y - 1) / 400
  }

  /** The reference numbering: days elapsed from 0001-01-01 to `d`. */
  function DayNumber(d: Date): int
    requires ValidDate(d)
  {
    DaysBeforeYear(d.year) + DaysBeforeMonth(d.year, d.month) + d.day - 1
  }

  /** Lexicographic order on (year, month, day). */
  predicate DateLess(a: Date, b: Date) {
    a.year < b.year
    || (a.year == b.year && a.month < b.month)
    || (a.year == b.year && a.month == b.month && a.day < b.day)
  }

  /** The month holding day-of-year `doy`, searching down from `m`. */
  function MonthOf(y: int, doy: int, m: int): (r: int)
    requires 1 <= m <= 12
    requires 0 <= doy < DaysBeforeMonth(y, m) + DaysInMonth(y, m)
    ensures 1 <= r <= m
    ensures DaysBeforeMonth(y, r) <= doy < DaysBeforeMonth(y, r) + DaysInMonth(y, r)
    decreases m
  {
    if m == 1 || DaysBeforeMonth(y, m) <= doy then m
    else
      assert DaysBeforeMonth(y, m - 1) + DaysInMonth(y, m - 1) == DaysBeforeMonth(y, m);
      MonthOf(y, doy, m - 1)
  }

  /** Civil date of day number `n`, by peeling off 400-, 100-, 4- and
      1-year cycles as Go's time package does. Its result is a valid date
      whose reference number is `n`. */
  function DateOf(n: int): (d: Date)
    ensures ValidDate(d)
    ensures DayNumber(d) == n
    ensures 400 * (n / 146097) + 1 <= d.year <= 400 * (n / 146097) + 400
  {
    var n400 := n / 146097;
    var r400 := n % 146097;
    var n100 := if r400 / 36524 == 4 then 3 else r400 / 36524;
    var r100 := r400 - 36524 * n100;
    var n4 := r100 / 1461;
    var r4 := r100 - 1461 * n4;
    var n1 := if r4 / 365 == 4 then 3 else r4 / 365;
    var doy := r4 - 365 * n1;
    var y := 400 * n400 + 100 * n100 + 4 * n4 + n1 + 1;
    CycleFacts(n400, n100, n4, n1, r100, r4, doy);
    YearCount(n400, n100, n4, n1);
    assert DaysBeforeMonth(y, 12) + DaysInMonth(y, 12) == DaysInYear(y);
    var m := MonthOf(y, doy, 12);
    Date(y, m, doy - DaysBeforeMonth(y, m) + 1)
  }

  /** Day 365 of a cycle year only exists in a leap year. */
  lemma CycleFacts(n400: int, n100: int, n4: int, n1: int, r100: int, r4: int, doy: int)
    requires 0 <= n100 <= 3 && 0 <= r100 <= 36524 && (r100 == 36524 ==> n100 == 3)
    requires n4 == r100 / 1461 && r4 == r100 - 1461 * n4
    requires n1 == (if r4 / 365 == 4 then 3 else r4 / 365) && doy == r4 - 365 * n1
    ensures 0 <= n4 <= 24 && 0 <= n1 <= 3 && 0 <= doy <= 365
    ensures doy < DaysInYear(400 * n400 + 100 * n100 + 4 * n4 + n1 + 1)
  {
    assert 0 <= r4 <= 1460;
    if doy == 365 {
      assert n1 == 3 && r4 == 1460;
      if n4 == 24 {
        assert n100 == 3;
        LeapCentury(n400);
      } else {
        LeapQuad(n400, n100, n4);
      }
    }
  }

  lemma LeapCentury(k: int)
    ensures IsLeap(400 * k + 400)
  {
    var y := 400 * k + 400;
    assert y % 400 == 0 by { ShiftMod400(k + 1); }
    assert y % 4 == 0 by { ShiftMod4(100 * k + 100, 0); }
  }

  lemma LeapQuad(a: int, b: int, c: int)
    requires 0 <= b <= 3 && 0 <= c <= 23
    ensures IsLeap(400 * a + 100 * b + 4 * c + 4)
  {
    var y := 400 * a + 100 * b + 4 * c + 4;
    assert y % 4 == 0 by { ShiftMod4(100 * a + 25 * b + c + 1, 0); }
    assert y % 100 == 4 * c + 4 by { ShiftMod100(4 * a + b, 4 * c + 4); }
  }

  lemma ShiftMod4(k: int, x: int)
    requires 0 <= x < 4
    ensures (4 * k + x) % 4 == x
  {
  }

  lemma ShiftMod100(k: int, x: int)
    requires 0 <= x < 100
    ensures (100 * k + x) % 100 == x
  {
  }

  lemma ShiftMod400(k: int)
    ensures (400 * k) % 400 == 0
  {
  }

  /** Counting leap days before the year a cycle decomposition names. */
  lemma YearCount(a: int, b: int, c: int, e: int)
    requires 0 <= b <= 3 && 0 <= c <= 24 && 0 <= e <= 3
    ensures DaysBeforeYear(400 * a + 100 * b + 4 * c + e + 1)
         == 146097 * a + 36524 * b + 1461 * c + 365 * e
  {
    var x := 400 * a + 100 * b + 4 * c + e;
    assert x / 4 == 100 * a + 25 * b + c;
    assert x / 100 == 4 * a + b;
    assert x / 400 == a;
  }

  lemma DaysBeforeYearStep(y: int)
    ensures DaysBeforeYear(y + 1) == DaysBeforeYear(y) + DaysInYear(y)
  {
    var x := y - 1;
    assert (x + 1) / 4 == x / 4 + (if y % 4 == 0 then 1 else 0);
    assert (x + 1) / 100 == x / 100 + (if y % 100 == 0 then 1 else 0);
    assert (x + 1) / 400 == x / 400 + (if y % 400 == 0 then 1 else 0);
  }

  lemma {:induction false} DaysBeforeYearMonotone(y1: int, y2: int)
    requires y1 <= y2
    ensures DaysBeforeYear(y1) + 365 * (y2 - y1) <= DaysBeforeYear(y2)
    decreases y2 - y1
  {
    if y1 < y2 {
      DaysBeforeYearMonotone(y1, y2 - 1);
      DaysBeforeYearStep(y2 - 1);
    }
  }

  lemma MonthBounds(y: int, m: int)
    requires 1 <= m <= 12
    ensures DaysBeforeMonth(y, m) + DaysInMonth(y, m) <= DaysInYear(y)
    ensures m < 12 ==> DaysBeforeMonth(y, m) + DaysInMonth(y, m) == DaysBeforeMonth(y, m + 1)
  {
  }

  lemma MonthMonotone(y: int, m1: int, m2: int)
    requires 1 <= m1 < m2 <= 12
    ensures DaysBeforeMonth(y, m1) + DaysInMonth(y, m1) <= DaysBeforeMonth(y, m2)
  {
  }

  /** A date's number lies within its year's days. */
  lemma DayNumberInYear(d: Date)
    requires ValidDate(d)
    ensures DaysBeforeYear(d.year) <= DayNumber(d) < DaysBeforeYear(d.year + 1)
  {
    MonthBounds(d.year, d.month);
    DaysBeforeYearStep(d.year);
  }

  /** The reference numbering is strictly increasing in date order. */
  lemma DayNumberMonotone(a: Date, b: Date)
    requires ValidDate(a) && ValidDate(b) && DateLess(a, b)
    ensures DayNumber(a) < DayNumber(b)
  {
    if a.year < b.year {
      DayNumberInYear(a);
      DayNumberInYear(b);
      DaysBeforeYearMonotone(a.year + 1, b.year);
    } else if a.month < b.month {
      MonthBounds(a.year, a.month);
      MonthMonotone(a.year, a.month, b.month);
    }
  }

  /** Later day numbers have later civil dates; equal ones equal dates. */
  lemma DateOfMonotone(n1: int, n2: int)
    requires n1 < n2
    ensures DateLess(DateOf(n1), DateOf(n2))
  {
    var a, b := DateOf(n1), DateOf(n2);
    if !DateLess(a, b) {
      if a == b {
      } else {
        assert DateLess(b, a);
        DayNumberMonotone(b, a);
      }
    }
  }

  /** Two zero-padded decimal digits. */
  function Pad2(x: int): (s: string)
    requires 0 <= x < 100
    ensures |s| == 2
  {
    [Strconv.DigitChar(x / 10), Strconv.DigitChar(x % 10)]
  }

  /** Four zero-padded decimal digits: Go's year field of layout "2006". */
  function Pad4(x: int): (s: string)
    requires 0 <= x < 10000
    ensures |s| == 4
  {
    Pad2(x / 100) + Pad2(x % 100)
  }

  predicate InRenderRange(d: Date) {
    ValidDate(d) && 0 <= d.year <= 9999
  }

  /** Layout "20060102": four-digit year, two-digit month, two-digit day. */
  function YYYYMMDD(d: Date): (s: string)
    requires InRenderRange(d)
    ensures |s| == 8
    ensures forall i :: 0 <= i < 8 ==> Strconv.IsDigit(s[i])
    ensures ParseYYYYMMDD(s) == d
  {
    var s := Pad4(d.year) + Pad2(d.month) + Pad2(d.day);
    s
  }

  /** Reads back a rendered date. */
  function ParseYYYYMMDD(s: string): Date
    requires |s| == 8 && forall i :: 0 <= i < 8 ==> Strconv.IsDigit(s[i])
  {
    Date(100 * Val2(s[0], s[1]) + Val2(s[2], s[3]), Val2(s[4], s[5]), Val2(s[6], s[7]))
  }

  /** Value of two decimal digits. */
  function Val2(hi: char, lo: char): nat
    requires Strconv.IsDigit(hi) && Strconv.IsDigit(lo)
  {
    10 * Strconv.DigitValue(hi) + Strconv.DigitValue(lo)
  }

  /** Byte-wise lexicographic order, as Go compares strings. */
  predicate LexLess(a: string, b: string) {
    |b| > 0 && (|a| == 0 || a[0] < b[0] || (a[0] == b[0] && LexLess(a[1..], b[1..])))
  }

  lemma {:induction false} LexLessConcat(a: string, b: string, c: string, d: string)
    requires |a| == |c|
    requires LexLess(a, c) || (a == c && LexLess(b, d))
    ensures LexLess(a + b, c + d)
    decreases |a|
  {
    if |a| == 0 {
      assert a + b == b && c + d == d;
    } else {
      assert (a + b)[0] == a[0] && (c + d)[0] == c[0];
      assert (a + b)[1..] == a[1..] + b && (c + d)[1..] == c[1..] + d;
      if a[0] == c[0] {
        LexLessConcat(a[1..], b, c[1..], d);
      }
    }
  }

  lemma Pad2Less(x: int, y: int)
    requires 0 <= x < y < 100
    ensures LexLess(Pad2(x), Pad2(y))
  {
    var p, q := Pad2(x), Pad2(y);
    if x / 10 == y / 10 {
      assert p[1..] == [p[1]] && q[1..] == [q[1]];
      assert LexLess(p[1..], q[1..]);
    }
  }

  lemma Pad4Less(x: int, y: int)
    requires 0 <= x < y < 10000
    ensures LexLess(Pad4(x), Pad4(y))
  {
    if x / 100 < y / 100 {
      Pad2Less(x / 100, y / 100);
    } else {
      Pad2Less(x % 100, y % 100);
    }
    LexLessConcat(Pad2(x / 100), Pad2(x % 100), Pad2(y / 100), Pad2(y % 100));
  }

  /** Rendered dates compare as strings the way the dates compare. */
  lemma RenderMonotone(a: Date, b: Date)
    requires InRenderRange(a) && InRenderRange(b) && DateLess(a, b)
    ensures LexLess(YYYYMMDD(a), YYYYMMDD(b))
  {
    var ya, yb := Pad4(a.year), Pad4(b.year);
    var ma, mb := Pad2(a.month), Pad2(b.month);
    var da, db := Pad2(a.day), Pad2(b.day);
    if a.year < b.year {
      Pad4Less(a.year, b.year);
    } else {
      if a.month < b.month {
        Pad2Less(a.month, b.month);
      } else {
        Pad2Less(a.day, b.day);
      }
      LexLessConcat(ma, da, mb, db);
    }
    LexLessConcat(ya, ma + da, yb, mb + db);
    assert YYYYMMDD(a) == ya + (ma + da) && YYYYMMDD(b) == yb + (mb + db);
  }
}
