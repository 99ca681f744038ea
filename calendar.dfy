/** Proleptic Gregorian dates as Python's `datetime` handles them: day ordinals
    (`date.toordinal`), ISO rendering (`strftime("%Y-%m-%d")`) and the compact
    `"%Y%m%dT%H"` form in which the news feed stamps its articles. */
module Calendar {
  import opened Util

  datatype Date = Date(year: int, month: int, day: int)

  predicate IsLeap(y: int) {
    y % 4 == 0 && (y % 100 != 0 || y % 400 == 0)
  }

  function YearLength(y: int): int {
    if IsLeap(y) then 366 else 365
  }

  function DaysInMonth(y: int, m: int): (n: int)
    requires 1 <= m <= 12
    ensures 28 <= n <= 31
  {
    if m == 2 then (if IsLeap(y) then 29 else 28)
    else if m == 4 || m == 6 || m == 9 || m == 11 then 30
    else 31
  }

  /** Days in the months of year `y` before month `m`. */
  function DaysBeforeMonth(y: int, m: int): int
    requires 1 <= m <= 12
  {
    var table := [0, 31, 59, 90, 120, 151, 181, 212, 243, 273, 304, 334];
    table[m - 1] + (if m > 2 && IsLeap(y) then 1 else 0)
  }

  /** Days in the years before year `y`, counting from year 1. */
  function DaysBeforeYear(y: int): int
    requires y >= 1
  {
    var p := y - 1;
    p * 365 + p / 4 - p / 100 + p / 400
  }

  /** A date `datetime.date` accepts: years 1 to 9999, real months and days. */
  predicate Valid(d: Date) {
    1 <= d.year <= 9999 && 1 <= d.month <= 12 && 1 <= d.day <= DaysInMonth(d.year, d.month)
  }

  /** `date.toordinal()`: 0001-01-01 is day 1. */
  function Ordinal(d: Date): int
    requires Valid(d)
  {
    DaysBeforeYear(d.year) + DaysBeforeMonth(d.year, d.month) + d.day
  }

  /** Calendar order: by year, then month, then day. */
  predicate Before(a: Date, b: Date) {
    a.year < b.year
    || (a.year == b.year && a.month < b.month)
    || (a.year == b.year && a.month == b.month && a.day < b.day)
  }

  lemma MonthStep(y: int, m: int)
    requires 1 <= m < 12
    ensures DaysBeforeMonth(y, m + 1) == DaysBeforeMonth(y, m) + DaysInMonth(y, m)
  {
  }

  lemma {:induction false} MonthsFit(y: int, m: int, m2: int)
    requires 1 <= m < m2 <= 12
    ensures DaysBeforeMonth(y, m) + DaysInMonth(y, m) <= DaysBeforeMonth(y, m2)
    decreases m2 - m
  {
    MonthStep(y, m);
    if m + 1 < m2 {
      MonthsFit(y, m + 1, m2);
    }
  }

  lemma {:induction false} MulAtLeast(k: nat, d: nat)
    ensures d == 0 || k * d >= k
    decreases d
  {
    if d > 0 {
      var e: nat := d - 1;
      MulAtLeast(k, e);
      assert k * d == k * e + k;
    }
  }

  /** A nonzero multiple of `k` is at least `k` away from zero. */
  lemma MulAway(k: int, d: int)
    requires k >= 0
    ensures d == 0 || k * d >= k || k * d <= -k
  {
    if d >= 0 {
      MulAtLeast(k, d);
    } else {
      MulAtLeast(k, -d);
      assert k * d == -(k * (-d));
    }
  }

  /** Euclidean division has one quotient and one remainder. */
  lemma DivModUnique(n: int, k: int, q: int, r: int)
    requires k > 0 && 0 <= r < k && n == k * q + r
    ensures n / k == q && n % k == r
  {
    var q', r' := n / k, n % k;
    assert n == k * q' + r';
    var d := q - q';
    MulAway(k, d);
    assert k * d == k * q - k * q';
    assert k * d == r' - r;
    assert d == 0;
  }

  /** Stepping from `y - 1` to `y` passes a multiple of `k` exactly when `y`
      is one. */
  lemma DivStep(y: int, k: int)
    requires k > 0
    ensures y / k - (y - 1) / k == (if y % k == 0 then 1 else 0)
  {
    var q, r := y / k, y % k;
    assert y == k * q + r;
    if r == 0 {
      DivModUnique(y - 1, k, q - 1, k - 1);
    } else {
      DivModUnique(y - 1, k, q, r - 1);
    }
  }

  /** Multiples of 400 are multiples of 100, and those of 100 of 4. */
  lemma MultiplesNest(y: int)
    ensures y % 400 == 0 ==> y % 100 == 0
    ensures y % 100 == 0 ==> y % 4 == 0
  {
    if y % 400 == 0 {
      var q := y / 400;
      assert y == 100 * (4 * q) + 0;
      DivModUnique(y, 100, 4 * q, 0);
    }
    if y % 100 == 0 {
      var q := y / 100;
      assert y == 4 * (25 * q) + 0;
      DivModUnique(y, 4, 25 * q, 0);
    }
  }

  lemma YearStep(y: int)
    requires y >= 1
    ensures DaysBeforeYear(y + 1) == DaysBeforeYear(y) + YearLength(y)
  {
    DivStep(y, 4);
    DivStep(y, 100);
    DivStep(y, 400);
    MultiplesNest(y);
    var a, b, c := y / 4 - (y - 1) / 4, y / 100 - (y - 1) / 100, y / 400 - (y - 1) / 400;
    assert DaysBeforeYear(y + 1) - DaysBeforeYear(y) == 365 + a - b + c;
  }

  lemma {:induction false} YearsFit(y: int, y2: int)
    requires 1 <= y < y2
    ensures DaysBeforeYear(y) + YearLength(y) <= DaysBeforeYear(y2)
    decreases y2 - y
  {
    YearStep(y);
    if y + 1 < y2 {
      YearsFit(y + 1, y2);
      YearStep(y + 1);
    }
  }

  lemma LastDayOfYear(y: int)
    ensures DaysBeforeMonth(y, 12) + DaysInMonth(y, 12) == YearLength(y)
  {
  }

  lemma OrdinalMonotone(a: Date, b: Date)
    requires Valid(a) && Valid(b) && Before(a, b)
    ensures Ordinal(a) < Ordinal(b)
  {
    if a.year < b.year {
      if a.month < 12 {
        MonthsFit(a.year, a.month, 12);
      }
      LastDayOfYear(a.year);
      YearsFit(a.year, b.year);
    } else if a.month < b.month {
      MonthsFit(a.year, a.month, b.month);
    }
  }

  /** Calendar order and ordinal order agree, in both directions. */
  lemma OrdinalOrder(a: Date, b: Date)
    requires Valid(a) && Valid(b)
    ensures Before(a, b) <==> Ordinal(a) < Ordinal(b)
  {
    if Before(a, b) {
      OrdinalMonotone(a, b);
    } else if a != b {
      OrdinalMonotone(b, a);
    }
  }

  /** `strftime("%Y-%m-%d")`, with the year padded to four digits. */
  function Iso(d: Date): (s: string)
    requires Valid(d)
    ensures |s| == 10 && s[4] == '-' && s[7] == '-'
  {
    PaddedShape(d.year, 4);
    PaddedShape(d.month, 2);
    PaddedShape(d.day, 2);
    Padded(d.year, 4) + ("-" + (Padded(d.month, 2) + ("-" + Padded(d.day, 2))))
  }

  lemma LexLessPadded(a: nat, b: nat, w: nat)
    requires a < Pow10(w) && b < Pow10(w)
    ensures LexLess(Padded(a, w), Padded(b, w)) <==> a < b
    ensures Padded(a, w) == Padded(b, w) <==> a == b
  {
    PaddedShape(a, w);
    PaddedShape(b, w);
    PaddedValue(a, w);
    PaddedValue(b, w);
    LexLessDigits(Padded(a, w), Padded(b, w));
  }

  lemma LexLessDash(x: string, y: string)
    ensures LexLess("-" + x, "-" + y) <==> LexLess(x, y)
    ensures "-" + x == "-" + y <==> x == y
  {
    LexLessConcat("-", x, "-", y);
    if "-" + x == "-" + y {
      assert x == ("-" + x)[1..] && y == ("-" + y)[1..];
    }
  }

  /** Comparing the ISO strings of two dates, as the feed handler does, is
      comparing the dates on the calendar. */
  lemma IsoOrder(a: Date, b: Date)
    requires Valid(a) && Valid(b)
    ensures LexLess(Iso(a), Iso(b)) <==> Before(a, b)
  {
    assert Pow10(2) == 100 && Pow10(4) == 10000;
    var ma, mb := Padded(a.month, 2) + ("-" + Padded(a.day, 2)), Padded(b.month, 2) + ("-" + Padded(b.day, 2));
    PaddedShape(a.year, 4);
    PaddedShape(b.year, 4);
    PaddedShape(a.month, 2);
    PaddedShape(b.month, 2);
    LexLessPadded(a.year, b.year, 4);
    LexLessPadded(a.month, b.month, 2);
    LexLessPadded(a.day, b.day, 2);
    LexLessConcat(Padded(a.year, 4), "-" + ma, Padded(b.year, 4), "-" + mb);
    LexLessDash(ma, mb);
    LexLessConcat(Padded(a.month, 2), "-" + Padded(a.day, 2), Padded(b.month, 2), "-" + Padded(b.day, 2));
    LexLessDash(Padded(a.day, 2), Padded(b.day, 2));
  }

  /** The ten-character shape `YYYYMMDDTH` of a published-time prefix; like
      every literal in a `strptime` format, the `T` matches either case. */
  predicate CompactShape(p: string) {
    |p| == 10 && AllDigits(p[..8]) && (p[8] == 'T' || p[8] == 't') && IsDigit(p[9])
  }

  /** `datetime.strptime(p, "%Y%m%dT%H")` reduced to its date; None where
      Python raises `ValueError`. */
  function ParseCompact(p: string): Option<Date> {
    if CompactShape(p) then
      var d := Date(DigitsValue(p[..4]), DigitsValue(p[4..6]), DigitsValue(p[6..8]));
      if Valid(d) then Some(d) else None
    else None
  }

  /** Parsing succeeds exactly on the shape with a real calendar date, and the
      ISO rendering of the parsed date is the input's digits regrouped as
      `YYYY-MM-DD`. */
  lemma ParseCompactReformats(p: string)
    ensures ParseCompact(p).Some? <==>
              CompactShape(p) &&
              Valid(Date(DigitsValue(p[..4]), DigitsValue(p[4..6]), DigitsValue(p[6..8])))
    ensures ParseCompact(p).Some? ==>
              Iso(ParseCompact(p).value) == p[..4] + "-" + p[4..6] + "-" + p[6..8]
  {
    if ParseCompact(p).Some? {
      assert AllDigits(p[..4]) && AllDigits(p[4..6]) && AllDigits(p[6..8]) by {
        assert forall i :: 0 <= i < 4 ==> p[..4][i] == p[..8][i];
        assert forall i :: 0 <= i < 2 ==> p[4..6][i] == p[..8][i + 4];
        assert forall i :: 0 <= i < 2 ==> p[6..8][i] == p[..8][i + 6];
      }
      IsoOfDigits(p[..4], p[4..6], p[6..8]);
    }
  }

  /** A valid date read from four, two and two digits renders back as those
      digits joined by dashes. */
  lemma IsoOfDigits(y: string, m: string, d: string)
    requires |y| == 4 && |m| == 2 && |d| == 2
    requires AllDigits(y) && AllDigits(m) && AllDigits(d)
    requires Valid(Date(DigitsValue(y), DigitsValue(m), DigitsValue(d)))
    ensures Iso(Date(DigitsValue(y), DigitsValue(m), DigitsValue(d))) == y + "-" + m + "-" + d
  {
    DigitsRoundTrip(y);
    DigitsRoundTrip(m);
    DigitsRoundTrip(d);
    assert y + ("-" + (m + ("-" + d))) == y + "-" + m + "-" + d;
  }
}
