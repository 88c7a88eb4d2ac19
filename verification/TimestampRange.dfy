/** Which seconds survive being written and read back (src/firestore.rs:76-121): exactly those before
    year 10000. From then on the printed year has more than four digits, every field is cut from the
    wrong place, and what comes out is never the second that went in. */
module TimestampRange {
  import opened CivilCalendar
  import opened Text
  import opened Rfc3339

  // ----- The printed text: the year, then sixteen characters -----

  /** What follows the year. */
  function Tail(x: Date, rem: nat): string
    requires IsDate(x)
  {
    ("-" + (Padded(x.m, 2) + ("-" + Padded(x.d, 2)))) + ("T" + (PrintClock(rem) + "Z"))
  }

  lemma TwoDigits(n: nat)
    requires n < 100
    ensures Padded(n, 2) == [DigitChar(n / 10), DigitChar(n % 10)]
  {
    assert Pow10(2) == 100 && Pow10(1) == 10;
    PaddedIsFixed(n, 2);
    assert Fixed(n / 10, 1) == Fixed(n / 10 / 10, 0) + [DigitChar(n / 10 % 10)];
  }

  /** The characters of a tail that the parser can run into. */
  ghost predicate Layout(tail: string, m: nat, d: nat) {
    && |tail| == 16 && m < 100 && d < 100
    && tail[0] == '-' && tail[1] == DigitChar(m / 10) && IsDigit(tail[2])
    && tail[3] == '-' && tail[4] == DigitChar(d / 10)
    && tail[6] == 'T' && tail[9] == ':' && tail[12] == ':'
  }

  lemma TailParts(mm: string, dd: string, hh: string, mi: string, ss: string)
    requires |mm| == |dd| == |hh| == |mi| == |ss| == 2
    ensures var t := ("-" + (mm + ("-" + dd))) + ("T" + ((hh + (":" + (mi + (":" + ss)))) + "Z"));
      |t| == 16 && t[0] == '-' && t[1] == mm[0] && t[2] == mm[1] && t[3] == '-' && t[4] == dd[0] &&
      t[6] == 'T' && t[9] == ':' && t[12] == ':'
  {}

  lemma TailLayout(x: Date, rem: nat)
    requires IsDate(x) && rem < 86400
    ensures Layout(Tail(x, rem), x.m, x.d)
  {
    TwoDigits(x.m);
    TwoDigits(x.d);
    TwoDigits(rem / 3600);
    TwoDigits(rem % 3600 / 60);
    TwoDigits(rem % 60);
    TailParts(Padded(x.m, 2), Padded(x.d, 2), Padded(rem / 3600, 2), Padded(rem % 3600 / 60, 2), Padded(rem % 60, 2));
  }

  lemma LongYear(x: Date, rem: nat)
    requires IsDate(x) && x.y >= 10000
    ensures PrintAt(x, rem) == Decimal(x.y) + Tail(x, rem)
  {
    DecimalCut(x.y, 4);
    assert Pow10(4) == 10000;
  }

  // ----- Decimal text -----

  /** Cutting the last `j` digits divides by that power of ten. */
  lemma {:induction false} DecimalCut(n: nat, j: nat)
    requires n >= Pow10(j)
    ensures |Decimal(n)| == |Decimal(n / Pow10(j))| + j
    ensures Decimal(n)[..|Decimal(n)| - j] == Decimal(n / Pow10(j))
    decreases j
  {
    if j > 0 {
      TenTimes(n, Pow10(j - 1));
      DecimalCut(n / 10, j - 1);
    }
  }

  lemma TenTimes(n: nat, p: nat)
    requires p >= 1 && n >= 10 * p
    ensures n / 10 >= p && n / 10 / p == n / (10 * p)
  {
    var q, r := n / (10 * p), n % (10 * p);
    QuotientIs(n, 10 * p, q);
    assert n == 10 * p * q + r;
    QuotientIs(n, 10, p * q + r / 10);
    assert r / 10 < p;
    QuotientIs(n / 10, p, q);
  }

  lemma {:induction false} DecimalIsNumber(n: nat)
    ensures AllDigits(Decimal(n)) && Value(Decimal(n)) == n && |Decimal(n)| > 0
  {
    if n >= 10 {
      DecimalIsNumber(n / 10);
      assert Decimal(n)[..|Decimal(n)| - 1] == Decimal(n / 10);
    } else {
      assert Decimal(n)[..0] == "";
    }
  }

  lemma {:induction false} ValueBelow(s: string)
    requires AllDigits(s)
    ensures Value(s) < Pow10(|s|)
  {
    if s != "" { ValueBelow(s[..|s| - 1]); }
  }

  // ----- Parsed pieces -----

  lemma TwoCharacters(s: string)
    requires |s| == 2
    ensures -9 <= Number(s) <= 99 && (s[0] != '-' ==> Number(s) >= 0)
    ensures s[0] == '-' && IsDigit(s[1]) ==> Number(s) == -(Digit(s[1]) as int)
    ensures s[0] == 'T' || s[0] == ':' ==> Number(s) == 0
    ensures IsDigit(s[0]) && IsDigit(s[1]) ==> Number(s) == 10 * Digit(s[0]) + Digit(s[1])
  {
    var tail := s[1..];
    assert s[..1][..0] == "" && tail[..0] == "";
    if IsDigit(s[1]) { assert Value(tail) == 10 * Value(tail[..0]) + Digit(s[1]); }
    if AllDigits(s) {
      assert Value(s[..1]) == 10 * Value(s[..1][..0]) + Digit(s[0]);
      assert Value(s) == 10 * Value(s[..1]) + Digit(s[1]);
    }
    assert IsDigit(s[0]) && IsDigit(s[1]) ==> AllDigits(s);
  }

  lemma FourDigits(s: string)
    requires |s| == 4 && AllDigits(s)
    ensures Number(s) == Value(s) < 10000
  {
    ValueBelow(s);
    assert Pow10(4) == 10000;
    assert IsDigit(s[0]);
  }

  // ----- How years and days are related -----

  /** 400 times the days before a March-based year are 146097 times the year, nearly. */
  lemma YearStartSlope(yoe: int)
    requires 0 <= yoe < 400
    ensures -700 <= 400 * YearStart(yoe) - 146097 * yoe <= 400
  {}

  /** Day `z` falls in year `y`, to within half a year. */
  predicate Near(y: int, z: int) {
    -147000 <= 146097 * y - 400 * (z + 719468) <= 147000
  }

  lemma YearOfDay(z: int)
    ensures Near(CivilFromDays(z).y, z)
  {
    var era, yoe, doy := Parts(z);
    CivilOfParts(era, yoe, doy);
    YearStartSlope(yoe);
    DayInYear(yoe, doy);
  }

  lemma DayInYear(yoe: int, doy: int)
    requires InYear(yoe, doy)
    ensures doy <= 365
  {}

  /** The day of the March-based year, for month and day numbers of any size. */
  function DayOffset(m: nat, d: nat): int {
    (153 * (if m > 2 then m - 3 else m + 9) + 2) / 5 + d - 1
  }

  lemma DaysOfYear(y: int, m: nat, d: nat)
    requires y >= 1
    ensures var y' := if m <= 2 then y - 1 else y;
      -700 <= 400 * (DaysFromCivil(y, m, d) + 719468 - DayOffset(m, d)) - 146097 * y' <= 400
  {
    var y' := if m <= 2 then y - 1 else y;
    var era, yoe := y' / 400, y' % 400;
    YearStartSlope(yoe);
    assert DaysFromCivil(y, m, d) == era * 146097 + YearStart(yoe) + DayOffset(m, d) - 719468;
  }

  // ----- The year field: the first four digits of a longer year -----

  function LeadingFour(y: nat): nat {
    if y < 10000 then y else LeadingFour(y / 10)
  }

  lemma {:induction false} DecimalLength(n: nat, w: nat)
    requires w >= 1 && (w == 1 || Pow10(w - 1) <= n) && n < Pow10(w)
    ensures |Decimal(n)| == w
  {
    if w > 1 { DecimalLength(n / 10, w - 1); }
  }

  /** The parser's year is made of the leading four digits. */
  lemma {:induction false} FirstFour(y: nat)
    requires y >= 1000
    ensures |Decimal(y)| >= 4 && Number(Decimal(y)[..4]) == LeadingFour(y) && 1000 <= LeadingFour(y) <= 9999
  {
    if y < 10000 {
      assert Pow10(3) == 1000 && Pow10(4) == 10 * Pow10(3);
      DecimalLength(y, 4);
      DecimalIsNumber(y);
      FourDigits(Decimal(y));
      assert Decimal(y)[..4] == Decimal(y);
    } else {
      FirstFour(y / 10);
      assert Decimal(y)[..4] == Decimal(y / 10)[..4];
    }
  }

  lemma Scaled(first: nat, p: nat)
    requires p >= 1
    ensures first * (10 * p) == 10 * (first * p) && (first + 1) * (10 * p) == 10 * (first * p) + 10 * p
    ensures (first + 1) * p == first * p + p && first * p >= first
  {
    assert first * p == first * (p - 1) + first;
  }

  lemma {:induction false} LeadingBetween(y: nat, first: nat, j: nat)
    requires 1000 <= first <= 9999 && first * Pow10(j) <= y < (first + 1) * Pow10(j)
    ensures LeadingFour(y) == first
  {
    if j > 0 {
      var p := Pow10(j - 1);
      Scaled(first, p);
      var q := first * p;
      assert 10 * q <= y < 10 * q + 10 * p;
      assert q <= y / 10 < q + p;
      LeadingBetween(y / 10, first, j - 1);
    }
  }

  // ----- What the fields combine to -----

  function Total(f: Fields): int {
    DaysFromCivil(f.y, f.mo % TWO_32, f.d % TWO_32) * 86400 + f.h * 3600 + f.mi * 60 + f.sec
  }

  ghost predicate ShortFields(f: Fields) {
    && 1000 <= f.y <= 9999 && 0 <= f.mo <= 99 && 0 <= f.d <= 99
    && -9 <= f.h <= 99 && -9 <= f.mi <= 99 && -9 <= f.sec <= 99
  }

  /** Two-digit months and days stay within a few years of the four-digit year. */
  lemma ShortTotal(f: Fields)
    requires ShortFields(f)
    ensures -32_000_000_000 < Total(f) < 300_000_000_000 && (f.y >= 1980 ==> Total(f) > 0)
  {
    DaysOfYear(f.y, f.mo, f.d);
    assert f.mo % TWO_32 == f.mo && f.d % TWO_32 == f.d;
    var days := DaysFromCivil(f.y, f.mo, f.d);
    assert -1 <= DayOffset(f.mo, f.d) <= 3100;
    assert -362000 <= days <= 2950000 && (f.y >= 1980 ==> days > 2);
  }

  /** The years just below the largest second all begin with 5845. */
  lemma LastYears(t: nat, y: nat)
    requires TWO_64 - 32_000_000_000 <= t < TWO_64 && Near(y, t / 86400)
    ensures LeadingFour(y) == 5845
  {
    assert 213503981900000 <= t / 86400 <= 213503982334602;
    assert 584500000000 <= y < 584600000000;
    assert Pow10(4) == 10000 && Pow10(8) == 10000 * Pow10(4);
    LeadingBetween(y, 5845, 8);
  }

  lemma CombineIsTotal(f: Fields)
    ensures Combine(f) == Total(f) % TWO_64
  {}

  lemma Wrapped(total: int)
    requires -TWO_64 < total < TWO_64
    ensures total % TWO_64 == if total < 0 then total + TWO_64 else total
  {}

  lemma TotalIsNotLate(t: nat, y: nat, total: int)
    requires t < TWO_64 && y >= 100000 && Near(y, t / 86400)
    requires -32_000_000_000 < total < 300_000_000_000 && (LeadingFour(y) >= 1980 ==> total > 0)
    ensures total % TWO_64 != t
  {
    Wrapped(total);
    assert t / 86400 > 35000000;
    if t >= TWO_64 - 32_000_000_000 { LastYears(t, y); }
  }

  /** Years of six digits and more begin long after anything short fields can say. */
  lemma ShortIsNotLate(t: nat, y: nat, f: Fields)
    requires t < TWO_64 && y >= 100000 && Near(y, t / 86400) && ShortFields(f)
    requires f.y == LeadingFour(y)
    ensures Combine(f) != t
  {
    ShortTotal(f);
    CombineIsTotal(f);
    TotalIsNotLate(t, y, Total(f));
  }

  // ----- Years of six or more digits, but not eight -----

  lemma LongFields(y: nat, tail: string, m: nat, d: nat)
    requires y >= 100000 && |Decimal(y)| != 8 && Layout(tail, m, d)
    ensures |Decimal(y) + tail| >= 19 && ShortFields(Scan(Decimal(y) + tail))
    ensures Scan(Decimal(y) + tail).y == LeadingFour(y)
  {
    SixLong(y);
    DecimalIsNumber(y);
    NoSign(Decimal(y), tail, m, d);
    FirstFour(y);
    TextFields(Decimal(y), tail);
  }

  lemma SixLong(y: nat)
    requires y >= 100000
    ensures |Decimal(y)| >= 6
  {
    assert Pow10(4) == 10000 && Pow10(5) == 10 * Pow10(4);
    DecimalCut(y, 5);
  }

  lemma TextFields(digits: string, tail: string)
    requires |digits| >= 6 && |tail| == 16 && 1000 <= Number(digits[..4]) <= 9999
    requires (digits + tail)[5] != '-' && (digits + tail)[8] != '-'
    ensures ShortFields(Scan(digits + tail)) && Scan(digits + tail).y == Number(digits[..4])
  {
    var s := digits + tail;
    assert s[0..4] == digits[..4];
    TwoCharacters(s[5..7]);
    TwoCharacters(s[8..10]);
    TwoCharacters(s[11..13]);
    TwoCharacters(s[14..16]);
    TwoCharacters(s[17..19]);
  }

  lemma NoSign(digits: string, tail: string, m: nat, d: nat)
    requires AllDigits(digits) && |digits| >= 6 && |digits| != 8 && Layout(tail, m, d)
    ensures (digits + tail)[5] != '-' && (digits + tail)[8] != '-'
  {
    assert IsDigit(digits[5]);
    if |digits| > 8 { assert IsDigit(digits[8]); }
  }

  // ----- Five digits -----

  lemma FiveDigitFields(y: nat, tail: string, m: nat, d: nat)
    requires 10000 <= y < 100000 && Layout(tail, m, d)
    ensures |Decimal(y) + tail| == 21
    ensures var f := Scan(Decimal(y) + tail);
      f.y == LeadingFour(y) && 1000 <= f.y <= 9999 && f.mo == -(m / 10) && f.d == -(d / 10) &&
      f.h == f.mi == f.sec == 0
  {
    var digits := Decimal(y);
    var s := digits + tail;
    FiveLong(y);
    FirstFour(y);
    assert s[0..4] == digits[..4];
    assert s[5..7] == [tail[0], tail[1]];
    assert s[8..10] == [tail[3], tail[4]];
    assert s[11..13] == [tail[6], tail[7]];
    assert s[14..16] == [tail[9], tail[10]];
    assert s[17..19] == [tail[12], tail[13]];
    TwoCharacters(s[5..7]);
    TwoCharacters(s[8..10]);
    TwoCharacters(s[11..13]);
    TwoCharacters(s[14..16]);
    TwoCharacters(s[17..19]);
  }

  lemma FiveLong(y: nat)
    requires 10000 <= y < 100000
    ensures |Decimal(y)| == 5
  {
    assert Pow10(4) == 10000;
    DecimalCut(y, 4);
  }

  /** A negative field wraps to 32 bits and so names a day millions of years away. */
  lemma FiveDigitTotal(f: Fields)
    requires 1000 <= f.y <= 9999 && -9 <= f.mo <= 0 && -9 <= f.d <= 0 && f.h == f.mi == f.sec == 0
    ensures if f.mo == 0 && f.d == 0 then -32_000_000_000 < Total(f) < YEAR_10000
            else 300_000_000_000_000 < Total(f) < TWO_64
  {
    var m, d := f.mo % TWO_32, f.d % TWO_32;
    assert m == if f.mo == 0 then 0 else TWO_32 + f.mo;
    assert d == if f.d == 0 then 0 else TWO_32 + f.d;
    DaysOfYear(f.y, m, d);
  }

  lemma FiveDigitMisread(t: nat, y: nat, f: Fields)
    requires YEAR_10000 <= t && 10000 <= y < 100000 && Near(y, t / 86400)
    requires 1000 <= f.y <= 9999 && -9 <= f.mo <= 0 && -9 <= f.d <= 0 && f.h == f.mi == f.sec == 0
    ensures Combine(f) != t
  {
    FiveDigitTotal(f);
    CombineIsTotal(f);
    Wrapped(Total(f));
    assert t / 86400 < 40000000;
  }

  // ----- Eight digits: the day field can be negative -----

  lemma EightDigitFields(y: nat, tail: string, m: nat, d: nat)
    requires y >= 10000 && |Decimal(y)| == 8 && Layout(tail, m, d)
    ensures var f := Scan(Decimal(y) + tail);
      f.y == LeadingFour(y) && f.mo == y / 10 % 100 &&
      f.d == -(m / 10) && f.h == -(d / 10) && f.mi == f.sec == 0
  {
    var digits := Decimal(y);
    var s := digits + tail;
    DecimalIsNumber(y);
    FirstFour(y);
    assert s[0..4] == digits[..4];
    DigitsFiveAndSix(y);
    assert s[5..7] == digits[5..7];
    assert s[8..10] == [tail[0], tail[1]];
    assert s[11..13] == [tail[3], tail[4]];
    assert s[14..16] == [tail[6], tail[7]];
    assert s[17..19] == [tail[9], tail[10]];
    TwoCharacters(s[8..10]);
    TwoCharacters(s[11..13]);
    TwoCharacters(s[14..16]);
    TwoCharacters(s[17..19]);
  }

  lemma TwoDigitsOf(y: nat)
    ensures y / 10 % 100 == 10 * (y / 100 % 10) + y / 10 % 10 && y / 10 / 10 == y / 100 && y / 100 / 10 == y / 1000
  {}

  lemma DigitsFiveAndSix(y: nat)
    requires y >= 10000 && |Decimal(y)| == 8
    ensures Number(Decimal(y)[5..7]) == y / 10 % 100
  {
    TwoDigitsOf(y);
    var five, six, seven := Decimal(y / 1000), Decimal(y / 100), Decimal(y / 10);
    assert Decimal(y) == seven + [DigitChar(y % 10)];
    assert seven == six + [DigitChar(y / 10 % 10)];
    assert six == five + [DigitChar(y / 100 % 10)];
    assert Decimal(y)[5..7] == [DigitChar(y / 100 % 10), DigitChar(y / 10 % 10)];
    TwoCharacters(Decimal(y)[5..7]);
  }

  lemma LeadingOfEight(y: nat)
    requires 10000000 <= y < 100000000
    ensures LeadingFour(y) == y / 10000
  {
    assert Pow10(1) == 10 && Pow10(2) == 100 && Pow10(3) == 1000 && Pow10(4) == 10000;
    LeadingBetween(y, y / 10000, 4);
  }

  /** The day field reads -1, which wraps to the last 32-bit number. */
  ghost predicate WrappedSlope(y: int, days: int) {
    && 146097 * (y - 1) + 400 * (TWO_32 - 2) - 700 <= 400 * (days + 719468)
    && 400 * (days + 719468) <= 146097 * y + 400 * (TWO_32 + 2998) + 400
  }

  lemma WrappedDays(y: int, mo: nat)
    requires 1000 <= y <= 9999 && mo <= 99
    ensures WrappedSlope(y, DaysFromCivil(y, mo, TWO_32 - 1))
  {
    DaysOfYear(y, mo, TWO_32 - 1);
    assert TWO_32 - 2 <= DayOffset(mo, TWO_32 - 1) <= TWO_32 + 2998;
  }

  /** Only years from 11760396 to 11760406 could agree with the day that comes out. */
  lemma WrappedDayYears(y: nat, first: nat, z: nat, days: int)
    requires y / 10000 == first && Near(y, z) && WrappedSlope(first, days) && (z == days || z == days - 1)
    ensures 11760396 <= y <= 11760406
  {
    assert 10000 * first <= y < 10000 * first + 10000;
    assert 11759220 <= y - first <= 11759230;
  }

  lemma WrappedMonths(y: nat)
    requires 11760396 <= y <= 11760406
    ensures y / 10000 == 1176 && 39 <= y / 10 % 100 <= 40
  {}

  lemma WrappedDay()
    ensures DaysFromCivil(1176, 39, TWO_32 - 1) == DayOf(29401, 0, 24)
    ensures DaysFromCivil(1176, 40, TWO_32 - 1) == DayOf(29401, 0, 54)
  {
    assert YearStart(376) == 137331;
  }

  /** Those days, and the days before them, lie in March and April, so their month does not print as a
      negative day. */
  lemma MonthOfWrapped(doy: int)
    requires 0 <= doy <= 60
    ensures CivilFromDays(DayOf(29401, 0, doy)).m <= 4
  {
    assert YearStart(0) == 0 && YearStart(1) == 365;
    CivilOfParts(29401, 0, doy);
  }

  lemma WrappedDayIs(z: nat, y: nat, mo: nat, days: int) returns (doy: int)
    requires 10000000 <= y < 100000000 && Near(y, z) && mo == y / 10 % 100
    requires days == DaysFromCivil(y / 10000, mo, TWO_32 - 1) && (z == days || z == days - 1)
    ensures 0 <= doy <= 60 && z == DayOf(29401, 0, doy)
  {
    WrappedDays(y / 10000, mo);
    WrappedDayYears(y, y / 10000, z, days);
    WrappedMonths(y);
    WrappedDay();
    doy := if mo == 39 then 24 else 54;
    if z == days - 1 { doy := doy - 1; }
  }

  lemma TotalOfWrapped(f: Fields, days: int)
    requires 0 <= f.mo <= 99 && f.d == -1 && f.mi == f.sec == 0 && days == DaysFromCivil(f.y, f.mo, TWO_32 - 1)
    ensures Total(f) == days * 86400 + f.h * 3600
  {
    assert f.mo % TWO_32 == f.mo && f.d % TWO_32 == TWO_32 - 1;
  }

  lemma DayOfSecond(t: nat, days: int, h: int)
    requires t == days * 86400 + h * 3600 && -3 <= h <= 0
    ensures t / 86400 == days || t / 86400 == days - 1
  {}

  /** With the day field wrapped, the combined second falls on `days`, or on the day before. */
  lemma WrappedTotal(t: nat, f: Fields, days: int)
    requires 1000 <= f.y <= 9999 && 0 <= f.mo <= 99 && f.d == -1 && -3 <= f.h <= 0 && f.mi == f.sec == 0
    requires days == DaysFromCivil(f.y, f.mo, TWO_32 - 1) && Combine(f) == t
    ensures t / 86400 == days || t / 86400 == days - 1
  {
    WrappedDays(f.y, f.mo);
    assert 4000000000 < days < 5000000000;
    TotalOfWrapped(f, days);
    CombineIsTotal(f);
    Wrapped(Total(f));
    DayOfSecond(t, days, f.h);
  }

  /** If `z` is one of the days that come out, its month is `m` at most April. */
  ghost predicate EarlyMonth(z: int, m: int) {
    forall doy :: 0 <= doy <= 60 && z == DayOf(29401, 0, doy) ==> m <= 4
  }

  lemma MonthsAreEarly(z: int)
    ensures EarlyMonth(z, CivilFromDays(z).m)
  {
    forall doy | 0 <= doy <= 60 && z == DayOf(29401, 0, doy) ensures CivilFromDays(z).m <= 4 { MonthOfWrapped(doy); }
  }

  lemma EightDigitMisread(t: nat, y: nat, m: nat, d: nat, f: Fields)
    requires t < TWO_64 && 10000000 <= y < 100000000 && Near(y, t / 86400) && EarlyMonth(t / 86400, m)
    requires 1 <= m <= 12 && 1 <= d <= 31 && f.y == LeadingFour(y) && f.mo == y / 10 % 100
    requires f.d == -(m / 10) && f.h == -(d / 10) && f.mi == f.sec == 0
    ensures Combine(f) != t
  {
    FirstFour(y);
    if m < 10 {
      ShortIsNotLate(t, y, f);
    } else if Combine(f) == t {
      var days := DaysFromCivil(f.y, f.mo, TWO_32 - 1);
      WrappedTotal(t, f, days);
      LeadingOfEight(y);
      var doy := WrappedDayIs(t / 86400, y, f.mo, days);
    }
  }

  // ----- Main result -----

  lemma LaterIsMisread(t: nat, x: Date)
    requires YEAR_10000 <= t < TWO_64 && EarlyMonth(t / 86400, x.m)
    requires IsDate(x) && x.y >= 10000 && Near(x.y, t / 86400)
    ensures Parse(PrintAt(x, t % 86400)) != t
  {
    var tail := Tail(x, t % 86400);
    LongYear(x, t % 86400);
    TailLayout(x, t % 86400);
    var s := Decimal(x.y) + tail;
    DayOfMonth(x);
    if x.y < 100000 {
      FiveDigitFields(x.y, tail, x.m, x.d);
      FiveDigitMisread(t, x.y, Scan(s));
    } else if |Decimal(x.y)| == 8 {
      EightLong(x.y);
      EightDigitFields(x.y, tail, x.m, x.d);
      EightDigitMisread(t, x.y, x.m, x.d, Scan(s));
    } else {
      LongFields(x.y, tail, x.m, x.d);
      ShortIsNotLate(t, x.y, Scan(s));
    }
  }

  lemma DayOfMonth(x: Date)
    requires IsDate(x)
    ensures 1 <= x.d <= 31
  {}

  lemma EightLong(y: nat)
    requires |Decimal(y)| == 8
    ensures 10000000 <= y < 100000000
  {
    DecimalSize(y);
    assert Pow10(4) == 10000 && Pow10(7) == 1000 * Pow10(4) && Pow10(8) == 10 * Pow10(7);
  }

  lemma {:induction false} DecimalSize(n: nat)
    ensures |Decimal(n)| >= 1 && n < Pow10(|Decimal(n)|) && (n >= 10 ==> Pow10(|Decimal(n)| - 1) <= n)
  {
    if n >= 10 { DecimalSize(n / 10); }
  }

  /** A second survives being written and read back exactly when it lies before year 10000. */
  lemma RoundTripEndsAtYear10000(t: nat)
    requires t < TWO_64
    ensures Parse(Print(t)) == t <==> t < YEAR_10000
  {
    if t < YEAR_10000 {
      RoundTrip(t);
    } else {
      FourDigitYear(t);
      CivilIsPrintable(t / 86400);
      YearOfDay(t / 86400);
      MonthsAreEarly(t / 86400);
      LaterIsMisread(t, CivilFromDays(t / 86400));
    }
  }

  /** The printed year has four digits, and the whole text twenty characters, exactly before year 10000. */
  lemma PrintedYearHasFourDigits(t: nat)
    ensures var y := CivilFromDays(t / 86400).y;
      y >= 0 && (t < YEAR_10000 <==> |Padded(y, 4)| == 4) && (t < YEAR_10000 <==> |Print(t)| == 20)
  {
    FourDigitYear(t);
    CivilIsPrintable(t / 86400);
    PrintedLength(CivilFromDays(t / 86400), t % 86400);
  }

  lemma PrintedLength(x: Date, rem: nat)
    requires IsDate(x) && 1970 <= x.y && rem < 86400
    ensures (|Padded(x.y, 4)| == 4 <==> x.y <= 9999) && (|PrintAt(x, rem)| == 20 <==> x.y <= 9999)
  {
    if x.y <= 9999 {
      assert Pow10(4) == 10000;
      NumberOfPadded(x.y, 4);
      PrintedParts(x, rem);
    } else {
      assert Pow10(4) == 10000;
      DecimalCut(x.y, 4);
      LongYear(x, rem);
      TailLayout(x, rem);
    }
  }

  lemma FirstOfYear10000()
    ensures var x := Date(10000, 1, 1);
      |PrintAt(x, 0)| >= 19 && Scan(PrintAt(x, 0)) == Fields(1000, 0, 0, 0, 0, 0)
  {
    var x := Date(10000, 1, 1);
    LongYear(x, 0);
    TailLayout(x, 0);
    FiveDigitFields(10000, Tail(x, 0), 1, 1);
    assert LeadingFour(10000) == LeadingFour(1000) == 1000;
  }

  /** The first misread second, as the parser reads it: in the year 1000, wrapped to 64 bits. */
  lemma FiveDigitYearIsMisread()
    ensures Parse(Print(YEAR_10000)) == TWO_64 - 354317 * 86400
  {
    EndOfYear9999();
    FirstOfYear10000();
    MisreadFields();
    assert YEAR_10000 / 86400 == 2932897 && YEAR_10000 % 86400 == 0;
  }

  lemma MisreadFields()
    ensures Combine(Fields(1000, 0, 0, 0, 0, 0)) == TWO_64 - 354317 * 86400
  {
    assert DaysFromCivil(1000, 0, 0) == -354317;
  }
}
