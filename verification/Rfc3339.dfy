/** The timestamp text every stored expiry is written in and read back from (src/firestore.rs:75-121):
    second precision, UTC, as in sections 5.1 and 5.6 of RFC 3339. */
module Rfc3339 {
  import opened CivilCalendar
  import opened Text

  const TWO_32 := 0x1_0000_0000
  const TWO_64 := 0x1_0000_0000_0000_0000

  // ----- Printing -----

  function Decimal(n: nat): string {
    if n < 10 then [DigitChar(n)] else Decimal(n / 10) + [DigitChar(n % 10)]
  }

  function Zeros(n: nat): string {
    if n == 0 then "" else "0" + Zeros(n - 1)
  }

  /** `{n:0width}`: at least `width` characters, never cut. */
  function Padded(n: nat, width: nat): string {
    var s := Decimal(n);
    if |s| < width then Zeros(width - |s|) + s else s
  }

  function PrintDate(x: Date): string
    requires IsDate(x) && x.y >= 0
  {
    Padded(x.y, 4) + ("-" + (Padded(x.m, 2) + ("-" + Padded(x.d, 2))))
  }

  function PrintClock(rem: nat): string {
    Padded(rem / 3600, 2) + (":" + (Padded(rem % 3600 / 60, 2) + (":" + Padded(rem % 60, 2))))
  }

  /** A printed date and second of the day. */
  function PrintAt(x: Date, rem: nat): string
    requires IsDate(x) && x.y >= 0
  {
    PrintDate(x) + ("T" + (PrintClock(rem) + "Z"))
  }

  function Print(t: nat): string {
    CivilIsPrintable(t / 86400);
    PrintAt(CivilFromDays(t / 86400), t % 86400)
  }

  lemma CivilIsPrintable(n: nat)
    ensures IsDate(CivilFromDays(n)) && CivilFromDays(n).y >= 1970
  {
    CivilOnParts();
    CivilEpoch();
    SinceEpoch(CivilFromDays, n);
  }

  // ----- Parsing -----

  /** i64 parsing with `unwrap_or(0)`: an optional sign, then at least one digit. */
  function Number(s: string): int {
    var body := if s != "" && (s[0] == '+' || s[0] == '-') then s[1..] else s;
    if body == "" || !AllDigits(body) then 0
    else if s[0] == '-' then -(Value(body) as int) else Value(body) as int
  }

  /** Seconds from days and clock fields, in u64 arithmetic. */
  function Seconds(days: int, h: int, mi: int, sec: int): nat {
    (days * 86400 + h * 3600 + mi * 60 + sec) % TWO_64
  }

  datatype Fields = Fields(y: int, mo: int, d: int, h: int, mi: int, sec: int)

  function Scan(s: string): Fields
    requires |s| >= 19
  {
    Fields(Number(s[0..4]), Number(s[5..7]), Number(s[8..10]), Number(s[11..13]), Number(s[14..16]), Number(s[17..19]))
  }

  function Combine(f: Fields): nat {
    Seconds(DaysFromCivil(f.y, f.mo % TWO_32, f.d % TWO_32), f.h, f.mi, f.sec)
  }

  function Parse(s: string): nat {
    if |s| < 19 then 0 else Combine(Scan(s))
  }

  // ----- Fixed-width numbers -----

  function Pow10(w: nat): nat
    ensures Pow10(w) >= 1
  {
    if w == 0 then 1 else 10 * Pow10(w - 1)
  }

  function Fixed(n: nat, w: nat): (s: string)
    ensures |s| == w && AllDigits(s)
  {
    if w == 0 then "" else Fixed(n / 10, w - 1) + [DigitChar(n % 10)]
  }

  lemma {:induction false} FixedZero(w: nat)
    ensures Fixed(0, w) == Zeros(w)
  {
    if w > 0 {
      FixedZero(w - 1);
      ZerosEnd(w - 1);
    }
  }

  lemma {:induction false} ZerosEnd(w: nat)
    ensures Zeros(w) + "0" == "0" + Zeros(w)
  {
    if w > 0 {
      ZerosEnd(w - 1);
      assert Zeros(w) + "0" == "0" + (Zeros(w - 1) + "0");
    }
  }

  lemma PaddedDigit(n: nat, w: nat)
    requires 0 < w && n < 10
    ensures Padded(n, w) == Zeros(w - 1) + [DigitChar(n)] && Fixed(n, w) == Zeros(w - 1) + [DigitChar(n)]
  {
    FixedZero(w - 1);
    assert n / 10 == 0 && n % 10 == n && Decimal(n) == [DigitChar(n)];
    assert Zeros(0) + Decimal(n) == Decimal(n);
  }

  lemma {:induction false} PaddedIsFixed(n: nat, w: nat)
    requires 0 < w && n < Pow10(w)
    ensures Padded(n, w) == Fixed(n, w)
  {
    if n < 10 {
      PaddedDigit(n, w);
    } else {
      assert Pow10(w) == 10 * Pow10(w - 1);
      assert n / 10 < Pow10(w - 1) && w > 1;
      PaddedIsFixed(n / 10, w - 1);
      PaddedStep(n, w);
    }
  }

  lemma PaddedStep(n: nat, w: nat)
    requires 1 < w && n >= 10 && |Padded(n / 10, w - 1)| == w - 1
    ensures Padded(n, w) == Padded(n / 10, w - 1) + [DigitChar(n % 10)]
  {
    var s, c := Decimal(n / 10), [DigitChar(n % 10)];
    assert Decimal(n) == s + c;
    if |s| < w - 1 { assert Zeros(w - 1 - |s|) + (s + c) == (Zeros(w - 1 - |s|) + s) + c; }
  }

  lemma ValueOfDigit(s: string, d: nat)
    requires AllDigits(s) && d < 10
    ensures AllDigits(s + [DigitChar(d)]) && Value(s + [DigitChar(d)]) == 10 * Value(s) + d
  {
    assert (s + [DigitChar(d)])[..|s|] == s;
  }

  lemma {:induction false} FixedValue(n: nat, w: nat)
    requires n < Pow10(w)
    ensures Value(Fixed(n, w)) == n
  {
    if w > 0 {
      FixedValue(n / 10, w - 1);
      ValueOfDigit(Fixed(n / 10, w - 1), n % 10);
    }
  }

  lemma NumberOfPadded(n: nat, w: nat)
    requires 0 < w && n < Pow10(w)
    ensures |Padded(n, w)| == w && AllDigits(Padded(n, w)) && Number(Padded(n, w)) == n
  {
    PaddedIsFixed(n, w);
    FixedValue(n, w);
    var s := Fixed(n, w);
    assert IsDigit(s[0]);
  }

  // ----- Round trip -----

  /** The first second of year 10000, when the printed year outgrows its four digits. */
  const YEAR_10000 := 253402300800

  lemma FourDigitYear(t: nat)
    ensures t < YEAR_10000 <==> CivilFromDays(t / 86400).y <= 9999
  {
    EndOfYear9999();
    if t < YEAR_10000 {
      assert t / 86400 <= 2932896;
      if t / 86400 < 2932896 { LaterDayIsLaterDate(t / 86400, 2932896); }
    } else {
      assert 2932897 <= t / 86400;
      if 2932897 < t / 86400 { LaterDayIsLaterDate(2932897, t / 86400); }
    }
  }

  lemma PrintedParts(x: Date, rem: nat)
    requires IsDate(x) && 0 <= x.y <= 9999 && rem < 86400
    ensures var s := PrintAt(x, rem);
      |s| == 20 && s[0..4] == Padded(x.y, 4) && s[5..7] == Padded(x.m, 2) && s[8..10] == Padded(x.d, 2) &&
      s[11..13] == Padded(rem / 3600, 2) && s[14..16] == Padded(rem % 3600 / 60, 2) && s[17..19] == Padded(rem % 60, 2)
  {
    assert Pow10(2) == 100 && Pow10(4) == 10000;
    NumberOfPadded(x.y, 4);
    NumberOfPadded(x.m, 2);
    NumberOfPadded(x.d, 2);
    NumberOfPadded(rem / 3600, 2);
    NumberOfPadded(rem % 3600 / 60, 2);
    NumberOfPadded(rem % 60, 2);
    JoinTime(Padded(rem / 3600, 2), Padded(rem % 3600 / 60, 2), Padded(rem % 60, 2));
    JoinDate(Padded(x.y, 4), Padded(x.m, 2), Padded(x.d, 2),
             (Padded(rem / 3600, 2) + (":" + (Padded(rem % 3600 / 60, 2) + (":" + Padded(rem % 60, 2))))) + "Z");
  }

  lemma JoinDate(y: string, m: string, d: string, rest: string)
    requires |y| == 4 && |m| == |d| == 2 && |rest| == 9
    ensures var s := (y + ("-" + (m + ("-" + d)))) + ("T" + rest);
      |s| == 20 && s[0..4] == y && s[5..7] == m && s[8..10] == d &&
      s[11..13] == rest[0..2] && s[14..16] == rest[3..5] && s[17..19] == rest[6..8]
  {}

  lemma JoinTime(h: string, m: string, sec: string)
    requires |h| == |m| == |sec| == 2
    ensures var s := (h + (":" + (m + (":" + sec)))) + "Z";
      |s| == 9 && s[0..2] == h && s[3..5] == m && s[6..8] == sec
  {}

  lemma ScanPrinted(x: Date, rem: nat)
    requires IsDate(x) && 0 <= x.y <= 9999 && rem < 86400
    ensures |PrintAt(x, rem)| == 20
    ensures Scan(PrintAt(x, rem)) == Fields(x.y, x.m, x.d, rem / 3600, rem % 3600 / 60, rem % 60)
  {
    PrintedParts(x, rem);
    assert Pow10(2) == 100 && Pow10(4) == 10000;
    NumberOfPadded(x.y, 4);
    NumberOfPadded(x.m, 2);
    NumberOfPadded(x.d, 2);
    NumberOfPadded(rem / 3600, 2);
    NumberOfPadded(rem % 3600 / 60, 2);
    NumberOfPadded(rem % 60, 2);
  }

  lemma ClockParts(rem: nat)
    ensures rem / 3600 * 3600 + rem % 3600 / 60 * 60 + rem % 60 == rem
  {
    QuotientIs(rem, 60, rem / 3600 * 60 + rem % 3600 / 60);
  }

  lemma SecondsOfDay(day: nat, rem: nat)
    requires day * 86400 + rem < TWO_64
    ensures Seconds(day, rem / 3600, rem % 3600 / 60, rem % 60) == day * 86400 + rem
  {
    ClockParts(rem);
  }

  lemma CombineFields(x: Date, f: Fields)
    requires IsDate(x) && f.y == x.y && f.mo == x.m && f.d == x.d
    ensures Combine(f) == Seconds(DaysFromCivil(x.y, x.m, x.d), f.h, f.mi, f.sec)
  {
    assert x.m % TWO_32 == x.m && x.d % TWO_32 == x.d;
  }

  lemma ParsePrinted(x: Date, day: nat, rem: nat)
    requires IsDate(x) && 0 <= x.y <= 9999 && rem < 86400 && day * 86400 + rem < TWO_64
    requires DaysFromCivil(x.y, x.m, x.d) == day
    ensures Parse(PrintAt(x, rem)) == day * 86400 + rem
  {
    ScanPrinted(x, rem);
    CombineFields(x, Fields(x.y, x.m, x.d, rem / 3600, rem % 3600 / 60, rem % 60));
    SecondsOfDay(day, rem);
  }

  /** Every expiry up to the end of year 9999 survives being written and read back. */
  lemma RoundTrip(t: nat)
    requires t < YEAR_10000
    ensures Parse(Print(t)) == t
  {
    FourDigitYear(t);
    CivilIsPrintable(t / 86400);
    DaysOfCivil(t / 86400);
    ParsePrinted(CivilFromDays(t / 86400), t / 86400, t % 86400);
  }

  lemma EndOfYear9999()
    ensures CivilFromDays(2932896) == Date(9999, 12, 31) && CivilFromDays(2932897) == Date(10000, 1, 1)
  {
    LastDay();
    NextDayOfLast();
  }

  lemma LastDay()
    ensures CivilFromDays(2932896) == Date(9999, 12, 31)
  {
    assert YearStart(399) == 145731;
    CivilOfParts(24, 399, 305);
  }

  lemma NextDayOfLast()
    ensures CivilFromDays(2932897) == Date(10000, 1, 1)
  {
    LastDay();
    CivilStep(2932896);
  }

  // ----- Layout -----

  lemma JoinMarks(y: string, m: string, d: string, h: string, mi: string, sec: string)
    requires |y| == 4 && |m| == |d| == |h| == |mi| == |sec| == 2
    ensures var s := (y + ("-" + (m + ("-" + d)))) + ("T" + ((h + (":" + (mi + (":" + sec)))) + "Z"));
      |s| == 20 && s[4] == '-' && s[7] == '-' && s[10] == 'T' && s[13] == ':' && s[16] == ':' && s[19] == 'Z'
  {}

  lemma LayoutAt(x: Date, rem: nat)
    requires IsDate(x) && 0 <= x.y <= 9999 && rem < 86400
    ensures var s := PrintAt(x, rem);
      |s| == 20 && s[4] == '-' && s[7] == '-' && s[10] == 'T' && s[13] == ':' && s[16] == ':' && s[19] == 'Z'
    ensures var s := PrintAt(x, rem);
      Number(s[0..4]) == x.y && Number(s[5..7]) == x.m && Number(s[8..10]) == x.d &&
      3600 * Number(s[11..13]) + 60 * Number(s[14..16]) + Number(s[17..19]) == rem &&
      Number(s[14..16]) < 60 && Number(s[17..19]) < 60
  {
    ScanPrinted(x, rem);
    PrintedParts(x, rem);
    ClockParts(rem);
    assert Pow10(2) == 100 && Pow10(4) == 10000;
    NumberOfPadded(x.y, 4);
    NumberOfPadded(x.m, 2);
    NumberOfPadded(x.d, 2);
    NumberOfPadded(rem / 3600, 2);
    NumberOfPadded(rem % 3600 / 60, 2);
    NumberOfPadded(rem % 60, 2);
    JoinMarks(Padded(x.y, 4), Padded(x.m, 2), Padded(x.d, 2), Padded(rem / 3600, 2), Padded(rem % 3600 / 60, 2),
              Padded(rem % 60, 2));
  }

  /** Before year 10000 the text is YYYY-MM-DDThh:mm:ssZ, its fields those of the calendar and the clock. */
  lemma PrintedLayout(t: nat)
    requires t < YEAR_10000
    ensures var s := Print(t);
      |s| == 20 && s[4] == '-' && s[7] == '-' && s[10] == 'T' && s[13] == ':' && s[16] == ':' && s[19] == 'Z' &&
      Date(Number(s[0..4]), Number(s[5..7]), Number(s[8..10])) == DayAfterEpoch(t / 86400) &&
      3600 * Number(s[11..13]) + 60 * Number(s[14..16]) + Number(s[17..19]) == t % 86400 &&
      Number(s[14..16]) < 60 && Number(s[17..19]) < 60
  {
    FourDigitDate(t);
    CivilFromDaysIsTheCalendar(t / 86400);
    LayoutAt(CivilFromDays(t / 86400), t % 86400);
  }

  // ----- String order is time order -----

  /** Lexicographic comparison, as Firestore and the string sort of the fake server order values. */
  predicate Before(a: string, b: string) {
    if b == "" then false
    else if a == "" then true
    else a[0] < b[0] || (a[0] == b[0] && Before(a[1..], b[1..]))
  }

  lemma {:induction false} BeforeUnderPrefix(p: string, a: string, b: string)
    requires Before(a, b)
    ensures Before(p + a, p + b)
  {
    if p == "" {
      assert p + a == a && p + b == b;
    } else {
      BeforeUnderPrefix(p[1..], a, b);
      assert (p + a)[1..] == p[1..] + a && (p + b)[1..] == p[1..] + b;
    }
  }

  lemma {:induction false} BeforeBySameLength(a: string, b: string, x: string, y: string)
    requires |a| == |b| && Before(a, b)
    ensures Before(a + x, b + y)
  {
    if a[0] == b[0] {
      BeforeBySameLength(a[1..], b[1..], x, y);
      assert (a + x)[1..] == a[1..] + x && (b + y)[1..] == b[1..] + y;
    }
  }

  lemma {:induction false} FixedOrder(m: nat, n: nat, w: nat)
    requires m < n < Pow10(w)
    ensures Before(Fixed(m, w), Fixed(n, w))
  {
    if m / 10 < n / 10 {
      FixedOrder(m / 10, n / 10, w - 1);
      BeforeBySameLength(Fixed(m / 10, w - 1), Fixed(n / 10, w - 1), [DigitChar(m % 10)], [DigitChar(n % 10)]);
    } else {
      assert Before([DigitChar(m % 10)], [DigitChar(n % 10)]);
      BeforeUnderPrefix(Fixed(m / 10, w - 1), [DigitChar(m % 10)], [DigitChar(n % 10)]);
    }
  }

  lemma PaddedOrder(m: nat, n: nat, w: nat)
    requires 0 < w && m < n < Pow10(w)
    ensures Before(Padded(m, w), Padded(n, w)) && |Padded(m, w)| == |Padded(n, w)|
  {
    PaddedIsFixed(m, w);
    PaddedIsFixed(n, w);
    FixedOrder(m, n, w);
  }

  /** Three joined numbers are ordered by the first that differs. */
  lemma JoinedOrder(a: string, a': string, sep: string, b: string, b': string, c: string, c': string)
    requires |a| == |a'| && |b| == |b'| && |c| == |c'|
    requires Before(a, a') || (a == a' && (Before(b, b') || (b == b' && Before(c, c'))))
    ensures Before(a + (sep + (b + (sep + c))), a' + (sep + (b' + (sep + c'))))
  {
    if Before(a, a') {
      BeforeBySameLength(a, a', sep + (b + (sep + c)), sep + (b' + (sep + c')));
    } else {
      TailOrder(sep, b, b', c, c');
      BeforeUnderPrefix(sep, b + (sep + c), b' + (sep + c'));
      BeforeUnderPrefix(a, sep + (b + (sep + c)), sep + (b' + (sep + c')));
    }
  }

  lemma TailOrder(sep: string, b: string, b': string, c: string, c': string)
    requires |b| == |b'| && |c| == |c'| && (Before(b, b') || (b == b' && Before(c, c')))
    ensures Before(b + (sep + c), b' + (sep + c'))
  {
    if Before(b, b') {
      BeforeBySameLength(b, b', sep + c, sep + c');
    } else {
      BeforeUnderPrefix(sep, c, c');
      BeforeUnderPrefix(b, sep + c, sep + c');
    }
  }

  /** Three numbers of fixed width, joined: the text is ordered as the triples are. */
  lemma TripleOrder(w: nat, a: nat, a': nat, b: nat, b': nat, c: nat, c': nat, sep: string)
    requires 0 < w && a < Pow10(w) && a' < Pow10(w) && b < Pow10(2) && b' < Pow10(2) && c < Pow10(2) && c' < Pow10(2)
    requires a < a' || (a == a' && (b < b' || (b == b' && c < c')))
    ensures Before(Padded(a, w) + (sep + (Padded(b, 2) + (sep + Padded(c, 2)))),
                   Padded(a', w) + (sep + (Padded(b', 2) + (sep + Padded(c', 2)))))
    ensures |Padded(a, w)| == |Padded(a', w)| == w
    ensures |Padded(b, 2)| == |Padded(b', 2)| == |Padded(c, 2)| == |Padded(c', 2)| == 2
  {
    NumberOfPadded(a, w);
    NumberOfPadded(a', w);
    NumberOfPadded(b, 2);
    NumberOfPadded(b', 2);
    NumberOfPadded(c, 2);
    NumberOfPadded(c', 2);
    if a < a' { PaddedOrder(a, a', w); }
    if b < b' { PaddedOrder(b, b', 2); }
    if c < c' { PaddedOrder(c, c', 2); }
    JoinedOrder(Padded(a, w), Padded(a', w), sep, Padded(b, 2), Padded(b', 2), Padded(c, 2), Padded(c', 2));
  }

  lemma DateOrder(x: Date, x': Date)
    requires IsDate(x) && IsDate(x') && 0 <= x.y <= 9999 && 0 <= x'.y <= 9999 && Earlier(x, x')
    ensures Before(PrintDate(x), PrintDate(x')) && |PrintDate(x)| == |PrintDate(x')| == 10
  {
    assert Pow10(2) == 100 && Pow10(4) == 10000;
    TripleOrder(4, x.y, x'.y, x.m, x'.m, x.d, x'.d, "-");
  }

  lemma ClockOrder(r: nat, r': nat)
    requires r < r' < 86400
    ensures Before(PrintClock(r), PrintClock(r')) && |PrintClock(r)| == |PrintClock(r')| == 8
  {
    assert Pow10(2) == 100;
    ClockFields(r, r');
    TripleOrder(2, r / 3600, r' / 3600, r % 3600 / 60, r' % 3600 / 60, r % 60, r' % 60, ":");
  }

  lemma ClockFields(r: nat, r': nat)
    requires r < r' < 86400
    ensures var h, h', m, m', s, s' := r / 3600, r' / 3600, r % 3600 / 60, r' % 3600 / 60, r % 60, r' % 60;
      h <= h' < 24 && m < 60 && m' < 60 &&
      (h < h' || (h == h' && (m < m' || (m == m' && s < s'))))
  {
    ClockParts(r);
    ClockParts(r');
  }

  lemma LaterClock(x: Date, r: nat, r': nat)
    requires IsDate(x) && 0 <= x.y && r < r' < 86400
    ensures Before(PrintAt(x, r), PrintAt(x, r'))
  {
    ClockOrder(r, r');
    BeforeBySameLength(PrintClock(r), PrintClock(r'), "Z", "Z");
    BeforeUnderPrefix("T", PrintClock(r) + "Z", PrintClock(r') + "Z");
    BeforeUnderPrefix(PrintDate(x), "T" + (PrintClock(r) + "Z"), "T" + (PrintClock(r') + "Z"));
  }

  lemma LaterDate(x: Date, x': Date, r: nat, r': nat)
    requires IsDate(x) && IsDate(x') && 0 <= x.y <= 9999 && 0 <= x'.y <= 9999 && Earlier(x, x')
    ensures Before(PrintAt(x, r), PrintAt(x', r'))
  {
    DateOrder(x, x');
    BeforeBySameLength(PrintDate(x), PrintDate(x'), "T" + (PrintClock(r) + "Z"), "T" + (PrintClock(r') + "Z"));
  }

  lemma {:induction false} BeforeIsStrict(a: string, b: string)
    ensures !(Before(a, b) && Before(b, a)) && !Before(a, a)
  {
    if a != [] {
      BeforeIsStrict(a[1..], if b != [] then b[1..] else []);
    }
  }

  /** Chronological order is string order, up to the end of year 9999. */
  lemma TimeOrderIsStringOrder(t: nat, t': nat)
    requires t < YEAR_10000 && t' < YEAR_10000
    ensures t < t' <==> Before(Print(t), Print(t'))
  {
    BeforeIsStrict(Print(t), Print(t'));
    if t < t' { EarlierPrintsBefore(t, t'); }
    if t' < t { EarlierPrintsBefore(t', t); }
  }

  lemma EarlierPrintsBefore(t: nat, t': nat)
    requires t < t' < YEAR_10000
    ensures Before(Print(t), Print(t'))
  {
    FourDigitDate(t);
    FourDigitDate(t');
    CivilOnParts();
    DatesInOrder(CivilFromDays, t, t');
    TextInOrder(CivilFromDays(t / 86400), CivilFromDays(t' / 86400), t % 86400, t' % 86400);
  }

  ghost predicate Printable(x: Date) {
    IsDate(x) && 1970 <= x.y <= 9999
  }

  lemma FourDigitDate(t: nat)
    requires t < YEAR_10000
    ensures Printable(CivilFromDays(t / 86400))
  {
    CivilIsPrintable(t / 86400);
    FourDigitYear(t);
  }

  ghost predicate InOrder(x: Date, x': Date, r: nat, r': nat) {
    Earlier(x, x') || (x == x' && r < r')
  }

  lemma DatesInOrder(f: int -> Date, t: nat, t': nat)
    requires OnParts(f) && t < t'
    ensures InOrder(f(t / 86400), f(t' / 86400), t % 86400, t' % 86400)
  {
    if t / 86400 < t' / 86400 { GettingLater(f, t / 86400, t' / 86400); }
  }

  lemma TextInOrder(x: Date, x': Date, r: nat, r': nat)
    requires Printable(x) && Printable(x') && r < 86400 && r' < 86400 && InOrder(x, x', r, r')
    ensures Before(PrintAt(x, r), PrintAt(x', r'))
  {
    if x == x' { LaterClock(x, r, r'); } else { LaterDate(x, x', r, r'); }
  }
}
