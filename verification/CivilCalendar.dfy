/** Day numbers and civil dates (src/firestore.rs:85-121).

    `CivilFromDays` and `DaysFromCivil` are the two conversions every stored expiry goes through.
    They are checked against an independent calendar: a next-day function with the
    4/100/400 leap rule, counted from 1970-01-01. */
module CivilCalendar {

  datatype Date = Date(y: int, m: int, d: int)

  // ----- The independent calendar -----

  predicate Leap(y: int) {
    y % 4 == 0 && (y % 100 != 0 || y % 400 == 0)
  }

  function MonthLength(y: int, m: int): int {
    if m == 2 then (if Leap(y) then 29 else 28)
    else if m == 4 || m == 6 || m == 9 || m == 11 then 30
    else 31
  }

  predicate IsDate(x: Date) {
    1 <= x.m <= 12 && 1 <= x.d <= MonthLength(x.y, x.m)
  }

  function NextDay(x: Date): Date {
    if x.d < MonthLength(x.y, x.m) then Date(x.y, x.m, x.d + 1)
    else if x.m < 12 then Date(x.y, x.m + 1, 1)
    else Date(x.y + 1, 1, 1)
  }

  function DayAfterEpoch(n: nat): Date {
    if n == 0 then Date(1970, 1, 1) else NextDay(DayAfterEpoch(n - 1))
  }

  /** Calendar order: year, then month, then day. */
  predicate Earlier(a: Date, b: Date) {
    a.y < b.y || (a.y == b.y && (a.m < b.m || (a.m == b.m && a.d < b.d)))
  }

  // ----- The conversions of the source -----

  /** Integer division that truncates toward zero, as i64 division does. */
  function Quot(a: int, b: int): int
    requires b > 0
  {
    if a >= 0 then a / b else -((-a) / b)
  }

  function EraOf(z: int): int {
    Quot(if z >= 0 then z else z - 146096, 146097)
  }

  function YearOfEra(doe: int): int {
    Quot(doe - Quot(doe, 1460) + Quot(doe, 36524) - Quot(doe, 146096), 365)
  }

  function CivilOfEraDay(era: int, doe: int): Date {
    var yoe := YearOfEra(doe);
    var y := yoe + era * 400;
    var doy := doe - (365 * yoe + Quot(yoe, 4) - Quot(yoe, 100));
    var mp := Quot(5 * doy + 2, 153);
    var d := doy - Quot(153 * mp + 2, 5) + 1;
    var m := if mp < 10 then mp + 3 else mp - 9;
    Date(if m <= 2 then y + 1 else y, m, d)
  }

  function CivilFromDays(days: int): Date {
    var z := days + 719468;
    var era := EraOf(z);
    CivilOfEraDay(era, z - era * 146097)
  }

  function DaysFromCivil(year: int, m: int, d: int): int {
    var y := if m <= 2 then year - 1 else year;
    var era := Quot(if y >= 0 then y else y - 399, 400);
    var yoe := y - era * 400;
    var mp := if m > 2 then m - 3 else m + 9;
    var doy := Quot(153 * mp + 2, 5) + d - 1;
    var doe := yoe * 365 + Quot(yoe, 4) - Quot(yoe, 100) + doy;
    era * 146097 + doe - 719468
  }

  // ----- A day number as (era, year of era, day of the March year) -----

  /** First day, within its era, of the March-based year `yoe`. */
  function YearStart(yoe: int): int {
    365 * yoe + yoe / 4 - yoe / 100 + (if yoe == 400 then 1 else 0)
  }

  /** First day, within the March-based year, of month `mp` (0 is March). */
  function MonthStart(mp: int): int {
    (153 * mp + 2) / 5
  }

  predicate InYear(yoe: int, doy: int) {
    0 <= yoe < 400 && 0 <= doy && YearStart(yoe) + doy < YearStart(yoe + 1)
  }

  function MarchDate(era: int, yoe: int, doy: int): Date {
    var mp := (5 * doy + 2) / 153;
    var m := if mp < 10 then mp + 3 else mp - 9;
    var y := yoe + era * 400;
    Date(if m <= 2 then y + 1 else y, m, doy - MonthStart(mp) + 1)
  }

  lemma QuotientIs(x: int, d: int, q: int)
    requires d > 0 && d * q <= x < d * q + d
    ensures x / d == q
  {
    var r := x - d * q;
    assert x / d == q + r / d by {
      assert x == q * d + r;
      DivAddMultiple(r, q, d);
    }
  }

  lemma DivAddMultiple(r: int, q: int, d: int)
    requires 0 <= r < d
    ensures (q * d + r) / d == q
  {
    var p := (q * d + r) / d;
    assert 0 <= q * d + r - p * d < d;
    assert (q - p) * d == q * d - p * d;
    assert q - p >= 1 ==> (q - p) * d >= d;
    assert q - p <= -1 ==> (q - p) * d <= -d;
  }

  /** The year-of-era formula finds the year that holds the day: with the year written as
      100c + 4a + b, the three corrections cancel all but at most two days of the year. */
  lemma YearFormula(c: int, a: int, b: int, doy: int)
    requires 0 <= c < 4 && 0 <= a < 25 && 0 <= b < 4
    requires InYear(100 * c + 4 * a + b, doy)
    ensures var doe := YearStart(100 * c + 4 * a + b) + doy;
            0 <= doe && (doe - doe / 1460 + doe / 36524 - doe / 146096) / 365 == 100 * c + 4 * a + b
  {
    QuarterCenturies(c, a, b);
    assert doy <= 365 && (doy == 365 ==> b == 3 && (a < 24 || c == 3));
    Corrections(c, a, 365 * b + doy);
    Corrected(c, a, b, doy);
  }

  lemma Corrected(c: int, a: int, b: int, doy: int)
    requires 0 <= c < 4 && 0 <= a < 25 && 0 <= b < 4
    requires 0 <= doy <= 365 && (doy == 365 ==> b == 3 && (a < 24 || c == 3))
    ensures var inYear := 365 * b + doy;
      var doe := 36524 * c + 1461 * a + inYear;
      var late, last := if a + 24 * c + inYear >= 1460 then 1 else 0, if doe == 146096 then 1 else 0;
      (doe - (25 * c + a + late) + (c + last) - last) / 365 == 100 * c + 4 * a + b
  {
    var inYear := 365 * b + doy;
    var late := if a + 24 * c + inYear >= 1460 then 1 else 0;
    QuotientIs(36524 * c + 1461 * a + inYear - (25 * c + a + late) + c, 365, 100 * c + 4 * a + b);
  }

  /** The three corrections: leap years so far, centuries so far, and the era's last day. */
  lemma Corrections(c: int, a: int, inYear: int)
    requires 0 <= c < 4 && 0 <= a < 25 && 0 <= inYear <= 1460 && (inYear == 1460 ==> a < 24 || c == 3)
    ensures var doe := 36524 * c + 1461 * a + inYear;
      doe / 1460 == 25 * c + a + (if a + 24 * c + inYear >= 1460 then 1 else 0) &&
      doe / 36524 == c + (if doe == 146096 then 1 else 0) && doe / 146096 == if doe == 146096 then 1 else 0
  {
    var doe := 36524 * c + 1461 * a + inYear;
    QuotientIs(doe, 1460, 25 * c + a + if a + 24 * c + inYear >= 1460 then 1 else 0);
    QuotientIs(doe, 36524, c + if doe == 146096 then 1 else 0);
    QuotientIs(doe, 146096, if doe == 146096 then 1 else 0);
  }

  lemma QuarterCenturies(c: int, a: int, b: int)
    requires 0 <= c < 4 && 0 <= a < 25 && 0 <= b < 4
    ensures var y := 100 * c + 4 * a + b;
      YearStart(y) == 36524 * c + 1461 * a + 365 * b &&
      YearStart(y + 1) - YearStart(y) == if b == 3 && (a < 24 || c == 3) then 366 else 365
  {
    var y := 100 * c + 4 * a + b;
    QuotientIs(y, 100, c);
    QuotientIs(y, 4, 25 * c + a);
    QuotientIs(y + 1, 100, if a == 24 && b == 3 then c + 1 else c);
    QuotientIs(y + 1, 4, if b == 3 then 25 * c + a + 1 else 25 * c + a);
  }

  lemma YearOfEraInverts(yoe: int, doy: int)
    requires InYear(yoe, doy)
    ensures 0 <= YearStart(yoe) + doy && YearOfEra(YearStart(yoe) + doy) == yoe
  {
    var c, r := yoe / 100, yoe % 100;
    assert yoe == 100 * c + 4 * (r / 4) + r % 4;
    YearFormula(c, r / 4, r % 4, doy);
  }

  lemma EraIsFloor(n: int)
    ensures EraOf(n) == n / 146097
  {
    if n < 0 {
      QuotientIs(146096 - n, 146097, -(n / 146097));
    }
  }

  function DayOf(era: int, yoe: int, doy: int): int {
    era * 146097 + YearStart(yoe) + doy - 719468
  }

  lemma CivilOfYearDay(era: int, yoe: int, doy: int)
    requires InYear(yoe, doy)
    ensures CivilOfEraDay(era, YearStart(yoe) + doy) == MarchDate(era, yoe, doy)
  {
    YearOfEraInverts(yoe, doy);
  }

  lemma YearStartBound(yoe: int)
    requires 0 <= yoe <= 400
    ensures 0 <= YearStart(yoe) <= 146097
  {}

  lemma CivilOfParts(era: int, yoe: int, doy: int)
    requires InYear(yoe, doy)
    ensures CivilFromDays(DayOf(era, yoe, doy)) == MarchDate(era, yoe, doy)
  {
    YearStartBound(yoe);
    YearStartBound(yoe + 1);
    var n := DayOf(era, yoe, doy) + 719468;
    EraIsFloor(n);
    QuotientIs(n, 146097, era);
    CivilOfYearDay(era, yoe, doy);
  }

  lemma Parts(z: int) returns (era: int, yoe: int, doy: int)
    ensures InYear(yoe, doy) && z == DayOf(era, yoe, doy)
  {
    var n := z + 719468;
    era := n / 146097;
    var doe := n - era * 146097;
    yoe := 0;
    while doe >= YearStart(yoe + 1)
      invariant 0 <= yoe < 400 && YearStart(yoe) <= doe < 146097
      decreases 400 - yoe
    {
      yoe := yoe + 1;
    }
    doy := doe - YearStart(yoe);
  }

  // ----- The conversion follows the calendar -----

  /** Which March-based month holds day `doy`, and where that month starts and ends. */
  lemma MonthOfDay(doy: int)
    requires 0 <= doy <= 365
    ensures var mp := (5 * doy + 2) / 153;
            0 <= mp <= 11 && MonthStart(mp) <= doy < MonthStart(mp + 1)
  {}

  lemma MonthStarts(mp: int)
    requires 0 <= mp <= 11
    ensures MonthStart(mp) == [0, 31, 61, 92, 122, 153, 184, 214, 245, 275, 306, 337][mp]
    ensures mp < 11 ==> MonthStart(mp + 1) == [31, 61, 92, 122, 153, 184, 214, 245, 275, 306, 337][mp]
  {}

  lemma LeapRepeats(y: int, era: int)
    ensures Leap(y + era * 400) == Leap(y)
  {
    QuotientIs(y + era * 400, 4, y / 4 + era * 100);
    QuotientIs(y + era * 400, 100, y / 100 + era * 4);
    QuotientIs(y + era * 400, 400, y / 400 + era);
  }

  lemma YearLength(era: int, yoe: int)
    requires 0 <= yoe < 400
    ensures YearStart(yoe + 1) - YearStart(yoe) == if Leap(yoe + 1 + era * 400) then 366 else 365
  {
    var c, a, b := yoe / 100, yoe % 100 / 4, yoe % 4;
    assert yoe == 100 * c + 4 * a + b;
    QuarterCenturies(c, a, b);
    LeapRepeats(yoe + 1, era);
    LeapInEra(c, a, b);
  }

  lemma LeapInEra(c: int, a: int, b: int)
    requires 0 <= c < 4 && 0 <= a < 25 && 0 <= b < 4
    ensures Leap(100 * c + 4 * a + b + 1) <==> b == 3 && (a < 24 || c == 3)
  {}

  /** Month and day within one March-based year, apart from the year itself. */
  lemma MonthDay(doy: int)
    requires 0 <= doy <= 365
    ensures var mp := (5 * doy + 2) / 153;
            var d := doy - MonthStart(mp) + 1;
            var longest := if mp == 11 then 29 else if mp == 1 || mp == 3 || mp == 6 || mp == 8 then 30 else 31;
            0 <= mp <= 11 && 1 <= d <= longest
    ensures doy < 365 ==>
            var mp, mp' := (5 * doy + 2) / 153, (5 * doy + 7) / 153;
            var d, d' := doy - MonthStart(mp) + 1, doy - MonthStart(mp') + 2;
            if d == (if mp == 1 || mp == 3 || mp == 6 || mp == 8 then 30 else 31) then mp' == mp + 1 && d' == 1
            else mp' == mp && d' == d + 1
    ensures (5 * doy + 2) / 153 == 11 <==> doy >= 337
    ensures doy >= 337 ==> doy - MonthStart(11) + 1 == doy - 336
  {
    MonthOfDay(doy);
    MonthStarts((5 * doy + 2) / 153);
    if doy < 365 {
      MonthOfDay(doy + 1);
      MonthStarts((5 * doy + 7) / 153);
    }
  }

  /** Every part-triple denotes a real date, and inside a March-based year one more day is the next date. */
  lemma MarchDateIsDate(era: int, yoe: int, doy: int)
    requires InYear(yoe, doy)
    ensures IsDate(MarchDate(era, yoe, doy))
    ensures InYear(yoe, doy + 1) ==> MarchDate(era, yoe, doy + 1) == NextDay(MarchDate(era, yoe, doy))
    ensures !InYear(yoe, doy + 1) ==> NextDay(MarchDate(era, yoe, doy)) == Date(yoe + era * 400 + 1, 3, 1)
  {
    YearLength(era, yoe);
    MonthDay(doy);
    assert 5 * (doy + 1) + 2 == 5 * doy + 7;
  }

  /** One more day, in part-triples. */
  lemma NextParts(era: int, yoe: int, doy: int) returns (era': int, yoe': int, doy': int)
    requires InYear(yoe, doy)
    ensures InYear(yoe', doy') && DayOf(era', yoe', doy') == DayOf(era, yoe, doy) + 1
    ensures IsDate(MarchDate(era, yoe, doy))
    ensures MarchDate(era', yoe', doy') == NextDay(MarchDate(era, yoe, doy))
  {
    MarchDateIsDate(era, yoe, doy);
    if InYear(yoe, doy + 1) {
      era', yoe', doy' := era, yoe, doy + 1;
    } else if yoe < 399 {
      YearLength(era, yoe + 1);
      era', yoe', doy' := era, yoe + 1, 0;
    } else {
      era', yoe', doy' := era + 1, 0, 0;
    }
  }

  /** A conversion that gives every day its March-based date. */
  ghost predicate OnParts(f: int -> Date) {
    forall era, yoe, doy :: InYear(yoe, doy) ==> f(DayOf(era, yoe, doy)) == MarchDate(era, yoe, doy)
  }

  lemma CivilOnParts()
    ensures OnParts(CivilFromDays)
  {
    forall era, yoe, doy | InYear(yoe, doy)
      ensures CivilFromDays(DayOf(era, yoe, doy)) == MarchDate(era, yoe, doy)
    {
      CivilOfParts(era, yoe, doy);
    }
  }

  lemma Stepping(f: int -> Date, z: int)
    requires OnParts(f)
    ensures IsDate(f(z)) && f(z + 1) == NextDay(f(z))
  {
    var era, yoe, doy := Parts(z);
    var era', yoe', doy' := NextParts(era, yoe, doy);
    assert f(z) == MarchDate(era, yoe, doy);
    assert f(z + 1) == MarchDate(era', yoe', doy');
  }

  /** The day after any day, before or after 1970, is the calendar's next day. */
  lemma CivilStep(z: int)
    ensures IsDate(CivilFromDays(z))
    ensures CivilFromDays(z + 1) == NextDay(CivilFromDays(z))
  {
    CivilOnParts();
    Stepping(CivilFromDays, z);
  }

  lemma CivilEpoch()
    ensures CivilFromDays(0) == Date(1970, 1, 1)
  {
    assert YearStart(369) == 134774 && YearStart(370) == 135139;
    CivilOfParts(4, 369, 306);
  }

  lemma {:induction false} Counting(f: int -> Date, n: nat)
    requires OnParts(f) && f(0) == Date(1970, 1, 1)
    ensures f(n) == DayAfterEpoch(n)
  {
    if n > 0 {
      Stepping(f, n - 1);
      Counting(f, n - 1);
    }
  }

  /** Calendar correctness: day number n is the n-th Gregorian successor of 1970-01-01. */
  lemma CivilFromDaysIsTheCalendar(n: nat)
    ensures CivilFromDays(n) == DayAfterEpoch(n)
  {
    CivilOnParts();
    CivilEpoch();
    Counting(CivilFromDays, n);
  }

  // ----- The two conversions are inverse -----

  lemma DaysFromParts(era: int, yoe: int, m: int, d: int)
    requires 0 <= yoe < 400 && 1 <= m <= 12 && 1 <= d
    ensures var mp := if m > 2 then m - 3 else m + 9;
            var y := yoe + era * 400;
            DaysFromCivil(if m <= 2 then y + 1 else y, m, d)
            == era * 146097 + 365 * yoe + yoe / 4 - yoe / 100 + MonthStart(mp) + d - 1 - 719468
  {
    var y := yoe + era * 400;
    assert Quot(if y >= 0 then y else y - 399, 400) == era by {
      if y >= 0 { QuotientIs(y, 400, era); } else { QuotientIs(399 - y, 400, -era); }
    }
  }

  lemma DaysOfMarchDate(era: int, yoe: int, doy: int)
    requires InYear(yoe, doy)
    ensures var x := MarchDate(era, yoe, doy); DaysFromCivil(x.y, x.m, x.d) == DayOf(era, yoe, doy)
  {
    YearLength(era, yoe);
    MonthDay(doy);
    var x := MarchDate(era, yoe, doy);
    DaysFromParts(era, yoe, x.m, x.d);
  }

  /** `DaysFromCivil` undoes `CivilFromDays` on every day number. */
  lemma DaysOfCivil(z: int)
    ensures var x := CivilFromDays(z); DaysFromCivil(x.y, x.m, x.d) == z
  {
    var era, yoe, doy := Parts(z);
    CivilOfParts(era, yoe, doy);
    DaysOfMarchDate(era, yoe, doy);
  }

  /** `CivilFromDays` undoes `DaysFromCivil` on every real date. */
  lemma CivilOfDays(x: Date)
    requires IsDate(x)
    ensures CivilFromDays(DaysFromCivil(x.y, x.m, x.d)) == x
  {
    var y := if x.m <= 2 then x.y - 1 else x.y;
    var era := y / 400;
    var yoe := y - era * 400;
    var doy := MonthStart(if x.m > 2 then x.m - 3 else x.m + 9) + x.d - 1;
    PartsOfDate(x, era, yoe, doy);
    DaysOfMarchDate(era, yoe, doy);
    CivilOfParts(era, yoe, doy);
  }

  lemma PartsOfDate(x: Date, era: int, yoe: int, doy: int)
    requires IsDate(x) && 0 <= yoe < 400
    requires yoe + era * 400 == if x.m <= 2 then x.y - 1 else x.y
    requires doy == MonthStart(if x.m > 2 then x.m - 3 else x.m + 9) + x.d - 1
    ensures InYear(yoe, doy) && MarchDate(era, yoe, doy) == x
  {
    var mp := if x.m > 2 then x.m - 3 else x.m + 9;
    YearLength(era, yoe);
    MonthStarts(mp);
    assert MonthStart(11) == 337;
    MonthOfDay(doy);
    MonthStarts((5 * doy + 2) / 153);
  }

  // ----- Day numbers and dates are in the same order -----

  lemma NextDayIsLater(x: Date)
    requires IsDate(x)
    ensures IsDate(NextDay(x)) && Earlier(x, NextDay(x))
  {}

  lemma {:induction false} GettingLater(f: int -> Date, a: int, b: int)
    requires OnParts(f) && a < b
    ensures Earlier(f(a), f(b))
    decreases b - a
  {
    Stepping(f, b - 1);
    NextDayIsLater(f(b - 1));
    if a < b - 1 { GettingLater(f, a, b - 1); }
  }

  lemma LaterDayIsLaterDate(a: int, b: int)
    requires a < b
    ensures Earlier(CivilFromDays(a), CivilFromDays(b))
  {
    CivilOnParts();
    GettingLater(CivilFromDays, a, b);
  }

  lemma SinceEpoch(f: int -> Date, n: nat)
    requires OnParts(f) && f(0) == Date(1970, 1, 1)
    ensures IsDate(f(n)) && f(n).y >= 1970
  {
    Stepping(f, n);
    if n > 0 { GettingLater(f, 0, n); }
  }
}
