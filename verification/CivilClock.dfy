/** An instant as the date and time of the Gregorian calendar, and its text in the form of section 5.6
    of RFC 3339. */
module CivilClock {
  import opened Common

  datatype Fields = Fields(year: int, month: int, day: int, hour: int, minute: int, second: int, millis: int)

  const DAY_MS: int := 86_400_000

  // ----- the clock's own arithmetic -----

  datatype Cycle = Cycle(era: int, doe: int, yoe: int, doy: int)

  function CycleOf(z: int): Cycle {
    var era := z / 146_097;
    var doe := z % 146_097;
    var yoe := (doe - doe / 1_460 + doe / 36_524 - doe / 146_096) / 365;
    Cycle(era, doe, yoe, doe - (365 * yoe + yoe / 4 - yoe / 100))
  }

  function MonthIndex(doy: int): int {
    (5 * doy + 2) / 153
  }

  function FieldsOf(ms: int): Fields {
    var seconds := ms / 1000;
    var daySeconds := seconds % 86_400;
    var c := CycleOf(seconds / 86_400 + 719_468);
    var mp := MonthIndex(c.doy);
    var day := c.doy - (153 * mp + 2) / 5 + 1;
    var month := if mp < 10 then mp + 3 else mp - 9;
    var year := c.yoe + c.era * 400 + if month <= 2 then 1 else 0;
    Fields(year, month, day, daySeconds / 3_600, daySeconds % 3_600 / 60, daySeconds % 60, ms % 1000)
  }

  // ----- the calendar, by counting -----

  predicate Leap(y: int) {
    y % 4 == 0 && (y % 100 != 0 || y % 400 == 0)
  }

  function YearDays(y: int): int {
    if Leap(y) then 366 else 365
  }

  function MonthDays(y: int, m: int): int {
    if m == 2 then (if Leap(y) then 29 else 28)
    else if m == 4 || m == 6 || m == 9 || m == 11 then 30
    else 31
  }

  /** Days from the start of 1970 to the start of a year, year by year. */
  function YearStart(y: int): int
    decreases if y >= 1970 then y - 1970 else 1970 - y
  {
    if y == 1970 then 0
    else if y > 1970 then YearStart(y - 1) + YearDays(y - 1)
    else YearStart(y + 1) - YearDays(y)
  }

  function MonthStart(y: int, m: int): int
    decreases m
  {
    if m <= 1 then 0 else MonthStart(y, m - 1) + MonthDays(y, m - 1)
  }

  predicate ValidDate(f: Fields) {
    1 <= f.month <= 12 && 1 <= f.day <= MonthDays(f.year, f.month)
  }

  predicate ValidTime(f: Fields) {
    0 <= f.hour < 24 && 0 <= f.minute < 60 && 0 <= f.second < 60 && 0 <= f.millis < 1000
  }

  function DayNumber(f: Fields): int {
    YearStart(f.year) + MonthStart(f.year, f.month) + f.day - 1
  }

  /** The milliseconds since the start of 1970 that a date and time stand for. */
  function Instant(f: Fields): int {
    DayNumber(f) * DAY_MS + ((f.hour * 60 + f.minute) * 60 + f.second) * 1000 + f.millis
  }

  // ----- the arithmetic counts the calendar -----

  function LeapsTo(n: int): int {
    n / 4 - n / 100 + n / 400
  }

  lemma {:induction false} LeapsAdd(y: int)
    ensures LeapsTo(y) == LeapsTo(y - 1) + if Leap(y) then 1 else 0
  {
    Quotient(y, 4);
    Quotient(y, 100);
    Quotient(y, 400);
    Multiples(y);
  }

  lemma {:induction false} Multiples(y: int)
    ensures y % 400 == 0 ==> y % 100 == 0
    ensures y % 100 == 0 ==> y % 4 == 0
  {
    Shifted(0, y / 400 * 4, 100);
    Shifted(0, y / 100 * 25, 4);
  }

  lemma {:induction false} Shifted(n: int, m: int, k: int)
    requires k == 4 || k == 100 || k == 400
    ensures (n + m * k) / k == n / k + m && (n + m * k) % k == n % k
  {
  }

  lemma {:induction false} Quotient(y: int, k: int)
    requires k == 4 || k == 100 || k == 400
    ensures y / k == (y - 1) / k + if y % k == 0 then 1 else 0
  {
  }

  lemma {:induction false} YearStartIs(y: int)
    ensures YearStart(y) == 365 * (y - 1970) + LeapsTo(y - 1) - 477
    decreases if y >= 1970 then y - 1970 else 1970 - y
  {
    if y > 1970 {
      YearStartIs(y - 1);
      LeapsAdd(y - 1);
    } else if y < 1970 {
      YearStartIs(y + 1);
      LeapsAdd(y);
    }
  }

  /** A day of a 400-year cycle as centuries, fours of years, years and days of it: the year the clock's
      quotient finds, and the day in it. */
  lemma {:induction false} CycleIs(z: int)
    ensures var c := CycleOf(z);
            && 0 <= c.yoe < 400 && 0 <= c.doy <= 365
            && (c.doy == 365 ==> c.yoe % 4 == 3 && (c.yoe % 100 == 99 ==> c.yoe == 399))
            && z == 146_097 * c.era + 365 * c.yoe + c.yoe / 4 - c.yoe / 100 + c.doy
  {
    YearOfDay(z % 146_097);
  }

  lemma {:induction false} YearOfDay(doe: int)
    requires 0 <= doe < 146_097
    ensures var yoe := (doe - doe / 1_460 + doe / 36_524 - doe / 146_096) / 365;
            var doy := doe - (365 * yoe + yoe / 4 - yoe / 100);
            0 <= yoe < 400 && 0 <= doy <= 365 && (doy == 365 ==> yoe % 4 == 3 && (yoe % 100 == 99 ==> yoe == 399))
  {
    var c := if doe == 146_096 then 3 else doe / 36_524;
    var rem := doe - 36_524 * c;
    InCentury(rem, c);
    var q := rem / 1_461;
    var rest := rem - 1_461 * q;
    var r := if rest == 1_460 then 3 else rest / 365;
    YearOfCycle(doe, c, q, r, rest - 365 * r);
  }

  lemma {:induction false} InCentury(rem: int, c: int)
    requires 0 <= rem <= 36_524 && (rem == 36_524 ==> c == 3)
    ensures var q := rem / 1_461;
            var rest := rem - 1_461 * q;
            var r := if rest == 1_460 then 3 else rest / 365;
            && 0 <= q <= 24 && 0 <= r <= 3 && 0 <= rest - 365 * r <= 365
            && (rest - 365 * r == 365 ==> r == 3 && (q == 24 ==> c == 3))
  {
  }

  lemma {:induction false} YearOfCycle(doe: int, c: int, q: int, r: int, d: int)
    requires doe == 36_524 * c + 1_461 * q + 365 * r + d
    requires 0 <= c <= 3 && 0 <= q <= 24 && 0 <= r <= 3 && 0 <= d <= 365
    requires d == 365 ==> r == 3 && (q == 24 ==> c == 3)
    ensures var t := 100 * c + 4 * q + r;
            && (doe - doe / 1_460 + doe / 36_524 - doe / 146_096) / 365 == t
            && 365 * t + t / 4 - t / 100 == doe - d
            && t % 4 == r && (t % 100 == 99 <==> q == 24 && r == 3)
  {
    var t := 100 * c + 4 * q + r;
    assert t / 4 == 25 * c + q && t / 100 == c;
    var e := if 24 * c + q + 365 * r + d >= 1_460 then 1 else 0;
    QuotientsOfDay(c, q, r, d);
    assert doe - doe / 1_460 + doe / 36_524 - doe / 146_096 == 365 * t + (d - e);
  }

  lemma {:induction false} QuotientsOfDay(c: int, q: int, r: int, d: int)
    requires 0 <= c <= 3 && 0 <= q <= 24 && 0 <= r <= 3 && 0 <= d <= 365
    requires d == 365 ==> r == 3 && (q == 24 ==> c == 3)
    ensures var doe := 36_524 * c + 1_461 * q + 365 * r + d;
            var e := if 24 * c + q + 365 * r + d >= 1_460 then 1 else 0;
            doe / 1_460 == 25 * c + q + e && doe / 36_524 - doe / 146_096 == c && 0 <= d - e <= 364
  {
    var doe := 36_524 * c + 1_461 * q + 365 * r + d;
    assert doe == 1_460 * (25 * c + q) + (24 * c + q + 365 * r + d);
  }

  /** The month and day the clock finds in a year that starts on 1 March. */
  lemma {:induction false} MonthIs(y: int, doy: int)
    requires 0 <= doy <= 365 && (doy == 365 ==> Leap(y + 1))
    ensures var mp := MonthIndex(doy);
            var day := doy - (153 * mp + 2) / 5 + 1;
            && 0 <= mp <= 11
            && (mp < 10 ==> 1 <= day <= MonthDays(y, mp + 3) && MonthStart(y, mp + 3) + day - 1 == doy + MonthStart(y, 3))
            && (mp >= 10 ==> 1 <= day <= MonthDays(y + 1, mp - 9) && MonthStart(y + 1, mp - 9) + day - 1 == doy - 306)
  {
    MonthStarts(y);
    MonthStarts(y + 1);
  }

  lemma {:induction false} MonthStarts(y: int)
    ensures MonthStart(y, 1) == 0 && MonthStart(y, 2) == 31 && MonthStart(y, 3) == if Leap(y) then 60 else 59
    ensures forall mp | 0 <= mp < 10 :: MonthStart(y, mp + 3) == MonthStart(y, 3) + (153 * mp + 2) / 5
  {
    assert MonthStart(y, 4) == MonthStart(y, 3) + 31;
    assert MonthStart(y, 5) == MonthStart(y, 4) + 30;
    assert MonthStart(y, 6) == MonthStart(y, 5) + 31;
    assert MonthStart(y, 7) == MonthStart(y, 6) + 30;
    assert MonthStart(y, 8) == MonthStart(y, 7) + 31;
    assert MonthStart(y, 9) == MonthStart(y, 8) + 31;
    assert MonthStart(y, 10) == MonthStart(y, 9) + 30;
    assert MonthStart(y, 11) == MonthStart(y, 10) + 31;
    assert MonthStart(y, 12) == MonthStart(y, 11) + 30;
  }

  /** The date the clock finds on a day of a year that starts on 1 March. */
  lemma {:induction false} DateIs(y: int, doy: int, f: Fields)
    requires 0 <= doy <= 365 && (doy == 365 ==> Leap(y + 1))
    requires var mp := MonthIndex(doy);
             && f.day == doy - (153 * mp + 2) / 5 + 1
             && f.month == (if mp < 10 then mp + 3 else mp - 9)
             && f.year == y + if f.month <= 2 then 1 else 0
    ensures ValidDate(f) && DayNumber(f) == 365 * y + LeapsTo(y) + doy - 719_468
  {
    MonthIs(y, doy);
    if MonthIndex(doy) < 10 {
      YearStartIs(y);
      MonthStarts(y);
      LeapsAdd(y);
    } else {
      YearStartIs(y + 1);
    }
  }

  /** For every count of milliseconds the fields are a date and time of the Gregorian calendar, and
      the one that stands for exactly that instant, counting years and months one by one. */
  lemma {:induction false} FieldsAreTheInstant(ms: int)
    ensures var f := FieldsOf(ms); ValidDate(f) && ValidTime(f) && Instant(f) == ms
  {
    var days := ms / 1000 / 86_400;
    DaysAreTheDate(days, FieldsOf(ms), CycleOf(days + 719_468));
    TimeOfDay(ms);
  }

  lemma {:induction false} DaysAreTheDate(days: int, f: Fields, c: Cycle)
    requires c == CycleOf(days + 719_468)
    requires var mp := MonthIndex(c.doy);
             && f.day == c.doy - (153 * mp + 2) / 5 + 1
             && f.month == (if mp < 10 then mp + 3 else mp - 9)
             && f.year == c.yoe + c.era * 400 + if f.month <= 2 then 1 else 0
    ensures ValidDate(f) && DayNumber(f) == days
  {
    CycleIs(days + 719_468);
    LeapOfCycle(c.era, c.yoe);
    DateIs(c.yoe + c.era * 400, c.doy, f);
  }

  lemma {:induction false} LeapOfCycle(era: int, yoe: int)
    requires 0 <= yoe < 400
    ensures LeapsTo(yoe + era * 400) == 97 * era + yoe / 4 - yoe / 100
    ensures Leap(yoe + era * 400 + 1) <==> yoe % 4 == 3 && (yoe % 100 == 99 ==> yoe == 399)
  {
    var y := yoe + era * 400;
    Shifted(yoe, 100 * era, 4);
    Shifted(yoe, 4 * era, 100);
    Shifted(yoe, era, 400);
    Shifted(yoe + 1, 100 * era, 4);
    Shifted(yoe + 1, 4 * era, 100);
    Shifted(yoe + 1, era, 400);
    assert y + 1 == yoe + 1 + 100 * era * 4 && y + 1 == yoe + 1 + 4 * era * 100;
    assert yoe / 400 == 0;
    LeapInCycle(yoe);
  }

  lemma {:induction false} LeapInCycle(yoe: int)
    requires 0 <= yoe < 400
    ensures Leap(yoe + 1) <==> yoe % 4 == 3 && (yoe % 100 == 99 ==> yoe == 399)
  {
  }

  lemma {:induction false} TimeOfDay(ms: int)
    ensures var s := ms / 1000 % 86_400;
            0 <= s / 3_600 < 24 && 0 <= s % 3_600 / 60 < 60 && 0 <= s % 60 < 60 && 0 <= ms % 1000 < 1000
    ensures var s := ms / 1000 % 86_400;
            ms == ms / 1000 / 86_400 * DAY_MS + ((s / 3_600 * 60 + s % 3_600 / 60) * 60 + s % 60) * 1000 + ms % 1000
  {
    var s := ms / 1000 % 86_400;
    Sixtieths(s);
  }

  lemma {:induction false} Sixtieths(s: int)
    requires 0 <= s
    ensures s == (s / 3_600 * 60 + s % 3_600 / 60) * 60 + s % 60
  {
    var h := s / 3_600;
    var m := (s - 3_600 * h) / 60;
    OfSixty(60 * h + m, s - 3_600 * h - 60 * m);
  }

  lemma {:induction false} OfSixty(q: int, x: int)
    requires 0 <= x < 60
    ensures (60 * q + x) % 60 == x
  {
  }

  /** No two instants have the same date and time, and one that stands for a date and time has it. */
  lemma {:induction false} FieldsAreUnique(f: Fields)
    requires ValidDate(f) && ValidTime(f)
    ensures FieldsOf(Instant(f)) == f
  {
    var g := FieldsOf(Instant(f));
    FieldsAreTheInstant(Instant(f));
    if Earlier(f, g) {
      EarlierIsLess(f, g);
    } else if Earlier(g, f) {
      EarlierIsLess(g, f);
    }
  }

  // ----- order -----

  predicate EarlierDate(a: Fields, b: Fields) {
    a.year < b.year || (a.year == b.year && (a.month < b.month || (a.month == b.month && a.day < b.day)))
  }

  predicate SameDate(a: Fields, b: Fields) {
    a.year == b.year && a.month == b.month && a.day == b.day
  }

  predicate EarlierTime(a: Fields, b: Fields) {
    || a.hour < b.hour
    || (a.hour == b.hour && (a.minute < b.minute || (a.minute == b.minute &&
          (a.second < b.second || (a.second == b.second && a.millis < b.millis)))))
  }

  /** Field by field, the greater unit first. */
  predicate Earlier(a: Fields, b: Fields) {
    EarlierDate(a, b) || (SameDate(a, b) && EarlierTime(a, b))
  }

  lemma {:induction false} MonthStartGrows(y: int, m: int, n: int)
    requires 1 <= m < n <= 13
    ensures MonthStart(y, m) + MonthDays(y, m) <= MonthStart(y, n)
    decreases n
  {
    if m < n - 1 {
      MonthStartGrows(y, m, n - 1);
    }
  }

  lemma {:induction false} MonthInYear(y: int, m: int)
    requires 1 <= m <= 12
    ensures 0 <= MonthStart(y, m) && MonthStart(y, m) + MonthDays(y, m) <= YearDays(y)
  {
    MonthStarts(y);
    assert MonthStart(y, 13) == MonthStart(y, 12) + 31;
    MonthStartGrows(y, m, 13);
    if m > 1 {
      MonthStartGrows(y, 1, m);
    }
  }

  lemma {:induction false} YearStartGrows(x: int, y: int)
    requires x < y
    ensures YearStart(x) + YearDays(x) <= YearStart(y)
    decreases y - x
  {
    YearStartIs(x);
    YearStartIs(x + 1);
    LeapsAdd(x);
    if x + 1 < y {
      YearStartGrows(x + 1, y);
    }
  }

  lemma {:induction false} EarlierDateIsLess(a: Fields, b: Fields)
    requires ValidDate(a) && ValidDate(b) && EarlierDate(a, b)
    ensures DayNumber(a) < DayNumber(b)
  {
    MonthInYear(a.year, a.month);
    MonthInYear(b.year, b.month);
    if a.year < b.year {
      YearStartGrows(a.year, b.year);
    } else if a.month < b.month {
      MonthStartGrows(a.year, a.month, b.month);
    }
  }

  lemma {:induction false} EarlierIsLess(a: Fields, b: Fields)
    requires ValidDate(a) && ValidTime(a) && ValidDate(b) && ValidTime(b) && Earlier(a, b)
    ensures Instant(a) < Instant(b)
  {
    if EarlierDate(a, b) {
      EarlierDateIsLess(a, b);
    }
  }

  lemma {:induction false} EarlierExactly(f: Fields, g: Fields)
    requires ValidDate(f) && ValidTime(f) && ValidDate(g) && ValidTime(g)
    ensures Earlier(f, g) <==> Instant(f) < Instant(g)
  {
    if Earlier(f, g) {
      EarlierIsLess(f, g);
    } else if Earlier(g, f) {
      EarlierIsLess(g, f);
    } else {
      assert f == g;
    }
  }

  /** Dates and times follow one another as their instants do. */
  lemma {:induction false} FieldsKeepOrder(a: int, b: int)
    ensures Earlier(FieldsOf(a), FieldsOf(b)) <==> a < b
  {
    FieldsAreTheInstant(a);
    FieldsAreTheInstant(b);
    EarlierExactly(FieldsOf(a), FieldsOf(b));
  }

  // ----- text -----

  function Digit(n: int): char {
    "0123456789"[n % 10]
  }

  function Digits(n: nat): string {
    if n < 10 then [Digit(n)] else Digits(n / 10) + [Digit(n)]
  }

  function Zeros(n: nat): (s: string)
    ensures |s| == n
  {
    seq(n, _ => '0')
  }

  /** A number, with zeros before it to at least `width` characters, its sign among them. */
  function Padded(n: int, width: nat): string {
    if n < 0 then
      var d := Digits(-n);
      "-" + Zeros(if |d| + 1 < width then width - 1 - |d| else 0) + d
    else
      var d := Digits(n);
      Zeros(if |d| < width then width - |d| else 0) + d
  }

  function Slot(n: int, width: nat, sep: char): string {
    Padded(n, width) + [sep]
  }

  function TextOf(f: Fields): string {
    Slot(f.year, 4, '-') + (Slot(f.month, 2, '-') + (Slot(f.day, 2, 'T') + (Slot(f.hour, 2, ':') + (Slot(f.minute, 2, ':') + (
      Slot(f.second, 2, '.') + Slot(f.millis, 3, 'Z'))))))
  }

  function Rfc3339(ms: int): string {
    TextOf(FieldsOf(ms))
  }

  /** A number in exactly `width` digits, the last first found. */
  function Fixed(n: nat, width: nat): (s: string)
    ensures |s| == width
  {
    if width == 0 then [] else Fixed(n / 10, width - 1) + [Digit(n)]
  }

  function Pow10(k: nat): nat {
    if k == 0 then 1 else 10 * Pow10(k - 1)
  }

  predicate AllDigits(s: string) {
    forall c :: c in s ==> '0' <= c <= '9'
  }

  lemma {:induction false} FixedIsDigits(n: nat, width: nat)
    ensures AllDigits(Fixed(n, width))
  {
    if width > 0 {
      FixedIsDigits(n / 10, width - 1);
    }
  }

  lemma {:induction false} FixedZero(width: nat)
    ensures Fixed(0, width) == Zeros(width)
  {
    if width > 0 {
      FixedZero(width - 1);
    }
  }

  lemma {:induction false} DigitsAreFixed(n: nat, width: nat)
    requires width > 0 && n < Pow10(width)
    ensures |Digits(n)| <= width && Zeros(width - |Digits(n)|) + Digits(n) == Fixed(n, width)
  {
    if n < 10 {
      FixedZero(width - 1);
    } else {
      assert width > 1;
      DigitsAreFixed(n / 10, width - 1);
      assert Zeros(width - |Digits(n)|) + Digits(n) == Zeros(width - 1 - |Digits(n / 10)|) + Digits(n / 10) + [Digit(n)];
    }
  }

  lemma {:induction false} DigitsLong(n: nat, width: nat)
    requires n >= Pow10(width)
    ensures |Digits(n)| > width
    decreases width
  {
    if width > 0 {
      DigitsLong(n / 10, width - 1);
      PowPositive(width - 1);
    }
  }

  lemma {:induction false} PowPositive(k: nat)
    ensures Pow10(k) >= 1
  {
    if k > 0 {
      PowPositive(k - 1);
    }
  }

  /** One number of the text, in its digits, with what follows it. */
  datatype Part = Part(value: nat, width: nat, sep: char)

  function Joined(parts: seq<Part>): string {
    if parts == [] then [] else Fixed(parts[0].value, parts[0].width) + [parts[0].sep] + Joined(parts[1..])
  }

  function PartsOf(f: Fields): seq<Part>
    requires ValidDate(f) && ValidTime(f) && 0 <= f.year <= 9999
  {
    [Part(f.year, 4, '-'), Part(f.month, 2, '-'), Part(f.day, 2, 'T'), Part(f.hour, 2, ':'), Part(f.minute, 2, ':'),
     Part(f.second, 2, '.'), Part(f.millis, 3, 'Z')]
  }

  predicate SameShape(p: seq<Part>, q: seq<Part>) {
    |p| == |q| && forall k :: 0 <= k < |p| ==> p[k].width == q[k].width && p[k].sep == q[k].sep
  }

  predicate Fit(p: seq<Part>) {
    forall k :: 0 <= k < |p| ==> p[k].width > 0 && p[k].value < Pow10(p[k].width)
  }

  predicate PartsLess(p: seq<Part>, q: seq<Part>)
    requires |p| == |q|
  {
    p != [] && (p[0].value < q[0].value || (p[0].value == q[0].value && PartsLess(p[1..], q[1..])))
  }

  /** The order of text: character by character. */
  predicate LexLess(a: string, b: string) {
    b != [] && (a == [] || a[0] < b[0] || (a[0] == b[0] && LexLess(a[1..], b[1..])))
  }

  lemma {:induction false} LexAsymmetric(a: string, b: string)
    requires LexLess(a, b)
    ensures !LexLess(b, a)
  {
    if a != [] && a[0] == b[0] {
      LexAsymmetric(a[1..], b[1..]);
    }
  }

  lemma {:induction false} LexHead(a: string, b: string, c: string, d: string)
    requires |a| == |b| && LexLess(a, b)
    ensures LexLess(a + c, b + d)
  {
    assert (a + c)[1..] == a[1..] + c && (b + d)[1..] == b[1..] + d;
    if a[0] == b[0] {
      LexHead(a[1..], b[1..], c, d);
    }
  }

  lemma {:induction false} LexTail(a: string, c: string, d: string)
    requires LexLess(c, d)
    ensures LexLess(a + c, a + d)
  {
    if a == [] {
      assert a + c == c && a + d == d;
    } else {
      assert (a + c)[1..] == a[1..] + c && (a + d)[1..] == a[1..] + d;
      LexTail(a[1..], c, d);
    }
  }

  lemma {:induction false} FixedKeepsOrder(n: nat, m: nat, width: nat)
    requires n < m < Pow10(width)
    ensures LexLess(Fixed(n, width), Fixed(m, width))
  {
    if n / 10 < m / 10 {
      FixedKeepsOrder(n / 10, m / 10, width - 1);
      LexHead(Fixed(n / 10, width - 1), Fixed(m / 10, width - 1), [Digit(n)], [Digit(m)]);
    } else {
      assert n / 10 == m / 10 && n % 10 < m % 10;
      assert Digit(n) < Digit(m);
      LexTail(Fixed(n / 10, width - 1), [Digit(n)], [Digit(m)]);
    }
  }

  lemma {:induction false} PartsKeepOrder(p: seq<Part>, q: seq<Part>)
    requires SameShape(p, q) && Fit(p) && Fit(q) && PartsLess(p, q)
    ensures LexLess(Joined(p), Joined(q))
  {
    var (a, b) := (Fixed(p[0].value, p[0].width), Fixed(q[0].value, q[0].width));
    var (c, d) := ([p[0].sep] + Joined(p[1..]), [q[0].sep] + Joined(q[1..]));
    assert Joined(p) == a + c && Joined(q) == b + d;
    if p[0].value < q[0].value {
      FixedKeepsOrder(p[0].value, q[0].value, p[0].width);
      LexHead(a, b, c, d);
    } else {
      PartsKeepOrder(p[1..], q[1..]);
      LexTail([p[0].sep], Joined(p[1..]), Joined(q[1..]));
      LexTail(a, c, d);
    }
  }

  lemma {:induction false} SlotIs(p: Part)
    requires p.width > 0 && p.value < Pow10(p.width)
    ensures Slot(p.value, p.width, p.sep) == Fixed(p.value, p.width) + [p.sep]
  {
    DigitsAreFixed(p.value, p.width);
  }

  lemma {:induction false} PartsFit(f: Fields)
    requires ValidDate(f) && ValidTime(f) && 0 <= f.year <= 9999
    ensures Fit(PartsOf(f))
  {
    assert Pow10(2) == 100 && Pow10(3) == 1000 && Pow10(4) == 10000;
  }

  lemma {:induction false} TextIsParts(f: Fields)
    requires ValidDate(f) && ValidTime(f) && 0 <= f.year <= 9999
    ensures TextOf(f) == Joined(PartsOf(f)) && Fit(PartsOf(f))
  {
    PartsFit(f);
    var p := PartsOf(f);
    forall k | 0 <= k < 7 ensures Slot(p[k].value, p[k].width, p[k].sep) == Text(p, k) {
      SlotIs(p[k]);
    }
    JoinedOfSeven(p);
  }

  lemma {:induction false} JoinedOfSeven(p: seq<Part>)
    requires |p| == 7
    ensures Joined(p) == Text(p, 0) + (Text(p, 1) + (Text(p, 2) + (Text(p, 3) + (Text(p, 4) + (Text(p, 5) + Text(p, 6))))))
  {
    assert Joined(p[6..]) == Text(p, 6) by { assert p[6..][1..] == []; }
    assert Joined(p[5..]) == Text(p, 5) + Joined(p[6..]) by { assert p[5..][1..] == p[6..]; }
    assert Joined(p[4..]) == Text(p, 4) + Joined(p[5..]) by { assert p[4..][1..] == p[5..]; }
    assert Joined(p[3..]) == Text(p, 3) + Joined(p[4..]) by { assert p[3..][1..] == p[4..]; }
    assert Joined(p[2..]) == Text(p, 2) + Joined(p[3..]) by { assert p[2..][1..] == p[3..]; }
    assert Joined(p[1..]) == Text(p, 1) + Joined(p[2..]) by { assert p[1..][1..] == p[2..]; }
  }

  function Text(p: seq<Part>, k: nat): string
    requires k < |p|
  {
    Fixed(p[k].value, p[k].width) + [p[k].sep]
  }

  // ----- what the text is good for -----

  /** The form of section 5.6 of RFC 3339, in UTC, to the millisecond. */
  predicate Shaped(s: string) {
    && |s| == 24
    && s[4] == '-' && s[7] == '-' && s[10] == 'T' && s[13] == ':' && s[16] == ':' && s[19] == '.' && s[23] == 'Z'
    && AllDigits(s[0..4]) && AllDigits(s[5..7]) && AllDigits(s[8..10])
    && AllDigits(s[11..13]) && AllDigits(s[14..16]) && AllDigits(s[17..19]) && AllDigits(s[20..23])
  }

  lemma {:induction false} SevenAreShaped(p: seq<Part>)
    requires |p| == 7 && p[0].width == 4 && p[6].width == 3 && forall k :: 0 < k < 6 ==> p[k].width == 2
    requires p[0].sep == '-' && p[1].sep == '-' && p[2].sep == 'T' && p[3].sep == ':' && p[4].sep == ':' && p[5].sep == '.' && p[6].sep == 'Z'
    ensures Shaped(Joined(p))
  {
    JoinedOfSeven(p);
    forall k | 0 <= k < 7 ensures AllDigits(Fixed(p[k].value, p[k].width)) {
      FixedIsDigits(p[k].value, p[k].width);
    }
    SlotsAreShaped(Joined(p), Fixed(p[0].value, 4), Fixed(p[1].value, 2), Fixed(p[2].value, 2), Fixed(p[3].value, 2),
                   Fixed(p[4].value, 2), Fixed(p[5].value, 2), Fixed(p[6].value, 3));
  }

  lemma {:induction false} SlotsAreShaped(s: string, a: string, b: string, c: string, d: string, e: string, f: string, g: string)
    requires |a| == 4 && |b| == |c| == |d| == |e| == |f| == 2 && |g| == 3
    requires AllDigits(a) && AllDigits(b) && AllDigits(c) && AllDigits(d) && AllDigits(e) && AllDigits(f) && AllDigits(g)
    requires s == (a + ['-']) + ((b + ['-']) + ((c + ['T']) + ((d + [':']) + ((e + [':']) + ((f + ['.']) + (g + ['Z']))))))
    ensures Shaped(s)
  {
    assert s[0..4] == a && s[5..7] == b && s[8..10] == c && s[11..13] == d && s[14..16] == e && s[17..19] == f && s[20..23] == g;
  }

  const Y0: int := -62_167_219_200_000
  const Y10K: int := 253_402_300_800_000

  /** The first instant of a year. */
  lemma {:induction false} FirstInstant(year: int, days: int)
    requires days == YearStart(year)
    ensures Instant(Fields(year, 1, 1, 0, 0, 0, 0)) == days * DAY_MS
  {
    FirstDay(year);
    AtMidnight(Fields(year, 1, 1, 0, 0, 0, 0), days);
  }

  lemma {:induction false} FirstDay(year: int)
    ensures DayNumber(Fields(year, 1, 1, 0, 0, 0, 0)) == YearStart(year)
  {
    assert MonthStart(year, 1) == 0;
  }

  lemma {:induction false} AtMidnight(f: Fields, days: int)
    requires f.hour == 0 && f.minute == 0 && f.second == 0 && f.millis == 0 && DayNumber(f) == days
    ensures Instant(f) == days * DAY_MS
  {
  }

  lemma {:induction false} FirstOfItsYear(f: Fields, first: Fields)
    requires ValidDate(f) && ValidTime(f) && first == Fields(first.year, 1, 1, 0, 0, 0, 0)
    ensures Earlier(f, first) <==> f.year < first.year
    ensures ValidDate(first) && ValidTime(first)
  {
  }

  lemma {:induction false} YearBelow(f: Fields, year: int, days: int)
    requires ValidDate(f) && ValidTime(f) && days == 365 * (year - 1970) + LeapsTo(year - 1) - 477
    ensures f.year < year <==> Instant(f) < days * DAY_MS
  {
    var first := Fields(year, 1, 1, 0, 0, 0, 0);
    FirstOfItsYear(f, first);
    EarlierExactly(f, first);
    YearStartIs(year);
    FirstInstant(year, days);
  }

  lemma {:induction false} YearsInFourDigits(ms: int, f: Fields)
    requires ValidDate(f) && ValidTime(f) && Instant(f) == ms
    ensures 0 <= f.year <= 9999 <==> Y0 <= ms < Y10K
  {
    YearBelow(f, 0, -719_528);
    YearBelow(f, 10000, 2_932_897);
  }

  /** The text has the form of RFC 3339 exactly for the instants of the years that form can write, 0000
      to 9999. */
  lemma {:induction false} ShapedExactly(ms: int)
    ensures Shaped(Rfc3339(ms)) <==> Y0 <= ms < Y10K
  {
    FieldsAreTheInstant(ms);
    YearsInFourDigits(ms, FieldsOf(ms));
    TextShapedExactly(FieldsOf(ms));
  }

  lemma {:induction false} TextShapedExactly(f: Fields)
    requires ValidDate(f) && ValidTime(f)
    ensures Shaped(TextOf(f)) <==> 0 <= f.year <= 9999
  {
    if 0 <= f.year <= 9999 {
      TextIsParts(f);
      SevenAreShaped(PartsOf(f));
    } else if f.year < 0 {
      SignIsNoDigit(f);
    } else {
      assert Pow10(4) == 10000;
      DigitsLong(f.year, 4);
      LongTail(f);
    }
  }

  lemma {:induction false} SignIsNoDigit(f: Fields)
    requires f.year < 0
    ensures !Shaped(TextOf(f))
  {
    var s := TextOf(f);
    assert Padded(f.year, 4)[0] == '-';
    assert Slot(f.year, 4, '-')[0] == '-';
    assert s[0] == '-';
    if |s| == 24 {
      assert s[0..4][0] == '-';
      assert '-' in s[0..4];
    }
  }

  lemma {:induction false} LongTail(f: Fields)
    requires |Padded(f.year, 4)| > 4
    requires ValidDate(f) && ValidTime(f)
    ensures |TextOf(f)| > 24
  {
    PaddedLength(f.month, 2);
    PaddedLength(f.day, 2);
    PaddedLength(f.hour, 2);
    PaddedLength(f.minute, 2);
    PaddedLength(f.second, 2);
    PaddedLength(f.millis, 3);
  }

  lemma {:induction false} PaddedLength(n: nat, width: nat)
    ensures |Padded(n, width)| >= width
  {
  }

  lemma {:induction false} EarlierIsParts(f: Fields, g: Fields)
    requires ValidDate(f) && ValidTime(f) && 0 <= f.year <= 9999 && ValidDate(g) && ValidTime(g) && 0 <= g.year <= 9999
    ensures SameShape(PartsOf(f), PartsOf(g)) && (Earlier(f, g) <==> PartsLess(PartsOf(f), PartsOf(g)))
  {
    var (p, q) := (PartsOf(f), PartsOf(g));
    LessFrom(p, q, 6);
    LessFrom(p, q, 5);
    LessFrom(p, q, 4);
    LessFrom(p, q, 3);
    assert PartsLess(p[3..], q[3..]) <==> EarlierTime(f, g);
    LessFrom(p, q, 2);
    LessFrom(p, q, 1);
    LessFrom(p, q, 0);
    assert p[0..] == p && q[0..] == q;
  }

  lemma {:induction false} LessFrom(p: seq<Part>, q: seq<Part>, k: nat)
    requires |p| == |q| && k < |p|
    ensures PartsLess(p[k..], q[k..]) <==>
            p[k].value < q[k].value || (p[k].value == q[k].value && k + 1 < |p| && PartsLess(p[k + 1..], q[k + 1..]))
  {
    assert p[k..][1..] == p[k + 1..] && q[k..][1..] == q[k + 1..];
  }

  /** Within those years the text sorts as the instants do, and so no two instants have the same. */
  lemma {:induction false} TextKeepsOrder(a: int, b: int)
    requires Y0 <= a < Y10K && Y0 <= b < Y10K
    ensures LexLess(Rfc3339(a), Rfc3339(b)) <==> a < b
  {
    if a < b {
      EarlierTextIsLess(a, b);
    } else if LexLess(Rfc3339(a), Rfc3339(b)) {
      LexAsymmetric(Rfc3339(a), Rfc3339(b));
      if b < a {
        EarlierTextIsLess(b, a);
      }
    }
  }

  lemma {:induction false} EarlierTextIsLess(a: int, b: int)
    requires Y0 <= a < b < Y10K
    ensures LexLess(Rfc3339(a), Rfc3339(b))
  {
    FieldsKeepOrder(a, b);
    FieldsAreTheInstant(a);
    FieldsAreTheInstant(b);
    YearsInFourDigits(a, FieldsOf(a));
    YearsInFourDigits(b, FieldsOf(b));
    TextIsParts(FieldsOf(a));
    TextIsParts(FieldsOf(b));
    EarlierIsParts(FieldsOf(a), FieldsOf(b));
    PartsKeepOrder(PartsOf(FieldsOf(a)), PartsOf(FieldsOf(b)));
  }

  /** Past them it does not: the first instant of the year 10000 sorts before the one it follows. */
  lemma {:induction false} TextOrderEndsWith9999()
    ensures LexLess(Rfc3339(Y10K), Rfc3339(Y10K - 1))
  {
    var (f, g) := (Fields(10000, 1, 1, 0, 0, 0, 0), Fields(9999, 12, 31, 23, 59, 59, 999));
    Y10KIs(f, g);
    FieldsAreUnique(f);
    FieldsAreUnique(g);
    FirstCharacters(f, g);
  }

  lemma {:induction false} Y10KIs(f: Fields, g: Fields)
    requires f == Fields(10000, 1, 1, 0, 0, 0, 0) && g == Fields(9999, 12, 31, 23, 59, 59, 999)
    ensures Instant(f) == Y10K && Instant(g) == Y10K - 1
  {
    YearStartIs(10000);
    YearStartIs(9999);
    assert YearStart(10000) == 2_932_897 && YearStart(9999) == 2_932_532;
    MonthStarts(9999);
    assert DayNumber(g) == 2_932_896;
    assert MonthStart(10000, 1) == 0 && DayNumber(f) == 2_932_897;
  }

  lemma {:induction false} FirstCharacters(f: Fields, g: Fields)
    requires f.year == 10000 && g.year == 9999
    ensures LexLess(TextOf(f), TextOf(g))
  {
    FirstDigits();
    assert TextOf(f)[0] == '1' && TextOf(g)[0] == '9';
  }

  lemma {:induction false} FirstDigits()
    ensures Slot(10000, 4, '-')[0] == '1' && Slot(9999, 4, '-')[0] == '9'
  {
    assert Digits(100) == Digits(10) + [Digit(100)] == Digits(1) + [Digit(10)] + [Digit(100)];
    assert Digits(10000) == Digits(1000) + [Digit(10000)] == Digits(100) + [Digit(1000)] + [Digit(10000)];
    assert |Digits(10000)| == 5 && Digits(10000)[0] == '1';
    assert Digits(999) == Digits(99) + [Digit(999)] == Digits(9) + [Digit(99)] + [Digit(999)];
    assert |Digits(9999)| == 4 && Digits(9999)[0] == '9';
  }
}
