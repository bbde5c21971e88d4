/**
 * Calendar dates as Python's `datetime` module counts them (the proleptic
 * Gregorian calendar, years 1 to 9999, day 1 being 0001-01-01), the
 * `YYYY-MM-DD` text form that `str(date)` and `strftime('%Y-%m-%d')` write,
 * and the ISO date-time strings the pipeline feeds to dateutil's `parse`.
 */
module Dates {
  import opened Py

  predicate IsLeap(y: int) {
    y % 4 == 0 && (y % 100 != 0 || y % 400 == 0)
  }

  function DaysInMonth(y: int, m: int): int
    requires 1 <= m <= 12
  {
    if m == 2 then (if IsLeap(y) then 29 else 28)
    else if m == 4 || m == 6 || m == 9 || m == 11 then 30
    else 31
  }

  function DaysInYear(y: int): int {
    if IsLeap(y) then 366 else 365
  }

  datatype Date = Date(year: int, month: int, day: int)

  /** The dates `datetime.date` can represent. */
  predicate ValidDate(d: Date) {
    1 <= d.year <= 9999 && 1 <= d.month <= 12 && 1 <= d.day <= DaysInMonth(d.year, d.month)
  }

  /** `datetime.MAXORDINAL`: the ordinal of 9999-12-31. */
  const MaxOrdinal: int := 3652059

  /** Days in the years before `y`. */
  function DaysBeforeYear(y: int): int
    requires y >= 1
  {
    var y1 := y - 1;
    y1 * 365 + y1 / 4 - y1 / 100 + y1 / 400
  }

  /** Days in the months of year `y` before month `m`; month 13 stands for the end of the year. */
  function DaysBeforeMonth(y: int, m: int): int
    requires 1 <= m <= 13
    decreases m
  {
    if m == 1 then 0 else DaysBeforeMonth(y, m - 1) + DaysInMonth(y, m - 1)
  }

  /** `date.toordinal()` */
  function ToOrdinal(d: Date): int
    requires ValidDate(d)
  {
    DaysBeforeYear(d.year) + DaysBeforeMonth(d.year, d.month) + d.day
  }

  lemma DaysBeforeYearStep(y: int)
    requires y >= 1
    ensures DaysBeforeYear(y + 1) == DaysBeforeYear(y) + DaysInYear(y)
  {
    var a := y - 1;
    DivStep(a, 4);
    DivStep(a, 100);
    DivStep(a, 400);
    LeapDivisors(y);
    var d4 := if y % 4 == 0 then 1 else 0;
    var d100 := if y % 100 == 0 then 1 else 0;
    var d400 := if y % 400 == 0 then 1 else 0;
    assert DaysBeforeYear(y + 1) == DaysBeforeYear(y) + 365 + d4 - d100 + d400;
  }

  lemma LeapDivisors(y: int)
    ensures y % 400 == 0 ==> y % 100 == 0
    ensures y % 100 == 0 ==> y % 4 == 0
  {
    if y % 400 == 0 {
      var q := y / 400;
      assert y == 100 * (4 * q);
      HundredsMod(4 * q);
    }
    if y % 100 == 0 {
      var q := y / 100;
      assert y == 4 * (25 * q);
      FoursMod(25 * q);
    }
  }

  lemma HundredsMod(a: int)
    ensures (100 * a) % 100 == 0
  {
  }

  lemma FoursMod(a: int)
    ensures (4 * a) % 4 == 0
  {
  }

  lemma DivStep(a: int, k: int)
    requires a >= 0 && (k == 4 || k == 100 || k == 400)
    ensures (a + 1) / k == a / k + (if (a + 1) % k == 0 then 1 else 0)
  {
  }

  lemma MonthsFillYear(y: int)
    ensures DaysBeforeMonth(y, 13) == DaysInYear(y)
  {
  }

  lemma LastYearEnd()
    ensures DaysBeforeYear(10000) == MaxOrdinal
  {
  }

  /** The year, from `y` on, whose days hold ordinal `n`. */
  function YearOf(n: int, y: int): (r: int)
    requires 1 <= y <= 9999 && DaysBeforeYear(y) < n <= MaxOrdinal
    ensures y <= r <= 9999 && DaysBeforeYear(r) < n <= DaysBeforeYear(r) + DaysInYear(r)
    decreases 9999 - y
  {
    DaysBeforeYearStep(y);
    LastYearEnd();
    if n <= DaysBeforeYear(y + 1) then y else YearOf(n, y + 1)
  }

  /** The month, from `m` on, whose days hold day `r` of year `y`. */
  function MonthOf(y: int, r: int, m: int): (res: int)
    requires 1 <= m <= 12 && DaysBeforeMonth(y, m) < r <= DaysInYear(y)
    ensures m <= res <= 12 && DaysBeforeMonth(y, res) < r <= DaysBeforeMonth(y, res) + DaysInMonth(y, res)
    decreases 12 - m
  {
    MonthsFillYear(y);
    if r <= DaysBeforeMonth(y, m + 1) then m else MonthOf(y, r, m + 1)
  }

  /** `date.fromordinal(n)`: the valid date whose ordinal is `n`. */
  function FromOrdinal(n: int): (d: Date)
    requires 1 <= n <= MaxOrdinal
    ensures ValidDate(d) && ToOrdinal(d) == n
  {
    assert DaysBeforeYear(1) == 0;
    var y := YearOf(n, 1);
    var r := n - DaysBeforeYear(y);
    var m := MonthOf(y, r, 1);
    Date(y, m, r - DaysBeforeMonth(y, m))
  }

  /** `date.isoweekday()` of the date with ordinal `n`: Monday is 1, Sunday is 7 (day 1 was a Monday). */
  function IsoWeekday(n: int): (w: int)
    ensures 1 <= w <= 7 && (w - n) % 7 == 0
  {
    if n % 7 == 0 then 7 else n % 7
  }

  /** `date + timedelta(days=k)` on ordinals, with the OverflowError of a result outside years 1 to 9999. */
  function AddDays(n: int, k: int): (r: Result<int>)
    ensures r.Ok? <==> 1 <= n + k <= MaxOrdinal
    ensures r.Ok? ==> r.value == n + k
    ensures r.Err? ==> r.exc == Exc(OverflowError, "date value out of range")
  {
    if 1 <= n + k <= MaxOrdinal then Ok(n + k) else Err(Exc(OverflowError, "date value out of range"))
  }

  // ---------------------------------------------------------------------------
  // Text forms

  /** `n` as exactly two decimal digits. */
  function Digits2(n: int): (s: string)
    requires 0 <= n < 100
    ensures |s| == 2 && IsDigits(s) && Read2(s) == n
  {
    [DigitChar(n / 10), DigitChar(n % 10)]
  }

  /** `n` as exactly four decimal digits. */
  function Digits4(n: int): (s: string)
    requires 0 <= n < 10000
    ensures |s| == 4 && IsDigits(s) && Read4(s) == n
  {
    var s := Digits2(n / 100) + Digits2(n % 100);
    assert s[..2] == Digits2(n / 100) && s[2..] == Digits2(n % 100);
    s
  }

  predicate IsDigits(s: string) {
    forall i :: 0 <= i < |s| ==> '0' <= s[i] <= '9'
  }

  function DigitValue(c: char): int {
    c as int - '0' as int
  }

  /** The number two decimal digits spell. */
  function Read2(s: string): int
    requires |s| == 2
  {
    10 * DigitValue(s[0]) + DigitValue(s[1])
  }

  /** The number four decimal digits spell. */
  function Read4(s: string): int
    requires |s| == 4
  {
    100 * Read2(s[..2]) + Read2(s[2..])
  }

  /** Two digits read back to the number they spell and are written again unchanged. */
  lemma Digits2Read(s: string)
    requires |s| == 2 && IsDigits(s)
    ensures 0 <= Read2(s) < 100 && Digits2(Read2(s)) == s
  {
    var n := Read2(s);
    assert n / 10 == DigitValue(s[0]) && n % 10 == DigitValue(s[1]);
  }

  lemma Digits4Read(s: string)
    requires |s| == 4 && IsDigits(s)
    ensures 0 <= Read4(s) < 10000 && Digits4(Read4(s)) == s
  {
    var hi, lo := s[..2], s[2..];
    Digits2Read(hi);
    Digits2Read(lo);
    var n := Read4(s);
    assert n / 100 == Read2(hi) && n % 100 == Read2(lo);
    assert s == hi + lo;
  }

  /** `str(date)` and `date.strftime('%Y-%m-%d')` for years 1000 to 9999. */
  function FormatDate(d: Date): (s: string)
    requires ValidDate(d)
    ensures |s| == 10 && s[4] == '-' && s[7] == '-'
  {
    Digits4(d.year) + "-" + Digits2(d.month) + "-" + Digits2(d.day)
  }

  /** A naive date-time at whole seconds, as dateutil returns for the ISO strings the model accepts. */
  datatype DateTime = DateTime(date: Date, hour: int, minute: int, second: int)

  predicate ValidDateTime(t: DateTime) {
    ValidDate(t.date) && 0 <= t.hour < 24 && 0 <= t.minute < 60 && 0 <= t.second < 60
  }

  /** The positions of the text form that hold digits. */
  predicate DigitsAt(s: string, lo: nat, hi: nat) {
    lo <= hi <= |s| && IsDigits(s[lo..hi])
  }

  /** `YYYY-MM-DD`, optionally followed by `T` or a space and `HH:MM` or `HH:MM:SS`. */
  predicate IsoShape(s: string) {
    && (|s| == 10 || |s| == 16 || |s| == 19)
    && DigitsAt(s, 0, 4) && s[4] == '-' && DigitsAt(s, 5, 7) && s[7] == '-' && DigitsAt(s, 8, 10)
    && (|s| > 10 ==> (s[10] == 'T' || s[10] == ' ') && DigitsAt(s, 11, 13) && s[13] == ':' && DigitsAt(s, 14, 16))
    && (|s| > 16 ==> s[16] == ':' && DigitsAt(s, 17, 19))
  }

  /** The fields an ISO-shaped string spells, whether or not they make a valid date-time. */
  function IsoFields(s: string): DateTime
    requires IsoShape(s)
  {
    var date := Date(Read4(s[0..4]), Read2(s[5..7]), Read2(s[8..10]));
    var hour := if |s| > 10 then Read2(s[11..13]) else 0;
    var minute := if |s| > 10 then Read2(s[14..16]) else 0;
    var second := if |s| > 16 then Read2(s[17..19]) else 0;
    DateTime(date, hour, minute, second)
  }

  /**
   * dateutil's `parse(v)` within the model: a string of ISO shape naming a
   * valid date-time from year 1000 on parses to that date-time; a value that
   * is not a string raises dateutil's TypeError; any other string is a form
   * the model does not follow.
   */
  function ParseDate(v: Value): (r: Result<DateTime>)
    ensures r.Ok? ==> v.Str? && IsoShape(v.s) && r.value == IsoFields(v.s)
    ensures r.Ok? ==> ValidDateTime(r.value) && r.value.date.year >= 1000
    ensures !v.Str? ==> r == Err(Exc(TypeError, "Parser must be a string or character stream, not " + TypeName(v)))
  {
    match v
    case Str(s) =>
      if IsoShape(s) && ValidDateTime(IsoFields(s)) && IsoFields(s).date.year >= 1000 then Ok(IsoFields(s))
      else Err(Exc(OutOfModel, "date string outside the ISO forms: " + s))
    case _ => Err(Exc(TypeError, "Parser must be a string or character stream, not " + TypeName(v)))
  }

  /** A formatted date parses back to midnight of that date. */
  lemma ParseFormatDate(d: Date)
    requires ValidDate(d) && d.year >= 1000
    ensures ParseDate(Str(FormatDate(d))) == Ok(DateTime(d, 0, 0, 0))
  {
    var s := FormatDate(d);
    assert s[0..4] == Digits4(d.year);
    assert s[5..7] == Digits2(d.month);
    assert s[8..10] == Digits2(d.day);
  }

  /** Formatting a parsed date gives back the string's leading `YYYY-MM-DD`. */
  lemma FormatParsedDate(v: Value)
    requires ParseDate(v).Ok?
    ensures FormatDate(ParseDate(v).value.date) == v.s[..10]
  {
    var s := v.s;
    var d := ParseDate(v).value.date;
    Digits4Read(s[0..4]);
    Digits2Read(s[5..7]);
    Digits2Read(s[8..10]);
    assert s[..10] == s[0..4] + "-" + s[5..7] + "-" + s[8..10];
  }

  // ---------------------------------------------------------------------------
  // Ordering, as Python compares naive date-times

  function Fields(t: DateTime): seq<int> {
    [t.date.year, t.date.month, t.date.day, t.hour, t.minute, t.second]
  }

  predicate LexLess(a: seq<int>, b: seq<int>)
    requires |a| == |b|
  {
    |a| > 0 && (a[0] < b[0] || (a[0] == b[0] && LexLess(a[1..], b[1..])))
  }

  predicate Before(a: DateTime, b: DateTime) {
    LexLess(Fields(a), Fields(b))
  }

  lemma LexTotal(a: seq<int>, b: seq<int>)
    requires |a| == |b|
    ensures LexLess(a, b) || a == b || LexLess(b, a)
  {
    if |a| > 0 && a[0] == b[0] {
      LexTotal(a[1..], b[1..]);
      if a[1..] == b[1..] {
        assert a == [a[0]] + a[1..] && b == [b[0]] + b[1..];
      }
    }
  }

  lemma LexTransitive(a: seq<int>, b: seq<int>, c: seq<int>)
    requires |a| == |b| == |c| && LexLess(a, b) && LexLess(b, c)
    ensures LexLess(a, c)
  {
  }

  lemma LexIrreflexive(a: seq<int>)
    ensures !LexLess(a, a)
  {
  }

  lemma LexAsymmetric(a: seq<int>, b: seq<int>)
    requires |a| == |b| && LexLess(a, b)
    ensures !LexLess(b, a)
  {
    if LexLess(b, a) {
      LexTransitive(a, b, a);
      LexIrreflexive(a);
    }
  }

  /** "Not before" is transitive: it is the order `<=` of Python's date-times. */
  lemma NotBeforeTransitive(a: DateTime, b: DateTime, c: DateTime)
    requires !Before(a, b) && !Before(b, c)
    ensures !Before(a, c)
  {
    var fa, fb, fc := Fields(a), Fields(b), Fields(c);
    LexTotal(fa, fb);
    LexTotal(fb, fc);
    if fb != fa && fc != fb {
      LexTransitive(fc, fb, fa);
      LexAsymmetric(fc, fa);
    } else if fb != fa {
      LexAsymmetric(fb, fa);
    } else if fc != fb {
      LexAsymmetric(fc, fb);
    } else {
      LexIrreflexive(fa);
    }
  }

  /** `a <= b` on calendar dates. */
  predicate NotLater(a: Date, b: Date) {
    a.year < b.year || (a.year == b.year && (a.month < b.month || (a.month == b.month && a.day <= b.day)))
  }

  /** A date-time no earlier than another falls on a date no earlier than the other's. */
  lemma NotBeforeDates(a: DateTime, b: DateTime)
    requires !Before(b, a)
    ensures NotLater(a.date, b.date)
  {
    var fa, fb := Fields(a), Fields(b);
    LexTotal(fa, fb);
    if LexLess(fa, fb) {
      if fa[0] == fb[0] {
        var ga, gb := fa[1..], fb[1..];
        assert LexLess(ga, gb);
        assert ga[0] == a.date.month && gb[0] == b.date.month;
        if ga[0] == gb[0] {
          assert LexLess(ga[1..], gb[1..]);
          assert ga[1..][0] == a.date.day && gb[1..][0] == b.date.day;
        }
      }
    } else {
      assert fa[0] == fb[0] && fa[1] == fb[1] && fa[2] == fb[2];
    }
  }

  /** `min(ts)`: an element no element is before. */
  function Earliest(ts: seq<DateTime>): (t: DateTime)
    requires |ts| > 0
    ensures t in ts && forall i :: 0 <= i < |ts| ==> !Before(ts[i], t)
  {
    LexIrreflexive(Fields(ts[0]));
    if |ts| == 1 then ts[0]
    else
      var rest := Earliest(ts[1..]);
      forall i | 1 <= i < |ts| ensures !Before(ts[i], rest) {
        assert ts[i] == ts[1..][i - 1];
      }
      assert rest in ts;
      LexIrreflexive(Fields(ts[0]));
      if Before(rest, ts[0]) then
        LexAsymmetric(Fields(rest), Fields(ts[0]));
        rest
      else
        forall i | 1 <= i < |ts| ensures !Before(ts[i], ts[0]) {
          NotBeforeTransitive(ts[i], rest, ts[0]);
        }
        ts[0]
  }

  /** `max(ts)`: an element before no element. */
  function Latest(ts: seq<DateTime>): (t: DateTime)
    requires |ts| > 0
    ensures t in ts && forall i :: 0 <= i < |ts| ==> !Before(t, ts[i])
  {
    LexIrreflexive(Fields(ts[0]));
    if |ts| == 1 then ts[0]
    else
      var rest := Latest(ts[1..]);
      forall i | 1 <= i < |ts| ensures !Before(rest, ts[i]) {
        assert ts[i] == ts[1..][i - 1];
      }
      assert rest in ts;
      LexIrreflexive(Fields(ts[0]));
      if Before(ts[0], rest) then
        LexAsymmetric(Fields(ts[0]), Fields(rest));
        rest
      else
        forall i | 1 <= i < |ts| ensures !Before(ts[0], ts[i]) {
          NotBeforeTransitive(ts[0], rest, ts[i]);
        }
        ts[0]
  }

  // ---------------------------------------------------------------------------
  // Instants: aware UTC date-times, as microseconds since 1970-01-01T00:00:00+00:00

  const MicrosPerSecond: int := 1000000
  const MicrosPerDay: int := 86400000000
  /** `date(1970, 1, 1).toordinal()` */
  const EpochOrdinal: int := 719163

  /** The ordinal of the day an instant falls on. */
  function DayOrdinal(t: int): int {
    EpochOrdinal + t / MicrosPerDay
  }

  /** Instants a `datetime` can hold: between 0001-01-01 and 9999-12-31. */
  predicate ValidInstant(t: int) {
    1 <= DayOrdinal(t) <= MaxOrdinal
  }

  /** `int(x)` of the float `t / 10**6`: truncation toward zero, unlike Dafny's Euclidean `/`. */
  function TruncSeconds(t: int): (s: int)
    ensures t >= 0 ==> s * MicrosPerSecond <= t < (s + 1) * MicrosPerSecond
    ensures t < 0 ==> (s - 1) * MicrosPerSecond < t <= s * MicrosPerSecond
  {
    if t >= 0 then t / MicrosPerSecond else -((-t) / MicrosPerSecond)
  }

  /** `n` as exactly six decimal digits. */
  function Digits6(n: int): (s: string)
    requires 0 <= n < 1000000
    ensures |s| == 6 && IsDigits(s)
  {
    Digits2(n / 10000) + Digits2(n / 100 % 100) + Digits2(n % 100)
  }

  /** `datetime.isoformat()` of an aware UTC date-time: the fraction is written only when it is not zero. */
  function IsoUtc(t: int): (s: string)
    requires ValidInstant(t)
    ensures |s| >= 25 && s[..10] == FormatDate(FromOrdinal(DayOrdinal(t))) && s[10] == 'T'
    ensures s[|s| - 6..] == "+00:00"
  {
    var date := FormatDate(FromOrdinal(DayOrdinal(t)));
    var micro := t % MicrosPerSecond;
    var fraction := if micro == 0 then "" else "." + Digits6(micro);
    var tail := "T" + Clock(t) + fraction + "+00:00";
    assert tail[0] == 'T' && tail[|tail| - 6..] == "+00:00";
    date + tail
  }

  /** `HH:MM:SS` of the instant's time of day. */
  function Clock(t: int): (s: string)
    ensures |s| == 8
  {
    Digits2(t / 3600000000 % 24) + ":" + Digits2(t / 60000000 % 60) + ":" + Digits2(t / MicrosPerSecond % 60)
  }
}
