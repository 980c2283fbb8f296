/** Civil dates and times in one fixed zone, standing in for Luxon's `DateTime`:
    the `yyyy-MM-dd` format, year addition, ordering, and the epoch instant. */
module Civil {
  import opened Wrappers
  import opened Strings

  /** Milliseconds since the epoch. */
  type Instant = int

  datatype Date = Date(year: int, month: int, day: int)

  datatype DateTime = DateTime(date: Date, hour: int, minute: int, second: int, millisecond: int)

  const MsPerSecond: int := 1000
  const MsPerMinute: int := 60 * MsPerSecond
  const MsPerHour: int := 60 * MsPerMinute
  const MsPerDay: int := 24 * MsPerHour

  predicate IsLeapYear(y: int)
  {
    y % 4 == 0 && (y % 100 != 0 || y % 400 == 0)
  }

  function DaysInMonth(y: int, m: int): (n: int)
    ensures 28 <= n <= 31
  {
    if m == 2 then (if IsLeapYear(y) then 29 else 28)
    else if m == 4 || m == 6 || m == 9 || m == 11 then 30
    else 31
  }

  predicate ValidDate(d: Date)
  {
    1 <= d.month <= 12 && 1 <= d.day <= DaysInMonth(d.year, d.month)
  }

  predicate ValidDateTime(t: DateTime)
  {
    && ValidDate(t.date)
    && 0 <= t.hour < 24 && 0 <= t.minute < 60
    && 0 <= t.second < 60 && 0 <= t.millisecond < 1000
  }

  function AtMidnight(d: Date): DateTime
  {
    DateTime(d, 0, 0, 0, 0)
  }

  /** Luxon's `padStart(n, width)`: zero-pads the magnitude and keeps the sign in front. */
  function PadNumber(n: int, width: nat): string
  {
    if n < 0 then "-" + PadStart(NatToString(-n), width, '0')
    else PadStart(NatToString(n), width, '0')
  }

  /** Luxon's `toFormat('yyyy-MM-dd')`. */
  function FormatDate(d: Date): string
  {
    PadNumber(d.year, 4) + "-" + PadNumber(d.month, 2) + "-" + PadNumber(d.day, 2)
  }

  /** Luxon's `DateTime.fromFormat(s, 'yyyy-MM-dd')`: four, two and two digits separated
      by dashes, naming a real calendar day; anything else is an invalid DateTime (None). */
  function ParseDate(s: string): (r: Option<Date>)
    ensures r.Some? ==> |s| == 10 && ValidDate(r.value) && 0 <= r.value.year < 10000
  {
    if |s| == 10 && AllDigits(s[..4]) && s[4] == '-' && AllDigits(s[5..7])
       && s[7] == '-' && AllDigits(s[8..])
    then
      DigitsValueFixed(s[..4]);
      assert Pow10(4) == 10000 by {
        assert Pow10(2) == 100;
      }
      var d := Date(DigitsValue(s[..4]), DigitsValue(s[5..7]), DigitsValue(s[8..]));
      if ValidDate(d) then Some(d) else None
    else None
  }

  /** A fixed-width field renders as its digits. */
  lemma FieldText(n: nat, k: nat)
    requires 1 <= k && n < Pow10(k)
    ensures PadNumber(n, k) == FixedDigits(n, k)
  {
    PadStartIsFixedDigits(n, k);
  }

  /** Where the fields of a 'yyyy-MM-dd' text sit. */
  lemma DateTextLayout(y: string, mo: string, dd: string)
    requires |y| == 4 && |mo| == 2 && |dd| == 2
    ensures |y + "-" + mo + "-" + dd| == 10
    ensures (y + "-" + mo + "-" + dd)[..4] == y
    ensures (y + "-" + mo + "-" + dd)[4] == '-'
    ensures (y + "-" + mo + "-" + dd)[5..7] == mo
    ensures (y + "-" + mo + "-" + dd)[7] == '-'
    ensures (y + "-" + mo + "-" + dd)[8..] == dd
  {
  }

  /** A text with dashes at 4 and 7 is its three fields joined by dashes. */
  lemma DateTextSplit(s: string)
    requires |s| == 10 && s[4] == '-' && s[7] == '-'
    ensures s == s[..4] + "-" + s[5..7] + "-" + s[8..]
  {
    assert s == s[..4] + [s[4]] + s[5..7] + [s[7]] + s[8..];
  }

  /** A field of digits, padded back to its width, is the field itself. */
  lemma FieldRoundTrip(x: string)
    requires |x| >= 1 && AllDigits(x)
    ensures PadNumber(DigitsValue(x), |x|) == x
  {
    DigitsValueFixed(x);
    FieldText(DigitsValue(x), |x|);
  }

  /** Formatting a parsed date gives back the text that was parsed. */
  lemma FormatParsedDate(s: string)
    requires ParseDate(s).Some?
    ensures FormatDate(ParseDate(s).value) == s
  {
    var d := ParseDate(s).value;
    var y, mo, dd := s[..4], s[5..7], s[8..];
    assert |y| == 4 && |mo| == 2 && |dd| == 2;
    assert d == Date(DigitsValue(y), DigitsValue(mo), DigitsValue(dd));
    FieldRoundTrip(y);
    FieldRoundTrip(mo);
    FieldRoundTrip(dd);
    DateTextSplit(s);
  }

  /** Parsing a formatted date with a four-digit year gives back the date. */
  lemma ParseFormattedDate(d: Date)
    requires ValidDate(d) && 0 <= d.year < 10000
    ensures ParseDate(FormatDate(d)) == Some(d)
  {
    assert Pow10(2) == 100;
    assert Pow10(4) == 100 * Pow10(2);
    var y, mo, dd := FixedDigits(d.year, 4), FixedDigits(d.month, 2), FixedDigits(d.day, 2);
    FieldText(d.year, 4);
    FieldText(d.month, 2);
    FieldText(d.day, 2);
    FixedDigitsValue(d.year, 4);
    FixedDigitsValue(d.month, 2);
    FixedDigitsValue(d.day, 2);
    assert FormatDate(d) == y + "-" + mo + "-" + dd;
    DateTextLayout(y, mo, dd);
  }

  /** Luxon's `plus({ years: n })`: the year moves by `n` and a day that does not exist
      in the new month (February 29 outside a leap year) is clamped to the month's last day. */
  function AddYears(t: DateTime, n: int): (r: DateTime)
    ensures r.date.year == t.date.year + n && r.date.month == t.date.month
    ensures r.hour == t.hour && r.minute == t.minute
    ensures r.second == t.second && r.millisecond == t.millisecond
    ensures ValidDateTime(t) ==> ValidDateTime(r)
    ensures ValidDate(t.date) && !(t.date.month == 2 && t.date.day == 29) ==> r.date.day == t.date.day
    ensures t.date.month == 2 && t.date.day == 29 ==>
              r.date.day == (if IsLeapYear(t.date.year + n) then 29 else 28)
  {
    var y := t.date.year + n;
    var last := DaysInMonth(y, t.date.month);
    var day := if t.date.day > last then last else t.date.day;
    t.(date := Date(y, t.date.month, day))
  }

  /** The fields of a date-time, most significant first. */
  function Fields(t: DateTime): seq<int>
  {
    [t.date.year, t.date.month, t.date.day, t.hour, t.minute, t.second, t.millisecond]
  }

  predicate LexLess(a: seq<int>, b: seq<int>)
    requires |a| == |b|
  {
    |a| > 0 && (a[0] < b[0] || (a[0] == b[0] && LexLess(a[1..], b[1..])))
  }

  /** `a < b` between DateTimes of one zone: field by field, which for valid
      records is the order of their instants. */
  predicate Before(a: DateTime, b: DateTime)
  {
    LexLess(Fields(a), Fields(b))
  }

  predicate NotAfter(a: DateTime, b: DateTime)
  {
    a == b || Before(a, b)
  }

  /** An earlier date-time never has a later year. */
  lemma NotAfterYear(a: DateTime, b: DateTime)
    requires NotAfter(a, b)
    ensures a.date.year <= b.date.year
  {
    assert Fields(a)[0] == a.date.year && Fields(b)[0] == b.date.year;
  }

  lemma {:induction false} LexLessTransitive(a: seq<int>, b: seq<int>, c: seq<int>)
    requires |a| == |b| == |c|
    requires LexLess(a, b) && LexLess(b, c)
    ensures LexLess(a, c)
  {
    if a[0] == b[0] && b[0] == c[0] {
      LexLessTransitive(a[1..], b[1..], c[1..]);
    }
  }

  lemma {:induction false} LexLessAsymmetric(a: seq<int>, b: seq<int>)
    requires |a| == |b|
    ensures !(LexLess(a, b) && LexLess(b, a))
  {
    if |a| > 0 && a[0] == b[0] {
      LexLessAsymmetric(a[1..], b[1..]);
    }
  }

  lemma {:induction false} LexLessTotal(a: seq<int>, b: seq<int>)
    requires |a| == |b|
    ensures a == b || LexLess(a, b) || LexLess(b, a)
  {
    if |a| > 0 && a[0] == b[0] {
      LexLessTotal(a[1..], b[1..]);
      if a[1..] == b[1..] {
        assert a == [a[0]] + a[1..] && b == [b[0]] + b[1..];
      }
    }
  }

  /** `NotAfter` is a total order on DateTimes. */
  lemma NotAfterTransitive(a: DateTime, b: DateTime, c: DateTime)
    requires NotAfter(a, b) && NotAfter(b, c)
    ensures NotAfter(a, c)
  {
    if a != b && b != c {
      LexLessTransitive(Fields(a), Fields(b), Fields(c));
    }
  }

  lemma BeforeIsStrict(a: DateTime, b: DateTime)
    ensures Before(a, b) <==> !NotAfter(b, a)
  {
    LexLessAsymmetric(Fields(a), Fields(b));
    LexLessTotal(Fields(a), Fields(b));
    if Fields(a) == Fields(b) {
      assert a == b;
      LexLessAsymmetric(Fields(a), Fields(a));
    }
  }

  /** Proleptic Gregorian day number, 0 on 1970-01-01. */
  function DaysFromCivil(d: Date): int
  {
    var y := if d.month <= 2 then d.year - 1 else d.year;
    var era := y / 400;
    var yoe := y - era * 400;
    var mp := if d.month > 2 then d.month - 3 else d.month + 9;
    var doy := (153 * mp + 2) / 5 + d.day - 1;
    var doe := yoe * 365 + yoe / 4 - yoe / 100 + doy;
    era * 146097 + doe - 719468
  }

  /** Luxon's `toMillis()` in the fixed zone: milliseconds since the epoch. */
  function ToMillis(t: DateTime): Instant
  {
    DaysFromCivil(t.date) * MsPerDay + t.hour * MsPerHour + t.minute * MsPerMinute
      + t.second * MsPerSecond + t.millisecond
  }

  /** The instant of a time of day is midnight's plus the hours and minutes. */
  lemma ToMillisAtTime(d: Date, h: int, m: int)
    ensures ToMillis(DateTime(d, h, m, 0, 0)) == ToMillis(AtMidnight(d)) + h * MsPerHour + m * MsPerMinute
  {
  }

  /** Within one day, the instant grows with the time of day. */
  lemma ToMillisWithinDay(t: DateTime)
    requires ValidDateTime(t)
    ensures DaysFromCivil(t.date) * MsPerDay <= ToMillis(t) < (DaysFromCivil(t.date) + 1) * MsPerDay
  {
  }
}
