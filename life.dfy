/** Life calculus: the estimated end of life, the life countdown, age in
    completed years, and the date helpers used by the forms. */
module Life {
  import opened Wrappers
  import opened Strings
  import opened Civil
  import opened Models
  import opened Time

  /** Birth date plus the expected years, at 23:59:59.999 of that day. */
  function EstimatedEndOfLife(p: UserProfile): (r: DateTime)
    ensures r.date.year == p.birth.date.year + p.lifeExpectancyYears
    ensures r.date.month == p.birth.date.month
    ensures ValidDate(p.birth.date) && !(p.birth.date.month == 2 && p.birth.date.day == 29) ==>
              r.date.day == p.birth.date.day
    ensures p.birth.date.month == 2 && p.birth.date.day == 29 ==>
              r.date.day == (if IsLeapYear(r.date.year) then 29 else 28)
    ensures r.hour == 23 && r.minute == 59 && r.second == 59 && r.millisecond == 999
    ensures ValidDate(p.birth.date) ==> ValidDateTime(r)
  {
    var end := AddYears(p.birth, p.lifeExpectancyYears);
    end.(hour := 23, minute := 59, second := 59, millisecond := 999)
  }

  lemma EndOfLifeExample()
    ensures EstimatedEndOfLife(UserProfile(AtMidnight(Date(1990, 1, 1)), Male, None, 80))
            == DateTime(Date(2070, 1, 1), 23, 59, 59, 999)
  {
  }

  /** The countdown to the estimated end of life: while it lies ahead, the
      days, hours, minutes and seconds left in normalised form; once it has
      passed, the negated breakdown of the time since. */
  function CalculateLifeTimeLeft(p: UserProfile, now: Instant): (r: CountdownTime)
    ensures r.totalMs == ToMillis(EstimatedEndOfLife(p)) - now
    ensures IsOverdue(r) <==> now > ToMillis(EstimatedEndOfLife(p))
    ensures var end := ToMillis(EstimatedEndOfLife(p));
            end >= now ==> Normalised(r) && Span(r) <= end - now < Span(r) + MsPerSecond
    ensures var end := ToMillis(EstimatedEndOfLife(p));
            end < now ==> Normalised(Negated(r)) && Span(Negated(r)) <= now - end < Span(Negated(r)) + MsPerSecond
  {
    DiffNowTo(ToMillis(EstimatedEndOfLife(p)), now)
  }

  /** Completed years between birth and now: Luxon's year difference moves the
      birth date forward by the difference of the years and takes one back when
      that lands after now. */
  function CalculateAge(birth: DateTime, now: DateTime): (age: int)
    ensures var years := now.date.year - birth.date.year;
            age == years || age == years - 1
  {
    var years := now.date.year - birth.date.year;
    if Before(now, AddYears(birth, years)) then years - 1 else years
  }

  /** The age is a number of years already reached ... */
  lemma AgeReached(birth: DateTime, now: DateTime)
    ensures NotAfter(AddYears(birth, CalculateAge(birth, now)), now)
  {
    var years := now.date.year - birth.date.year;
    if Before(now, AddYears(birth, years)) {
      assert Fields(AddYears(birth, years - 1))[0] < Fields(now)[0];
    } else {
      BeforeIsStrict(now, AddYears(birth, years));
    }
  }

  /** ... and the greatest such number. */
  lemma AgeIsGreatest(birth: DateTime, now: DateTime, k: int)
    requires NotAfter(AddYears(birth, k), now)
    ensures k <= CalculateAge(birth, now)
  {
    var years := now.date.year - birth.date.year;
    NotAfterYear(AddYears(birth, k), now);
    if k == years {
      BeforeIsStrict(now, AddYears(birth, years));
    }
  }

  /** Someone already born has a non-negative age. */
  lemma AgeNonNegative(birth: DateTime, now: DateTime)
    requires ValidDate(birth.date) && NotAfter(birth, now)
    ensures CalculateAge(birth, now) >= 0
  {
    assert AddYears(birth, 0) == birth;
    AgeIsGreatest(birth, now, 0);
  }

  /** The age never goes down as time passes. */
  lemma AgeMonotone(birth: DateTime, now: DateTime, later: DateTime)
    requires NotAfter(now, later)
    ensures CalculateAge(birth, now) <= CalculateAge(birth, later)
  {
    var age := CalculateAge(birth, now);
    AgeReached(birth, now);
    NotAfterTransitive(AddYears(birth, age), now, later);
    AgeIsGreatest(birth, later, age);
  }

  /** A birthday still ahead this year takes one year off the naive difference. */
  lemma AgeExamples()
    ensures CalculateAge(AtMidnight(Date(1990, 7, 15)), DateTime(Date(2024, 6, 1), 12, 0, 0, 0)) == 33
    ensures CalculateAge(AtMidnight(Date(1990, 1, 1)), DateTime(Date(2024, 1, 1), 12, 0, 0, 0)) == 34
  {
  }

  /** `formatDateForInput`: the calendar day as 'yyyy-MM-dd', which the
      date parser reads back as that day for any real day of a four-digit year. */
  function FormatDateForInput(t: DateTime): (s: string)
    ensures ValidDate(t.date) && 0 <= t.date.year < 10000 ==> ParseDate(s) == Some(t.date)
  {
    if ValidDate(t.date) && 0 <= t.date.year < 10000 then
      ParseFormattedDate(t.date);
      FormatDate(t.date)
    else FormatDate(t.date)
  }

  /** `createISOFromDate`: midnight of the day a 'yyyy-MM-dd' text names; None stands
      for the empty string the source returns for a text that does not parse. */
  function CreateISOFromDate(s: string): (r: Option<DateTime>)
    ensures r.Some? <==> ParseDate(s).Some?
    ensures r.Some? ==> r.value == AtMidnight(ParseDate(s).value) && ValidDateTime(r.value)
  {
    var d := ParseDate(s);
    if d.Some? then Some(AtMidnight(d.value)) else None
  }

  /** A date typed into the form comes back unchanged from the round trip. */
  lemma DateInputRoundTrip(s: string)
    requires CreateISOFromDate(s).Some?
    ensures FormatDateForInput(CreateISOFromDate(s).value) == s
  {
    FormatParsedDate(s);
  }

  /** And a date shown in the form reads back as midnight of that day. */
  lemma DateInputRoundTripBack(t: DateTime)
    requires ValidDate(t.date) && 0 <= t.date.year < 10000
    ensures CreateISOFromDate(FormatDateForInput(t)) == Some(AtMidnight(t.date))
  {
    ParseFormattedDate(t.date);
  }

  /** The hours and minutes of an "HH:mm" text (`time.split(':').map(Number)`);
      None where the source would get NaN, on which Luxon's `set` throws. A
      text without a colon leaves the minute undefined, and `set` skips an
      undefined field, so the minute stays at the parsed day's 0. */
  function ParseTimeOfDay(time: string): (r: Option<(int, int)>)
    ensures ':' !in time ==> r == (if NumberOf(time).Some? then Some((NumberOf(time).value, 0)) else None)
    ensures ':' in time ==>
              var parts := Split(time, ':');
              && |parts| >= 2
              && (r.Some? <==> NumberOf(parts[0]).Some? && NumberOf(parts[1]).Some?)
              && (r.Some? ==> r.value == (NumberOf(parts[0]).value, NumberOf(parts[1]).value))
  {
    var parts := Split(time, ':');
    var h := NumberOf(parts[0]);
    var m := if |parts| >= 2 then NumberOf(parts[1]) else Some(0);
    var r := if h.None? || m.None? then None else Some((h.value, m.value));
    if ':' !in time then SplitWithoutSeparator(time, ':'); r
    else SplitWithSeparator(time, ':'); r
  }

  /** With a colon, the hour is the text before the first colon and the
      minute the text up to the next one; anything after a second colon is
      ignored, as the two-name destructuring does. */
  lemma ParseTimeOfDayAtFirstColon(hour: string, rest: string)
    requires ':' !in hour
    ensures var minute := Split(rest, ':')[0];
            ParseTimeOfDay(hour + ":" + rest) ==
              if NumberOf(hour).Some? && NumberOf(minute).Some? then Some((NumberOf(hour).value, NumberOf(minute).value))
              else None
  {
    SplitAtFirst(hour, ':', rest);
    assert hour + ":" + rest == hour + [':'] + rest;
  }

  /** `createDeadlineISO(date, time?)`: the day at the given hour and minute with
      zero seconds, or at 23:59:59 when no time is given, as an instant. Luxon's
      `set` rolls an out-of-range hour or minute over into the next unit, which
      `ToMillis` reproduces because it is linear in the fields (`ToMillisAtTime`). None stands for the empty string (a date
      that does not parse) and for the error Luxon raises on a NaN field. */
  function CreateDeadlineISO(date: string, time: Option<string>): (r: Option<Instant>)
    ensures ParseDate(date).None? ==> r.None?
    ensures ParseDate(date).Some? && (time.None? || time == Some("")) ==>
              r == Some(ToMillis(DateTime(ParseDate(date).value, 23, 59, 59, 0)))
    ensures time.Some? && time.value != "" && ParseTimeOfDay(time.value).None? ==> r.None?
    ensures ParseDate(date).Some? && time.Some? && time.value != "" && ParseTimeOfDay(time.value).Some? ==>
              r == Some(ToMillis(DateTime(ParseDate(date).value, ParseTimeOfDay(time.value).value.0,
                                          ParseTimeOfDay(time.value).value.1, 0, 0)))
  {
    var d := ParseDate(date);
    if d.None? then None
    else if time.Some? && time.value != "" then
      var hm := ParseTimeOfDay(time.value);
      if hm.None? then None
      else Some(ToMillis(DateTime(d.value, hm.value.0, hm.value.1, 0, 0)))
    else Some(ToMillis(DateTime(d.value, 23, 59, 59, 0)))
  }

  /** A bare hour, without a colon, sets that hour on the hour. */
  lemma DeadlineAtHour(date: string, hh: string)
    requires ParseDate(date).Some?
    requires hh != "" && AllDigits(hh)
    ensures CreateDeadlineISO(date, Some(hh)) == Some(ToMillis(DateTime(ParseDate(date).value, DigitsValue(hh), 0, 0, 0)))
  {
    assert ':' !in hh by {
      assert !IsDigit(':');
    }
  }

  /** A time typed as "HH:mm" (two digits each, in range) sets exactly that time of day. */
  lemma DeadlineAtTime(date: string, hh: string, mm: string)
    requires ParseDate(date).Some?
    requires |hh| == 2 && |mm| == 2 && AllDigits(hh) && AllDigits(mm)
    requires DigitsValue(hh) < 24 && DigitsValue(mm) < 60
    ensures CreateDeadlineISO(date, Some(hh + ":" + mm))
            == Some(ToMillis(DateTime(ParseDate(date).value, DigitsValue(hh), DigitsValue(mm), 0, 0)))
  {
    assert |hh + ":" + mm| == 5;
    ParseTimeOfDayDigits(hh, mm);
  }

  /** Two digit fields around a colon read back as hours and minutes. */
  lemma ParseTimeOfDayDigits(hh: string, mm: string)
    requires |hh| == 2 && |mm| == 2 && AllDigits(hh) && AllDigits(mm)
    ensures ParseTimeOfDay(hh + ":" + mm) == Some((DigitsValue(hh), DigitsValue(mm)))
  {
    SplitClockText(hh, mm);
    assert NumberOf(hh) == Some(DigitsValue(hh)) && NumberOf(mm) == Some(DigitsValue(mm));
  }

  lemma SplitClockText(hh: string, mm: string)
    requires |hh| == 2 && |mm| == 2 && AllDigits(hh) && AllDigits(mm)
    ensures Split(hh + ":" + mm, ':') == [hh, mm]
  {
    assert ':' !in hh && ':' !in mm by {
      assert !IsDigit(':');
    }
    SplitAtFirst(hh, ':', mm);
    SplitWithoutSeparator(mm, ':');
    assert hh + ":" + mm == hh + [':'] + mm;
  }
}
