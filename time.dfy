/** Countdown arithmetic: the signed breakdown of `target - now`, the overdue and
    urgent tests, and the countdown texts. */
module Time {
  import opened Wrappers
  import opened Strings
  import opened Civil

  datatype CountdownTime = CountdownTime(days: int, hours: int, minutes: int, seconds: int, totalMs: int)

  /** The milliseconds the day, hour, minute and second fields account for. */
  function Span(t: CountdownTime): int
  {
    t.days * MsPerDay + t.hours * MsPerHour + t.minutes * MsPerMinute + t.seconds * MsPerSecond
  }

  /** Whole days, then hours below 24, minutes and seconds below 60. */
  predicate Normalised(t: CountdownTime)
  {
    t.days >= 0 && 0 <= t.hours < 24 && 0 <= t.minutes < 60 && 0 <= t.seconds < 60
  }

  function Negated(t: CountdownTime): CountdownTime
  {
    CountdownTime(-t.days, -t.hours, -t.minutes, -t.seconds, -t.totalMs)
  }

  /** The floor fields of a duration add back up to it, to within a second. */
  lemma BreakdownSpan(ms: nat)
    ensures Span(CountdownTime(ms / MsPerDay, (ms / MsPerHour) % 24, (ms / MsPerMinute) % 60, (ms / MsPerSecond) % 60, ms))
              <= ms < Span(CountdownTime(ms / MsPerDay, (ms / MsPerHour) % 24, (ms / MsPerMinute) % 60, (ms / MsPerSecond) % 60, ms)) + MsPerSecond
  {
    var sec, r0 := ms / 1000, ms % 1000;
    var min, s0 := sec / 60, sec % 60;
    var hr, m0 := min / 60, min % 60;
    var d, h0 := hr / 24, hr % 24;
    assert ms == 86400000 * d + 3600000 * h0 + 60000 * m0 + 1000 * s0 + r0;
    assert ms / 60000 == min;
    assert ms / 3600000 == hr;
    assert ms / 86400000 == d;
  }

  /** Floor breakdown of a non-negative duration. */
  function Breakdown(ms: nat): (r: CountdownTime)
    ensures r.totalMs == ms && Normalised(r)
    ensures Span(r) <= ms < Span(r) + MsPerSecond
  {
    BreakdownSpan(ms);
    CountdownTime(ms / MsPerDay, (ms / MsPerHour) % 24, (ms / MsPerMinute) % 60, (ms / MsPerSecond) % 60, ms)
  }

  /** `diffNowToISO` with the clock as a parameter: `target - now`, broken down
      when the target is ahead, and the negated breakdown of `now - target` when
      it has passed. */
  function DiffNowTo(target: Instant, now: Instant): (r: CountdownTime)
    ensures r.totalMs == target - now
    ensures target >= now ==> Normalised(r) && Span(r) <= r.totalMs < Span(r) + MsPerSecond
    ensures target < now ==>
              Normalised(Negated(r)) && Span(Negated(r)) <= now - target < Span(Negated(r)) + MsPerSecond
  {
    var totalMs := target - now;
    if totalMs < 0 then
      var passed := Breakdown(now - target);
      CountdownTime(-passed.days, -passed.hours, -passed.minutes, -passed.seconds, totalMs)
    else
      Breakdown(totalMs)
  }

  /** Looking back is looking forward negated. */
  lemma DiffPastIsNegatedFuture(target: Instant, now: Instant)
    requires target < now
    ensures DiffNowTo(target, now) == Negated(DiffNowTo(now, target))
  {
  }

  /** One day ahead is one day; one day behind is minus one day. */
  lemma DiffOneDay(now: Instant)
    ensures DiffNowTo(now + MsPerDay, now).days == 1
    ensures DiffNowTo(now - MsPerDay, now).days == -1
  {
  }

  predicate IsOverdue(t: CountdownTime)
  {
    t.totalMs < 0
  }

  /** Less than a day left and not overdue. */
  function IsUrgent(t: CountdownTime): (r: bool)
    ensures r <==> 0 <= t.totalMs < MsPerDay
    ensures r ==> !IsOverdue(t)
  {
    !IsOverdue(t) && t.totalMs < 24 * 60 * 60 * 1000
  }

  /** A countdown is overdue exactly when its target has passed. */
  lemma OverdueIffPassed(target: Instant, now: Instant)
    ensures IsOverdue(DiffNowTo(target, now)) <==> target < now
    ensures IsUrgent(DiffNowTo(target, now)) <==> now <= target < now + MsPerDay
  {
  }

  /** `num.toString().padStart(2, '0')`. */
  function Pad2(n: int): string
  {
    PadStart(IntToString(n), 2, '0')
  }

  function Clock(t: CountdownTime): string
  {
    Pad2(t.hours) + ":" + Pad2(t.minutes) + ":" + Pad2(t.seconds)
  }

  /** The clock, preceded by the days only when at least one whole day is left. */
  function FormatCountdownTime(t: CountdownTime): (s: string)
    ensures |Clock(t)| <= |s| && s[|s| - |Clock(t)|..] == Clock(t)
    ensures s == Clock(t) <==> t.days <= 0
  {
    if t.days > 0 then IntToString(t.days) + " • " + Clock(t) else Clock(t)
  }

  function Abs(n: int): int
  {
    if n < 0 then -n else n
  }

  /** A countdown still running shows its time; an overdue one shows the
      whole days past as "+N días", or "Vencido" within the first day. */
  function FormatTimeLeft(t: CountdownTime): (s: string)
    ensures !IsOverdue(t) ==> s == FormatCountdownTime(t)
    ensures IsOverdue(t) ==> (s == "Vencido" <==> t.days == 0)
    ensures IsOverdue(t) && t.days != 0 ==> s == "+" + IntToString(Abs(t.days)) + " días"
  {
    if IsOverdue(t) then
      var days := Abs(t.days);
      if days > 0 then
        var text := "+" + IntToString(days) + " días";
        assert text[0] != "Vencido"[0];
        text
      else "Vencido"
    else
      FormatCountdownTime(t)
  }

  /** Reads the two digits back from a padded field. */
  function TwoDigits(s: string): Option<int>
  {
    if |s| == 2 && AllDigits(s) then Some(DigitsValue(s)) else None
  }

  datatype ParsedCountdown = ParsedCountdown(days: int, hours: int, minutes: int, seconds: int)

  /** Reads "HH:MM:SS" back into hours, minutes and seconds. */
  function ParseClock(c: string): Option<ParsedCountdown>
  {
    if |c| != 8 || c[2] != ':' || c[5] != ':' then None
    else
      var h, m, sec := TwoDigits(c[0..2]), TwoDigits(c[3..5]), TwoDigits(c[6..]);
      if h.None? || m.None? || sec.None? then None else Some(ParsedCountdown(0, h.value, m.value, sec.value))
  }

  /** Reads the "D • " prefix back into the days; no prefix means zero days. */
  function ParseDays(p: string): Option<int>
  {
    if p == [] then Some(0)
    else if |p| >= 4 && p[|p| - 3..] == " • " && AllDigits(p[..|p| - 3]) then Some(DigitsValue(p[..|p| - 3]))
    else None
  }

  /** Reads a countdown text "D • HH:MM:SS" or "HH:MM:SS" back into its fields. */
  function ParseCountdown(s: string): Option<ParsedCountdown>
  {
    if |s| < 8 then None
    else
      var clock, days := ParseClock(s[|s| - 8..]), ParseDays(s[..|s| - 8]);
      if clock.None? || days.None? then None else Some(clock.value.(days := days.value))
  }

  /** A field below 100 is padded to exactly two digits that read back as the field. */
  lemma Pad2Digits(n: int)
    requires 0 <= n < 100
    ensures Pad2(n) == [DigitChar(n / 10), DigitChar(n % 10)]
    ensures TwoDigits(Pad2(n)) == Some(n)
  {
    assert Pow10(2) == 100;
    PadStartIsFixedDigits(n, 2);
    FixedDigitsValue(n, 2);
    assert FixedDigits(n, 2) == FixedDigits(n / 10, 1) + [DigitChar(n % 10)];
    assert FixedDigits(n / 10, 1) == FixedDigits(n / 100, 0) + [DigitChar((n / 10) % 10)];
  }

  lemma ThreeFields(a: string, b: string, c: string)
    requires |a| == |b| == |c| == 2
    ensures var s := a + ":" + b + ":" + c;
      |s| == 8 && s[2] == ':' && s[5] == ':' && s[0..2] == a && s[3..5] == b && s[6..] == c
  {
  }

  /** Three two-digit fields joined by colons read back field by field. */
  lemma ParseThreeFields(a: string, b: string, c: string)
    requires |a| == |b| == |c| == 2
    requires TwoDigits(a).Some? && TwoDigits(b).Some? && TwoDigits(c).Some?
    ensures |a + ":" + b + ":" + c| == 8
    ensures ParseClock(a + ":" + b + ":" + c)
            == Some(ParsedCountdown(0, TwoDigits(a).value, TwoDigits(b).value, TwoDigits(c).value))
  {
    ThreeFields(a, b, c);
  }

  lemma ClockFields(t: CountdownTime)
    requires 0 <= t.hours < 100 && 0 <= t.minutes < 100 && 0 <= t.seconds < 100
    ensures |Clock(t)| == 8
    ensures ParseClock(Clock(t)) == Some(ParsedCountdown(0, t.hours, t.minutes, t.seconds))
  {
    Pad2Digits(t.hours);
    Pad2Digits(t.minutes);
    Pad2Digits(t.seconds);
    ParseThreeFields(Pad2(t.hours), Pad2(t.minutes), Pad2(t.seconds));
  }

  lemma DaysPrefix(d: nat)
    requires d > 0
    ensures ParseDays(NatToString(d) + " • ") == Some(d)
  {
    var p := NatToString(d) + " • ";
    NatToStringValue(d);
    assert p[..|p| - 3] == NatToString(d);
  }

  lemma SplitAtClock(p: string, c: string)
    requires |c| == 8
    ensures var s := p + c; |s| >= 8 && s[|s| - 8..] == c && s[..|s| - 8] == p
  {
  }

  /** The countdown text pads hours, minutes and seconds to two digits and shows
      the days, followed by " • ", only when there is at least one: reading the
      text back gives the fields. */
  lemma FormatCountdownRoundTrip(t: CountdownTime)
    requires t.days >= 0 && 0 <= t.hours < 100 && 0 <= t.minutes < 100 && 0 <= t.seconds < 100
    ensures ParseCountdown(FormatCountdownTime(t)) == Some(ParsedCountdown(t.days, t.hours, t.minutes, t.seconds))
    ensures t.days == 0 ==> FormatCountdownTime(t) == Clock(t) && |Clock(t)| == 8
  {
    ClockFields(t);
    var c := Clock(t);
    var p := if t.days > 0 then NatToString(t.days) + " • " else [];
    assert FormatCountdownTime(t) == p + c;
    if t.days > 0 {
      DaysPrefix(t.days);
    }
    assert ParseDays(p) == Some(t.days);
    SplitAtClock(p, c);
    ParseCountdownSplit(p, c);
  }

  lemma ParseCountdownSplit(p: string, c: string)
    requires |c| == 8
    ensures ParseCountdown(p + c) ==
      (if ParseClock(c).None? || ParseDays(p).None? then None else Some(ParseClock(c).value.(days := ParseDays(p).value)))
  {
    SplitAtClock(p, c);
  }

  lemma Pad2Example(n: int, hi: char, lo: char)
    requires 0 <= n < 100 && hi == DigitChar(n / 10) && lo == DigitChar(n % 10)
    ensures Pad2(n) == [hi, lo]
  {
    Pad2Digits(n);
  }

  /** The documented examples. */
  lemma ClockExample(t: CountdownTime)
    requires t.hours == 10 && t.minutes == 30 && t.seconds == 45
    ensures Clock(t) == "10:30:45"
  {
    assert Clock(t) == Pad2(10) + ":" + Pad2(30) + ":" + Pad2(45);
    Pad2Example(10, '1', '0');
    Pad2Example(30, '3', '0');
    Pad2Example(45, '4', '5');
  }

  lemma DaysClockText()
    ensures "5" + " • " + "10:30:45" == "5 • 10:30:45"
  {
  }

  lemma FormatCountdownWithDays()
    ensures FormatCountdownTime(CountdownTime(5, 10, 30, 45, 0)) == "5 • 10:30:45"
  {
    var a := CountdownTime(5, 10, 30, 45, 0);
    assert FormatCountdownTime(a) == IntToString(5) + " • " + Clock(a);
    ClockExample(a);
    assert IntToString(5) == "5";
    DaysClockText();
  }

  lemma FormatCountdownWithoutDays()
    ensures FormatCountdownTime(CountdownTime(0, 2, 5, 8, 0)) == "02:05:08"
  {
    var b := CountdownTime(0, 2, 5, 8, 0);
    Pad2Example(2, '0', '2');
    Pad2Example(5, '0', '5');
    Pad2Example(8, '0', '8');
    assert Clock(b) == "02" + ":" + "05" + ":" + "08";
  }

  lemma FormatTimeLeftExamples()
    ensures FormatTimeLeft(CountdownTime(-2, 0, 0, 0, -172800000)) == "+2 días"
    ensures FormatTimeLeft(CountdownTime(0, -2, 0, 0, -7200000)) == "Vencido"
  {
    assert IntToString(2) == "2";
  }

  /** What the time-left text says for a real countdown: the whole days past
      due once a day has passed, "Vencido" within the first day, and the
      countdown otherwise. */
  lemma FormatTimeLeftOfDiff(target: Instant, now: Instant)
    ensures target < now && now - target >= MsPerDay ==>
              FormatTimeLeft(DiffNowTo(target, now)) == "+" + NatToString((now - target) / MsPerDay) + " días"
    ensures target < now && now - target < MsPerDay ==> FormatTimeLeft(DiffNowTo(target, now)) == "Vencido"
    ensures target >= now ==> FormatTimeLeft(DiffNowTo(target, now)) == FormatCountdownTime(DiffNowTo(target, now))
  {
    var t := DiffNowTo(target, now);
    if target < now {
      var passed := Breakdown(now - target);
      assert t.days == -passed.days && passed.days == (now - target) / MsPerDay;
      assert Abs(t.days) == (now - target) / MsPerDay;
    }
  }
}
