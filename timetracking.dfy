/** Time tracking over a goal's work sessions: totals, distinct working days,
    today's and this week's hours, the pacing analysis and the hours label.
    The clock is a parameter: `now` for the analysis, `today` and `weekStart`
    for the day and week totals. */
module TimeTracking {
  import opened Wrappers
  import opened Strings
  import opened Civil
  import opened Models

  function Sessions(goal: Goal): seq<WorkSession>
  {
    goal.workSessions.GetOr([])
  }

  predicate NonNegativeHours(ss: seq<WorkSession>)
  {
    forall i :: 0 <= i < |ss| ==> ss[i].hours >= 0.0
  }

  /** `reduce((total, session) => total + session.hours, 0)`, left to right. */
  function SumHours(ss: seq<WorkSession>): (total: real)
    ensures ss == [] ==> total == 0.0
    ensures NonNegativeHours(ss) ==> total >= 0.0
  {
    if |ss| == 0 then 0.0 else SumHours(ss[..|ss| - 1]) + ss[|ss| - 1].hours
  }

  lemma {:induction false} SumHoursAppend(a: seq<WorkSession>, b: seq<WorkSession>)
    ensures SumHours(a + b) == SumHours(a) + SumHours(b)
    decreases |b|
  {
    if |b| == 0 {
      assert a + b == a;
    } else {
      assert (a + b)[..|a + b| - 1] == a + b[..|b| - 1];
      SumHoursAppend(a, b[..|b| - 1]);
    }
  }

  /** `filter(keep)`, order kept. */
  function FilterSessions(ss: seq<WorkSession>, keep: WorkSession -> bool): (r: seq<WorkSession>)
    ensures |r| <= |ss|
    ensures forall i :: 0 <= i < |r| ==> keep(r[i]) && r[i] in ss
    ensures forall i :: 0 <= i < |ss| && keep(ss[i]) ==> ss[i] in r
  {
    if |ss| == 0 then []
    else
      var init := FilterSessions(ss[..|ss| - 1], keep);
      var last := ss[|ss| - 1];
      assert forall i :: 0 <= i < |ss| - 1 ==> ss[i] == ss[..|ss| - 1][i];
      if keep(last) then init + [last] else init
  }

  /** Keeping fewer sessions never adds hours, when no session is negative. */
  lemma {:induction false} FilteredSumMonotone(ss: seq<WorkSession>, p: WorkSession -> bool, q: WorkSession -> bool)
    requires NonNegativeHours(ss)
    requires forall i :: 0 <= i < |ss| && p(ss[i]) ==> q(ss[i])
    ensures SumHours(FilterSessions(ss, p)) <= SumHours(FilterSessions(ss, q))
  {
    if |ss| > 0 {
      var init := ss[..|ss| - 1];
      var last := ss[|ss| - 1];
      assert forall i :: 0 <= i < |init| ==> init[i] == ss[i];
      FilteredSumMonotone(init, p, q);
      var fp := FilterSessions(init, p);
      var fq := FilterSessions(init, q);
      if p(last) {
        SumHoursAppend(fp, [last]);
        SumHoursAppend(fq, [last]);
      } else if q(last) {
        SumHoursAppend(fq, [last]);
      }
    }
  }

  /** Keeping every session changes nothing. */
  lemma {:induction false} FilterAll(ss: seq<WorkSession>, keep: WorkSession -> bool)
    requires forall i :: 0 <= i < |ss| ==> keep(ss[i])
    ensures FilterSessions(ss, keep) == ss
  {
    if |ss| > 0 {
      var init, last := ss[..|ss| - 1], ss[|ss| - 1];
      assert forall i :: 0 <= i < |init| ==> keep(init[i]) by {
        assert forall i :: 0 <= i < |init| ==> init[i] == ss[i];
      }
      FilterAll(init, keep);
      assert keep(last);
      assert FilterSessions(ss, keep) == FilterSessions(init, keep) + [last];
      assert init + [last] == ss;
    }
  }

  /** Filtering a list that ends in `s` filters the rest, then keeps `s` or
      not; its hours count once if kept. */
  lemma FilterSnoc(ss: seq<WorkSession>, s: WorkSession, keep: WorkSession -> bool)
    ensures FilterSessions(ss + [s], keep) == FilterSessions(ss, keep) + (if keep(s) then [s] else [])
    ensures SumHours(FilterSessions(ss + [s], keep)) ==
              SumHours(FilterSessions(ss, keep)) + (if keep(s) then s.hours else 0.0)
  {
    assert (ss + [s])[..|ss + [s]| - 1] == ss;
    assert (ss + [s])[|ss|] == s;
    if keep(s) {
      SumHoursAppend(FilterSessions(ss, keep), [s]);
      assert SumHours([s]) == SumHours([s][..0]) + s.hours;
    }
  }

  /** Keeping no session leaves nothing. */
  lemma {:induction false} FilterNone(ss: seq<WorkSession>, keep: WorkSession -> bool)
    requires forall i :: 0 <= i < |ss| ==> !keep(ss[i])
    ensures FilterSessions(ss, keep) == []
  {
    if |ss| > 0 {
      var init := ss[..|ss| - 1];
      assert forall i :: 0 <= i < |init| ==> init[i] == ss[i];
      FilterNone(init, keep);
    }
  }

  /** The hours a filter keeps: within the whole when no session is negative,
      all of them when every session is kept, none when none is. */
  lemma FilteredHours(ss: seq<WorkSession>, keep: WorkSession -> bool)
    ensures NonNegativeHours(ss) ==> 0.0 <= SumHours(FilterSessions(ss, keep)) <= SumHours(ss)
    ensures (forall i :: 0 <= i < |ss| ==> keep(ss[i])) ==> SumHours(FilterSessions(ss, keep)) == SumHours(ss)
    ensures (forall i :: 0 <= i < |ss| ==> !keep(ss[i])) ==> SumHours(FilterSessions(ss, keep)) == 0.0
  {
    var all := (s: WorkSession) => true;
    FilterAll(ss, all);
    if NonNegativeHours(ss) {
      FilteredSumMonotone(ss, keep, all);
    }
    if forall i :: 0 <= i < |ss| ==> keep(ss[i]) {
      FilterAll(ss, keep);
    }
    if forall i :: 0 <= i < |ss| ==> !keep(ss[i]) {
      FilterNone(ss, keep);
    }
  }

  function CalculateTotalWorkedHours(goal: Goal): (total: real)
    ensures goal.workSessions == None ==> total == 0.0
    ensures NonNegativeHours(Sessions(goal)) ==> total >= 0.0
  {
    SumHours(Sessions(goal))
  }

  function DistinctDates(ss: seq<WorkSession>): set<Date>
  {
    set i | 0 <= i < |ss| :: ss[i].date
  }

  /** `new Set(sessions.map(s => s.date)).size`, or 0 without sessions:
      the number of distinct session dates, between one and the number of
      sessions when there are sessions. */
  function GetWorkingDaysCount(goal: Goal): (n: nat)
    ensures n == |DistinctDates(Sessions(goal))|
    ensures n <= |Sessions(goal)|
    ensures n == 0 <==> Sessions(goal) == []
    ensures forall i :: 0 <= i < |Sessions(goal)| ==> Sessions(goal)[i].date in DistinctDates(Sessions(goal))
  {
    DistinctDatesBound(Sessions(goal));
    if goal.workSessions == None || |goal.workSessions.value| == 0 then 0
    else |DistinctDates(goal.workSessions.value)|
  }

  /** Logging one more session adds its date to the working days. */
  lemma DistinctDatesSnoc(ss: seq<WorkSession>, s: WorkSession)
    ensures DistinctDates(ss + [s]) == DistinctDates(ss) + {s.date}
  {
    var all := ss + [s];
    forall d | d in DistinctDates(all)
      ensures d in DistinctDates(ss) + {s.date}
    {
      var i :| 0 <= i < |all| && all[i].date == d;
      if i < |ss| {
        assert ss[i] == all[i];
      }
    }
    forall d | d in DistinctDates(ss)
      ensures d in DistinctDates(all)
    {
      var i :| 0 <= i < |ss| && ss[i].date == d;
      assert all[i] == ss[i];
    }
    assert all[|ss|] == s;
  }

  lemma {:induction false} DistinctDatesBound(ss: seq<WorkSession>)
    ensures |DistinctDates(ss)| <= |ss|
    ensures |ss| > 0 ==> |DistinctDates(ss)| >= 1
  {
    if |ss| > 0 {
      var init := ss[..|ss| - 1];
      DistinctDatesBound(init);
      assert DistinctDates(ss) == DistinctDates(init) + {ss[|ss| - 1].date} by {
        forall d | d in DistinctDates(ss)
          ensures d in DistinctDates(init) + {ss[|ss| - 1].date}
        {
          var i :| 0 <= i < |ss| && ss[i].date == d;
          if i < |ss| - 1 {
            assert init[i] == ss[i];
          }
        }
        forall d | d in DistinctDates(init)
          ensures d in DistinctDates(ss)
        {
          var i :| 0 <= i < |init| && init[i].date == d;
          assert ss[i] == init[i];
        }
      }
      assert ss[|ss| - 1].date in DistinctDates(ss);
    }
  }

  function LoggedOn(day: Date): WorkSession -> bool
  {
    (s: WorkSession) => s.date == day
  }

  /** The session's day, at midnight, is not before the start of the week. */
  function InWeekFrom(weekStart: DateTime): WorkSession -> bool
  {
    (s: WorkSession) => NotAfter(weekStart, AtMidnight(s.date))
  }

  /** Hours of the sessions logged on `today`: none of the total is
      invented when no session is negative, and none without a session of
      that day. */
  function GetTodayWorkedHours(goal: Goal, today: Date): (h: real)
    ensures NonNegativeHours(Sessions(goal)) ==> 0.0 <= h <= CalculateTotalWorkedHours(goal)
    ensures (forall i :: 0 <= i < |Sessions(goal)| ==> Sessions(goal)[i].date != today) ==> h == 0.0
  {
    FilteredHours(Sessions(goal), LoggedOn(today));
    SumHours(FilterSessions(Sessions(goal), LoggedOn(today)))
  }

  /** Hours of the sessions logged since `weekStart`, within the total in the
      same way: all of it when every session falls in the week, none when
      none does. */
  function GetWeeklyWorkedHours(goal: Goal, weekStart: DateTime): (h: real)
    ensures NonNegativeHours(Sessions(goal)) ==> 0.0 <= h <= CalculateTotalWorkedHours(goal)
    ensures (forall i :: 0 <= i < |Sessions(goal)| ==> InWeekFrom(weekStart)(Sessions(goal)[i])) ==>
              h == CalculateTotalWorkedHours(goal)
    ensures (forall i :: 0 <= i < |Sessions(goal)| ==> !InWeekFrom(weekStart)(Sessions(goal)[i])) ==> h == 0.0
  {
    FilteredHours(Sessions(goal), InWeekFrom(weekStart));
    SumHours(FilterSessions(Sessions(goal), InWeekFrom(weekStart)))
  }

  /** Today's hours never exceed the week's when today falls in the week, and
      the week's never exceed the total. */
  lemma TodayWithinWeekWithinTotal(goal: Goal, today: Date, weekStart: DateTime)
    requires NonNegativeHours(Sessions(goal))
    requires NotAfter(weekStart, AtMidnight(today))
    ensures GetTodayWorkedHours(goal, today) <= GetWeeklyWorkedHours(goal, weekStart)
    ensures GetWeeklyWorkedHours(goal, weekStart) <= CalculateTotalWorkedHours(goal)
  {
    var ss := Sessions(goal);
    FilteredSumMonotone(ss, LoggedOn(today), InWeekFrom(weekStart));
    var all := (s: WorkSession) => true;
    FilteredSumMonotone(ss, InWeekFrom(weekStart), all);
    FilterAll(ss, all);
  }

  /** `Math.ceil(a / b)` for a positive divisor. */
  function CeilDiv(a: int, b: int): (q: int)
    requires b > 0
    ensures b * (q - 1) < a <= b * q
  {
    -((-a) / b)
  }

  datatype TimeAnalysis = TimeAnalysis(
    totalWorkedHours: real,
    estimatedHours: real,
    remainingHours: real,
    daysUntilDeadline: int,
    suggestedDailyHours: real,
    isOnTrack: bool,
    progressPercentage: real,
    averageHoursPerDay: real)

  function MaxReal(a: real, b: real): real { if a >= b then a else b }
  function MinReal(a: real, b: real): real { if a <= b then a else b }

  /** The span in days between creation and deadline, `Math.ceil` of the
      difference: 0 exactly when the deadline is at the creation instant or
      less than a day before it. */
  function SpanDays(plannedMs: int): (span: int)
    ensures span == 0 <==> -MsPerDay < plannedMs <= 0
    ensures span > 0 <==> plannedMs > 0
  {
    CeilDiv(plannedMs, MsPerDay)
  }

  /** `worked >= expected * 0.8`, with the expected hours
      `estimated * (1 - days / span)` when an estimate exists and `worked`
      otherwise; `plannedMs` is the deadline minus the creation instant.
      A zero span divides by zero in floating point. The span is +0 when the
      two instants are equal: with days left the expected hours are minus
      infinity (on track), with none they are NaN (not on track). It is -0
      when the deadline is less than a day before the creation instant: with
      days left the expected hours are plus infinity, with none NaN, so the
      goal is never on track. */
  function OnTrack(worked: real, estimated: real, days: int, plannedMs: int): (b: bool)
    ensures estimated <= 0.0 ==> (b <==> worked >= 0.0)
    ensures estimated > 0.0 && plannedMs == 0 ==> (b <==> days > 0)
    ensures estimated > 0.0 && -MsPerDay < plannedMs < 0 ==> !b
    ensures estimated > 0.0 && SpanDays(plannedMs) != 0 && days == 0 ==> (b <==> worked >= 0.8 * estimated)
    ensures estimated > 0.0 && days == SpanDays(plannedMs) && days != 0 ==> (b <==> worked >= 0.0)
  {
    var span := SpanDays(plannedMs);
    if estimated > 0.0 then
      if span == 0 then plannedMs == 0 && days > 0
      else worked >= 0.8 * (estimated * (1.0 - (days as real) / (span as real)))
    else worked >= 0.8 * worked
  }

  /** The test cleared of the division: with an estimate and a positive
      span, on track iff the worked hours, scaled by the span, reach 80% of
      the estimate scaled by the days already spent (the inequality turns
      round for a negative span). */
  lemma OnTrackClosedForm(worked: real, estimated: real, days: int, plannedMs: int)
    ensures var span := SpanDays(plannedMs);
            estimated > 0.0 && span > 0 ==>
              (OnTrack(worked, estimated, days, plannedMs) <==>
               worked * (span as real) >= 0.8 * estimated * ((span - days) as real))
    ensures var span := SpanDays(plannedMs);
            estimated > 0.0 && span < 0 ==>
              (OnTrack(worked, estimated, days, plannedMs) <==>
               worked * (span as real) <= 0.8 * estimated * ((span - days) as real))
  {
    var span := SpanDays(plannedMs);
    if estimated > 0.0 && span != 0 {
      ClearSpan(worked, estimated, days as real, span as real);
    }
  }

  /** Multiplying `worked >= 0.8 * estimated * (1 - days / span)` through by
      the span. */
  lemma ClearSpan(worked: real, estimated: real, days: real, span: real)
    requires span != 0.0
    ensures var expected := 0.8 * (estimated * (1.0 - days / span));
            expected * span == 0.8 * estimated * (span - days)
            && (span > 0.0 ==> (worked >= expected <==> worked * span >= expected * span))
            && (span < 0.0 ==> (worked >= expected <==> worked * span <= expected * span))
  {
    var expected := 0.8 * (estimated * (1.0 - days / span));
    assert (1.0 - days / span) * span == span - days;
    assert expected * span == 0.8 * estimated * ((1.0 - days / span) * span);
    if span > 0.0 {
      MultiplyPreservesOrder(worked, expected, span);
    } else {
      MultiplyPreservesOrder(expected, worked, -span);
    }
  }

  lemma MultiplyPreservesOrder(a: real, b: real, k: real)
    requires k > 0.0
    ensures a >= b <==> a * k >= b * k
  {
    if a >= b {
      assert (a - b) * k >= 0.0;
    } else {
      assert (b - a) * k > 0.0;
    }
  }

  /** More hours worked never takes a goal off track. */
  lemma OnTrackMonotoneInWorked(worked: real, more: real, estimated: real, days: int, plannedMs: int)
    requires worked <= more
    requires OnTrack(worked, estimated, days, plannedMs)
    ensures OnTrack(more, estimated, days, plannedMs)
  {
    var span := SpanDays(plannedMs);
    OnTrackClosedForm(worked, estimated, days, plannedMs);
    OnTrackClosedForm(more, estimated, days, plannedMs);
    if estimated > 0.0 && span != 0 {
      MultiplyPreservesOrder(more, worked, if span > 0 then span as real else -(span as real));
    }
  }

  /** When the deadline does not precede the creation, more days left lowers
      the hours expected, so a goal on track stays on track. */
  lemma OnTrackMonotoneInDays(worked: real, estimated: real, days: int, later: int, plannedMs: int)
    requires plannedMs >= 0 && days <= later
    requires OnTrack(worked, estimated, days, plannedMs)
    ensures OnTrack(worked, estimated, later, plannedMs)
  {
    var span := SpanDays(plannedMs);
    OnTrackClosedForm(worked, estimated, days, plannedMs);
    OnTrackClosedForm(worked, estimated, later, plannedMs);
    if estimated > 0.0 && span > 0 && later > days {
      MultiplyPreservesOrder(estimated, 0.0, ((later - days) as real));
      assert 0.8 * estimated * ((span - later) as real) <= 0.8 * estimated * ((span - days) as real);
    }
  }

  /** `Math.max(0, estimated - worked)` */
  function RemainingHours(estimated: real, worked: real): (h: real)
    ensures h >= 0.0
    ensures h == 0.0 <==> estimated <= worked
    ensures h > 0.0 ==> worked + h == estimated
  {
    MaxReal(0.0, estimated - worked)
  }

  /** `Math.max(0, Math.ceil(days between now and the deadline))` */
  function DaysUntilDeadline(deadline: Instant, now: Instant): (days: int)
    ensures days >= 0
    ensures days == 0 <==> deadline <= now
    ensures days > 0 ==> MsPerDay * (days - 1) < deadline - now <= MsPerDay * days
  {
    var d := CeilDiv(deadline - now, MsPerDay);
    if d > 0 then d else 0
  }

  /** The remaining hours spread over the days left, or 0 when none are left. */
  function SuggestedDailyHours(remaining: real, days: int): (h: real)
    ensures days > 0 ==> h * (days as real) == remaining
    ensures days <= 0 ==> h == 0.0
  {
    if days > 0 then remaining / (days as real) else 0.0
  }

  /** `Math.min(100, estimated > 0 ? worked / estimated * 100 : 0)` */
  function ProgressPercentage(worked: real, estimated: real): (p: real)
    ensures p <= 100.0
    ensures estimated > 0.0 && worked >= 0.0 ==> 0.0 <= p && p * estimated <= 100.0 * worked
    ensures estimated > 0.0 && worked <= estimated ==> p * estimated == 100.0 * worked
    ensures estimated > 0.0 && worked >= estimated ==> p == 100.0
    ensures estimated <= 0.0 ==> p == 0.0
  {
    MinReal(100.0, if estimated > 0.0 then (worked / estimated) * 100.0 else 0.0)
  }

  /** Hours per distinct working day, or 0 before the first session. */
  function AverageHoursPerDay(worked: real, daysWorked: nat): (h: real)
    ensures daysWorked > 0 ==> h * (daysWorked as real) == worked
    ensures daysWorked == 0 ==> h == 0.0
  {
    if daysWorked > 0 then worked / (daysWorked as real) else 0.0
  }

  function CalculateTimeAnalysis(goal: Goal, now: Instant): (r: TimeAnalysis)
    ensures r.totalWorkedHours == CalculateTotalWorkedHours(goal)
    ensures r.estimatedHours == goal.estimatedHours.GetOr(0.0)
    ensures r.remainingHours == RemainingHours(r.estimatedHours, r.totalWorkedHours)
    ensures r.daysUntilDeadline == DaysUntilDeadline(goal.deadline, now)
    ensures r.suggestedDailyHours == SuggestedDailyHours(r.remainingHours, r.daysUntilDeadline)
    ensures r.progressPercentage == ProgressPercentage(r.totalWorkedHours, r.estimatedHours)
    ensures r.averageHoursPerDay == AverageHoursPerDay(r.totalWorkedHours, GetWorkingDaysCount(goal))
    ensures r.remainingHours >= 0.0
    ensures r.remainingHours == 0.0 <==> r.estimatedHours <= r.totalWorkedHours
    ensures r.remainingHours > 0.0 ==> r.totalWorkedHours + r.remainingHours == r.estimatedHours
    ensures r.daysUntilDeadline >= 0
    ensures r.daysUntilDeadline == 0 <==> goal.deadline <= now
    ensures r.daysUntilDeadline > 0 ==>
              MsPerDay * (r.daysUntilDeadline - 1) < goal.deadline - now <= MsPerDay * r.daysUntilDeadline
    ensures r.daysUntilDeadline > 0 ==> r.suggestedDailyHours * (r.daysUntilDeadline as real) == r.remainingHours
    ensures r.daysUntilDeadline == 0 ==> r.suggestedDailyHours == 0.0
    ensures r.progressPercentage <= 100.0
    ensures r.estimatedHours <= 0.0 ==> r.progressPercentage == 0.0
    ensures r.estimatedHours > 0.0 && r.totalWorkedHours >= r.estimatedHours ==> r.progressPercentage == 100.0
    ensures r.isOnTrack == OnTrack(r.totalWorkedHours, r.estimatedHours, r.daysUntilDeadline,
                                   goal.deadline - goal.createdAt.GetOr(goal.deadline))
    ensures GetWorkingDaysCount(goal) > 0 ==>
              r.averageHoursPerDay * (GetWorkingDaysCount(goal) as real) == r.totalWorkedHours
    ensures GetWorkingDaysCount(goal) == 0 ==> r.averageHoursPerDay == 0.0
  {
    var worked := CalculateTotalWorkedHours(goal);
    var estimated := goal.estimatedHours.GetOr(0.0);
    var remaining := RemainingHours(estimated, worked);
    var days := DaysUntilDeadline(goal.deadline, now);
    var plannedMs := goal.deadline - goal.createdAt.GetOr(goal.deadline);
    TimeAnalysis(worked, estimated, remaining, days, SuggestedDailyHours(remaining, days),
                 OnTrack(worked, estimated, days, plannedMs), ProgressPercentage(worked, estimated),
                 AverageHoursPerDay(worked, GetWorkingDaysCount(goal)))
  }

  /** Ten estimated hours, four worked, the deadline five days away: six hours
      remain, 1.2 a day. */
  lemma TimeAnalysisExample(goal: Goal, now: Instant)
    requires goal.estimatedHours == Some(10.0)
    requires Sessions(goal) == [WorkSession("w", Date(2024, 3, 4), 4.0, None, AtMidnight(Date(2024, 3, 4)))]
    requires goal.deadline == now + 5 * MsPerDay
    ensures CalculateTimeAnalysis(goal, now).remainingHours == 6.0
    ensures CalculateTimeAnalysis(goal, now).daysUntilDeadline == 5
    ensures CalculateTimeAnalysis(goal, now).suggestedDailyHours == 1.2
    ensures CalculateTimeAnalysis(goal, now).progressPercentage == 40.0
    ensures CalculateTimeAnalysis(goal, now).averageHoursPerDay == 4.0
  {
    var ss := Sessions(goal);
    assert SumHours(ss) == SumHours(ss[..0]) + 4.0;
    assert DistinctDates(ss) == {Date(2024, 3, 4)};
    assert CeilDiv(goal.deadline - now, MsPerDay) == 5;
  }

  /** A creation stamp half a day after the deadline (a clock set back, or an
      imported record): the span is -0, the expected hours are plus infinity,
      and the goal is off track though a day is left and nothing is due. */
  lemma TimeAnalysisCreatedAfterDeadline(goal: Goal, now: Instant)
    requires goal.estimatedHours == Some(10.0)
    requires Sessions(goal) == []
    requires goal.createdAt == Some(goal.deadline + MsPerDay / 2)
    requires now == goal.deadline - MsPerDay
    ensures CalculateTimeAnalysis(goal, now).daysUntilDeadline == 1
    ensures !CalculateTimeAnalysis(goal, now).isOnTrack
  {
    assert CeilDiv(goal.deadline - now, MsPerDay) == 1;
  }

  /** `Math.round`: the nearest integer, halves rounded up. */
  function Round(x: real): (n: int)
    ensures n as real - 0.5 <= x < n as real + 0.5
  {
    (x + 0.5).Floor
  }

  lemma RoundShift(x: real, k: int)
    ensures Round(x + k as real) == Round(x) + k
  {
  }

  /** "<whole>h" or "<whole>h <minutes>min". */
  function HoursText(whole: int, minutes: int): string
  {
    if minutes == 0 then IntToString(whole) + "h"
    else IntToString(whole) + "h " + IntToString(minutes) + "min"
  }

  /** Whole hours and the fraction rounded to minutes, as `formatHours` splits them. */
  function SplitHours(hours: real): (p: (int, int))
    requires hours >= 1.0
    ensures p.0 == hours.Floor
    ensures p.0 >= 1 && 0 <= p.1 <= 60
    ensures 60 * p.0 + p.1 == Round(60.0 * hours)
  {
    var whole := hours.Floor;
    var minutes := Round((hours - whole as real) * 60.0);
    RoundShift((hours - whole as real) * 60.0, 60 * whole);
    assert (hours - whole as real) * 60.0 + (60 * whole) as real == 60.0 * hours;
    (whole, minutes)
  }

  /** `formatHours`: "0h" for nothing, rounded minutes under an hour, and
      otherwise the whole hours followed by the rounded minutes of the
      fraction, which is the rounded total less the whole hours' minutes. */
  function FormatHours(hours: real): (s: string)
    ensures hours == 0.0 ==> s == "0h"
    ensures 0.0 < hours < 1.0 ==> s == IntToString(Round(hours * 60.0)) + "min"
    ensures hours >= 1.0 ==> s == HoursText(hours.Floor, Round(60.0 * hours) - 60 * hours.Floor)
  {
    if hours == 0.0 then "0h"
    else if hours < 1.0 then IntToString(Round(hours * 60.0)) + "min"
    else HoursText(SplitHours(hours).0, SplitHours(hours).1)
  }

  /** The rounded fraction can reach a full hour: 2.995 hours reads "2h 60min". */
  lemma FormatHoursSixtyMinutes()
    ensures SplitHours(2.995).1 == 60
    ensures FormatHours(2.995) == "2h 60min"
  {
    assert 2.995.Floor == 2;
    assert Round(0.995 * 60.0) == 60;
    assert IntToString(2) == "2";
    assert NatToString(60) == NatToString(6) + [DigitChar(0)];
    assert IntToString(60) == "60";
  }

  /** Whole hours and minutes from the total rounded to the minute. */
  function SplitMinutes(totalMinutes: int): (p: (int, int))
    requires totalMinutes >= 60
    ensures p.0 >= 1 && 0 <= p.1 < 60
    ensures 60 * p.0 + p.1 == totalMinutes
  {
    (totalMinutes / 60, totalMinutes % 60)
  }

  /** The hours label with the minutes carried into the hours: the duration
      rounded to the nearest minute, never "60min". */
  function FormatHoursWholeMinutes(hours: real): (s: string)
    ensures hours != 0.0 && Round(hours * 60.0) < 60 ==> s == IntToString(Round(hours * 60.0)) + "min"
  {
    if hours == 0.0 then "0h"
    else if Round(hours * 60.0) < 60 then IntToString(Round(hours * 60.0)) + "min"
    else HoursText(SplitMinutes(Round(hours * 60.0)).0, SplitMinutes(Round(hours * 60.0)).1)
  }

  /** The correction changes only the labels that would read "60min": both
      agree wherever the rounded minutes stay under an hour, and where they
      reach it the correction shows the next whole hour. */
  lemma FormatHoursCorrection(hours: real)
    ensures hours < 1.0 && Round(hours * 60.0) < 60 ==> FormatHoursWholeMinutes(hours) == FormatHours(hours)
    ensures hours >= 1.0 && SplitHours(hours).1 < 60 ==> FormatHoursWholeMinutes(hours) == FormatHours(hours)
    ensures hours >= 1.0 && SplitHours(hours).1 == 60 ==>
              FormatHoursWholeMinutes(hours) == IntToString(SplitHours(hours).0 + 1) + "h"
    ensures hours < 1.0 && Round(hours * 60.0) == 60 ==>
              FormatHours(hours) == "60min" && FormatHoursWholeMinutes(hours) == "1h"
  {
    if hours < 1.0 && Round(hours * 60.0) == 60 {
      assert NatToString(60) == NatToString(6) + [DigitChar(0)];
      assert IntToString(60) == "60";
      assert SplitMinutes(60) == (1, 0);
      assert IntToString(1) == "1";
    }
    if hours >= 1.0 {
      var m := Round(hours * 60.0);
      var p := SplitHours(hours);
      assert 60.0 * hours == hours * 60.0;
      if p.1 < 60 {
        assert m / 60 == p.0 && m % 60 == p.1;
      } else {
        assert m == 60 * (p.0 + 1);
        assert m / 60 == p.0 + 1 && m % 60 == 0;
      }
    }
  }

  lemma FormatHoursExamples()
    ensures FormatHours(0.0) == "0h"
    ensures FormatHours(0.5) == "30min"
    ensures FormatHours(3.0) == "3h"
    ensures FormatHours(2.5) == "2h 30min"
  {
    assert NatToString(30) == NatToString(3) + [DigitChar(0)];
    assert IntToString(30) == "30";
    assert Round(0.5 * 60.0) == 30;
    assert SplitHours(3.0) == (3, 0);
    assert IntToString(3) == "3";
    assert SplitHours(2.5) == (2, 30);
    assert IntToString(2) == "2";
  }

  /** `createWorkSession`: a session dated today, stamped now, without an id. */
  function CreateWorkSession(hours: real, description: Option<string>, now: DateTime): (d: WorkSessionDraft)
    ensures d.date == now.date && d.createdAt == now
    ensures d.hours == hours && d.description == description
  {
    WorkSessionDraft(now.date, hours, description, now)
  }

  /** The caller's `{ id, ...draft }`. */
  function WithSessionId(id: string, d: WorkSessionDraft): (s: WorkSession)
    ensures s.id == id && s.date == d.date && s.hours == d.hours
    ensures s.description == d.description && s.createdAt == d.createdAt
  {
    WorkSession(id, d.date, d.hours, d.description, d.createdAt)
  }

  /** Appending a session adds its hours to those of any day it was logged on. */
  lemma AppendSessionToday(goal: Goal, s: WorkSession, day: Date)
    ensures var logged := goal.(workSessions := Some(Sessions(goal) + [s]));
            GetTodayWorkedHours(logged, day) ==
              GetTodayWorkedHours(goal, day) + (if s.date == day then s.hours else 0.0)
  {
    var logged := goal.(workSessions := Some(Sessions(goal) + [s]));
    assert Sessions(logged) == Sessions(goal) + [s];
    FilterSnoc(Sessions(goal), s, LoggedOn(day));
  }

  /** Appending a session adds its hours to the week's when its day is in the week. */
  lemma AppendSessionWeekly(goal: Goal, s: WorkSession, weekStart: DateTime)
    ensures var logged := goal.(workSessions := Some(Sessions(goal) + [s]));
            GetWeeklyWorkedHours(logged, weekStart) ==
              GetWeeklyWorkedHours(goal, weekStart) + (if InWeekFrom(weekStart)(s) then s.hours else 0.0)
  {
    var logged := goal.(workSessions := Some(Sessions(goal) + [s]));
    assert Sessions(logged) == Sessions(goal) + [s];
    FilterSnoc(Sessions(goal), s, InWeekFrom(weekStart));
  }

  /** Appending a session adds one working day unless its date already is one. */
  lemma AppendSessionDays(goal: Goal, s: WorkSession)
    ensures var logged := goal.(workSessions := Some(Sessions(goal) + [s]));
            && s.date in DistinctDates(Sessions(logged))
            && GetWorkingDaysCount(logged) ==
                 GetWorkingDaysCount(goal) + (if s.date in DistinctDates(Sessions(goal)) then 0 else 1)
  {
    var ss := Sessions(goal);
    var logged := goal.(workSessions := Some(ss + [s]));
    assert Sessions(logged) == ss + [s];
    DistinctDatesSnoc(ss, s);
    if s.date !in DistinctDates(ss) {
      assert DistinctDates(ss + [s]) - {s.date} == DistinctDates(ss);
    }
  }

  /** Appending a session adds its hours to the total. */
  lemma AppendSessionTotal(goal: Goal, s: WorkSession)
    ensures var logged := goal.(workSessions := Some(Sessions(goal) + [s]));
            CalculateTotalWorkedHours(logged) == CalculateTotalWorkedHours(goal) + s.hours
  {
    var logged := goal.(workSessions := Some(Sessions(goal) + [s]));
    assert Sessions(logged) == Sessions(goal) + [s];
    SumHoursAppend(Sessions(goal), [s]);
    assert SumHours([s]) == SumHours([s][..0]) + s.hours;
  }

  /** Logging a session of `hours` built from `createWorkSession` (the
      caller's append to the goal's sessions): the total and today's hours
      grow by exactly `hours`, every other day keeps its hours, today counts
      as a working day, and the week's hours grow when today is in the week. */
  lemma LogSessionTotals(goal: Goal, id: string, hours: real, description: Option<string>,
                         now: DateTime, day: Date, weekStart: DateTime)
    ensures var s := WithSessionId(id, CreateWorkSession(hours, description, now));
            var logged := goal.(workSessions := Some(Sessions(goal) + [s]));
            && CalculateTotalWorkedHours(logged) == CalculateTotalWorkedHours(goal) + hours
            && GetTodayWorkedHours(logged, now.date) == GetTodayWorkedHours(goal, now.date) + hours
            && (day != now.date ==> GetTodayWorkedHours(logged, day) == GetTodayWorkedHours(goal, day))
            && now.date in DistinctDates(Sessions(logged))
            && GetWorkingDaysCount(logged) ==
                 GetWorkingDaysCount(goal) + (if now.date in DistinctDates(Sessions(goal)) then 0 else 1)
            && (NotAfter(weekStart, AtMidnight(now.date)) ==>
                  GetWeeklyWorkedHours(logged, weekStart) == GetWeeklyWorkedHours(goal, weekStart) + hours)
            && (!NotAfter(weekStart, AtMidnight(now.date)) ==>
                  GetWeeklyWorkedHours(logged, weekStart) == GetWeeklyWorkedHours(goal, weekStart))
  {
    var s := WithSessionId(id, CreateWorkSession(hours, description, now));
    assert s.date == now.date && s.hours == hours;
    AppendSessionTotal(goal, s);
    AppendSessionToday(goal, s, now.date);
    AppendSessionToday(goal, s, day);
    AppendSessionWeekly(goal, s, weekStart);
    AppendSessionDays(goal, s);
  }
}
