/** The progress engine: completion percentage from sub-goals, with manual
    completion overriding them, and the auto-completion signal. */
module Progress {
  import opened Wrappers
  import opened Strings
  import opened Models

  datatype GoalProgress = GoalProgress(completed: int, total: int, percentage: int, isComplete: bool)

  /** `subGoals.filter(sub => sub.completed).length` */
  function CountCompleted(subs: seq<SubGoal>): (n: nat)
    ensures n <= |subs|
    ensures n == |subs| <==> forall i :: 0 <= i < |subs| ==> subs[i].completed
  {
    if |subs| == 0 then 0
    else CountCompleted(subs[..|subs| - 1]) + (if subs[|subs| - 1].completed then 1 else 0)
  }

  /** `Math.round(num / den)`: the nearest integer, halves rounded up. */
  function RoundRatio(num: int, den: int): (p: int)
    requires den > 0
    ensures 2 * den * p <= 2 * num + den < 2 * den * (p + 1)
  {
    (2 * num + den) / (2 * den)
  }

  /** `Math.round((completed / total) * 100)` */
  function Percentage(completed: nat, total: nat): (p: int)
    requires 0 < total && completed <= total
    ensures 2 * total * p <= 200 * completed + total < 2 * total * (p + 1)
    ensures 0 <= p <= 100
  {
    var p := RoundRatio(100 * completed, total);
    assert 2 * total * p < 2 * total * 101;
    CancelFactor(2 * total, p, 101);
    assert 2 * total * 0 < 2 * total * (p + 1);
    CancelFactor(2 * total, 0, p + 1);
    p
  }

  function CalculateGoalProgress(goal: Goal): (r: GoalProgress)
    ensures 0 <= r.percentage <= 100
    ensures r.isComplete <==> r.percentage == 100
    ensures IsCompleted(goal) ==>
              r == GoalProgress(|goal.subGoals|, |goal.subGoals|, 100, true)
    ensures !IsCompleted(goal) && goal.subGoals == [] ==> r == GoalProgress(0, 1, 0, false)
    ensures !IsCompleted(goal) && goal.subGoals != [] ==>
              && r.completed == CountCompleted(goal.subGoals)
              && r.total == |goal.subGoals|
              && 2 * r.total * r.percentage <= 200 * r.completed + r.total < 2 * r.total * (r.percentage + 1)
  {
    if IsCompleted(goal) then
      GoalProgress(|goal.subGoals|, |goal.subGoals|, 100, true)
    else if |goal.subGoals| == 0 then
      GoalProgress(0, 1, 0, false)
    else
      var completed := CountCompleted(goal.subGoals);
      var total := |goal.subGoals|;
      var percentage := Percentage(completed, total);
      GoalProgress(completed, total, percentage, percentage == 100)
  }

  /** Rounding reaches 100 only when every sub-goal is done, as long as there are
      fewer than 200 of them. */
  lemma HundredIffAllDone(completed: nat, total: nat)
    requires 0 < total < 200 && completed <= total
    ensures Percentage(completed, total) == 100 <==> completed == total
  {
    var p := Percentage(completed, total);
    if completed == total {
      assert 2 * total * p < 2 * total * 101;
      CancelFactor(2 * total, p, 101);
      assert 2 * total * 100 < 2 * total * (p + 1);
      CancelFactor(2 * total, 100, p + 1);
    } else {
      assert 200 * completed + total <= 201 * total - 200 < 2 * total * 100;
      CancelFactor(2 * total, p, 100);
    }
  }

  /** From 200 sub-goals on, one left undone still rounds to 100. */
  lemma HundredWithOneLeft(total: nat)
    requires total >= 200
    ensures Percentage(total - 1, total) == 100
  {
    var p := Percentage(total - 1, total);
    assert 2 * total * 100 <= 200 * (total - 1) + total < 2 * total * 101;
    CancelFactor(2 * total, p, 101);
    CancelFactor(2 * total, 100, p + 1);
  }

  /** A positive factor can be cancelled from a strict inequality. */
  lemma CancelFactor(a: int, x: int, y: int)
    requires a > 0 && a * x < a * y
    ensures x < y
  {
  }

  /** The policy signal: every sub-goal done (at 100 percent) on a goal that is
      still pending and has sub-goals. */
  function ShouldAutoCompleteGoal(goal: Goal): (b: bool)
    ensures b <==> CalculateGoalProgress(goal).percentage == 100 && !IsCompleted(goal) && |goal.subGoals| > 0
    ensures IsCompleted(goal) ==> !b
  {
    var progress := CalculateGoalProgress(goal);
    progress.percentage == 100 && !IsCompleted(goal) && |goal.subGoals| > 0
  }

  /** With fewer than 200 sub-goals, the signal fires exactly when a pending goal
      has sub-goals and all of them are done. */
  lemma AutoCompleteIffAllDone(goal: Goal)
    requires |goal.subGoals| < 200
    ensures ShouldAutoCompleteGoal(goal) <==>
              !IsCompleted(goal) && |goal.subGoals| > 0
              && forall i :: 0 <= i < |goal.subGoals| ==> goal.subGoals[i].completed
  {
    if !IsCompleted(goal) && |goal.subGoals| > 0 {
      HundredIffAllDone(CountCompleted(goal.subGoals), |goal.subGoals|);
    }
  }

  function GetProgressColor(percentage: int): (c: string)
  {
    if percentage == 0 then "bg-gray-200"
    else if percentage < 25 then "bg-red-500"
    else if percentage < 50 then "bg-orange-500"
    else if percentage < 75 then "bg-yellow-500"
    else if percentage < 100 then "bg-blue-500"
    else "bg-green-500"
  }

  /** The colour scale, lowest first. */
  function ColorRank(c: string): int
  {
    if c == "bg-gray-200" then 0
    else if c == "bg-red-500" then 1
    else if c == "bg-orange-500" then 2
    else if c == "bg-yellow-500" then 3
    else if c == "bg-blue-500" then 4
    else 5
  }

  /** More progress never shows a lower colour on the scale. */
  lemma ProgressColorMonotone(a: int, b: int)
    requires 0 <= a <= b
    ensures ColorRank(GetProgressColor(a)) <= ColorRank(GetProgressColor(b))
  {
  }

  /** Gray only for nothing done, green from 100 on. */
  lemma ProgressColorEnds(p: int)
    ensures GetProgressColor(p) == "bg-gray-200" <==> p == 0
    ensures GetProgressColor(p) == "bg-green-500" <==> p >= 100
  {
  }

  function GetProgressText(progress: GoalProgress): string
  {
    if progress.total == 1 then
      (if progress.isComplete then "Completado" else "Pendiente")
    else
      IntToString(progress.completed) + "/" + IntToString(progress.total) + " pasos"
  }

  /** A goal without sub-goals reads "Pendiente" while pending; once completed it
      reports "0/0 pasos", because the completed branch sets the total to zero. */
  lemma ProgressTextWithoutSubGoals(goal: Goal)
    requires goal.subGoals == []
    ensures !IsCompleted(goal) ==> GetProgressText(CalculateGoalProgress(goal)) == "Pendiente"
    ensures IsCompleted(goal) ==> GetProgressText(CalculateGoalProgress(goal)) == "0/0 pasos"
  {
    assert IntToString(0) == "0";
  }

  function CreateDefaultSubGoal(title: string): (d: SubGoalDraft)
    ensures d.title == title && !d.completed
  {
    SubGoalDraft(title, false)
  }

  /** A goal with a single sub-goal reads "Completado" or "Pendiente" after
      that sub-goal (or after the goal itself, once it is completed). */
  lemma ProgressTextOneSubGoal(goal: Goal)
    requires |goal.subGoals| == 1
    ensures GetProgressText(CalculateGoalProgress(goal)) ==
              if IsCompleted(goal) || goal.subGoals[0].completed then "Completado" else "Pendiente"
  {
    if !IsCompleted(goal) {
      var c := CountCompleted(goal.subGoals);
      assert c == CountCompleted(goal.subGoals[..0]) + (if goal.subGoals[0].completed then 1 else 0);
      HundredIffAllDone(c, 1);
    }
  }

  /** With two or more sub-goals the text counts the completed ones. */
  lemma ProgressTextCountsSteps(goal: Goal)
    requires |goal.subGoals| >= 2 && !IsCompleted(goal)
    ensures GetProgressText(CalculateGoalProgress(goal)) ==
              IntToString(CountCompleted(goal.subGoals)) + "/" + IntToString(|goal.subGoals|) + " pasos"
  {
  }

  lemma {:induction false} CountCompletedAppend(subs: seq<SubGoal>, s: SubGoal)
    ensures CountCompleted(subs + [s]) == CountCompleted(subs) + (if s.completed then 1 else 0)
  {
    assert (subs + [s])[..|subs + [s]| - 1] == subs;
  }

  /** Adding a fresh sub-goal built by `createDefaultSubGoal` (the caller
      supplies the id): the completed count is unchanged, the total grows by
      one, and a pending goal then has a step left to do, so with fewer than
      200 steps it is not signalled for auto-completion. */
  lemma AddDefaultSubGoal(goal: Goal, title: string, id: string)
    ensures var d := CreateDefaultSubGoal(title);
            var added := goal.(subGoals := goal.subGoals + [SubGoal(id, d.title, d.completed, None)]);
            && CountCompleted(added.subGoals) == CountCompleted(goal.subGoals)
            && (!IsCompleted(goal) ==> CalculateGoalProgress(added).total == |goal.subGoals| + 1)
            && (|added.subGoals| < 200 ==> !ShouldAutoCompleteGoal(added))
  {
    var d := CreateDefaultSubGoal(title);
    var s := SubGoal(id, d.title, d.completed, None);
    var added := goal.(subGoals := goal.subGoals + [s]);
    CountCompletedAppend(goal.subGoals, s);
    if |added.subGoals| < 200 {
      AutoCompleteIffAllDone(added);
      assert !added.subGoals[|goal.subGoals|].completed;
    }
  }
}
