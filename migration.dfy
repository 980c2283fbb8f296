/** Default-filling of goal records written before categories, sub-goals,
    reminders and priorities existed. */
module Migration {
  import opened Wrappers
  import opened Civil
  import opened Models

  /** A goal record as read back from storage: the four fields added in the
      second schema may be missing (`None`). */
  datatype RawGoal = RawGoal(
    id: string,
    title: string,
    description: Option<string>,
    category: Option<GoalCategory>,
    deadline: Instant,
    completedAt: Option<Instant>,
    subGoals: Option<seq<SubGoal>>,
    reminder: Option<Reminder>,
    priority: Option<Priority>,
    tags: Option<seq<string>>,
    estimatedHours: Option<real>,
    actualHours: Option<real>,
    workSessions: Option<seq<WorkSession>>,
    createdAt: Option<Instant>)

  /** A missing category, sub-goal list, reminder or priority; the work
      sessions and the creation stamp are not looked at. */
  predicate NeedsMigration(g: RawGoal)
  {
    g.category.None? || g.subGoals.None? || g.reminder.None? || g.priority.None?
  }

  const DefaultReminder: Reminder := Reminder(false, NoReminder, None, None)

  function MigrateGoalToV2(legacy: RawGoal): (g: Goal)
    ensures g.id == legacy.id && g.title == legacy.title && g.deadline == legacy.deadline
    ensures g.completedAt == legacy.completedAt
    ensures g.category == Personal && g.subGoals == [] && g.reminder == DefaultReminder && g.priority == Medium
    ensures g.description == None && g.tags == None && g.estimatedHours == None && g.actualHours == None
    ensures g.workSessions == None && g.createdAt == None
  {
    Goal(legacy.id, legacy.title, None, Personal, legacy.deadline, legacy.completedAt, [],
         DefaultReminder, Medium, None, None, None, None, None)
  }

  /** A goal seen as a stored record, every field present. */
  function Embed(g: Goal): (r: RawGoal)
    ensures !NeedsMigration(r)
  {
    RawGoal(g.id, g.title, g.description, Some(g.category), g.deadline, g.completedAt,
            Some(g.subGoals), Some(g.reminder), Some(g.priority), g.tags,
            g.estimatedHours, g.actualHours, g.workSessions, g.createdAt)
  }

  /** `goal as Goal` for a record with every second-schema field present. */
  function AsGoal(r: RawGoal): (g: Goal)
    requires !NeedsMigration(r)
    ensures Embed(g) == r
  {
    Goal(r.id, r.title, r.description, r.category.value, r.deadline, r.completedAt,
         r.subGoals.value, r.reminder.value, r.priority.value, r.tags,
         r.estimatedHours, r.actualHours, r.workSessions, r.createdAt)
  }

  /** The migrated record never needs migrating again. */
  lemma MigratedIsCurrent(legacy: RawGoal)
    ensures !NeedsMigration(Embed(MigrateGoalToV2(legacy)))
    ensures AsGoal(Embed(MigrateGoalToV2(legacy))) == MigrateGoalToV2(legacy)
  {
  }

  function MigrateGoal(r: RawGoal): (g: Goal)
    ensures NeedsMigration(r) ==> g == MigrateGoalToV2(r)
    ensures !NeedsMigration(r) ==> Embed(g) == r
  {
    if NeedsMigration(r) then MigrateGoalToV2(r) else AsGoal(r)
  }

  function MigrateGoalsArray(goals: seq<RawGoal>): (r: seq<Goal>)
    ensures |r| == |goals|
    ensures forall i :: 0 <= i < |goals| ==> r[i] == MigrateGoal(goals[i])
  {
    seq(|goals|, i requires 0 <= i < |goals| => MigrateGoal(goals[i]))
  }

  function EmbedAll(goals: seq<Goal>): (r: seq<RawGoal>)
    ensures |r| == |goals|
    ensures forall i :: 0 <= i < |goals| ==> r[i] == Embed(goals[i])
  {
    seq(|goals|, i requires 0 <= i < |goals| => Embed(goals[i]))
  }

  /** Records that are already current come back unchanged, in place. */
  lemma CurrentRecordsUnchanged(goals: seq<RawGoal>, i: int)
    requires 0 <= i < |goals| && !NeedsMigration(goals[i])
    ensures EmbedAll(MigrateGoalsArray(goals))[i] == goals[i]
  {
  }

  /** A list of current records comes back as it was. */
  lemma {:induction false} MigrateCurrentGoals(goals: seq<Goal>)
    ensures MigrateGoalsArray(EmbedAll(goals)) == goals
  {
    var r := MigrateGoalsArray(EmbedAll(goals));
    forall i | 0 <= i < |goals|
      ensures r[i] == goals[i]
    {
      var g := goals[i];
      assert Embed(AsGoal(Embed(g))) == Embed(g);
      EmbedInjective(AsGoal(Embed(g)), g);
    }
  }

  lemma EmbedInjective(a: Goal, b: Goal)
    requires Embed(a) == Embed(b)
    ensures a == b
  {
  }

  /** Migrating the stored form of a migrated list changes nothing. */
  lemma MigrateIdempotent(goals: seq<RawGoal>)
    ensures MigrateGoalsArray(EmbedAll(MigrateGoalsArray(goals))) == MigrateGoalsArray(goals)
  {
    MigrateCurrentGoals(MigrateGoalsArray(goals));
  }
}
