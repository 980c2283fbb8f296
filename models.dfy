/** The records the application keeps: profile, goals with their sub-goals,
    reminders and work sessions, and the settings. Instants are milliseconds
    since the epoch; an absent, null or empty ISO string is `None`. */
module Models {
  import opened Wrappers
  import opened Civil

  datatype Sex = Male | Female

  datatype UserProfile = UserProfile(
    birth: DateTime,
    sex: Sex,
    nationalityCode: Option<string>,
    lifeExpectancyYears: int)

  datatype GoalCategory = Work | Personal | Health | Learning | Other

  datatype Priority = Low | Medium | High

  datatype Frequency = NoReminder | Daily | Weekly | Custom

  datatype Reminder = Reminder(
    enabled: bool,
    frequency: Frequency,
    customDays: Option<int>,
    lastNotified: Option<Instant>)

  datatype SubGoal = SubGoal(id: string, title: string, completed: bool, completedAt: Option<Instant>)

  /** A sub-goal before its id is attached (`Omit<SubGoal, 'id'>`). */
  datatype SubGoalDraft = SubGoalDraft(title: string, completed: bool)

  /** A logged stretch of work; `date` is the local calendar day it was logged on. */
  datatype WorkSession = WorkSession(
    id: string,
    date: Date,
    hours: real,
    description: Option<string>,
    createdAt: DateTime)

  /** A work session before its id is attached (`Omit<WorkSession, 'id'>`). */
  datatype WorkSessionDraft = WorkSessionDraft(date: Date, hours: real, description: Option<string>, createdAt: DateTime)

  /** A goal as the application reads it: the four declared fields plus every
      field the components and engines use. */
  datatype Goal = Goal(
    id: string,
    title: string,
    description: Option<string>,
    category: GoalCategory,
    deadline: Instant,
    completedAt: Option<Instant>,
    subGoals: seq<SubGoal>,
    reminder: Reminder,
    priority: Priority,
    tags: Option<seq<string>>,
    estimatedHours: Option<real>,
    actualHours: Option<real>,
    workSessions: Option<seq<WorkSession>>,
    createdAt: Option<Instant>)

  datatype UserSettings = UserSettings(themeId: string, backgroundImage: Option<string>)

  /** The goal counts as done: its completion stamp is truthy. */
  predicate IsCompleted(g: Goal)
  {
    g.completedAt.Some?
  }
}
