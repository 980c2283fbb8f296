/** The application store: profile, goals and settings, each action replacing
    one field and then writing the whole state through to storage. The id
    generator and the clock are parameters of the actions that use them. */
module Store {
  import opened Wrappers
  import opened Civil
  import opened Models
  import opened Storage

  /** `goals.filter(keep)`, order kept. */
  function FilterGoals(goals: seq<Goal>, keep: Goal -> bool): (r: seq<Goal>)
    ensures |r| <= |goals|
    ensures forall i :: 0 <= i < |r| ==> keep(r[i])
    ensures multiset(r) <= multiset(goals)
    ensures forall i :: 0 <= i < |goals| && keep(goals[i]) ==> goals[i] in r
  {
    if |goals| == 0 then []
    else
      var init := goals[..|goals| - 1];
      var last := goals[|goals| - 1];
      assert goals == init + [last];
      var r := FilterGoals(init, keep);
      assert forall i :: 0 <= i < |init| ==> init[i] == goals[i];
      if keep(last) then r + [last] else r
  }

  /** Filtering a concatenation filters each part and keeps them in order,
      so the kept goals keep their relative order. */
  lemma {:induction false} FilterGoalsAppend(a: seq<Goal>, b: seq<Goal>, keep: Goal -> bool)
    ensures FilterGoals(a + b, keep) == FilterGoals(a, keep) + FilterGoals(b, keep)
  {
    if |b| == 0 {
      assert a + b == a;
    } else {
      var init := b[..|b| - 1];
      var last := b[|b| - 1];
      assert (a + b)[..|a + b| - 1] == a + init;
      assert (a + b)[|a + b| - 1] == last;
      FilterGoalsAppend(a, init, keep);
    }
  }

  /** A filter and its complement split the list: every goal lands in exactly one part. */
  lemma {:induction false} FilterPartition(goals: seq<Goal>, keep: Goal -> bool)
    ensures multiset(FilterGoals(goals, keep)) + multiset(FilterGoals(goals, g => !keep(g))) == multiset(goals)
  {
    if |goals| > 0 {
      var init := goals[..|goals| - 1];
      assert goals == init + [goals[|goals| - 1]];
      FilterPartition(init, keep);
    }
  }

  /** Keeping everything changes nothing. */
  lemma {:induction false} FilterKeepsAll(goals: seq<Goal>, keep: Goal -> bool)
    requires forall i :: 0 <= i < |goals| ==> keep(goals[i])
    ensures FilterGoals(goals, keep) == goals
  {
    if |goals| > 0 {
      var init := goals[..|goals| - 1];
      assert goals == init + [goals[|goals| - 1]];
      FilterKeepsAll(init, keep);
    }
  }

  function IsPending(): Goal -> bool
  {
    (g: Goal) => !IsCompleted(g)
  }

  function IsDone(): Goal -> bool
  {
    (g: Goal) => IsCompleted(g)
  }

  /** `goals.filter(goal => !goal.completedAtISO)` */
  function ActiveGoals(goals: seq<Goal>): (r: seq<Goal>)
    ensures forall i :: 0 <= i < |r| ==> !IsCompleted(r[i])
    ensures forall i :: 0 <= i < |goals| && !IsCompleted(goals[i]) ==> goals[i] in r
  {
    FilterGoals(goals, IsPending())
  }

  /** `goals.filter(goal => goal.completedAtISO)` */
  function CompletedGoals(goals: seq<Goal>): (r: seq<Goal>)
    ensures forall i :: 0 <= i < |r| ==> IsCompleted(r[i])
    ensures forall i :: 0 <= i < |goals| && IsCompleted(goals[i]) ==> goals[i] in r
  {
    FilterGoals(goals, IsDone())
  }

  /** The two selectors partition the goals: each goal is in exactly one of them. */
  lemma SelectorsPartition(goals: seq<Goal>)
    ensures multiset(ActiveGoals(goals)) + multiset(CompletedGoals(goals)) == multiset(goals)
    ensures |ActiveGoals(goals)| + |CompletedGoals(goals)| == |goals|
  {
    FilterPartition(goals, IsPending());
    assert FilterGoals(goals, g => !IsPending()(g)) == FilterGoals(goals, IsDone()) by {
      SameFilter(goals, g => !IsPending()(g), IsDone());
    }
    assert |multiset(ActiveGoals(goals)) + multiset(CompletedGoals(goals))| == |multiset(goals)|;
  }

  lemma {:induction false} SameFilter(goals: seq<Goal>, p: Goal -> bool, q: Goal -> bool)
    requires forall g :: p(g) == q(g)
    ensures FilterGoals(goals, p) == FilterGoals(goals, q)
  {
    if |goals| > 0 {
      SameFilter(goals[..|goals| - 1], p, q);
    }
  }

  /** `goals.map(goal => goal.id === updated.id ? updated : goal)` */
  function ReplaceById(goals: seq<Goal>, updated: Goal): (r: seq<Goal>)
    ensures |r| == |goals|
    ensures forall i :: 0 <= i < |goals| && goals[i].id == updated.id ==> r[i] == updated
    ensures forall i :: 0 <= i < |goals| && goals[i].id != updated.id ==> r[i] == goals[i]
  {
    seq(|goals|, i requires 0 <= i < |goals| => if goals[i].id == updated.id then updated else goals[i])
  }

  /** Updating a goal no one has is a no-op; updating twice is updating once. */
  lemma ReplaceByIdProperties(goals: seq<Goal>, updated: Goal)
    ensures (forall i :: 0 <= i < |goals| ==> goals[i].id != updated.id) ==> ReplaceById(goals, updated) == goals
    ensures ReplaceById(ReplaceById(goals, updated), updated) == ReplaceById(goals, updated)
  {
  }

  /** `goals.map(goal => goal.id === id ? { ...goal, completedAtISO: stamp } : goal)` */
  function SetCompletedAt(goals: seq<Goal>, id: string, stamp: Option<Instant>): (r: seq<Goal>)
    ensures |r| == |goals|
    ensures forall i :: 0 <= i < |goals| && goals[i].id == id ==> r[i] == goals[i].(completedAt := stamp)
    ensures forall i :: 0 <= i < |goals| && goals[i].id != id ==> r[i] == goals[i]
  {
    seq(|goals|, i requires 0 <= i < |goals| => if goals[i].id == id then goals[i].(completedAt := stamp) else goals[i])
  }

  /** Restoring a completed goal gives back the goals it had before it was
      completed, when it was pending then. */
  lemma RestoreUndoesComplete(goals: seq<Goal>, id: string, now: Instant)
    requires forall i :: 0 <= i < |goals| && goals[i].id == id ==> !IsCompleted(goals[i])
    ensures SetCompletedAt(SetCompletedAt(goals, id, Some(now)), id, None) == goals
  {
    var r := SetCompletedAt(SetCompletedAt(goals, id, Some(now)), id, None);
    assert forall i :: 0 <= i < |goals| ==> r[i] == goals[i];
  }

  /** `goals.filter(goal => goal.id !== id)` */
  function RemoveById(goals: seq<Goal>, id: string): (r: seq<Goal>)
    ensures forall i :: 0 <= i < |r| ==> r[i].id != id
    ensures forall i :: 0 <= i < |goals| && goals[i].id != id ==> goals[i] in r
    ensures multiset(r) <= multiset(goals)
  {
    FilterGoals(goals, (g: Goal) => g.id != id)
  }

  /** Deleting an id no goal has is a no-op. */
  lemma RemoveAbsentId(goals: seq<Goal>, id: string)
    requires forall i :: 0 <= i < |goals| ==> goals[i].id != id
    ensures RemoveById(goals, id) == goals
  {
    FilterKeepsAll(goals, (g: Goal) => g.id != id);
  }

  /** Deleting keeps the other goals in their order: it is a prefix-wise filter. */
  lemma {:induction false} RemoveAppend(goals: seq<Goal>, g: Goal, id: string)
    ensures RemoveById(goals + [g], id) == RemoveById(goals, id) + (if g.id != id then [g] else [])
  {
    assert (goals + [g])[..|goals + [g]| - 1] == goals;
  }

  /** `{ ...goal, id: generateId() }` */
  function WithId(goal: Goal, id: string): Goal
  {
    goal.(id := id)
  }

  /** Deleting a goal just added under a fresh id gives back the list as it
      was before the add. */
  lemma DeleteUndoesAdd(goals: seq<Goal>, goal: Goal, freshId: string)
    requires forall i :: 0 <= i < |goals| ==> goals[i].id != freshId
    ensures RemoveById(goals + [WithId(goal, freshId)], freshId) == goals
  {
    RemoveAppend(goals, WithId(goal, freshId), freshId);
    RemoveAbsentId(goals, freshId);
  }

  class AppStore {
    var profile: Option<UserProfile>
    var goals: seq<Goal>
    var settings: UserSettings
    const storage: LocalStore

    /** The envelope a save writes for the current state. */
    function Snapshot(): (e: Envelope)
      reads this
      ensures e.version == Some(1) && e.profile == profile && e.goals == goals && e.settings == Some(settings)
    {
      Envelope(Some(1), profile, goals, Some(settings))
    }

    /** The browser takes the text of the current state, and the codec reads
        it back as that state. */
    predicate Writable()
      reads this
    {
      storage.accepts(storage.serialize(Snapshot())) && RoundTripsAt(storage.parse, storage.serialize, Snapshot())
    }

    /** The browser refuses the text of the current state. */
    predicate Refused()
      reads this
    {
      !storage.accepts(storage.serialize(Snapshot()))
    }

    /** What storage returns on the next load is the in-memory state. */
    ghost predicate Persisted()
      reads this, storage
    {
      storage.LoadFromStorage() == Snapshot()
    }

    constructor(storage: LocalStore)
      ensures profile == None && goals == [] && settings == DefaultSettings
      ensures !HasProfile()
      ensures this.storage == storage
    {
      profile := None;
      goals := [];
      settings := DefaultSettings;
      this.storage := storage;
    }

    /** Writes the whole state through. A refused write is swallowed: the
        slot keeps its old text while memory moves on. */
    method SaveToStorage()
      modifies storage
      ensures Writable() ==> Persisted()
      ensures Refused() ==> storage.stored == old(storage.stored)
    {
      storage.SaveToStorage(Patch(Some(profile), Some(goals), Some(Some(settings))));
    }

    method SetProfile(p: UserProfile)
      modifies this, storage
      ensures profile == Some(p) && goals == old(goals) && settings == old(settings)
      ensures HasProfile()
      ensures Writable() ==> Persisted()
      ensures Refused() ==> storage.stored == old(storage.stored)
    {
      profile := Some(p);
      SaveToStorage();
    }

    /** Appends the goal under the fresh id the generator supplied. */
    method AddGoal(goal: Goal, freshId: string)
      modifies this, storage
      ensures goals == old(goals) + [WithId(goal, freshId)]
      ensures profile == old(profile) && settings == old(settings)
      ensures Writable() ==> Persisted()
      ensures Refused() ==> storage.stored == old(storage.stored)
    {
      goals := goals + [WithId(goal, freshId)];
      SaveToStorage();
    }

    method UpdateGoal(updated: Goal)
      modifies this, storage
      ensures goals == ReplaceById(old(goals), updated)
      ensures profile == old(profile) && settings == old(settings)
      ensures Writable() ==> Persisted()
      ensures Refused() ==> storage.stored == old(storage.stored)
    {
      goals := ReplaceById(goals, updated);
      SaveToStorage();
    }

    /** Stamps the matching goals as completed at `now`. */
    method CompleteGoal(id: string, now: Instant)
      modifies this, storage
      ensures goals == SetCompletedAt(old(goals), id, Some(now))
      ensures profile == old(profile) && settings == old(settings)
      ensures Writable() ==> Persisted()
      ensures Refused() ==> storage.stored == old(storage.stored)
    {
      goals := SetCompletedAt(goals, id, Some(now));
      SaveToStorage();
    }

    method RestoreGoal(id: string)
      modifies this, storage
      ensures goals == SetCompletedAt(old(goals), id, None)
      ensures profile == old(profile) && settings == old(settings)
      ensures Writable() ==> Persisted()
      ensures Refused() ==> storage.stored == old(storage.stored)
    {
      goals := SetCompletedAt(goals, id, None);
      SaveToStorage();
    }

    method DeleteGoal(id: string)
      modifies this, storage
      ensures goals == RemoveById(old(goals), id)
      ensures profile == old(profile) && settings == old(settings)
      ensures Writable() ==> Persisted()
      ensures Refused() ==> storage.stored == old(storage.stored)
    {
      goals := RemoveById(goals, id);
      SaveToStorage();
    }

    method SetTheme(themeId: string)
      modifies this, storage
      ensures settings == old(settings).(themeId := themeId)
      ensures profile == old(profile) && goals == old(goals)
      ensures Writable() ==> Persisted()
      ensures Refused() ==> storage.stored == old(storage.stored)
    {
      settings := settings.(themeId := themeId);
      SaveToStorage();
    }

    /** The image is kept in memory even when its text is too large for the
        browser to store. */
    method SetBackgroundImage(imageUrl: string)
      modifies this, storage
      ensures settings == old(settings).(backgroundImage := Some(imageUrl))
      ensures profile == old(profile) && goals == old(goals)
      ensures Writable() ==> Persisted()
      ensures Refused() ==> storage.stored == old(storage.stored)
    {
      settings := settings.(backgroundImage := Some(imageUrl));
      SaveToStorage();
    }

    /** Takes profile, goals and settings from storage, falling back to the
        turquoise theme when no settings are stored. After a save that
        landed, reloading changes nothing. */
    method LoadFromStorage()
      modifies this
      ensures profile == storage.LoadFromStorage().profile
      ensures goals == storage.LoadFromStorage().goals
      ensures settings == storage.LoadFromStorage().settings.GetOr(DefaultSettings)
      ensures HasProfile() <==> storage.LoadFromStorage().profile.Some?
      ensures old(Persisted()) ==> profile == old(profile) && goals == old(goals) && settings == old(settings)
    {
      var data := storage.LoadFromStorage();
      profile := data.profile;
      goals := data.goals;
      settings := data.settings.GetOr(DefaultSettings);
    }

    /** `!!state.profile`: onboarding is done. */
    function HasProfile(): bool
      reads this
    {
      profile.Some?
    }
  }
}
