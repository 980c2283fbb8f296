/** The goal list: pending and completed goals split apart, the pending ones
    sorted soonest deadline first, the completed ones most recent first, and
    the tab that chooses which list is shown. */
module GoalList {
  import opened Wrappers
  import opened Civil
  import opened Models
  import opened Time
  import opened Store

  predicate SortedBy(s: seq<Goal>, key: Goal -> int)
  {
    forall p, q :: 0 <= p < q < |s| ==> key(s[p]) <= key(s[q])
  }

  /** Exchanges two neighbours. */
  method SwapDown(a: array<Goal>, j: int)
    requires 0 < j < a.Length
    modifies a
    ensures a[..] == old(a[..])[j - 1 := old(a[j])][j := old(a[j - 1])]
    ensures multiset(a[..]) == multiset(old(a[..]))
  {
    a[j - 1], a[j] := a[j], a[j - 1];
  }

  /** Moves `a[i]` down past every larger key, so that `a[..i + 1]` is sorted. */
  method InsertDown(a: array<Goal>, i: int, key: Goal -> int)
    requires 0 <= i < a.Length
    requires SortedBy(a[..i], key)
    modifies a
    ensures SortedBy(a[..i + 1], key)
    ensures multiset(a[..]) == multiset(old(a[..]))
  {
    var j := i;
    while j > 0 && key(a[j - 1]) > key(a[j])
      invariant 0 <= j <= i
      invariant forall p, q :: 0 <= p < q <= i && p != j && q != j ==> key(a[p]) <= key(a[q])
      invariant forall q :: j < q <= i ==> key(a[j]) <= key(a[q])
      invariant multiset(a[..]) == multiset(old(a[..]))
    {
      SwapDown(a, j);
      j := j - 1;
    }
  }

  /** `Array.prototype.sort` with a comparator that subtracts the keys,
      written as an insertion sort. */
  method SortByKey(a: array<Goal>, key: Goal -> int)
    modifies a
    ensures SortedBy(a[..], key)
    ensures multiset(a[..]) == multiset(old(a[..]))
  {
    var i := 0;
    while i < a.Length
      invariant 0 <= i <= a.Length
      invariant SortedBy(a[..i], key)
      invariant multiset(a[..]) == multiset(old(a[..]))
    {
      InsertDown(a, i, key);
      i := i + 1;
    }
    assert a[..a.Length] == a[..];
  }

  /** The comparator key of a pending goal: the countdown's total milliseconds. */
  function PendingKey(now: Instant): Goal -> int
  {
    (g: Goal) => DiffNowTo(g.deadline, now).totalMs
  }

  /** The comparator key of a completed goal: its completion instant, negated
      so that ascending keys mean most recent first. */
  function CompletedKey(): Goal -> int
  {
    (g: Goal) => -g.completedAt.GetOr(0)
  }

  predicate EarliestDeadlineFirst(s: seq<Goal>)
  {
    forall p, q :: 0 <= p < q < |s| ==> s[p].deadline <= s[q].deadline
  }

  predicate MostRecentFirst(s: seq<Goal>)
  {
    forall p, q :: 0 <= p < q < |s| ==> s[p].completedAt.GetOr(0) >= s[q].completedAt.GetOr(0)
  }

  /** Ordering by countdown is ordering by deadline, and an overdue goal is
      never behind one that is not. */
  lemma PendingOrder(s: seq<Goal>, now: Instant)
    requires SortedBy(s, PendingKey(now))
    ensures EarliestDeadlineFirst(s)
    ensures forall p, q :: 0 <= p < q < |s| && IsOverdue(DiffNowTo(s[q].deadline, now)) ==>
              IsOverdue(DiffNowTo(s[p].deadline, now))
  {
    forall p, q | 0 <= p < q < |s|
      ensures s[p].deadline <= s[q].deadline
    {
      assert PendingKey(now)(s[p]) <= PendingKey(now)(s[q]);
    }
  }

  lemma CompletedOrder(s: seq<Goal>)
    requires SortedBy(s, CompletedKey())
    ensures MostRecentFirst(s)
  {
    forall p, q | 0 <= p < q < |s|
      ensures s[p].completedAt.GetOr(0) >= s[q].completedAt.GetOr(0)
    {
      assert CompletedKey()(s[p]) <= CompletedKey()(s[q]);
    }
  }

  method SortedCopy(s: seq<Goal>, key: Goal -> int) returns (r: seq<Goal>)
    ensures SortedBy(r, key)
    ensures multiset(r) == multiset(s)
  {
    var a := new Goal[|s|](i requires 0 <= i < |s| => s[i]);
    assert a[..] == s;
    SortByKey(a, key);
    r := a[..];
  }

  /** The memoised lists: the filtered copies, sorted; the input is not reordered. */
  method PartitionAndSort(goals: seq<Goal>, now: Instant) returns (pending: seq<Goal>, completed: seq<Goal>)
    ensures multiset(pending) == multiset(ActiveGoals(goals))
    ensures multiset(completed) == multiset(CompletedGoals(goals))
    ensures multiset(pending) + multiset(completed) == multiset(goals)
    ensures forall i :: 0 <= i < |pending| ==> !IsCompleted(pending[i])
    ensures forall i :: 0 <= i < |completed| ==> IsCompleted(completed[i])
    ensures EarliestDeadlineFirst(pending)
    ensures forall p, q :: 0 <= p < q < |pending| && IsOverdue(DiffNowTo(pending[q].deadline, now)) ==>
              IsOverdue(DiffNowTo(pending[p].deadline, now))
    ensures MostRecentFirst(completed)
  {
    pending := SortedCopy(ActiveGoals(goals), PendingKey(now));
    completed := SortedCopy(CompletedGoals(goals), CompletedKey());
    SelectorsPartition(goals);
    PendingOrder(pending, now);
    CompletedOrder(completed);
    assert forall i :: 0 <= i < |pending| ==> pending[i] in multiset(ActiveGoals(goals));
    assert forall i :: 0 <= i < |completed| ==> completed[i] in multiset(CompletedGoals(goals));
  }

  datatype Tab = PendingTab | CompletedTab

  /** The list's own state: which tab is active. */
  class GoalListView {
    var activeTab: Tab

    constructor()
      ensures activeTab == PendingTab
    {
      activeTab := PendingTab;
    }

    method SetActiveTab(tab: Tab)
      modifies this
      ensures activeTab == tab
    {
      activeTab := tab;
    }

    /** `currentGoals`: the list the active tab selects. */
    function CurrentGoals(pending: seq<Goal>, completed: seq<Goal>): (shown: seq<Goal>)
      reads this
      ensures activeTab == PendingTab ==> shown == pending
      ensures activeTab == CompletedTab ==> shown == completed
    {
      if activeTab == PendingTab then pending else completed
    }

    /** What the list renders for `goals`: the active tab's goals, in that
        tab's order. The pending tab shows exactly the pending goals, earliest
        deadline first and overdue ones ahead; the completed tab shows exactly
        the completed goals, most recently completed first. */
    method VisibleGoals(goals: seq<Goal>, now: Instant) returns (shown: seq<Goal>)
      ensures activeTab == PendingTab ==>
                && multiset(shown) == multiset(ActiveGoals(goals))
                && EarliestDeadlineFirst(shown)
                && forall p, q :: 0 <= p < q < |shown| && IsOverdue(DiffNowTo(shown[q].deadline, now)) ==>
                     IsOverdue(DiffNowTo(shown[p].deadline, now))
      ensures activeTab == CompletedTab ==>
                && multiset(shown) == multiset(CompletedGoals(goals))
                && MostRecentFirst(shown)
      ensures forall i :: 0 <= i < |shown| ==> (IsCompleted(shown[i]) <==> activeTab == CompletedTab)
    {
      var pending, completed := PartitionAndSort(goals, now);
      shown := CurrentGoals(pending, completed);
    }
  }

  /** The counts on the two tabs add up to the number of goals. */
  lemma TabCounts(goals: seq<Goal>)
    ensures |ActiveGoals(goals)| + |CompletedGoals(goals)| == |goals|
  {
    SelectorsPartition(goals);
  }
}
