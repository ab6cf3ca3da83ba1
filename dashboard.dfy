/** The status filter of components/Dashboard.tsx (`filteredTasks`). */
module Dashboard {

  import opened Types
  import opened Seqs
  import opened Tasks

  /** `FilterType`: every task, or one status. */
  datatype FilterType = All | Only(status: TaskStatus)

  function FilteredTasks(tasks: seq<Task>, activeFilter: FilterType): (shown: seq<Task>)
    ensures |shown| <= |tasks|
    ensures forall t :: t in shown ==> t in tasks
  {
    match activeFilter
    case All => tasks
    case Only(status) =>
      FilterMembership(StatusIs(Str(status.Text())), tasks);
      Filter(StatusIs(Str(status.Text())), tasks)
  }

  lemma AllShowsEverything(tasks: seq<Task>)
    ensures FilteredTasks(tasks, All) == tasks
  {
  }

  /** A status filter shows exactly the tasks with that status, each as often as it occurs. */
  lemma OnlyShowsThatStatus(tasks: seq<Task>, status: TaskStatus)
    ensures var shown := FilteredTasks(tasks, Only(status));
            && (forall t :: t in shown ==> t.status == Str(status.Text()))
            && (forall t :: t in tasks && t.status == Str(status.Text()) ==> t in shown)
            && (forall t :: multiset(shown)[t] == if t.status == Str(status.Text()) then multiset(tasks)[t] else 0)
  {
    FilterCounts(StatusIs(Str(status.Text())), tasks);
    FilterMembership(StatusIs(Str(status.Text())), tasks);
  }

  /** Whatever the filter, the shown tasks are an order-preserving subsequence of the list. */
  lemma ShownIsSubsequence(tasks: seq<Task>, activeFilter: FilterType)
    ensures var shown := FilteredTasks(tasks, activeFilter);
            IsSubsequence(shown, tasks) && |shown| <= |tasks|
  {
    if activeFilter.Only? {
      FilterIsSubsequence(StatusIs(Str(activeFilter.status.Text())), tasks);
    } else {
      SubsequenceOfItself(tasks);
    }
  }

  lemma {:induction false} SubsequenceOfItself(s: seq<Task>)
    ensures IsSubsequence(s, s)
  {
    if s != [] {
      SubsequenceOfItself(s[1..]);
    }
  }

  /** The three status filters split the list: together they show every well-typed task once. */
  lemma {:induction false} StatusFiltersPartition(tasks: seq<Task>)
    requires AllWellTyped(tasks)
    ensures |FilteredTasks(tasks, Only(Pending))| + |FilteredTasks(tasks, Only(InProgress))|
            + |FilteredTasks(tasks, Only(Completed))| == |tasks|
  {
    if tasks != [] {
      assert forall i :: 0 <= i < |tasks[1..]| ==> tasks[1..][i] == tasks[i + 1];
      StatusFiltersPartition(tasks[1..]);
      assert WellTyped(tasks[0]);
    }
  }

  /** The dashboard's status filter and getTasks with that status agree. */
  lemma DashboardMatchesGetTasks(tasks: seq<Task>, status: TaskStatus)
    ensures FilteredTasks(tasks, Only(status)) == Query(tasks, Str(status.Text())).reply.tasks
  {
  }
}
