/** The values the client component derives from its task list on every
    render (the filtered view and the counters) and the pure pieces of its
    handlers (the toggle target and the two list updates). */
module TaskView {
  import opened TaskModel
  import opened JsStrings
  import opened JsArrays

  /** `filter === 'all' || task.status === filter`. */
  predicate MatchesFilter(t: Task, filter: string)
  {
    filter == "all" || t.status == filter
  }

  /** Case-insensitive search in the title, or in the description when it
      is not null. */
  predicate MatchesSearch(t: Task, query: string)
  {
    || Includes(Lower(t.title), Lower(query))
    || (t.description.Some? && Includes(Lower(t.description.value), Lower(query)))
  }

  predicate Shown(t: Task, filter: string, query: string)
  {
    MatchesFilter(t, filter) && MatchesSearch(t, query)
  }

  /** `filteredTasks`: exactly the tasks passing the status filter and the
      search. */
  function FilteredTasks(tasks: seq<Task>, filter: string, query: string): (r: seq<Task>)
    ensures |r| <= |tasks|
    ensures forall i :: 0 <= i < |r| ==> r[i] in tasks && Shown(r[i], filter, query)
    ensures forall i :: 0 <= i < |tasks| && Shown(tasks[i], filter, query) ==> tasks[i] in r
    ensures forall t :: multiset(r)[t] == if Shown(t, filter, query) then multiset(tasks)[t] else 0
  {
    FilterMultiset(tasks, t => Shown(t, filter, query));
    Filter(tasks, t => Shown(t, filter, query))
  }

  /** The view keeps the list's order. */
  lemma FilteredIsSubsequence(tasks: seq<Task>, filter: string, query: string)
    ensures SubsequenceOf(FilteredTasks(tasks, filter, query), tasks)
  {
    FilterIsSubsequence(tasks, t => Shown(t, filter, query));
  }

  /** With filter `'all'` and an empty search the view is the whole list. */
  lemma UnfilteredViewIsWholeList(tasks: seq<Task>)
    ensures FilteredTasks(tasks, "all", "") == tasks
  {
    forall i | 0 <= i < |tasks| ensures Shown(tasks[i], "all", "") {
      IncludesEmpty(Lower(tasks[i].title));
    }
    FilterKeepsAll(tasks, t => Shown(t, "all", ""));
  }

  /** A query matches a title regardless of letter case: `"wal"` finds
      `"Walk dog"`. */
  lemma SearchIgnoresCase()
    ensures MatchesSearch(Task("1", "Walk dog", None, "open"), "wal")
  {
    var lowered := Lower("Walk dog");
    assert lowered[..3] == "wal";
  }

  /** The search is blind to the query's letter case: a query and its
      lowercased form match the same tasks. */
  lemma SearchIgnoresQueryCase(t: Task, query: string)
    ensures MatchesSearch(t, query) <==> MatchesSearch(t, Lower(query))
  {
    LowerIdempotent(query);
  }

  datatype Stats = Stats(total: nat, completed: nat, pending: nat)

  predicate IsCompleted(t: Task) { t.status == "completed" }

  predicate IsPending(t: Task) { t.status == "pending" }

  /** `stats`: the list length and the number of tasks whose status is
      `'completed'` and `'pending'`; tasks with any other status fall in
      neither bucket. */
  function TaskStats(tasks: seq<Task>): (r: Stats)
    ensures r.total == |tasks|
    ensures r.completed + r.pending <= r.total
  {
    DisjointFilterCounts(tasks, IsCompleted, IsPending);
    Stats(|tasks|, |Filter(tasks, IsCompleted)|, |Filter(tasks, IsPending)|)
  }

  /** The two buckets add up to the total exactly when every status is
      `'completed'` or `'pending'`. */
  lemma StatsBucketsCoverIff(tasks: seq<Task>)
    ensures TaskStats(tasks).completed + TaskStats(tasks).pending == TaskStats(tasks).total
            <==> forall i :: 0 <= i < |tasks| ==> tasks[i].status in {"completed", "pending"}
  {
    DisjointFilterCounts(tasks, IsCompleted, IsPending);
  }

  /** Statuses in the server's vocabulary are counted in neither bucket. */
  lemma ServerStatusesUncounted(tasks: seq<Task>)
    requires forall i :: 0 <= i < |tasks| ==> tasks[i].status in {"open", "in_progress", "done"}
    ensures TaskStats(tasks) == Stats(|tasks|, 0, 0)
  {
    FilterDropsAll(tasks, IsCompleted);
    FilterDropsAll(tasks, IsPending);
  }

  /** The status a toggle asks for. */
  function ToggleTarget(status: string): (r: string)
    ensures r == "pending" <==> status == "completed"
    ensures r == "completed" <==> status != "completed"
  {
    if status == "completed" then "pending" else "completed"
  }

  /** Toggling twice is the identity on the client's two statuses. */
  lemma ToggleTwice(status: string)
    requires status == "pending" || status == "completed"
    ensures ToggleTarget(ToggleTarget(status)) == status
  {
  }

  /** Any other status (the server's `'open'`, `'in_progress'`, `'done'`)
      toggles to `'completed'` and then to `'pending'`, never back. */
  lemma ToggleTwiceLeavesOtherStatuses(status: string)
    requires status != "pending" && status != "completed"
    ensures ToggleTarget(status) == "completed"
    ensures ToggleTarget(ToggleTarget(status)) == "pending" != status
  {
  }

  /** `tasks.map(t => t.id === id ? updated : t)`. */
  function ReplaceById(tasks: seq<Task>, id: string, updated: Task): (r: seq<Task>)
    ensures |r| == |tasks|
    ensures forall i :: 0 <= i < |tasks| && tasks[i].id == id ==> r[i] == updated
    ensures forall i :: 0 <= i < |tasks| && tasks[i].id != id ==> r[i] == tasks[i]
  {
    Map(tasks, (t: Task) => if t.id == id then updated else t)
  }

  /** Replacing an id the list does not hold changes nothing. */
  lemma ReplaceAbsentId(tasks: seq<Task>, id: string, updated: Task)
    requires forall i :: 0 <= i < |tasks| ==> tasks[i].id != id
    ensures ReplaceById(tasks, id, updated) == tasks
  {
  }

  /** `tasks.filter(t => t.id !== id)`: every entry with that id goes, the
      others stay in order. */
  function RemoveById(tasks: seq<Task>, id: string): (r: seq<Task>)
    ensures forall i :: 0 <= i < |r| ==> r[i] in tasks && r[i].id != id
    ensures forall i :: 0 <= i < |tasks| && tasks[i].id != id ==> tasks[i] in r
    ensures SubsequenceOf(r, tasks)
    ensures forall t :: multiset(r)[t] == if t.id != id then multiset(tasks)[t] else 0
  {
    FilterIsSubsequence(tasks, (t: Task) => t.id != id);
    FilterMultiset(tasks, (t: Task) => t.id != id);
    Filter(tasks, (t: Task) => t.id != id)
  }

  /** Removing an id the list does not hold changes nothing. */
  lemma RemoveAbsentId(tasks: seq<Task>, id: string)
    requires forall i :: 0 <= i < |tasks| ==> tasks[i].id != id
    ensures RemoveById(tasks, id) == tasks
  {
    FilterKeepsAll(tasks, (t: Task) => t.id != id);
  }
}
