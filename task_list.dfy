/**
 * The task list view: a choice between a spinner, an error banner, an empty
 * state and the list, which is split into an "Active" and a "Completed"
 * section, each keeping the order the controller holds.
 */
module TaskList {
  import opened Wrappers
  import opened Types
  import opened Filtering
  import opened Text

  datatype Heading = Active | Completed

  /** One rendered section: its heading, shown with the count `|items|`, and its items. */
  datatype Section = Section(heading: Heading, items: seq<Task>)

  datatype View =
    | Spinner
    | ErrorBanner(message: string)
    | EmptyState
    | Sections(sections: seq<Section>)

  predicate IsActive(t: Task) {
    !t.completed
  }

  predicate IsCompleted(t: Task) {
    t.completed
  }

  /** `tasks.filter(t => !t.completed)`. */
  function ActiveTasks(tasks: seq<Task>): (r: seq<Task>)
    ensures forall i :: 0 <= i < |r| ==> !r[i].completed
  {
    Filter(tasks, IsActive)
  }

  /** `tasks.filter(t => t.completed)`. */
  function CompletedTasks(tasks: seq<Task>): (r: seq<Task>)
    ensures forall i :: 0 <= i < |r| ==> r[i].completed
  {
    Filter(tasks, IsCompleted)
  }

  /**
   * The two partitions split the list: every task is in exactly one of them,
   * as often as in the list, so their lengths add up to the list's.
   */
  lemma PartitionCovers(tasks: seq<Task>)
    ensures |ActiveTasks(tasks)| + |CompletedTasks(tasks)| == |tasks|
    ensures multiset(ActiveTasks(tasks)) + multiset(CompletedTasks(tasks)) == multiset(tasks)
    ensures forall t :: t in tasks ==> (t in ActiveTasks(tasks) <==> t !in CompletedTasks(tasks))
  {
    FilterPartition(tasks, IsActive, IsCompleted);
  }

  /** Both partitions keep the list's order: they distribute over concatenation. */
  lemma PartitionKeepsOrder(a: seq<Task>, b: seq<Task>)
    ensures ActiveTasks(a + b) == ActiveTasks(a) + ActiveTasks(b)
    ensures CompletedTasks(a + b) == CompletedTasks(a) + CompletedTasks(b)
  {
    FilterConcat(a, b, IsActive);
    FilterConcat(a, b, IsCompleted);
  }

  /** The sections rendered for a list: each partition, only when non-empty. */
  function SectionsOf(tasks: seq<Task>): (r: seq<Section>)
    ensures forall k :: 0 <= k < |r| ==> |r[k].items| > 0
    ensures tasks != [] ==> 1 <= |r| <= 2
    ensures |r| == 2 ==> r[0].heading == Active && r[1].heading == Completed
    ensures forall k :: 0 <= k < |r| ==>
              r[k].items == if r[k].heading == Active then ActiveTasks(tasks) else CompletedTasks(tasks)
    ensures ActiveTasks(tasks) != [] ==> r != [] && r[0].heading == Active
    ensures CompletedTasks(tasks) != [] ==> r != [] && r[|r| - 1].heading == Completed
  {
    PartitionCovers(tasks);
    var active := ActiveTasks(tasks);
    var completed := CompletedTasks(tasks);
    (if |active| > 0 then [Section(Active, active)] else [])
    + (if |completed| > 0 then [Section(Completed, completed)] else [])
  }

  /** All the items the sections show, in section order. */
  function Shown(sections: seq<Section>): seq<Task> {
    if sections == [] then [] else sections[0].items + Shown(sections[1..])
  }

  /** The sections show the active tasks, then the completed ones. */
  lemma {:induction false} ShownSections(tasks: seq<Task>)
    ensures Shown(SectionsOf(tasks)) == ActiveTasks(tasks) + CompletedTasks(tasks)
  {
    var active := ActiveTasks(tasks);
    var completed := CompletedTasks(tasks);
    var a := if |active| > 0 then [Section(Active, active)] else [];
    var c := if |completed| > 0 then [Section(Completed, completed)] else [];
    assert SectionsOf(tasks) == a + c;
    assert Shown(c) == completed by {
      if |completed| > 0 {
        assert Shown(c) == completed + Shown([]);
      }
    }
    if |active| > 0 {
      assert (a + c)[1..] == c;
      assert Shown(a + c) == active + Shown(c);
    } else {
      assert active == [];
      assert a + c == c;
    }
  }

  /** The rendered sections show every task exactly as often as the list holds it. */
  lemma SectionsShowEveryTaskOnce(tasks: seq<Task>)
    ensures multiset(Shown(SectionsOf(tasks))) == multiset(tasks)
  {
    ShownSections(tasks);
    FilterPartition(tasks, IsActive, IsCompleted);
  }

  /**
   * `TaskList`: the spinner while loading, whatever else holds; then the
   * error banner for a non-empty error (an empty one is falsy and falls
   * through); then the empty state for an empty list; else the sections.
   */
  function SelectView(tasks: seq<Task>, loading: bool, error: Option<string>): (v: View)
    ensures v.Spinner? <==> loading
    ensures v.ErrorBanner? <==> !loading && Truthy(error)
    ensures v.ErrorBanner? ==> v.message == error.value && v.message != ""
    ensures v.EmptyState? <==> !loading && !Truthy(error) && tasks == []
    ensures v.Sections? ==> v.sections == SectionsOf(tasks) && 1 <= |v.sections| <= 2
  {
    if loading then Spinner
    else if Truthy(error) then ErrorBanner(error.value)
    else if |tasks| == 0 then EmptyState
    else Sections(SectionsOf(tasks))
  }
}
