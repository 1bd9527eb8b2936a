/**
 * The task controller hook: an in-memory mirror of the user's task rows with
 * `loading` and `error`, patched only after the backend confirms a request.
 * Each backend request is replaced by the `Outcome` it came back with.
 */
module UseTasks {
  import opened Wrappers
  import opened Types
  import opened Filtering
  import opened Text

  const FetchFailed := "Failed to fetch tasks"
  const AddFailed := "Failed to add task"
  const UpdateFailed := "Failed to update task"
  const DeleteFailed := "Failed to delete task"
  const NotFound := "Task not found"

  /** Some entry of `tasks` has id `id`. */
  predicate HasId(tasks: seq<Task>, id: string) {
    exists i :: 0 <= i < |tasks| && tasks[i].id == id
  }

  /** No two entries share an id, as rows of the backend table never do. */
  predicate UniqueIds(tasks: seq<Task>) {
    forall i, j :: 0 <= i < j < |tasks| ==> tasks[i].id != tasks[j].id
  }

  /**
   * The row `addTask` asks the backend to insert: owned by the user, not
   * completed, with the title as given and an empty description sent as null.
   */
  function InsertPayload(userId: string, title: string, description: Option<string>): (p: TaskInsert)
    ensures p.user_id == userId && p.title == title && !p.completed
    ensures p.description.None? <==> !Truthy(description)
    ensures p.description.Some? ==> p.description == description
  {
    TaskInsert(userId, title, if Truthy(description) then description else None, false)
  }

  /** `tasks.find(t => t.id === id)`. */
  function FindById(tasks: seq<Task>, id: string): (r: Option<Task>)
    ensures r.None? <==> !HasId(tasks, id)
    ensures r.Some? ==> r.value in tasks && r.value.id == id
  {
    if tasks == [] then None
    else if tasks[0].id == id then Some(tasks[0])
    else FindById(tasks[1..], id)
  }

  /** `find` returns the first entry with the id. */
  lemma {:induction false} FindByIdFirst(tasks: seq<Task>, id: string, i: nat)
    requires i < |tasks| && tasks[i].id == id
    requires forall j :: 0 <= j < i ==> tasks[j].id != id
    ensures FindById(tasks, id) == Some(tasks[i])
  {
    if i > 0 {
      FindByIdFirst(tasks[1..], id, i - 1);
    }
  }

  /** `tasks.map(t => t.id === id ? row : t)`. */
  function ReplaceById(tasks: seq<Task>, id: string, row: Task): (r: seq<Task>)
    ensures |r| == |tasks|
    ensures forall i :: 0 <= i < |tasks| ==> r[i] == if tasks[i].id == id then row else tasks[i]
  {
    if tasks == [] then []
    else [if tasks[0].id == id then row else tasks[0]] + ReplaceById(tasks[1..], id, row)
  }

  /** Replacing an id the list does not hold leaves the list as it was. */
  lemma ReplaceByIdAbsent(tasks: seq<Task>, id: string, row: Task)
    requires !HasId(tasks, id)
    ensures ReplaceById(tasks, id, row) == tasks
  {
  }

  /** A replacement row that keeps the id keeps the ids unique. */
  lemma ReplaceByIdKeepsUnique(tasks: seq<Task>, id: string, row: Task)
    requires UniqueIds(tasks) && row.id == id
    ensures UniqueIds(ReplaceById(tasks, id, row))
  {
  }

  /** `tasks.filter(t => t.id !== id)`: afterwards no entry has the id. */
  function RemoveById(tasks: seq<Task>, id: string): (r: seq<Task>)
    ensures |r| <= |tasks|
    ensures !HasId(r, id)
    ensures forall i :: 0 <= i < |r| ==> r[i] in tasks
  {
    Filter(tasks, (t: Task) => t.id != id)
  }

  /** Deleting drops every copy of an entry with the id and keeps every other entry as often as before. */
  lemma RemoveByIdCount(tasks: seq<Task>, id: string, t: Task)
    ensures multiset(RemoveById(tasks, id))[t] == if t.id == id then 0 else multiset(tasks)[t]
  {
    FilterCount(tasks, (t: Task) => t.id != id, t);
  }

  /** Deleting an id the list does not hold leaves the list as it was. */
  lemma RemoveByIdAbsent(tasks: seq<Task>, id: string)
    requires !HasId(tasks, id)
    ensures RemoveById(tasks, id) == tasks
  {
    FilterKeepsAll(tasks, (t: Task) => t.id != id);
  }

  /** Deleting keeps the remaining entries in their original relative order. */
  lemma RemoveByIdKeepsOrder(a: seq<Task>, b: seq<Task>, id: string)
    ensures RemoveById(a + b, id) == RemoveById(a, id) + RemoveById(b, id)
  {
    FilterConcat(a, b, (t: Task) => t.id != id);
  }

  /** Prepending a row whose id is new keeps the ids unique. */
  lemma PrependKeepsUnique(tasks: seq<Task>, row: Task)
    requires UniqueIds(tasks) && !HasId(tasks, row.id)
    ensures UniqueIds([row] + tasks)
  {
  }

  /** Deleting keeps the ids unique. */
  lemma {:induction false} RemoveByIdKeepsUnique(tasks: seq<Task>, id: string)
    requires UniqueIds(tasks)
    ensures UniqueIds(RemoveById(tasks, id))
  {
    if tasks != [] {
      var rest := tasks[1..];
      var tail := RemoveById(rest, id);
      assert UniqueIds(tail) by {
        RemoveByIdKeepsUnique(rest, id);
      }
      if tasks[0].id != id {
        assert RemoveById(tasks, id) == [tasks[0]] + tail;
        assert !HasId(tail, tasks[0].id) by {
          forall k | 0 <= k < |tail| ensures tail[k].id != tasks[0].id {
            var j :| 0 <= j < |rest| && rest[j] == tail[k];
            assert tasks[j + 1] == tail[k];
          }
        }
        PrependKeepsUnique(tail, tasks[0]);
      } else {
        assert RemoveById(tasks, id) == tail;
      }
    }
  }

  /**
   * The update `toggleComplete` sends: only `completed`, flipped from the
   * first entry with the id; nothing when the list has no such entry.
   */
  function ToggleRequest(tasks: seq<Task>, id: string): (r: Option<TaskUpdate>)
    ensures r.None? <==> !HasId(tasks, id)
    ensures r.Some? ==> r.value.title.None? && r.value.description.None?
    ensures r.Some? ==> r.value.completed == Some(!FindById(tasks, id).value.completed)
  {
    match FindById(tasks, id)
    case None => None
    case Some(task) => Some(TaskUpdate(None, None, Some(!task.completed)))
  }

  /**
   * The row a backend that applies exactly `u` (stamped `updatedAt`) returns
   * for `row`: the keys present in `u` overwrite, the rest stay.
   */
  function AppliedUpdate(row: Task, u: TaskUpdate, updatedAt: string): (r: Task)
    ensures r.id == row.id && r.user_id == row.user_id && r.created_at == row.created_at
    ensures r.updated_at == updatedAt
    ensures u.title.Some? ==> r.title == u.title.value
    ensures u.title.None? ==> r.title == row.title
    ensures u.description.Some? ==> r.description == u.description
    ensures u.description.None? ==> r.description == row.description
    ensures u.completed.Some? ==> r.completed == u.completed.value
    ensures u.completed.None? ==> r.completed == row.completed
    ensures u == TaskUpdate(None, None, None) ==> r == row.(updated_at := updatedAt)
  {
    row.(title := u.title.GetOr(row.title),
         description := if u.description.Some? then u.description else row.description,
         completed := u.completed.GetOr(row.completed),
         updated_at := updatedAt)
  }

  /** The list after a toggle that succeeds with the backend echoing the request. */
  function EchoedToggle(tasks: seq<Task>, id: string, updatedAt: string): (r: seq<Task>)
    ensures |r| == |tasks|
    ensures !HasId(tasks, id) ==> r == tasks
    ensures HasId(tasks, id) ==>
              var t := FindById(tasks, id).value;
              forall i :: 0 <= i < |tasks| ==>
                r[i] == if tasks[i].id == id then t.(completed := !t.completed, updated_at := updatedAt) else tasks[i]
  {
    match ToggleRequest(tasks, id)
    case None => tasks
    case Some(u) => ReplaceById(tasks, id, AppliedUpdate(FindById(tasks, id).value, u, updatedAt))
  }

  /** After a replacement whose row keeps the id, `find` returns that row. */
  lemma FindAfterReplace(tasks: seq<Task>, id: string, row: Task)
    requires HasId(tasks, id) && row.id == id
    ensures FindById(ReplaceById(tasks, id, row), id) == Some(row)
  {
  }

  /** With unique ids, `find` returns the one entry with the id. */
  lemma FindByIdUnique(tasks: seq<Task>, id: string, i: nat)
    requires UniqueIds(tasks) && i < |tasks| && tasks[i].id == id
    ensures FindById(tasks, id) == Some(tasks[i])
  {
  }

  /** A second replacement of the same id overrides the first, when the first kept the id. */
  lemma ReplaceTwice(tasks: seq<Task>, id: string, first: Task, second: Task)
    requires first.id == id
    ensures ReplaceById(ReplaceById(tasks, id, first), id, second) == ReplaceById(tasks, id, second)
  {
  }

  /** A successful echoed toggle replaces the entries with the id by the first one, flipped and restamped. */
  lemma EchoedToggleFlips(tasks: seq<Task>, id: string, stamp: string)
    requires HasId(tasks, id)
    ensures var t := FindById(tasks, id).value;
            var t1 := t.(completed := !t.completed, updated_at := stamp);
            EchoedToggle(tasks, id, stamp) == ReplaceById(tasks, id, t1) &&
            FindById(EchoedToggle(tasks, id, stamp), id) == Some(t1)
  {
  }

  /**
   * Two successful toggles in a row restore every entry with the id to the
   * first such entry as it was, but for the `updated_at` stamp; all other
   * entries are untouched. With unique ids that entry is the one toggled.
   */
  lemma ToggleTwiceRestores(tasks: seq<Task>, id: string, stamp1: string, stamp2: string)
    requires HasId(tasks, id)
    ensures var r := EchoedToggle(EchoedToggle(tasks, id, stamp1), id, stamp2);
            |r| == |tasks| &&
            forall i :: 0 <= i < |tasks| ==>
              r[i] == if tasks[i].id == id then FindById(tasks, id).value.(updated_at := stamp2) else tasks[i]
    ensures UniqueIds(tasks) ==>
              forall i :: 0 <= i < |tasks| && tasks[i].id == id ==>
                EchoedToggle(EchoedToggle(tasks, id, stamp1), id, stamp2)[i] == tasks[i].(updated_at := stamp2)
  {
    var t := FindById(tasks, id).value;
    var t1 := t.(completed := !t.completed, updated_at := stamp1);
    var t2 := t.(updated_at := stamp2);
    var tasks1 := ReplaceById(tasks, id, t1);
    assert EchoedToggle(tasks, id, stamp1) == tasks1 by {
      EchoedToggleFlips(tasks, id, stamp1);
    }
    assert EchoedToggle(tasks1, id, stamp2) == ReplaceById(tasks1, id, t2) by {
      EchoedToggleFlips(tasks, id, stamp1);
      assert HasId(tasks1, id);
      EchoedToggleFlips(tasks1, id, stamp2);
      assert t1.(completed := !t1.completed, updated_at := stamp2) == t2;
    }
    ReplaceTwice(tasks, id, t1, t2);
    forall i | 0 <= i < |tasks| && tasks[i].id == id && UniqueIds(tasks)
      ensures t == tasks[i]
    {
      FindByIdUnique(tasks, id, i);
    }
  }

  /**
   * The controller state: the mirrored rows, whether a fetch is pending, and
   * the last fetch error. `userId` scopes every request to the signed-in user.
   */
  class TaskStore {
    const userId: string
    var tasks: seq<Task>
    var loading: bool
    var error: Option<string>

    /** A fresh mirror is empty and loading, with no error. */
    constructor (userId: string)
      ensures this.userId == userId
      ensures tasks == [] && loading && error == None
    {
      this.userId := userId;
      tasks := [];
      loading := true;
      error := None;
    }

    /** `fetchTasks` up to its request: the mirror is marked loading. */
    method BeginFetch()
      modifies this
      ensures loading
      ensures tasks == old(tasks) && error == old(error)
    {
      loading := true;
    }

    /**
     * `fetchTasks` after its request: rows replace the mirror (null data
     * gives the empty list); a failure records the error and keeps the rows.
     * A success does not clear an earlier error.
     */
    method EndFetch(outcome: Outcome<Option<seq<Task>>>)
      modifies this
      ensures !loading
      ensures outcome.Ok? ==> tasks == outcome.value.GetOr([]) && error == old(error)
      ensures outcome.Err? ==> tasks == old(tasks) && error == Some(ErrorText(outcome.thrown, FetchFailed))
    {
      match outcome {
        case Ok(data) =>
          tasks := data.GetOr([]);
        case Err(thrown) =>
          error := Some(ErrorText(thrown, FetchFailed));
      }
      loading := false;
    }

    /** `fetchTasks`: both halves around the request. */
    method FetchTasks(outcome: Outcome<Option<seq<Task>>>)
      modifies this
      ensures !loading
      ensures outcome.Ok? ==> tasks == outcome.value.GetOr([]) && error == old(error)
      ensures outcome.Err? ==> tasks == old(tasks) && error == Some(ErrorText(outcome.thrown, FetchFailed))
    {
      BeginFetch();
      EndFetch(outcome);
    }

    /**
     * `addTask`: sends the insert payload (no title check here); on success
     * the returned row goes first and the old list follows unchanged.
     */
    method AddTask(title: string, description: Option<string>, outcome: Outcome<Task>)
      returns (request: TaskInsert, result: OpResult)
      modifies this
      ensures request == InsertPayload(userId, title, description)
      ensures outcome.Ok? ==> tasks == [outcome.value] + old(tasks) && result == Succeeded
      ensures outcome.Err? ==> tasks == old(tasks) && result == Failed(Some(ErrorText(outcome.thrown, AddFailed)))
      ensures loading == old(loading) && error == old(error)
    {
      request := InsertPayload(userId, title, description);
      match outcome {
        case Ok(row) =>
          tasks := [row] + tasks;
          result := Succeeded;
        case Err(thrown) =>
          result := Failed(Some(ErrorText(thrown, AddFailed)));
      }
    }

    /**
     * `updateTask`: `updates` goes to the backend; on success every entry
     * with the id becomes the returned row, and nothing else changes.
     */
    method UpdateTask(id: string, updates: TaskUpdate, outcome: Outcome<Task>) returns (result: OpResult)
      modifies this
      ensures outcome.Ok? ==> tasks == ReplaceById(old(tasks), id, outcome.value) && result == Succeeded
      ensures outcome.Err? ==> tasks == old(tasks) && result == Failed(Some(ErrorText(outcome.thrown, UpdateFailed)))
      ensures loading == old(loading) && error == old(error)
    {
      match outcome {
        case Ok(row) =>
          tasks := ReplaceById(tasks, id, row);
          result := Succeeded;
        case Err(thrown) =>
          result := Failed(Some(ErrorText(thrown, UpdateFailed)));
      }
    }

    /** `deleteTask`: on success exactly the entries with the id go. */
    method DeleteTask(id: string, outcome: Outcome<()>) returns (result: OpResult)
      modifies this
      ensures outcome.Ok? ==> tasks == RemoveById(old(tasks), id) && result == Succeeded
      ensures outcome.Err? ==> tasks == old(tasks) && result == Failed(Some(ErrorText(outcome.thrown, DeleteFailed)))
      ensures loading == old(loading) && error == old(error)
    {
      match outcome {
        case Ok(_) =>
          tasks := RemoveById(tasks, id);
          result := Succeeded;
        case Err(thrown) =>
          result := Failed(Some(ErrorText(thrown, DeleteFailed)));
      }
    }

    /**
     * `toggleComplete`: an unknown id fails with "Task not found" and sends
     * nothing (`outcome` is then never consulted); a known one delegates to
     * `UpdateTask` with `completed` flipped.
     */
    method ToggleComplete(id: string, outcome: Outcome<Task>) returns (request: Option<TaskUpdate>, result: OpResult)
      modifies this
      ensures request == ToggleRequest(old(tasks), id)
      ensures request.None? ==> tasks == old(tasks) && result == Failed(Some(NotFound))
      ensures request.Some? && outcome.Ok? ==>
                tasks == ReplaceById(old(tasks), id, outcome.value) && result == Succeeded
      ensures request.Some? && outcome.Err? ==>
                tasks == old(tasks) && result == Failed(Some(ErrorText(outcome.thrown, UpdateFailed)))
      ensures loading == old(loading) && error == old(error)
    {
      request := ToggleRequest(tasks, id);
      if request.Some? {
        result := UpdateTask(id, request.value, outcome);
      } else {
        result := Failed(Some(NotFound));
      }
    }
  }
}
