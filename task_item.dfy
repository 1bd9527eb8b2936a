/**
 * One task card: shows the task, toggles it, deletes it after confirmation,
 * and edits title, description and priority in drafts that are saved
 * through `onUpdate`.
 */
module TaskItem {
  import opened Wrappers
  import opened Types
  import opened Text

  /** The three priorities the edit panel offers. */
  datatype Priority = Low | Medium | High

  /** The update `handleSave` passes to `onUpdate`. */
  datatype ItemUpdate = ItemUpdate(title: string, description: Option<string>, priority: Priority)

  /** A call `onUpdate(id, update)`. */
  datatype UpdateCall = UpdateCall(id: string, update: ItemUpdate)

  /** `task.description || ''`: the text the description draft starts from. */
  function DraftDescription(description: Option<string>): (r: string)
    ensures description.Some? ==> r == description.value
    ensures description.None? ==> r == ""
  {
    description.GetOr("")
  }

  /**
   * What a save sends: nothing for a whitespace-only draft title; otherwise
   * the trimmed title, the trimmed description (absent when empty) and the
   * draft priority.
   */
  function SavePayload(title: string, description: string, priority: Priority): (r: Option<ItemUpdate>)
    ensures r.None? <==> AllWhitespace(title)
    ensures r.Some? ==> r.value.title == Trim(title) && r.value.title != ""
    ensures r.Some? ==> r.value.description == TrimmedOrUndefined(description)
    ensures r.Some? ==> r.value.priority == priority
  {
    BlankIffAllWhitespace(title);
    if IsBlank(title) then None else Some(ItemUpdate(Trim(title), TrimmedOrUndefined(description), priority))
  }

  /**
   * The card's state. `task` is its prop, the row. The card also reads the
   * row's `priority` column, which the `Task` type does not declare; the
   * model holds that column's value beside the row, in `priority`.
   */
  class Item {
    var task: Task
    var priority: Priority
    var isEditing: bool
    var editTitle: string
    var editDescription: string
    var editPriority: Priority
    var loading: bool

    /** The drafts hold what the task shows. */
    predicate DraftsMatchTask()
      reads this
    {
      editTitle == task.title && editDescription == DraftDescription(task.description) &&
      editPriority == priority
    }

    /** A card starts out of edit mode, idle, with drafts taken from the task. */
    constructor (task: Task, priority: Priority)
      ensures this.task == task && this.priority == priority
      ensures DraftsMatchTask() && !isEditing && !loading
    {
      this.task := task;
      this.priority := priority;
      isEditing := false;
      editTitle := task.title;
      editDescription := DraftDescription(task.description);
      editPriority := priority;
      loading := false;
    }

    /** A re-render with new props: the card's own state is kept. */
    method ReceiveProps(task: Task, priority: Priority)
      modifies this
      ensures this.task == task && this.priority == priority
      ensures isEditing == old(isEditing) && loading == old(loading)
      ensures editTitle == old(editTitle) && editDescription == old(editDescription)
      ensures editPriority == old(editPriority)
    {
      this.task := task;
      this.priority := priority;
    }

    /** The edit button enters edit mode. */
    method StartEditing()
      modifies this
      ensures isEditing
      ensures task == old(task) && priority == old(priority) && loading == old(loading)
      ensures editTitle == old(editTitle) && editDescription == old(editDescription)
      ensures editPriority == old(editPriority)
    {
      isEditing := true;
    }

    /** Typing in the title box. */
    method SetEditTitle(value: string)
      modifies this
      ensures editTitle == value
      ensures task == old(task) && priority == old(priority) && loading == old(loading)
      ensures isEditing == old(isEditing) && editDescription == old(editDescription)
      ensures editPriority == old(editPriority)
    {
      editTitle := value;
    }

    /** Typing in the description box. */
    method SetEditDescription(value: string)
      modifies this
      ensures editDescription == value
      ensures task == old(task) && priority == old(priority) && loading == old(loading)
      ensures isEditing == old(isEditing) && editTitle == old(editTitle)
      ensures editPriority == old(editPriority)
    {
      editDescription := value;
    }

    /** Picking a priority button. */
    method SetEditPriority(value: Priority)
      modifies this
      ensures editPriority == value
      ensures task == old(task) && priority == old(priority) && loading == old(loading)
      ensures isEditing == old(isEditing) && editTitle == old(editTitle)
      ensures editDescription == old(editDescription)
    {
      editPriority := value;
    }

    /** The save button is disabled while a request is pending or the draft title is whitespace only. */
    function SaveDisabled(): (r: bool)
      reads this
      ensures r <==> loading || AllWhitespace(editTitle)
    {
      BlankIffAllWhitespace(editTitle);
      loading || IsBlank(editTitle)
    }

    /** `handleToggle` up to its request: loading, and `onToggle` gets the task's id. */
    method BeginToggle() returns (call: string)
      modifies this
      ensures call == task.id && loading
      ensures task == old(task) && priority == old(priority) && isEditing == old(isEditing)
      ensures editTitle == old(editTitle) && editDescription == old(editDescription)
      ensures editPriority == old(editPriority)
    {
      loading := true;
      call := task.id;
    }

    /** The end of every handler's request, whatever it answered: loading ends. */
    method EndRequest()
      modifies this
      ensures !loading
      ensures task == old(task) && priority == old(priority) && isEditing == old(isEditing)
      ensures editTitle == old(editTitle) && editDescription == old(editDescription)
      ensures editPriority == old(editPriority)
    {
      loading := false;
    }

    /** `handleToggle`: the answer of `onToggle` is not looked at. */
    method HandleToggle() returns (call: string)
      modifies this
      ensures call == old(task).id && !loading
      ensures task == old(task) && priority == old(priority) && isEditing == old(isEditing)
      ensures editTitle == old(editTitle) && editDescription == old(editDescription)
      ensures editPriority == old(editPriority)
    {
      call := BeginToggle();
      EndRequest();
    }

    /**
     * `handleSave` up to its request: a blank draft title stops here with no
     * call and no change; otherwise the card is loading and the save payload
     * goes to `onUpdate` with the task's id.
     */
    method BeginSave() returns (call: Option<UpdateCall>)
      modifies this
      ensures call.None? <==> SavePayload(old(editTitle), old(editDescription), old(editPriority)).None?
      ensures call.Some? ==>
                call.value == UpdateCall(task.id, SavePayload(old(editTitle), old(editDescription), old(editPriority)).value)
      ensures call.None? ==> unchanged(this)
      ensures call.Some? ==> loading
      ensures task == old(task) && priority == old(priority) && isEditing == old(isEditing)
      ensures editTitle == old(editTitle) && editDescription == old(editDescription)
      ensures editPriority == old(editPriority)
    {
      var payload := SavePayload(editTitle, editDescription, editPriority);
      if payload.Some? {
        loading := true;
        call := Some(UpdateCall(task.id, payload.value));
      } else {
        call := None;
      }
    }

    /** `handleSave` after its request: edit mode ends only on success; the drafts stay. */
    method EndSave(result: OpResult)
      modifies this
      ensures !loading
      ensures isEditing == (old(isEditing) && !result.Succeeded?)
      ensures task == old(task) && priority == old(priority)
      ensures editTitle == old(editTitle) && editDescription == old(editDescription)
      ensures editPriority == old(editPriority)
    {
      if result.Succeeded? {
        isEditing := false;
      }
      loading := false;
    }

    /** `handleSave`: both halves around `onUpdate`, whose answer is `result`. */
    method HandleSave(result: OpResult) returns (call: Option<UpdateCall>)
      modifies this
      ensures call.None? <==> SavePayload(old(editTitle), old(editDescription), old(editPriority)).None?
      ensures call.Some? ==>
                call.value == UpdateCall(old(task).id, SavePayload(old(editTitle), old(editDescription), old(editPriority)).value)
      ensures call.None? ==> unchanged(this)
      ensures call.Some? ==> !loading && isEditing == (old(isEditing) && !result.Succeeded?)
      ensures task == old(task) && priority == old(priority)
      ensures editTitle == old(editTitle) && editDescription == old(editDescription)
      ensures editPriority == old(editPriority)
    {
      call := BeginSave();
      if call.Some? {
        EndSave(result);
      }
    }

    /**
     * `handleDelete` up to its request: a declined confirmation stops here
     * with no call and no change; otherwise loading, and `onDelete` gets the
     * task's id.
     */
    method BeginDelete(confirmed: bool) returns (call: Option<string>)
      modifies this
      ensures call == if confirmed then Some(task.id) else None
      ensures !confirmed ==> unchanged(this)
      ensures confirmed ==> loading
      ensures task == old(task) && priority == old(priority) && isEditing == old(isEditing)
      ensures editTitle == old(editTitle) && editDescription == old(editDescription)
      ensures editPriority == old(editPriority)
    {
      if confirmed {
        loading := true;
        call := Some(task.id);
      } else {
        call := None;
      }
    }

    /** `handleDelete`: `confirmed` is the user's answer to the confirmation prompt. */
    method HandleDelete(confirmed: bool) returns (call: Option<string>)
      modifies this
      ensures call == if confirmed then Some(old(task).id) else None
      ensures !confirmed ==> unchanged(this)
      ensures confirmed ==> !loading
      ensures task == old(task) && priority == old(priority) && isEditing == old(isEditing)
      ensures editTitle == old(editTitle) && editDescription == old(editDescription)
      ensures editPriority == old(editPriority)
    {
      call := BeginDelete(confirmed);
      if call.Some? {
        EndRequest();
      }
    }

    /** `handleCancel`: the drafts go back to the task and edit mode ends. */
    method HandleCancel()
      modifies this
      ensures DraftsMatchTask() && !isEditing
      ensures task == old(task) && priority == old(priority) && loading == old(loading)
    {
      editTitle := task.title;
      editDescription := DraftDescription(task.description);
      editPriority := priority;
      isEditing := false;
    }
  }
}
