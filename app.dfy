/**
 * The one piece of the page's wiring with logic in it: the add form's
 * `onSubmit` is the controller's `addTask`.
 */
module App {
  import opened Wrappers
  import opened Types
  import opened Text
  import opened UseTasks
  import TaskForm

  /**
   * What a submitted form puts in the insert request: a non-blank title
   * that trimming leaves as it is, `completed` false, and a description that is either absent or
   * the non-empty trimmed text.
   */
  lemma SubmittedInsert(userId: string, title: string, description: string)
    requires !AllWhitespace(title)
    ensures var s := TaskForm.SubmissionFor(title, description).value;
            var p := InsertPayload(userId, s.title, s.description);
            p.title == Trim(title) && Trim(p.title) == p.title && !AllWhitespace(p.title) &&
            !p.completed && p.user_id == userId &&
            p.description == TrimmedOrUndefined(description)
  {
  }

  /**
   * A submit of the add form with the controller behind it: a blank title
   * sends nothing and changes nothing; otherwise the insert carries the
   * trimmed fields, and the backend's answer decides both the list and the
   * form. An empty error message from the backend shows the form's default.
   */
  method SubmitNewTask(form: TaskForm.Form, store: TaskStore, outcome: Outcome<Task>)
    returns (request: Option<TaskInsert>)
    modifies form, store
    ensures request.None? <==> AllWhitespace(old(form.title))
    ensures request.None? ==> unchanged(form) && unchanged(store)
    ensures request.Some? ==> request.value.title == Trim(old(form.title)) && !request.value.completed
    ensures request.Some? ==>
              request.value == InsertPayload(store.userId, Trim(old(form.title)), TrimmedOrUndefined(old(form.description)))
    ensures store.loading == old(store.loading) && store.error == old(store.error)
    ensures request.Some? ==> !form.loading
    ensures request.Some? && outcome.Ok? ==>
              store.tasks == [outcome.value] + old(store.tasks) && form.title == "" && form.description == ""
    ensures request.Some? && outcome.Ok? ==> !form.showDescription && form.error == None
    ensures request.Some? && outcome.Err? ==>
              store.tasks == old(store.tasks) && form.title == old(form.title) &&
              form.error == Some(OrElse(Some(ErrorText(outcome.thrown, AddFailed)), TaskForm.DefaultError)) &&
              form.error.value != ""
    ensures request.Some? && outcome.Err? ==>
              form.description == old(form.description) && form.showDescription == old(form.showDescription)
  {
    var call := form.BeginSubmit();
    if call.None? {
      request := None;
      return;
    }
    var insert, result := store.AddTask(call.value.title, call.value.description, outcome);
    request := Some(insert);
    form.EndSubmit(result);
  }
}
