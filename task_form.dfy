/**
 * The add-task form: the title and description drafts, whether the
 * description box is open, and the submit's loading flag and error text.
 */
module TaskForm {
  import opened Wrappers
  import opened Types
  import opened Text

  const DefaultError := "Failed to add task"

  /** The arguments `handleSubmit` passes to `onSubmit`. */
  datatype Submission = Submission(title: string, description: Option<string>)

  /**
   * What a submit sends: nothing for a whitespace-only title; otherwise the
   * trimmed title and the trimmed description, absent when that is empty.
   */
  function SubmissionFor(title: string, description: string): (r: Option<Submission>)
    ensures r.None? <==> AllWhitespace(title)
    ensures r.Some? ==> r.value.title == Trim(title) && r.value.title != ""
    ensures r.Some? ==> r.value.description == TrimmedOrUndefined(description)
  {
    BlankIffAllWhitespace(title);
    if IsBlank(title) then None else Some(Submission(Trim(title), TrimmedOrUndefined(description)))
  }

  class Form {
    var title: string
    var description: string
    var loading: bool
    var error: Option<string>
    var showDescription: bool

    /** The form starts empty, idle, without error and with the description closed. */
    constructor ()
      ensures title == "" && description == "" && !loading && error == None && !showDescription
    {
      title := "";
      description := "";
      loading := false;
      error := None;
      showDescription := false;
    }

    /** Typing in the title box. */
    method SetTitle(value: string)
      modifies this
      ensures title == value
      ensures description == old(description) && loading == old(loading)
      ensures error == old(error) && showDescription == old(showDescription)
    {
      title := value;
    }

    /** The "+ Add description" button opens the description box. */
    method OpenDescription()
      modifies this
      ensures showDescription
      ensures title == old(title) && description == old(description)
      ensures loading == old(loading) && error == old(error)
    {
      showDescription := true;
    }

    /** Typing in the description box. */
    method SetDescription(value: string)
      modifies this
      ensures description == value
      ensures title == old(title) && loading == old(loading)
      ensures error == old(error) && showDescription == old(showDescription)
    {
      description := value;
    }

    /** The submit button is disabled while a submit is pending or the title is whitespace only. */
    function SubmitDisabled(): (r: bool)
      reads this
      ensures r <==> loading || AllWhitespace(title)
    {
      BlankIffAllWhitespace(title);
      loading || IsBlank(title)
    }

    /**
     * `handleSubmit` up to its request: a blank title stops here with no
     * call and no change; otherwise the form is marked loading, the error is
     * cleared and the submission is handed to `onSubmit`.
     */
    method BeginSubmit() returns (call: Option<Submission>)
      modifies this
      ensures call == SubmissionFor(old(title), old(description))
      ensures call.None? ==> unchanged(this)
      ensures call.Some? ==> loading && error == None
      ensures title == old(title) && description == old(description)
      ensures showDescription == old(showDescription)
    {
      call := SubmissionFor(title, description);
      if call.Some? {
        loading := true;
        error := None;
      }
    }

    /**
     * `handleSubmit` after its request: success clears and closes the form;
     * failure shows the reported error, or the default text when that is
     * absent or empty, and keeps the drafts. Loading ends either way.
     */
    method EndSubmit(result: OpResult)
      modifies this
      ensures !loading
      ensures result.Succeeded? ==> title == "" && description == "" && !showDescription && error == old(error)
      ensures result.Failed? ==>
                error == Some(OrElse(result.error, DefaultError)) && title == old(title) &&
                description == old(description) && showDescription == old(showDescription)
    {
      match result {
        case Succeeded =>
          title := "";
          description := "";
          showDescription := false;
        case Failed(e) =>
          error := Some(OrElse(e, DefaultError));
      }
      loading := false;
    }

    /** `handleSubmit`: both halves around `onSubmit`, whose answer is `result`. */
    method HandleSubmit(result: OpResult) returns (call: Option<Submission>)
      modifies this
      ensures call == SubmissionFor(old(title), old(description))
      ensures call.None? ==> unchanged(this)
      ensures call.Some? ==> !loading
      ensures call.Some? && result.Succeeded? ==>
                title == "" && description == "" && !showDescription && error == None
      ensures call.Some? && result.Failed? ==>
                error == Some(OrElse(result.error, DefaultError)) && title == old(title) &&
                description == old(description) && showDescription == old(showDescription)
    {
      call := BeginSubmit();
      if call.Some? {
        EndSubmit(result);
      }
    }
  }
}
