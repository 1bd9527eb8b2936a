/** The persisted task row and the payloads sent to the task table. */
module Types {
  import opened Wrappers

  /**
   * One row of the `tasks` table as the client sees it. Timestamps are kept
   * as the opaque strings the backend returns; `description` is `None` for
   * SQL `null`.
   */
  datatype Task = Task(
    id: string,
    user_id: string,
    title: string,
    description: Option<string>,
    completed: bool,
    created_at: string,
    updated_at: string)

  /** The row handed to the insert request: a task without id and timestamps. */
  datatype TaskInsert = TaskInsert(
    user_id: string,
    title: string,
    description: Option<string>,
    completed: bool)

  /**
   * The partial update `updateTask` accepts: each field is `None` when the
   * key is absent (`undefined`) and so is left as it is by the backend.
   */
  datatype TaskUpdate = TaskUpdate(
    title: Option<string>,
    description: Option<string>,
    completed: Option<bool>)

  /** The `{ success, error? }` object every controller operation resolves to. */
  datatype OpResult = Succeeded | Failed(error: Option<string>)

  /**
   * `err instanceof Error ? err.message : fallback`: the text a caught
   * exception is turned into.
   */
  function ErrorText(thrown: Option<string>, fallback: string): (r: string)
    ensures thrown.Some? ==> r == thrown.value
    ensures thrown.None? ==> r == fallback
  {
    thrown.GetOr(fallback)
  }
}
