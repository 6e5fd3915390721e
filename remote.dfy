/** The remote task service as the client sees it: each request either resolves
    with the parsed response body or fails. Which one happens is decided
    outside the client, so every handler takes the outcome as a parameter. */
module Remote {
  import opened Types

  datatype Outcome<T> = Success(response: T) | Failure

  /** The body of a reply that is spread over a stored task: every key may be
      absent (None), and a present key overrides the task's field. */
  datatype TaskPatch = TaskPatch(
    id: Option<int>,
    title: Option<string>,
    description: Option<string>,
    status: Option<string>,
    priority: Option<string>,
    startDate: Option<int>,
    dueDate: Option<int>)

  /** The reply that carries every field of a task. */
  function PatchOf(t: Task): TaskPatch {
    TaskPatch(Some(t.id), Some(t.title), t.description, t.status,
              Some(t.priority), Some(t.startDate), Some(t.dueDate))
  }

  /** The reply that carries no field at all. */
  const EmptyPatch := TaskPatch(None, None, None, None, None, None, None)
}
