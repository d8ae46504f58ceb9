/** The task record shared by the server's store and the browser client. */
module TaskModel {

  datatype Option<+T> = None | Some(value: T)

  datatype Result<+T, +E> = Ok(value: T) | Err(error: E)

  /** The result of an operation that returns nothing when it succeeds. */
  datatype Outcome<+E> = Pass | Fail(error: E)

  /** One task, in the JSON shape `{ id, title, description, status }`;
      `description` may be null. */
  datatype Task = Task(id: string, title: string, description: Option<string>, status: string)
}
