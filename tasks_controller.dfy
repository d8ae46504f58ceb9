/** The `PATCH /tasks/:id` route: the body is validated against
    `UpdateTaskDto` first, and only a valid status reaches the service. */
module TasksController {
  import opened TaskModel
  import UpdateTaskDto
  import opened TasksServiceModel
  import TaskView

  /** The two ways the route fails: a 400 from validation, a 404 from the
      service. */
  datatype RouteError =
    | BadRequest(violations: set<UpdateTaskDto.Constraint>)
    | NotFoundError(e: NotFoundException)

  method UpdateTask(service: TasksService, id: string, status: string)
    returns (r: Result<Task, RouteError>)
    requires service.Valid()
    modifies service
    ensures service.Valid()
    ensures !UpdateTaskDto.Accepts(status) ==>
              r == Err(BadRequest(UpdateTaskDto.Violations(status)))
              && service.rows == old(service.rows)
    ensures UpdateTaskDto.Accepts(status) && id !in old(service.rows) ==>
              r == Err(NotFoundError(NotFound(id))) && service.rows == old(service.rows)
    ensures UpdateTaskDto.Accepts(status) && id in old(service.rows) ==>
              && r == Ok(old(service.rows)[id].(status := status))
              && service.rows == old(service.rows)[id := r.value]
  {
    var violations := UpdateTaskDto.Violations(status);
    if violations != {} {
      return Err(BadRequest(violations));
    }
    var updated := service.UpdateTask(id, status);
    match updated
    case Ok(t) => r := Ok(t);
    case Err(e) => r := Err(NotFoundError(e));
  }

  /** The status the client's toggle sends, whatever the task's current
      status, is never one the route accepts. */
  lemma ToggleTargetAlwaysRejected(current: string)
    ensures UpdateTaskDto.Violations(TaskView.ToggleTarget(current)) == {UpdateTaskDto.IsIn}
  {
    UpdateTaskDto.ClientStatusesRejected();
  }

  /** A client toggle sent to the route never changes the stored task: the
      request fails validation and the table is left as it was. */
  method ToggleAgainstServer(service: TasksService, t: Task)
    returns (r: Result<Task, RouteError>)
    requires service.Valid()
    modifies service
    ensures r == Err(BadRequest({UpdateTaskDto.IsIn}))
    ensures service.rows == old(service.rows)
  {
    ToggleTargetAlwaysRejected(t.status);
    r := UpdateTask(service, t.id, TaskView.ToggleTarget(t.status));
  }
}
