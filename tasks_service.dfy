/** The server's `TasksService`: create, read, update and delete over the
    task table, which is modelled as a map from id to row. */
module TasksServiceModel {
  import opened TaskModel

  /** Nest's `NotFoundException`, with the message the service builds. */
  datatype NotFoundException = NotFoundException(message: string)

  function NotFound(id: string): NotFoundException
  {
    NotFoundException("Task with id " + id + " not found")
  }

  class TasksService {
    /** The repository's table: each row under its own primary key. */
    var rows: map<string, Task>
    /** The status column's default, filled in by the database on insert. */
    const defaultStatus: string

    ghost predicate Valid()
      reads this
    {
      forall id :: id in rows ==> rows[id].id == id
    }

    constructor (defaultStatus: string)
      ensures Valid() && rows == map[] && this.defaultStatus == defaultStatus
    {
      rows := map[];
      this.defaultStatus := defaultStatus;
    }

    /** `find()`: every stored task once, in whatever order the table
        yields them. */
    method GetAllTasks() returns (r: seq<Task>)
      requires Valid()
      ensures |r| == |rows|
      ensures forall i :: 0 <= i < |r| ==> r[i].id in rows && rows[r[i].id] == r[i]
      ensures forall id :: id in rows ==> rows[id] in r
      ensures forall i, j :: 0 <= i < j < |r| ==> r[i].id != r[j].id
    {
      r := [];
      var remaining := rows.Keys;
      ghost var ids: seq<string> := [];
      while remaining != {}
        invariant remaining <= rows.Keys
        invariant |ids| == |r| && |ids| + |remaining| == |rows.Keys|
        invariant forall i :: 0 <= i < |ids| ==> ids[i] in rows && ids[i] !in remaining && r[i] == rows[ids[i]]
        invariant forall id :: id in rows && id !in remaining ==> id in ids
        invariant forall i, j :: 0 <= i < j < |ids| ==> ids[i] != ids[j]
        decreases |remaining|
      {
        var id :| id in remaining;
        r := r + [rows[id]];
        ids := ids + [id];
        remaining := remaining - {id};
      }
      assert |rows.Keys| == |rows|;
      forall id | id in rows ensures rows[id] in r {
        var i :| 0 <= i < |ids| && ids[i] == id;
        assert r[i] == rows[id];
      }
    }

    /** `findOneBy({ id })`, throwing `NotFoundException` when no row has
        that id. */
    method GetTaskById(id: string) returns (r: Result<Task, NotFoundException>)
      requires Valid()
      ensures r.Ok? <==> id in rows
      ensures r.Ok? ==> r.value == rows[id] && r.value.id == id
      ensures r.Err? ==> r.error == NotFound(id)
    {
      if id in rows {
        r := Ok(rows[id]);
      } else {
        r := Err(NotFound(id));
      }
    }

    /** `create({ title, description })` then `save`: the database assigns
        the id (here the caller supplies an unused one) and the default
        status. */
    method CreateTask(title: string, description: Option<string>, freshId: string) returns (r: Task)
      requires Valid() && freshId !in rows
      modifies this
      ensures Valid()
      ensures r == Task(freshId, title, description, defaultStatus)
      ensures rows == old(rows)[freshId := r]
    {
      r := Task(freshId, title, description, defaultStatus);
      rows := rows[freshId := r];
    }

    /** Looks the task up (failing as `GetTaskById` does), overwrites its
        status with any string, and saves it. */
    method UpdateTask(id: string, status: string) returns (r: Result<Task, NotFoundException>)
      requires Valid()
      modifies this
      ensures Valid()
      ensures id !in old(rows) ==> r == Err(NotFound(id)) && rows == old(rows)
      ensures id in old(rows) ==>
                r == Ok(old(rows)[id].(status := status)) && rows == old(rows)[id := r.value]
    {
      var found := GetTaskById(id);
      if found.Err? {
        return Err(found.error);
      }
      var task := found.value.(status := status);
      rows := rows[task.id := task];
      r := Ok(task);
    }

    /** `delete(id)`, throwing `NotFoundException` when no row was
        affected. */
    method DeleteTask(id: string) returns (r: Outcome<NotFoundException>)
      requires Valid()
      modifies this
      ensures Valid()
      ensures r == (if id in old(rows) then Pass else Fail(NotFound(id)))
      ensures rows == old(rows) - {id}
    {
      var affected := if id in rows then 1 else 0;
      rows := rows - {id};
      if affected == 0 {
        r := Fail(NotFound(id));
      } else {
        r := Pass;
      }
    }
  }

  /** Deleting the same task twice: the first call succeeds, the second
      finds nothing and fails. */
  method DeleteTwice(service: TasksService, id: string)
    returns (first: Outcome<NotFoundException>, second: Outcome<NotFoundException>)
    requires service.Valid() && id in service.rows
    modifies service
    ensures first == Pass && second == Fail(NotFound(id))
    ensures service.Valid() && service.rows == old(service.rows) - {id}
  {
    first := service.DeleteTask(id);
    second := service.DeleteTask(id);
  }

  /** A created task can be read back by its id with the given title and
      description and the default status. */
  method CreateThenGet(service: TasksService, title: string, description: Option<string>, freshId: string)
    returns (created: Task, fetched: Result<Task, NotFoundException>)
    requires service.Valid() && freshId !in service.rows
    modifies service
    ensures fetched == Ok(created)
    ensures created == Task(freshId, title, description, service.defaultStatus)
  {
    created := service.CreateTask(title, description, freshId);
    fetched := service.GetTaskById(freshId);
  }
}
