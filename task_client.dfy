/** The browser's task-list component: its state and the handlers that
    change it. Each handler runs to completion on the current state; the
    server's reply is an input of the handler. */
module TaskClient {
  import opened TaskModel
  import opened JsStrings
  import opened TaskView

  /** The new-task form. */
  datatype Draft = Draft(title: string, description: string)

  const EmptyDraft: Draft := Draft("", "")

  datatype Verb = Get | Post | Patch | Delete

  datatype Payload =
    | NoBody
    | NewTaskBody(title: string, description: string, status: string)
    | StatusBody(status: string)

  /** A request to the tasks API: `id` is the path segment after `/tasks`. */
  datatype Request = Request(verb: Verb, id: Option<string>, payload: Payload)

  /** What an awaited request produced: a response with whatever status
      code and parsed body, or a rejection (network failure or a body that
      does not parse), which the handler catches and logs. */
  datatype Reply<+T> = Answered(httpStatus: int, body: T) | Threw

  class TaskManager {
    var tasks: seq<Task>
    var loading: bool
    var newTask: Draft
    var filter: string
    var searchQuery: string
    var showAddModal: bool

    /** The initial state of the component's hooks. */
    constructor ()
      ensures tasks == [] && loading && newTask == EmptyDraft
      ensures filter == "all" && searchQuery == "" && !showAddModal
    {
      tasks := [];
      loading := true;
      newTask := EmptyDraft;
      filter := "all";
      searchQuery := "";
      showAddModal := false;
    }

    /** `GET /tasks`; a parsed body replaces the list whatever the status
        code; `loading` ends false on both paths. */
    method FetchTasks(reply: Reply<seq<Task>>) returns (sent: Request)
      modifies this
      ensures sent == Request(Get, None, NoBody)
      ensures tasks == (if reply.Answered? then reply.body else old(tasks))
      ensures !loading
      ensures newTask == old(newTask) && filter == old(filter)
      ensures searchQuery == old(searchQuery) && showAddModal == old(showAddModal)
    {
      sent := Request(Get, None, NoBody);
      if reply.Answered? {
        tasks := reply.body;
      }
      loading := false;
    }

    /** Submits the draft. A blank title sends nothing and changes nothing;
        otherwise `POST /tasks` with status `'pending'`, and any parsed
        reply is appended, the draft cleared and the modal closed. */
    method CreateTask(reply: Reply<Task>) returns (sent: Option<Request>)
      modifies this
      ensures IsBlank(old(newTask.title)) ==> sent == None && unchanged(this)
      ensures !IsBlank(old(newTask.title)) ==>
                sent == Some(Request(Post, None,
                  NewTaskBody(old(newTask.title), old(newTask.description), "pending")))
      ensures !IsBlank(old(newTask.title)) && reply.Answered? ==>
                && tasks == old(tasks) + [reply.body]
                && newTask == EmptyDraft && !showAddModal
      ensures reply.Threw? ==> unchanged(this)
      ensures loading == old(loading) && filter == old(filter) && searchQuery == old(searchQuery)
    {
      if IsBlank(newTask.title) {
        return None;
      }
      sent := Some(Request(Post, None, NewTaskBody(newTask.title, newTask.description, "pending")));
      if reply.Answered? {
        tasks := tasks + [reply.body];
        newTask := EmptyDraft;
        showAddModal := false;
      }
    }

    /** `PATCH /tasks/:id` with the toggled status; any parsed reply body
        takes the place of every entry with that id. */
    method ToggleTask(task: Task, reply: Reply<Task>) returns (sent: Request)
      modifies this
      ensures sent == Request(Patch, Some(task.id), StatusBody(ToggleTarget(task.status)))
      ensures tasks == (if reply.Answered? then ReplaceById(old(tasks), task.id, reply.body)
                        else old(tasks))
      ensures loading == old(loading) && newTask == old(newTask) && filter == old(filter)
      ensures searchQuery == old(searchQuery) && showAddModal == old(showAddModal)
    {
      var newStatus := ToggleTarget(task.status);
      sent := Request(Patch, Some(task.id), StatusBody(newStatus));
      if reply.Answered? {
        tasks := ReplaceById(tasks, task.id, reply.body);
      }
    }

    /** `DELETE /tasks/:id`; once it resolves, whatever the status code,
        every entry with that id is dropped. */
    method DeleteTask(id: string, reply: Reply<()>) returns (sent: Request)
      modifies this
      ensures sent == Request(Delete, Some(id), NoBody)
      ensures tasks == (if reply.Answered? then RemoveById(old(tasks), id) else old(tasks))
      ensures loading == old(loading) && newTask == old(newTask) && filter == old(filter)
      ensures searchQuery == old(searchQuery) && showAddModal == old(showAddModal)
    {
      sent := Request(Delete, Some(id), NoBody);
      if reply.Answered? {
        tasks := RemoveById(tasks, id);
      }
    }

    /** The filter buttons. */
    method SetFilter(f: string)
      modifies this`filter
      ensures filter == f
    {
      filter := f;
    }

    /** The search box. */
    method SetSearchQuery(q: string)
      modifies this`searchQuery
      ensures searchQuery == q
    {
      searchQuery := q;
    }

    /** The "Add Task" and "Cancel" buttons. */
    method SetShowAddModal(show: bool)
      modifies this`showAddModal
      ensures showAddModal == show
    {
      showAddModal := show;
    }

    /** The title and description fields of the form. */
    method EditDraft(title: string, description: string)
      modifies this`newTask
      ensures newTask == Draft(title, description)
    {
      newTask := Draft(title, description);
    }
  }
}
