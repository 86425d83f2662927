/** The assistant routes: the list of users to assign to (everyone but the
    requester, by name), the task listings selected by a path parameter, and a
    task creation that checks its required fields and fills in defaults. */
module TaskAssistant {
  import opened Common
  import opened ObjectIds
  import opened Users
  import opened Tasks
  import TaskRoutes

  const MSG_INVALID_TYPE: string := "Invalid task type"
  const MSG_FIELDS_REQUIRED: string := "Title, description and due date are required"
  const DEFAULT_PRIORITY: string := "medium"
  const INITIAL_STATUS: string := "pending"

  /** GET /users: every user other than the requester, by name. */
  ghost function OtherUsers(users: map<Email, User>, me: ObjectId): (r: seq<UserSummary>)
    ensures forall s :: s in r ==> s.id != me
    ensures forall u :: u in users.Values && u.id != me ==> Summary(u) in r
    ensures forall s :: s in r ==> exists u :: u in users.Values && Summary(u) == s
    ensures forall i, j :: 0 <= i < j < |r| ==> r[i] != r[j]
    ensures forall i, j :: 0 <= i < j < |r| ==> Ordering.TextLe(r[i].name, r[j].name)
  {
    ListUsers(users, Some(me))
  }

  /** The assistant's user list is the full user list without the requester. */
  lemma OtherUsersAreAllButRequester(users: map<Email, User>, me: ObjectId, s: UserSummary)
    ensures s in OtherUsers(users, me) <==> s in TaskRoutes.AllUsers(users) && s.id != me
  {
  }

  /** The task listing each accepted path parameter selects, sorted by due date. */
  function FilterFor(kind: string, me: ObjectId, today: Day): Option<Filter> {
    if kind == "assigned" then Some(AssignedTo(me))
    else if kind == "created" then Some(CreatedBy(me))
    else if kind == "overdue" then Some(OverdueFor(me, today))
    else None
  }

  /** GET /tasks/:type. */
  ghost function TasksOfType(kind: string, tasks: map<ObjectId, Task>, me: ObjectId, today: Day): (r: Reply<seq<Task>>)
    ensures kind !in {"assigned", "created", "overdue"} <==> r == Fail(400, MSG_INVALID_TYPE)
    ensures r.Ok? ==> r.status == 200
    ensures r.Ok? ==> forall i, j :: 0 <= i < j < |r.value| ==> Before(DueDateAscending, r.value[i], r.value[j])
    ensures r.Ok? ==> forall i, j :: 0 <= i < j < |r.value| ==> r.value[i] != r.value[j]
    ensures kind == "assigned" ==> r.Ok? && forall t :: t in r.value <==> t in tasks.Values && t.assignedTo == Some(me)
    ensures kind == "created" ==> r.Ok? && forall t :: t in r.value <==> t in tasks.Values && t.createdBy == me
    ensures kind == "overdue" ==> r.Ok? && forall t :: t in r.value <==>
              && t in tasks.Values && t.assignedTo == Some(me)
              && t.dueDate.Some? && t.dueDate.value < today && t.status != Some(COMPLETED)
  {
    match FilterFor(kind, me, today)
    case None => Fail(400, MSG_INVALID_TYPE)
    case Some(f) => Ok(200, Find(tasks, f, DueDateAscending))
  }

  /** The assistant's "assigned" and "overdue" listings are the task routes' own; its "created" listing holds
      the same tasks as theirs, sorted by due date instead of newest first. */
  lemma TasksOfTypeAgreesWithTaskRoutes(tasks: map<ObjectId, Task>, me: ObjectId, today: Day, t: Task)
    ensures TasksOfType("assigned", tasks, me, today) == Ok(200, TaskRoutes.AssignedTasks(tasks, me))
    ensures TasksOfType("overdue", tasks, me, today) == Ok(200, TaskRoutes.OverdueTasks(tasks, me, today))
    ensures t in TasksOfType("created", tasks, me, today).value <==> t in TaskRoutes.CreatedTasks(tasks, me)
  {
  }

  /** A task the assistant has just created is listed under "created" for its creator and, being pending, under
      "overdue" for its assignee once its due date is before `today`. */
  lemma CreatedTaskListedByType(tasks: map<ObjectId, Task>, t: Task, today: Day)
    requires t.id !in tasks && t.status == Some(INITIAL_STATUS)
    ensures t in TasksOfType("created", tasks[t.id := t], t.createdBy, today).value
    ensures t.assignedTo.Some? && t.dueDate.Some? && t.dueDate.value < today ==>
              t in TasksOfType("overdue", tasks[t.id := t], t.assignedTo.value, today).value
  {
    var after := tasks[t.id := t];
    assert after[t.id] == t;
    assert t in after.Values;
  }

  /** POST /tasks. `newId` is the `_id` the driver assigns and `now` the creation time. */
  method CreateTask(store: TaskStore, requester: Principal, body: CreateBody, newId: ObjectId, now: int)
    returns (r: Reply<Task>)
    requires store.Valid() && newId !in store.tasks
    modifies store
    ensures store.Valid()
    ensures !Truthy(body.title) || !Truthy(body.description) || !Truthy(body.dueDate) ==>
              r == Fail(400, MSG_FIELDS_REQUIRED) && store.tasks == old(store.tasks)
    ensures Truthy(body.title) && Truthy(body.description) && Truthy(body.dueDate) ==>
              && r.Ok? && r.status == 200
              && store.tasks == old(store.tasks)[newId := r.value]
              && r.value == Task(newId, Some(body.title.value), Some(body.description.value),
                                 Some(body.dueDate.value), Some(OrElse(body.priority, DEFAULT_PRIORITY)),
                                 Some(INITIAL_STATUS), requester.id, OrNull(body.assignedTo), now)
  {
    if !Truthy(body.title) || !Truthy(body.description) || !Truthy(body.dueDate) {
      return Fail(400, MSG_FIELDS_REQUIRED);
    }
    var priority: string := OrElse(body.priority, DEFAULT_PRIORITY);
    var task := Task(newId, Some(body.title.value), Some(body.description.value), Some(body.dueDate.value),
                     Some(priority), Some(INITIAL_STATUS), requester.id, OrNull(body.assignedTo), now);
    store.Insert(task);
    var populated := store.FindById(task.id);
    r := Ok(200, populated.value);
  }
}
