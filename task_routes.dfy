/** The task routes: create, update and delete with their ownership rules, the
    assigned / created / overdue listings and the user listing. Each handler
    runs after the middleware, so it receives the requesting principal;
    `req.user.id` is the user's `_id`, an ObjectId object, not a string. */
module TaskRoutes {
  import opened Common
  import opened ObjectIds
  import opened Users
  import opened Tasks

  const MSG_TASK_NOT_FOUND: string := "Task not found"
  const MSG_UPDATE_FORBIDDEN: string := "Not authorized to update this task"
  const MSG_DELETE_FORBIDDEN: string := "Not authorized to delete this task"
  const MSG_TASK_REMOVED: string := "Task removed"

  /** The JavaScript values the ownership checks compare. */
  datatype JsValue = JsString(s: string) | JsObjectId(oid: ObjectId)

  /** `req.user.id`. */
  function RequesterId(p: Principal): JsValue {
    JsObjectId(p.id)
  }

  /** `v.toString()`. */
  function ToStringOf(v: JsValue): string {
    match v
    case JsString(s) => s
    case JsObjectId(oid) => ToHexString(oid)
  }

  /** `s === v` for a string `s`: true only when `v` is that same string; a string is never `===` an object. */
  predicate StrictEqualsString(s: string, v: JsValue) {
    v.JsString? && v.s == s
  }

  /** POST /tasks. `newId` is the `_id` the driver assigns and `now` the creation time. */
  method CreateTask(store: TaskStore, requester: Principal, body: CreateBody, newId: ObjectId, now: int)
    returns (r: Reply<Task>)
    requires store.Valid() && newId !in store.tasks
    modifies store
    ensures store.Valid()
    ensures r.Ok? && r.status == 201
    ensures store.tasks == old(store.tasks)[newId := r.value]
    ensures r.value.id == newId && r.value.createdAt == now
    ensures r.value.createdBy == requester.id
    ensures r.value.assignedTo == OrNull(body.assignedTo)
    ensures r.value.title == StoredText(body.title) && r.value.description == StoredText(body.description)
    ensures r.value.dueDate == StoredDay(body.dueDate) && r.value.priority == StoredText(body.priority)
    ensures r.value.status.None?
  {
    var task := Task(newId, StoredText(body.title), StoredText(body.description), StoredDay(body.dueDate),
                     StoredText(body.priority), None, requester.id, OrNull(body.assignedTo), now);
    store.Insert(task);
    r := Ok(201, task);
  }

  /** The body fields the update handler destructures. */
  datatype UpdateBody = UpdateBody(
    title: Input<Text>,
    description: Input<Text>,
    status: Input<Text>,
    priority: Input<Text>,
    dueDate: Input<Day>,
    assignedTo: Input<ObjectId>)

  /** The update is refused: the requester's id string is neither the creator's nor the assignee's. */
  predicate UpdateDenied(t: Task, requester: Principal) {
    var me := ToStringOf(RequesterId(requester));
    ToHexString(t.createdBy) != me && (t.assignedTo.None? || ToHexString(t.assignedTo.value) != me)
  }

  /** Only the creator and the current assignee may update; with no assignee, only the creator. */
  lemma UpdateDeniedExactlyForOthers(t: Task, requester: Principal)
    ensures UpdateDenied(t, requester) <==> t.createdBy != requester.id && t.assignedTo != Some(requester.id)
  {
    ToHexStringInjective(t.createdBy, requester.id);
    if t.assignedTo.Some? {
      ToHexStringInjective(t.assignedTo.value, requester.id);
    }
  }

  /** The reassignment test as written: the creator's id string `===` `req.user.id`, an ObjectId. */
  predicate ReassignAllowedAsWritten(t: Task, requester: Principal) {
    StrictEqualsString(ToHexString(t.createdBy), RequesterId(requester))
  }

  /** The reassignment test as intended: both sides as strings, as the other checks compare them. */
  predicate ReassignAllowed(t: Task, requester: Principal) {
    ToHexString(t.createdBy) == ToStringOf(RequesterId(requester))
  }

  /** Only the creator passes the intended reassignment test. */
  lemma ReassignAllowedExactlyForCreator(t: Task, requester: Principal)
    ensures ReassignAllowed(t, requester) <==> t.createdBy == requester.id
  {
    ToHexStringInjective(t.createdBy, requester.id);
  }

  /** `updatedFields`: the truthy body fields, and the assignee (null when falsy) if it was
      supplied and the reassignment test passed. */
  function UpdatedFields(body: UpdateBody, mayReassign: bool): Changes {
    Changes(
      if Truthy(body.title) then Some(body.title.value) else None,
      if Truthy(body.description) then Some(body.description.value) else None,
      if Truthy(body.status) then Some(body.status.value) else None,
      if Truthy(body.priority) then Some(body.priority.value) else None,
      if Truthy(body.dueDate) then Some(body.dueDate.value) else None,
      if !body.assignedTo.Undefined? && mayReassign then Some(OrNull(body.assignedTo)) else None)
  }

  /** The task an authorized update leaves. */
  function UpdatedTask(t: Task, body: UpdateBody, requester: Principal): Task {
    ApplySet(t, UpdatedFields(body, ReassignAllowed(t, requester)))
  }

  /** What an update does to a task: each field given a truthy value takes it and every other field keeps its
      value; the assignee changes only when one is supplied and the requester is the creator, and a falsy one
      clears it; the id, the creator and the creation time never change. */
  lemma UpdateFieldSemantics(t: Task, body: UpdateBody, requester: Principal)
    ensures var r := UpdatedTask(t, body, requester);
            && r.id == t.id && r.createdBy == t.createdBy && r.createdAt == t.createdAt
            && r.title == (if Truthy(body.title) then Some(body.title.value) else t.title)
            && r.description == (if Truthy(body.description) then Some(body.description.value) else t.description)
            && r.status == (if Truthy(body.status) then Some(body.status.value) else t.status)
            && r.priority == (if Truthy(body.priority) then Some(body.priority.value) else t.priority)
            && r.dueDate == (if Truthy(body.dueDate) then Some(body.dueDate.value) else t.dueDate)
            && r.assignedTo == (if !body.assignedTo.Undefined? && t.createdBy == requester.id
                                then OrNull(body.assignedTo) else t.assignedTo)
  {
    ReassignAllowedExactlyForCreator(t, requester);
  }

  /** Repeating an update changes nothing more. */
  lemma UpdateIdempotent(t: Task, body: UpdateBody, requester: Principal)
    ensures UpdatedTask(UpdatedTask(t, body, requester), body, requester) == UpdatedTask(t, body, requester)
  {
    var r := UpdatedTask(t, body, requester);
    assert ReassignAllowed(r, requester) == ReassignAllowed(t, requester);
    ApplySetIdempotent(t, UpdatedFields(body, ReassignAllowed(t, requester)));
  }

  /** As written, the reassignment test never passes, so no update changes the assignee, not even the creator's. */
  lemma ReassignmentNeverAppliesAsWritten(t: Task, body: UpdateBody, requester: Principal)
    ensures !ReassignAllowedAsWritten(t, requester)
    ensures ApplySet(t, UpdatedFields(body, ReassignAllowedAsWritten(t, requester))).assignedTo == t.assignedTo
  {
  }

  /** The input that shows it: the creator asks to assign the task to someone new; as written the assignee stays,
      as intended it becomes the new one. */
  lemma CreatorReassignmentLostAsWritten(t: Task, body: UpdateBody, requester: Principal, newAssignee: ObjectId)
    requires t.createdBy == requester.id && t.assignedTo != Some(newAssignee)
    requires body.assignedTo == Given(newAssignee)
    ensures ApplySet(t, UpdatedFields(body, ReassignAllowedAsWritten(t, requester))).assignedTo == t.assignedTo
    ensures UpdatedTask(t, body, requester).assignedTo == Some(newAssignee)
  {
    ReassignAllowedExactlyForCreator(t, requester);
  }

  /** PUT /tasks/:id. */
  method UpdateTask(store: TaskStore, requester: Principal, id: ObjectId, body: UpdateBody) returns (r: Reply<Task>)
    requires store.Valid()
    modifies store
    ensures store.Valid()
    ensures id !in old(store.tasks) ==> r == Fail(404, MSG_TASK_NOT_FOUND) && store.tasks == old(store.tasks)
    ensures id in old(store.tasks) && old(store.tasks)[id].createdBy != requester.id
            && old(store.tasks)[id].assignedTo != Some(requester.id) ==>
              r == Fail(401, MSG_UPDATE_FORBIDDEN) && store.tasks == old(store.tasks)
    ensures id in old(store.tasks) && (old(store.tasks)[id].createdBy == requester.id
            || old(store.tasks)[id].assignedTo == Some(requester.id)) ==>
              && store.tasks == old(store.tasks)[id := UpdatedTask(old(store.tasks)[id], body, requester)]
              && r == Ok(200, store.tasks[id])
  {
    var found := store.FindById(id);
    if found.None? {
      return Fail(404, MSG_TASK_NOT_FOUND);
    }
    var task := found.value;
    UpdateDeniedExactlyForOthers(task, requester);
    if UpdateDenied(task, requester) {
      return Fail(401, MSG_UPDATE_FORBIDDEN);
    }
    var updatedFields := NO_CHANGES;
    if Truthy(body.title) { updatedFields := updatedFields.(title := Some(body.title.value)); }
    if Truthy(body.description) { updatedFields := updatedFields.(description := Some(body.description.value)); }
    if Truthy(body.status) { updatedFields := updatedFields.(status := Some(body.status.value)); }
    if Truthy(body.priority) { updatedFields := updatedFields.(priority := Some(body.priority.value)); }
    if Truthy(body.dueDate) { updatedFields := updatedFields.(dueDate := Some(body.dueDate.value)); }
    if !body.assignedTo.Undefined? && ReassignAllowed(task, requester) {
      updatedFields := updatedFields.(assignedTo := Some(OrNull(body.assignedTo)));
    }
    assert updatedFields == UpdatedFields(body, ReassignAllowed(task, requester));
    var updated := store.FindByIdAndUpdate(id, updatedFields);
    r := Ok(200, updated.value);
  }

  /** The delete is refused: the requester's id string is not the creator's. */
  predicate DeleteDenied(t: Task, requester: Principal) {
    ToHexString(t.createdBy) != ToStringOf(RequesterId(requester))
  }

  /** DELETE /tasks/:id. */
  method DeleteTask(store: TaskStore, requester: Principal, id: ObjectId) returns (r: Reply<string>)
    requires store.Valid()
    modifies store
    ensures store.Valid()
    ensures id !in old(store.tasks) ==> r == Fail(404, MSG_TASK_NOT_FOUND) && store.tasks == old(store.tasks)
    ensures id in old(store.tasks) && old(store.tasks)[id].createdBy != requester.id ==>
              r == Fail(401, MSG_DELETE_FORBIDDEN) && store.tasks == old(store.tasks)
    ensures id in old(store.tasks) && old(store.tasks)[id].createdBy == requester.id ==>
              r == Ok(200, MSG_TASK_REMOVED) && store.tasks == old(store.tasks) - {id}
  {
    var found := store.FindById(id);
    if found.None? {
      return Fail(404, MSG_TASK_NOT_FOUND);
    }
    ToHexStringInjective(found.value.createdBy, requester.id);
    if DeleteDenied(found.value, requester) {
      return Fail(401, MSG_DELETE_FORBIDDEN);
    }
    store.FindByIdAndDelete(id);
    r := Ok(200, MSG_TASK_REMOVED);
  }

  /** GET /tasks/assigned: the requester's assigned tasks, by due date. */
  ghost function AssignedTasks(tasks: map<ObjectId, Task>, me: ObjectId): (r: seq<Task>)
    ensures forall t :: t in r <==> t in tasks.Values && t.assignedTo == Some(me)
    ensures forall i, j :: 0 <= i < j < |r| ==> r[i] != r[j]
    ensures forall i, j :: 0 <= i < j < |r| ==> Before(DueDateAscending, r[i], r[j])
  {
    Find(tasks, AssignedTo(me), DueDateAscending)
  }

  /** GET /tasks/created: the requester's own tasks, newest first. */
  ghost function CreatedTasks(tasks: map<ObjectId, Task>, me: ObjectId): (r: seq<Task>)
    ensures forall t :: t in r <==> t in tasks.Values && t.createdBy == me
    ensures forall i, j :: 0 <= i < j < |r| ==> r[i] != r[j]
    ensures forall i, j :: 0 <= i < j < |r| ==> r[i].createdAt >= r[j].createdAt
  {
    Find(tasks, CreatedBy(me), CreatedAtDescending)
  }

  /** GET /tasks/overdue: tasks assigned to the requester, due before the start of `today` and not completed,
      by due date. */
  ghost function OverdueTasks(tasks: map<ObjectId, Task>, me: ObjectId, today: Day): (r: seq<Task>)
    ensures forall t :: t in r <==>
              && t in tasks.Values && t.assignedTo == Some(me)
              && t.dueDate.Some? && t.dueDate.value < today && t.status != Some(COMPLETED)
    ensures forall i, j :: 0 <= i < j < |r| ==> r[i] != r[j]
    ensures forall i, j :: 0 <= i < j < |r| ==>
              r[i].dueDate.Some? && r[j].dueDate.Some? && r[i].dueDate.value <= r[j].dueDate.value
  {
    var r := Find(tasks, OverdueFor(me, today), DueDateAscending);
    assert forall i :: 0 <= i < |r| ==> r[i].dueDate.Some? by {
      forall i | 0 <= i < |r| ensures r[i].dueDate.Some? {
        assert r[i] in r;
      }
    }
    r
  }

  /** The overdue listing is the part of the assigned listing that is past due and not completed. */
  lemma OverdueWithinAssigned(tasks: map<ObjectId, Task>, me: ObjectId, today: Day, t: Task)
    ensures t in OverdueTasks(tasks, me, today) <==>
              t in AssignedTasks(tasks, me) && t.dueDate.Some? && t.dueDate.value < today && t.status != Some(COMPLETED)
  {
  }

  /** A created task appears in its creator's created listing and, when it has one, in its assignee's assigned
      listing. */
  lemma CreatedTaskListed(tasks: map<ObjectId, Task>, t: Task)
    requires t.id !in tasks
    ensures t in CreatedTasks(tasks[t.id := t], t.createdBy)
    ensures t.assignedTo.Some? ==> t in AssignedTasks(tasks[t.id := t], t.assignedTo.value)
  {
    var after := tasks[t.id := t];
    assert after[t.id] == t;
    assert t in after.Values;
  }

  /** GET /users: every user's `_id`, name and e-mail, by name. */
  ghost function AllUsers(users: map<Email, User>): (r: seq<UserSummary>)
    ensures forall u :: u in users.Values ==> Summary(u) in r
    ensures forall s :: s in r ==> exists u :: u in users.Values && Summary(u) == s
    ensures forall i, j :: 0 <= i < j < |r| ==> r[i] != r[j]
    ensures forall i, j :: 0 <= i < j < |r| ==> Ordering.TextLe(r[i].name, r[j].name)
  {
    ListUsers(users, None)
  }
}
