/** The task collection as the route handlers use it: task documents, the
    `$set` documents an update applies, the store with its insert, update and
    delete primitives, and the `find(...).sort(...)` queries. */
module Tasks {
  import opened Common
  import opened ObjectIds
  import opened Ordering

  /** A stored task. Optional fields are None when absent or null (the two are not told apart); `status` and
      `priority` are None where the handler leaves them to schema defaults. */
  datatype Task = Task(
    id: ObjectId,
    title: Option<string>,
    description: Option<string>,
    dueDate: Option<Day>,
    priority: Option<string>,
    status: Option<string>,
    createdBy: ObjectId,
    assignedTo: Option<ObjectId>,
    createdAt: int)

  /** The body fields both create handlers destructure. */
  datatype CreateBody = CreateBody(
    title: Input<Text>,
    description: Input<Text>,
    dueDate: Input<Day>,
    priority: Input<Text>,
    assignedTo: Input<ObjectId>)

  /** How Mongoose stores a string field given in a body: a given string and the empty string are stored as they
      are; null is stored as null and undefined leaves the field absent, both None here. */
  function StoredText(v: Input<Text>): (r: Option<string>)
    ensures r.Some? <==> v.Given? || v.Empty?
    ensures v.Given? ==> r.Some? && r.value == v.value
    ensures v.Empty? ==> r == Some("")
  {
    match v
    case Given(t) => Some(t)
    case Empty => Some("")
    case _ => None
  }

  /** How Mongoose stores a date field: the empty string and null are cast to a stored null and undefined leaves
      the field absent, all None here. */
  function StoredDay(v: Input<Day>): (r: Option<Day>)
    ensures r.Some? <==> v.Given?
    ensures v.Given? ==> r == Some(v.value)
  {
    if v.Given? then Some(v.value) else None
  }

  /** A `$set` document: None leaves a field alone. It has no entry for `_id`,
      `createdBy` or `createdAt`, so no update can write them. */
  datatype Changes = Changes(
    title: Option<string>,
    description: Option<string>,
    status: Option<string>,
    priority: Option<string>,
    dueDate: Option<Day>,
    assignedTo: Option<Option<ObjectId>>)

  const NO_CHANGES: Changes := Changes(None, None, None, None, None, None)

  /** The value a field has after a `$set` entry `change` when it was `current`. */
  function Pick<T>(change: Option<T>, current: T): (r: T)
    ensures change.Some? ==> r == change.value
    ensures change.None? ==> r == current
  {
    if change.Some? then change.value else current
  }

  function Lift<T>(change: Option<T>): Option<Option<T>> {
    if change.Some? then Some(Some(change.value)) else None
  }

  /** `$set`: every field the document names takes its value, the rest keep theirs. */
  function ApplySet(t: Task, c: Changes): (r: Task)
    ensures r.id == t.id && r.createdBy == t.createdBy && r.createdAt == t.createdAt
  {
    t.(title := Pick(Lift(c.title), t.title),
       description := Pick(Lift(c.description), t.description),
       status := Pick(Lift(c.status), t.status),
       priority := Pick(Lift(c.priority), t.priority),
       dueDate := Pick(Lift(c.dueDate), t.dueDate),
       assignedTo := Pick(c.assignedTo, t.assignedTo))
  }

  /** Applying the same `$set` twice is applying it once. */
  lemma ApplySetIdempotent(t: Task, c: Changes)
    ensures ApplySet(ApplySet(t, c), c) == ApplySet(t, c)
  {
  }

  /** An empty `$set` leaves the task as it was. */
  lemma ApplyNoChanges(t: Task)
    ensures ApplySet(t, NO_CHANGES) == t
  {
  }

  /** The task collection. */
  class TaskStore {
    var tasks: map<ObjectId, Task>

    /** Every task is stored under its own `_id`. */
    ghost predicate Valid()
      reads this
    {
      forall id :: id in tasks ==> tasks[id].id == id
    }

    constructor ()
      ensures Valid() && tasks == map[]
    {
      tasks := map[];
    }

    /** `Task.findById(id)`. */
    function FindById(id: ObjectId): (r: Option<Task>)
      reads this
      requires Valid()
      ensures r.Some? <==> id in tasks
      ensures r.Some? ==> r.value == tasks[id] && r.value.id == id
    {
      if id in tasks then Some(tasks[id]) else None
    }

    /** `task.save()` for a new task. */
    method Insert(t: Task)
      requires Valid() && t.id !in tasks
      modifies this
      ensures Valid()
      ensures tasks == old(tasks)[t.id := t]
    {
      tasks := tasks[t.id := t];
    }

    /** `Task.findByIdAndUpdate(id, { $set: c }, { new: true })`: the updated task, or None (null) when there is none. */
    method FindByIdAndUpdate(id: ObjectId, c: Changes) returns (r: Option<Task>)
      requires Valid()
      modifies this
      ensures Valid()
      ensures id in old(tasks) ==> tasks == old(tasks)[id := ApplySet(old(tasks)[id], c)] && r == Some(tasks[id])
      ensures id !in old(tasks) ==> tasks == old(tasks) && r == None
    {
      if id in tasks {
        tasks := tasks[id := ApplySet(tasks[id], c)];
        r := Some(tasks[id]);
      } else {
        r := None;
      }
    }

    /** `Task.findByIdAndDelete(id)`. */
    method FindByIdAndDelete(id: ObjectId)
      requires Valid()
      modifies this
      ensures Valid()
      ensures tasks == old(tasks) - {id}
    {
      tasks := tasks - {id};
    }
  }

  /** The query filters the handlers pass to `Task.find`. */
  datatype Filter =
    | AssignedTo(user: ObjectId)
    | CreatedBy(user: ObjectId)
    | OverdueFor(user: ObjectId, today: Day)

  const COMPLETED: string := "completed"

  predicate Matches(f: Filter, t: Task) {
    match f
    case AssignedTo(u) => t.assignedTo == Some(u)
    case CreatedBy(u) => t.createdBy == u
    case OverdueFor(u, today) =>
      // { assignedTo: u, dueDate: { $lt: today }, status: { $ne: "completed" } }
      t.assignedTo == Some(u) && t.dueDate.Some? && t.dueDate.value < today && t.status != Some(COMPLETED)
  }

  /** The sort orders the handlers pass to `.sort`. */
  datatype SortOrder = DueDateAscending | CreatedAtDescending

  /** `a` may come before `b`: by due date with missing dates first (MongoDB
      orders null before dates), or newest first by creation time. */
  predicate Before(o: SortOrder, a: Task, b: Task) {
    match o
    case DueDateAscending => a.dueDate.None? || (b.dueDate.Some? && a.dueDate.value <= b.dueDate.value)
    case CreatedAtDescending => a.createdAt >= b.createdAt
  }

  function BeforeIn(o: SortOrder): (Task, Task) -> bool {
    (a: Task, b: Task) => Before(o, a, b)
  }

  lemma SortOrderIsTotalPreorder(o: SortOrder, xs: set<Task>)
    ensures TotalPreorderOn(xs, BeforeIn(o))
  {
  }

  /** `Task.find(filter).sort(order)`: each matching task once, in order. */
  ghost function Find(tasks: map<ObjectId, Task>, f: Filter, o: SortOrder): (r: seq<Task>)
    ensures forall t :: t in r <==> t in tasks.Values && Matches(f, t)
    ensures forall i, j :: 0 <= i < j < |r| ==> r[i] != r[j]
    ensures forall i, j :: 0 <= i < j < |r| ==> Before(o, r[i], r[j])
  {
    var selected := set t | t in tasks.Values && Matches(f, t);
    SortOrderIsTotalPreorder(o, selected);
    SortedBy(selected, BeforeIn(o))
  }
}
