/**
 * The task controller over an in-memory task collection. Every operation is
 * scoped to the already-authenticated caller: reads and writes go through the
 * pair (task id, owner), and a task that belongs to someone else answers 404
 * exactly like a task that does not exist.
 */
module TaskController {
  import opened Wrappers
  import opened Http
  import opened Seqs
  import opened TaskModel
  import opened TaskQuery

  const TaskNotFound: string := "Task not found"
  /** The store's answer to a second document with an `_id` already in use. */
  const DuplicateKey: string := "E11000 duplicate key error"
  /** The store's answer to a save that would change a document's `_id`. */
  const ImmutableId: string := "Performing an update on the path '_id' would modify the immutable field '_id'"

  /** No two stored tasks share an `_id`. */
  ghost predicate UniqueIds(s: seq<Task>)
  {
    forall i, j :: 0 <= i < j < |s| ==> s[i].id != s[j].id
  }

  predicate IdTaken(s: seq<Task>, id: TaskId)
  {
    exists t :: t in s && t.id == id
  }

  /** The lookup key of update and delete: `{ _id: id, user: caller }`. */
  predicate Owned(t: Task, id: TaskId, caller: UserId)
  {
    t.id == id && t.user == caller
  }

  /** `findOne({ _id, user })`: the position of the first task with that id and owner. */
  function Find(s: seq<Task>, id: TaskId, caller: UserId): (r: Option<nat>)
    ensures r.Some? ==> r.value < |s| && Owned(s[r.value], id, caller)
    ensures r.Some? ==> forall j :: 0 <= j < r.value ==> !Owned(s[j], id, caller)
    ensures r.None? <==> forall t :: t in s ==> !Owned(t, id, caller)
  {
    if s == [] then None
    else if Owned(s[0], id, caller) then Some(0)
    else
      assert forall t :: t in s ==> t == s[0] || t in s[1..];
      match Find(s[1..], id, caller)
      case None => None
      case Some(i) => Some(i + 1)
  }

  /** With unique ids, a task with the id that belongs to another user is not found. */
  lemma ForeignTaskNotFound(s: seq<Task>, id: TaskId, caller: UserId, k: nat)
    requires UniqueIds(s)
    requires k < |s| && s[k].id == id && s[k].user != caller
    ensures Find(s, id, caller) == None
  {
  }

  /** Once the found task is removed, no task with its id is left, for any owner. */
  lemma RemovedIdIsGone(s: seq<Task>, i: nat, caller: UserId)
    requires UniqueIds(s) && i < |s|
    ensures UniqueIds(s[..i] + s[i + 1..])
    ensures forall t :: t in s[..i] + s[i + 1..] ==> t.id != s[i].id
    ensures Find(s[..i] + s[i + 1..], s[i].id, caller) == None
  {
  }

  /** The document a create starts from before the body's keys are copied in. */
  function Blank(freshId: TaskId): Task
  {
    Task(freshId, 0, "", None, 0, "", false, None)
  }

  /** `new Task({ ...req.body, user: req.user._id })`. */
  function NewTask(freshId: TaskId, caller: UserId, body: seq<Assignment>): Task
  {
    Assign(ApplyAll(Blank(freshId), body), SetUser(caller))
  }

  /**
   * A created task belongs to the caller even when the body names another
   * owner, and every other key holds what the body last gave it, or the
   * blank document's value when the body does not mention it.
   */
  lemma NewTaskFields(freshId: TaskId, caller: UserId, body: seq<Assignment>)
    ensures NewTask(freshId, caller, body).user == caller
    ensures forall k :: k != UserKey ==>
      Read(NewTask(freshId, caller, body), k) == LastFor(body, k, Read(Blank(freshId), k))
  {
    forall k | k != UserKey
      ensures Read(NewTask(freshId, caller, body), k) == LastFor(body, k, Read(Blank(freshId), k))
    {
      ApplyAllReads(Blank(freshId), body, k);
    }
  }

  /** A task the caller just created shows up in the caller's listing under any filter it satisfies. */
  lemma CreatedTaskIsListed(tasks: seq<Task>, t: Task, params: QueryParams)
    requires Satisfies(t, BuildQuery(params))
    ensures t in Matching(tasks + [t], t.user, BuildQuery(params))
    ensures forall u :: u in tasks ==>
      (u in Matching(tasks + [t], t.user, BuildQuery(params)) <==> u in Matching(tasks, t.user, BuildQuery(params)))
  {
  }

  /** The task collection, with the schema validation that every save runs. */
  class TaskStore {
    var tasks: seq<Task>
    /** Mongoose validation of a document about to be saved: `None`, or the validation message. */
    const validate: Task -> Option<string>

    ghost predicate Valid()
      reads this
    {
      UniqueIds(tasks)
    }

    constructor (validate: Task -> Option<string>)
      ensures Valid() && tasks == [] && this.validate == validate
    {
      tasks := [];
      this.validate := validate;
    }

    /**
     * `createTask`: builds the document from the body with the owner forced
     * to the caller; a document the validation rejects, or one whose `_id` is
     * taken, answers 400 and the collection stays as it was.
     */
    method CreateTask(caller: UserId, freshId: TaskId, body: seq<Assignment>) returns (reply: Reply<Task>)
      requires Valid()
      modifies this
      ensures Valid()
      ensures var t := NewTask(freshId, caller, body);
        if validate(t).Some? then reply == Failed(BadRequest, validate(t).value) && tasks == old(tasks)
        else if IdTaken(old(tasks), t.id) then reply == Failed(BadRequest, DuplicateKey) && tasks == old(tasks)
        else reply == Ok(Created, t) && tasks == old(tasks) + [t]
      ensures reply.Ok? ==> reply.value.user == caller
    {
      var task := NewTask(freshId, caller, body);
      NewTaskFields(freshId, caller, body);
      var verdict := validate(task);
      if verdict.Some? {
        return Failed(BadRequest, verdict.value);
      }
      if IdTaken(tasks, task.id) {
        return Failed(BadRequest, DuplicateKey);
      }
      tasks := tasks + [task];
      reply := Ok(Created, task);
    }

    /**
     * `getTasks`: exactly the caller's tasks that satisfy every present
     * filter, ordered by the one sort key when that key is a field of the
     * document, in store order when there is no sort key.
     */
    method GetTasks(caller: UserId, params: QueryParams) returns (reply: Reply<seq<Task>>)
      ensures reply.Ok? && reply.status == Success
      ensures multiset(reply.value) == multiset(Matching(tasks, caller, BuildQuery(params)))
      ensures forall t :: t in reply.value <==> t in tasks && t.user == caller && Satisfies(t, BuildQuery(params))
      ensures BuildQuery(params).sort.None? ==> reply.value == Matching(tasks, caller, BuildQuery(params))
      ensures var q := BuildQuery(params);
        q.sort.Some? && KeyFromName(q.sort.value.field).Some? ==>
          SortedBy(reply.value, KeyFromName(q.sort.value.field).value, q.sort.value.direction)
    {
      var query := BuildQuery(params);
      var matched := Matching(tasks, caller, query);
      var sorted := ApplySort(matched, query.sort);
      assert forall t :: t in sorted <==> t in multiset(matched);
      reply := Ok(Success, sorted);
    }

    /**
     * `updateTask`: finds the caller's task with that id (404 otherwise),
     * assigns every submitted key onto it (the owner and the id included),
     * and saves it; a save the store refuses answers 400 and changes nothing.
     */
    method UpdateTask(caller: UserId, id: TaskId, body: seq<Assignment>) returns (reply: Reply<Task>)
      requires Valid()
      modifies this
      ensures Valid()
      ensures |tasks| == |old(tasks)|
      ensures forall j :: 0 <= j < |old(tasks)| && old(tasks)[j].user != caller ==> tasks[j] == old(tasks)[j]
      ensures match Find(old(tasks), id, caller)
        case None => reply == Failed(NotFound, TaskNotFound) && tasks == old(tasks)
        case Some(i) =>
          var updated := ApplyAll(old(tasks)[i], body);
          if validate(updated).Some? then reply == Failed(BadRequest, validate(updated).value) && tasks == old(tasks)
          else if updated.id != id then reply == Failed(BadRequest, ImmutableId) && tasks == old(tasks)
          else reply == Ok(Success, updated) && tasks == old(tasks)[i := updated]
    {
      var found := Find(tasks, id, caller);
      if found.None? {
        return Failed(NotFound, TaskNotFound);
      }
      var i := found.value;
      var task := tasks[i];
      var k := 0;
      while k < |body|
        invariant 0 <= k <= |body|
        invariant task == ApplyAll(tasks[i], body[..k])
      {
        assert body[..k + 1][..k] == body[..k];
        task := Assign(task, body[k]);
        k := k + 1;
      }
      assert body[..|body|] == body;
      var verdict := validate(task);
      if verdict.Some? {
        return Failed(BadRequest, verdict.value);
      }
      if task.id != id {
        return Failed(BadRequest, ImmutableId);
      }
      tasks := tasks[i := task];
      reply := Ok(Success, task);
    }

    /**
     * `deleteTask`: removes the caller's task with that id and answers with
     * it, or answers 404 and changes nothing; afterwards no task with that id
     * is left for the caller, so a second delete answers 404.
     */
    method DeleteTask(caller: UserId, id: TaskId) returns (reply: Reply<Task>)
      requires Valid()
      modifies this
      ensures Valid()
      ensures match Find(old(tasks), id, caller)
        case None => reply == Failed(NotFound, TaskNotFound) && tasks == old(tasks)
        case Some(i) => reply == Ok(Success, old(tasks)[i]) && tasks == old(tasks)[..i] + old(tasks)[i + 1..]
      ensures Find(tasks, id, caller) == None
    {
      var found := Find(tasks, id, caller);
      if found.None? {
        return Failed(NotFound, TaskNotFound);
      }
      var i := found.value;
      reply := Ok(Success, tasks[i]);
      RemovedIdIsGone(tasks, i, caller);
      tasks := tasks[..i] + tasks[i + 1..];
    }
  }

  /**
   * Because `updateTask` assigns every submitted key, an owner can hand a task
   * to another user: afterwards the task is gone from the owner's listing and
   * appears in the other user's.
   */
  method OwnerReassignment() returns (ownerView: seq<Task>, otherView: seq<Task>)
    ensures ownerView == []
    ensures |otherView| == 1 && otherView[0].id == 10 && otherView[0].user == 2
  {
    var store := new TaskStore((t: Task) => None);
    var created := store.CreateTask(1, 10, [SetTitle("report")]);
    assert store.tasks == [Task(10, 1, "report", None, 0, "", false, None)];
    var updated := store.UpdateTask(1, 10, [SetUser(2)]);
    assert store.tasks == [Task(10, 2, "report", None, 0, "", false, None)];
    var noParams := QueryParams(None, None, None);
    var mine := store.GetTasks(1, noParams);
    var theirs := store.GetTasks(2, noParams);
    ownerView, otherView := mine.value, theirs.value;
    assert store.tasks[0] in otherView;
    assert otherView == Matching(store.tasks, 2, BuildQuery(noParams));
    assert Satisfies(store.tasks[0], BuildQuery(noParams));
    assert otherView == [store.tasks[0]];
  }
}
