/**
 * The browser client's in-memory task list (`TaskManager.tasks`) and how it
 * follows the server's answers. The network is the `server` parameter: it
 * maps each request to the response the client receives, an `ok` flag with
 * the task in the response body. A response that is not ok throws before the
 * list is touched, so the list stays as it was.
 */
module Client {
  import opened Wrappers
  import opened Text
  import opened Seqs
  import opened TaskModel

  /** The task requests the client sends. */
  datatype Request =
    | Post(body: seq<Assignment>)
    | Patch(id: TaskId, body: seq<Assignment>)
    | Delete(id: TaskId)

  /** `response.ok` and `await response.json()`. */
  datatype Response = Response(ok: bool, task: Task)

  /** The values of the task form's four inputs. */
  datatype TaskForm = TaskForm(title: string, description: string, deadline: int, priority: string)

  /** The counts `calculateStatistics` gathers. */
  datatype Statistics = Statistics(total: nat, completed: nat, high: nat, medium: nat, low: nat, upcoming: nat)

  /** Seven days in milliseconds. */
  const Week: int := 7 * 24 * 60 * 60 * 1000

  /** `tasks.map(t => t._id === saved._id ? saved : t)`. */
  function ReplaceById(tasks: seq<Task>, saved: Task): (r: seq<Task>)
    ensures |r| == |tasks|
    ensures forall i :: 0 <= i < |tasks| ==> r[i] == if tasks[i].id == saved.id then saved else tasks[i]
  {
    if tasks == [] then []
    else [if tasks[0].id == saved.id then saved else tasks[0]] + ReplaceById(tasks[1..], saved)
  }

  /** Replacing keeps every entry's id where it was, and doing it twice is doing it once. */
  lemma ReplaceByIdKeepsIds(tasks: seq<Task>, saved: Task)
    ensures forall i :: 0 <= i < |tasks| ==> ReplaceById(tasks, saved)[i].id == tasks[i].id
    ensures ReplaceById(ReplaceById(tasks, saved), saved) == ReplaceById(tasks, saved)
  {
  }

  /** `tasks.filter(t => t._id !== id)`. */
  function RemoveById(tasks: seq<Task>, id: TaskId): (r: seq<Task>)
    ensures IsSubsequence(r, tasks)
    ensures forall t :: t in r ==> t.id != id
    ensures forall t :: t in tasks && t.id != id ==> t in r
    ensures forall t: Task :: t.id != id ==> multiset(r)[t] == multiset(tasks)[t]
  {
    FilterCounts(tasks, (t: Task) => t.id != id);
    Filter(tasks, (t: Task) => t.id != id)
  }

  /** `tasks.find(t => t._id === id)`, as the position of the entry found. */
  function FirstWithId(tasks: seq<Task>, id: TaskId): (r: Option<nat>)
    ensures r.None? <==> forall t :: t in tasks ==> t.id != id
    ensures r.Some? ==> r.value < |tasks| && tasks[r.value].id == id
    ensures r.Some? ==> forall j :: 0 <= j < r.value ==> tasks[j].id != id
  {
    if tasks == [] then None
    else if tasks[0].id == id then Some(0)
    else
      assert forall t :: t in tasks ==> t == tasks[0] || t in tasks[1..];
      match FirstWithId(tasks[1..], id)
      case None => None
      case Some(i) => Some(i + 1)
  }

  /** The body `handleTaskSubmit` sends: the four form fields. */
  function FormBody(form: TaskForm): seq<Assignment>
  {
    [SetTitle(form.title), SetDescription(Some(form.description)), SetDeadline(form.deadline), SetPriority(form.priority)]
  }

  /** PATCH to the task being edited, POST otherwise. */
  function SubmitRequest(editing: Option<TaskId>, form: TaskForm): Request
  {
    if editing.Some? then Patch(editing.value, FormBody(form)) else Post(FormBody(form))
  }

  /** The search term matches a text field when the field's lower-cased form contains it. */
  predicate MatchesText(field: string, term: string)
  {
    Contains(Lower(field), term)
  }

  /** The condition of `filterTasks`; `term` is the already lower-cased search text. */
  predicate Passes(t: Task, priorityFilter: string, term: string)
  {
    (priorityFilter == "" || t.priority == priorityFilter) &&
    (term == "" || MatchesText(t.title, term) ||
      (t.description.Some? && t.description.value != "" && MatchesText(t.description.value, term)))
  }

  /**
   * A task passes when the priority filter is empty or equal to its priority,
   * and the search term is empty or occurs in its lower-cased title or in its
   * lower-cased description.
   */
  lemma PassesMeaning(t: Task, priorityFilter: string, term: string)
    ensures Passes(t, priorityFilter, term) <==>
      (priorityFilter == "" || t.priority == priorityFilter) &&
      (term == "" || (exists i :: OccursAt(Lower(t.title), term, i)) ||
        (t.description.Some? && exists i :: OccursAt(Lower(t.description.value), term, i)))
  {
    ContainsMeansOccurs(Lower(t.title), term);
    if t.description.Some? {
      ContainsMeansOccurs(Lower(t.description.value), term);
      assert t.description.value == "" ==> (MatchesText(t.description.value, term) <==> term == "");
    }
  }

  predicate IsCompleted(t: Task) { t.completed }
  predicate IsHigh(t: Task) { t.priority == "high" }
  predicate IsMedium(t: Task) { t.priority == "medium" }
  predicate IsLow(t: Task) { t.priority == "low" }

  /** `now < deadline <= now + 7 days`. */
  function DueWithinWeek(now: int): Task -> bool
  {
    (t: Task) => now < t.deadline <= now + Week
  }

  class TaskManager {
    var tasks: seq<Task>

    constructor ()
      ensures tasks == []
    {
      tasks := [];
    }

    /** `loadTasks`: the fetched list replaces the cache when the response is ok. */
    method LoadTasks(ok: bool, fetched: seq<Task>)
      modifies this
      ensures tasks == if ok then fetched else old(tasks)
    {
      if ok {
        tasks := fetched;
      }
    }

    /**
     * `handleTaskSubmit`: a created task is appended at the end, an edited one
     * replaces every entry with the returned task's id.
     */
    method HandleTaskSubmit(editing: Option<TaskId>, form: TaskForm, server: Request -> Response)
      modifies this
      ensures var response := server(SubmitRequest(editing, form));
        tasks ==
          if !response.ok then old(tasks)
          else if editing.Some? then ReplaceById(old(tasks), response.task)
          else old(tasks) + [response.task]
    {
      var response := server(SubmitRequest(editing, form));
      if !response.ok {
        return;
      }
      if editing.Some? {
        tasks := ReplaceById(tasks, response.task);
      } else {
        tasks := tasks + [response.task];
      }
    }

    /** `deleteTask`: after confirmation and an ok response, every entry with that id is dropped. */
    method DeleteTask(id: TaskId, confirmed: bool, server: Request -> Response)
      modifies this
      ensures tasks == if confirmed && server(Delete(id)).ok then RemoveById(old(tasks), id) else old(tasks)
    {
      if !confirmed {
        return;
      }
      var response := server(Delete(id));
      if !response.ok {
        return;
      }
      tasks := RemoveById(tasks, id);
    }

    /**
     * `toggleTaskComplete`: nothing happens when no entry has that id;
     * otherwise it asks for the opposite of the first such entry's `completed`
     * and puts the returned task in place.
     */
    method ToggleTaskComplete(id: TaskId, server: Request -> Response)
      modifies this
      ensures match FirstWithId(old(tasks), id)
        case None => tasks == old(tasks)
        case Some(i) =>
          var response := server(Patch(id, [SetCompleted(!old(tasks)[i].completed)]));
          tasks == if response.ok then ReplaceById(old(tasks), response.task) else old(tasks)
    {
      var found := FirstWithId(tasks, id);
      if found.None? {
        return;
      }
      var task := tasks[found.value];
      var response := server(Patch(id, [SetCompleted(!task.completed)]));
      if !response.ok {
        return;
      }
      tasks := ReplaceById(tasks, response.task);
    }

    /** `addCategory`: sends the category and puts the returned task in place. */
    method AddCategory(id: TaskId, category: string, server: Request -> Response)
      modifies this
      ensures var response := server(Patch(id, [SetCategory(Some(category))]));
        tasks == if response.ok then ReplaceById(old(tasks), response.task) else old(tasks)
    {
      var response := server(Patch(id, [SetCategory(Some(category))]));
      if !response.ok {
        return;
      }
      tasks := ReplaceById(tasks, response.task);
    }

    /**
     * `filterTasks`: the entries that pass, in list order; the list itself is
     * only read.
     */
    function FilterTasks(priorityFilter: string, search: string): (r: seq<Task>)
      reads this
      ensures IsSubsequence(r, tasks)
      ensures forall t :: t in r <==> t in tasks && Passes(t, priorityFilter, Lower(search))
    {
      Filter(tasks, (t: Task) => Passes(t, priorityFilter, Lower(search)))
    }

    /**
     * `calculateStatistics` at time `now`: each count is the number of list
     * entries meeting its condition.
     */
    function CalculateStatistics(now: int): (s: Statistics)
      reads this
      ensures s.total == |tasks|
      ensures s.completed == Count(tasks, IsCompleted)
      ensures s.high == Count(tasks, IsHigh) && s.medium == Count(tasks, IsMedium) && s.low == Count(tasks, IsLow)
      ensures s.upcoming == Count(tasks, DueWithinWeek(now))
      ensures s.completed <= s.total && s.upcoming <= s.total
      ensures s.high + s.medium + s.low <= s.total
    {
      ExclusiveCounts(tasks, IsHigh, IsMedium, IsLow);
      FilterLength(tasks, IsCompleted);
      FilterLength(tasks, IsHigh);
      FilterLength(tasks, IsMedium);
      FilterLength(tasks, IsLow);
      FilterLength(tasks, DueWithinWeek(now));
      Statistics(
        |tasks|,
        |Filter(tasks, IsCompleted)|,
        |Filter(tasks, IsHigh)|,
        |Filter(tasks, IsMedium)|,
        |Filter(tasks, IsLow)|,
        |Filter(tasks, DueWithinWeek(now))|)
    }
  }
}
