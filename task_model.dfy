/**
 * A task document and the key-by-key assignments that request bodies are
 * made of. A body (`req.body` of a create or an update) is the sequence of
 * its keys with their values; applying it assigns each key in turn, the last
 * assignment to a key winning, exactly as `Object.keys(body).forEach(k =>
 * task[k] = body[k])` and the object spread `{...body}` do.
 */
module TaskModel {
  import opened Wrappers

  type TaskId = nat
  type UserId = nat

  /** A stored task. `deadline` is in milliseconds since the epoch. */
  datatype Task = Task(
    id: TaskId,
    user: UserId,
    title: string,
    description: Option<string>,
    deadline: int,
    priority: string,
    completed: bool,
    category: Option<string>)

  /** The keys of a task document. */
  datatype Key = IdKey | UserKey | TitleKey | DescriptionKey | DeadlineKey | PriorityKey | CompletedKey | CategoryKey

  /** One key of a request body together with its value. */
  datatype Assignment =
    | SetId(newId: TaskId)
    | SetUser(newUser: UserId)
    | SetTitle(newTitle: string)
    | SetDescription(newDescription: Option<string>)
    | SetDeadline(newDeadline: int)
    | SetPriority(newPriority: string)
    | SetCompleted(newCompleted: bool)
    | SetCategory(newCategory: Option<string>)

  /** The JSON name of a key, as it appears in bodies and in `sortBy`. */
  function KeyName(k: Key): string
  {
    match k
    case IdKey => "_id"
    case UserKey => "user"
    case TitleKey => "title"
    case DescriptionKey => "description"
    case DeadlineKey => "deadline"
    case PriorityKey => "priority"
    case CompletedKey => "completed"
    case CategoryKey => "category"
  }

  /** The key a JSON name denotes, if it is one of the document's keys. */
  function KeyFromName(name: string): (r: Option<Key>)
    ensures r.Some? ==> KeyName(r.value) == name
    ensures r.None? <==> forall k: Key :: KeyName(k) != name
  {
    if name == "_id" then Some(IdKey)
    else if name == "user" then Some(UserKey)
    else if name == "title" then Some(TitleKey)
    else if name == "description" then Some(DescriptionKey)
    else if name == "deadline" then Some(DeadlineKey)
    else if name == "priority" then Some(PriorityKey)
    else if name == "completed" then Some(CompletedKey)
    else if name == "category" then Some(CategoryKey)
    else None
  }

  /** The key an assignment writes. */
  function KeyOf(a: Assignment): Key
  {
    match a
    case SetId(_) => IdKey
    case SetUser(_) => UserKey
    case SetTitle(_) => TitleKey
    case SetDescription(_) => DescriptionKey
    case SetDeadline(_) => DeadlineKey
    case SetPriority(_) => PriorityKey
    case SetCompleted(_) => CompletedKey
    case SetCategory(_) => CategoryKey
  }

  /** The current value of key `k` of `t`, as the assignment that would write it. */
  function Read(t: Task, k: Key): (a: Assignment)
    ensures KeyOf(a) == k
  {
    match k
    case IdKey => SetId(t.id)
    case UserKey => SetUser(t.user)
    case TitleKey => SetTitle(t.title)
    case DescriptionKey => SetDescription(t.description)
    case DeadlineKey => SetDeadline(t.deadline)
    case PriorityKey => SetPriority(t.priority)
    case CompletedKey => SetCompleted(t.completed)
    case CategoryKey => SetCategory(t.category)
  }

  /** `task[key] = value`: the assigned key now holds the value, every other key is as before. */
  function Assign(t: Task, a: Assignment): (r: Task)
    ensures Read(r, KeyOf(a)) == a
    ensures forall k :: k != KeyOf(a) ==> Read(r, k) == Read(t, k)
  {
    match a
    case SetId(v) => t.(id := v)
    case SetUser(v) => t.(user := v)
    case SetTitle(v) => t.(title := v)
    case SetDescription(v) => t.(description := v)
    case SetDeadline(v) => t.(deadline := v)
    case SetPriority(v) => t.(priority := v)
    case SetCompleted(v) => t.(completed := v)
    case SetCategory(v) => t.(category := v)
  }

  /** Assigns every key of `body` in order. */
  function ApplyAll(t: Task, body: seq<Assignment>): Task
  {
    if body == [] then t else Assign(ApplyAll(t, body[..|body| - 1]), body[|body| - 1])
  }

  /** The last assignment of `body` to key `k`, or `otherwise` if `body` does not write `k`. */
  function LastFor(body: seq<Assignment>, k: Key, otherwise: Assignment): (r: Assignment)
    ensures (forall a :: a in body ==> KeyOf(a) != k) ==> r == otherwise
    ensures (exists a :: a in body && KeyOf(a) == k) ==>
      exists j :: 0 <= j < |body| && body[j] == r && KeyOf(r) == k &&
        forall j' :: j < j' < |body| ==> KeyOf(body[j']) != k
  {
    if body == [] then otherwise
    else if KeyOf(body[|body| - 1]) == k then body[|body| - 1]
    else
      var front := body[..|body| - 1];
      assert forall a :: a in body ==> a in front || a == body[|body| - 1];
      LastFor(front, k, otherwise)
  }

  /**
   * After applying a body, each key holds the value the body last assigned to
   * it, and every key the body does not mention keeps its old value.
   */
  lemma {:induction false} ApplyAllReads(t: Task, body: seq<Assignment>, k: Key)
    ensures Read(ApplyAll(t, body), k) == LastFor(body, k, Read(t, k))
    decreases |body|
  {
    if body != [] {
      ApplyAllReads(t, body[..|body| - 1], k);
    }
  }

  /** A body that writes no `_id` and no `user` key leaves the identity and the owner alone. */
  lemma ApplyAllKeepsIdentity(t: Task, body: seq<Assignment>)
    requires forall a :: a in body ==> KeyOf(a) != IdKey && KeyOf(a) != UserKey
    ensures ApplyAll(t, body).id == t.id && ApplyAll(t, body).user == t.user
  {
  }

  /** A body containing `user: other` hands the task to `other` whatever its owner was. */
  lemma ApplyAllCanReassignOwner(t: Task, body: seq<Assignment>, other: UserId)
    requires body != [] && body[|body| - 1] == SetUser(other)
    ensures ApplyAll(t, body).user == other
    ensures ApplyAll(t, body).id == ApplyAll(t, body[..|body| - 1]).id
  {
  }
}
