# Taskmaster: owner-scoped tasks, login and the client task list

Taskmaster is a small task tracker: a REST backend with user registration,
login and create/list/update/delete on tasks, and a browser client that keeps
an in-memory copy of the user's tasks. This project models three parts of it
and proves properties of the models:

- **The task controller** (`TaskController`, with `TaskModel` and `TaskQuery`).
  The task collection is a `TaskStore` object. Its `tasks` field holds the
  documents in store order, and every save runs a schema validation `validate`
  that is left opaque. The caller is the user id that authentication has
  already resolved.
  - `CreateTask` copies the body's keys into a new document and then forces the
    owner to the caller.
  - `GetTasks` builds an AND-filter and one sort key from the query strings. It
    answers with the caller's matching tasks.
  - `UpdateTask` and `DeleteTask` look a task up by (id, owner) and answer 404
    when no task matches.
  - A request body is the sequence of its keys with their values
    (`Assignment`). Applying a body assigns each key in turn, and the last
    assignment to a key wins.
- **The user controller** (`UserController`). `Register` saves a user to a
  `UserStore` and answers with a token. `Login` is a pure lookup plus a two-way
  branch. Both of its failures give the same reply. The password comparison
  (bcrypt) and the token signing (a JSON Web Token, RFC 7519) are the two
  opaque functions of a `Crypto` value.
- **The client task list** (`Client.TaskManager`). The `tasks` field follows
  the server's answers:
  - a created task is appended;
  - an edited, toggled or re-categorised task replaces the entries with its id;
  - a deleted id is filtered out.

  The network is a `server` parameter that maps each request to the response
  the client receives. `FilterTasks` and `CalculateStatistics` are functions of
  the list.

Inputs that stand in for the environment:
- `freshId` is the identifier the store would generate (an ObjectId).
- `now` is the clock reading in milliseconds.
- `confirmed` is the answer to the browser's confirmation dialog.

Behaviour that follows from the code as written:
- **Owner reassignment.** `updateTask` assigns every submitted key, including
  `user` (Taskmaster/Backend/controllers/taskController.js:58). So an owner can
  hand a task to another user. `TaskController.OwnerReassignment` shows this on
  a concrete store: after the update, the task has left the owner's listing and
  appears in the other user's.
- **An `_id` in the body.** A body that changes `_id` passes the in-memory
  assignment at line 58. The model assumes that the store then refuses the
  save (400, nothing changed); this is an assumption about the store, listed
  under "Left out".
- **Validation on register.** The controller checks nothing itself; it leaves
  every check to the save (userController.js:9-10). The model rejects an email
  or id already in use with 400 and leaves everything else to `validate`.
  Email uniqueness is an assumption of the model; the user schema that would
  declare it is not modelled.
- **Order without `sortBy`.** With no `sortBy` the sort document is empty
  (taskController.js:30-33), and the model answers in store order.

## Model

| member | source | states |
|---|---|---|
| TaskModel.Assign | Taskmaster/Backend/controllers/taskController.js:58 | assigning a key makes it hold the assigned value and leaves every other key as it was |
| TaskModel.LastFor | Taskmaster/Backend/controllers/taskController.js:47 | the value a body gives a key is its last assignment to that key; a key the body never writes gets the fallback |
| TaskModel.ApplyAllReads | Taskmaster/Backend/controllers/taskController.js:58 | after a body is applied, each key holds the body's last value for it, and keys the body does not mention are unchanged |
| TaskModel.ApplyAllKeepsIdentity | Taskmaster/Backend/controllers/taskController.js:58 | a body without `_id` and `user` keys leaves the id and the owner alone |
| TaskModel.ApplyAllCanReassignOwner | Taskmaster/Backend/controllers/taskController.js:58 | a body ending in `user: other` makes `other` the owner, whoever owned the task before |
| TaskModel.KeyFromName | Taskmaster/Backend/controllers/taskController.js:32 | a sort field name resolves to a document key exactly when it is one of the document's key names |
| Text.Split | Taskmaster/Backend/controllers/taskController.js:31 | `split` yields at least one part and no part contains the separator |
| Text.JoinSplit | Taskmaster/Backend/controllers/taskController.js:31 | joining the parts of a split with the separator gives back the original string |
| Text.SplitFirst | Taskmaster/Backend/controllers/taskController.js:31 | the first part is the text before the first separator; a second part exists iff the separator occurs; the remaining parts are the split of what follows |
| TaskQuery.ParseSortByMeaning | Taskmaster/Backend/controllers/taskController.js:30-33 | the sort field is the text before the first ':'; the direction is descending iff the text between the first ':' and the next ':' (or the end) is exactly "desc" |
| TaskQuery.FilterMeaning | Taskmaster/Backend/controllers/taskController.js:22-28 | a non-empty `priority` demands that exact priority; a non-empty `completed` demands `completed == (param == "true")`; an absent or empty parameter demands nothing; both combine with AND |
| TaskQuery.CompletedOtherThanTrue | Taskmaster/Backend/controllers/taskController.js:26-28 | a non-empty `completed` other than "true" (for example "false" or "yes") selects only incomplete tasks |
| TaskQuery.Matching | Taskmaster/Backend/controllers/taskController.js:35-38 | the find returns exactly the stored tasks that the caller owns and that satisfy the filter, as a subsequence in store order |
| TaskQuery.RankLeTotal | Taskmaster/Backend/controllers/taskController.js:38 | any two sort values compare one way or the other |
| TaskQuery.RankLeTransitive | Taskmaster/Backend/controllers/taskController.js:38 | the sort order on values is transitive |
| TaskQuery.Insert | Taskmaster/Backend/controllers/taskController.js:38 | inserting into a sorted sequence keeps it sorted and adds exactly the one task |
| TaskQuery.SortTasks | Taskmaster/Backend/controllers/taskController.js:38 | the sorted result is ordered by the key in the given direction and is a permutation of the input |
| TaskQuery.ApplySort | Taskmaster/Backend/controllers/taskController.js:30-38 | the result is a permutation of the matched tasks, ordered by the sort field whenever that field is a document key |
| TaskController.Find | Taskmaster/Backend/controllers/taskController.js:49-52 | the lookup finds the first task with that id and that owner, and finds nothing iff no such task exists |
| TaskController.ForeignTaskNotFound | Taskmaster/Backend/controllers/taskController.js:49-56 | with unique ids, a task that has the id but another owner is not found, so the caller gets 404 as for a missing id |
| TaskController.RemovedIdIsGone | Taskmaster/Backend/controllers/taskController.js:68-77 | after the found task is removed, ids stay unique and no task with its id is left for any owner, so a second delete is not found |
| TaskController.NewTaskFields | Taskmaster/Backend/controllers/taskController.js:6-9 | a created task is owned by the caller even if the body names another owner; every other key holds the body's last value for it, or the blank document's value |
| TaskController.CreatedTaskIsListed | Taskmaster/Backend/controllers/taskController.js:35-38 | a newly stored task appears in its owner's listing under any filter it satisfies, and the listing's other members are unchanged |
| TaskController.TaskStore.CreateTask | Taskmaster/Backend/controllers/taskController.js:4-15 | 201 with the new document (owned by the caller) appended at the end; a validation failure gives 400 with its message and an `_id` already in use gives 400; on failure the collection is unchanged; ids stay unique |
| TaskController.TaskStore.GetTasks | Taskmaster/Backend/controllers/taskController.js:17-44 | 200 with a permutation of the caller's tasks that satisfy every present filter and no other user's task; ordered by the sort key when it names a document key; store order when there is no `sortBy` |
| TaskController.TaskStore.UpdateTask | Taskmaster/Backend/controllers/taskController.js:46-64 | 404 "Task not found" and no change when the caller owns no task with that id; otherwise the found task with every submitted key assigned replaces it in place (200), or a refused save gives 400 with nothing changed; other users' tasks are never touched |
| TaskController.TaskStore.DeleteTask | Taskmaster/Backend/controllers/taskController.js:66-81 | removes exactly the caller's task with that id and answers 200 with it, or 404 with nothing changed; afterwards the caller has no task with that id |
| TaskController.OwnerReassignment | Taskmaster/Backend/controllers/taskController.js:58-60 | an update with body `user: 2` moves user 1's task out of user 1's listing and into user 2's |
| UserController.FindByEmail | Taskmaster/Backend/controllers/userController.js:21 | the lookup finds the first user with that email, and finds nothing iff no user has it |
| UserController.FindByEmailUnique | Taskmaster/Backend/controllers/userController.js:21 | with unique emails, the lookup by a user's email finds that user |
| UserController.Login | Taskmaster/Backend/controllers/userController.js:18-34 | succeeds iff a user has the email and the password matches that user's stored password; success gives 200, that user and `sign(that user's id)`; every failure is 400 "Invalid login credentials"; the store is only read |
| UserController.LoginUnknownEmail | Taskmaster/Backend/controllers/userController.js:21-24 | an email no user has gives 400 "Invalid login credentials" |
| UserController.LoginWrongPassword | Taskmaster/Backend/controllers/userController.js:25-28 | a known email with a non-matching password gives the identical 400 reply |
| UserController.LoginSucceeds | Taskmaster/Backend/controllers/userController.js:29-30 | a known email with a matching password gives 200, that user and a token signed over its id |
| UserController.FindByEmailAppend | Taskmaster/Backend/controllers/userController.js:21 | appending a user changes the email lookup only for an email no earlier user had |
| UserController.LoginAfterRegister | Taskmaster/Backend/controllers/userController.js:18-30 | right after a user with a new email is stored, logging in with that email succeeds iff the password matches, and logins with other emails behave as before |
| UserController.UserStore.Register | Taskmaster/Backend/controllers/userController.js:7-16 | 201 with the stored user and a token signed over its id, the user appended; a refused save (validation, an id or email in use) gives 400 with the message, no token, and no change; ids and emails stay unique |
| Seqs.Filter | Taskmaster/Frontend/js/tasks.js:184-191 | the filtered list is an order-preserving subsequence holding exactly the elements that satisfy the condition |
| Seqs.FilterCounts | Taskmaster/Frontend/js/tasks.js:184-191 | every copy of a satisfying element is kept and every copy of any other element is dropped |
| Seqs.FilterSnoc | Taskmaster/Frontend/js/tasks.js:223-234 | filtering a list with one more element at the end filters the list and then keeps that element iff it satisfies the condition |
| Seqs.FilterLength | Taskmaster/Frontend/js/tasks.js:223-234 | the length of a filtered list is the number of positions whose element satisfies the condition |
| Seqs.ExclusiveCounts | Taskmaster/Frontend/js/tasks.js:226-228 | counts under mutually exclusive conditions add up to at most the list length |
| Text.Lower | Taskmaster/Frontend/js/tasks.js:182 | lower-casing keeps the length, maps each character, and leaves no upper-case ASCII letter |
| Text.ContainsMeansOccurs | Taskmaster/Frontend/js/tasks.js:187-188 | `includes` holds iff the term occurs at some position of the text |
| Client.ReplaceById | Taskmaster/Frontend/js/tasks.js:120-122 | the map keeps the length, puts the returned task at every position whose id equals its id, and leaves every other entry |
| Client.ReplaceByIdKeepsIds | Taskmaster/Frontend/js/tasks.js:171-173 | replacing keeps every position's id, and replacing twice with the same task is replacing once |
| Client.RemoveById | Taskmaster/Frontend/js/tasks.js:147 | the filter keeps the other entries in order, every copy of each, and removes every entry with that id |
| Client.FirstWithId | Taskmaster/Frontend/js/tasks.js:155-156 | `find` yields the first entry with that id, or nothing iff no entry has it |
| Client.PassesMeaning | Taskmaster/Frontend/js/tasks.js:185-190 | a task passes iff the priority filter is empty or equals its priority, and the search term is empty or occurs in its lower-cased title or in its lower-cased description |
| Client.TaskManager.constructor | Taskmaster/Frontend/js/tasks.js:3-9 | the list starts empty |
| Client.TaskManager.LoadTasks | Taskmaster/Frontend/js/tasks.js:19-34 | an ok response replaces the list with the fetched tasks; otherwise the list is unchanged |
| Client.TaskManager.HandleTaskSubmit | Taskmaster/Frontend/js/tasks.js:91-132 | sends PATCH for an edit and POST otherwise; on an ok response a created task is appended at the end and an edited one replaces the entries with its id; otherwise the list is unchanged |
| Client.TaskManager.DeleteTask | Taskmaster/Frontend/js/tasks.js:134-152 | after confirmation and an ok response every entry with that id is removed; otherwise the list is unchanged |
| Client.TaskManager.ToggleTaskComplete | Taskmaster/Frontend/js/tasks.js:154-178 | does nothing when no entry has that id; otherwise requests the opposite of the first such entry's `completed` and, on an ok response, puts the returned task in place |
| Client.TaskManager.AddCategory | Taskmaster/Frontend/js/tasks.js:197-218 | requests the category and, on an ok response, puts the returned task in place; otherwise the list is unchanged |
| Client.TaskManager.FilterTasks | Taskmaster/Frontend/js/tasks.js:180-194 | an order-preserving subsequence of the list holding exactly the tasks that pass the priority filter and the lower-cased search term; the list is only read |
| Client.TaskManager.CalculateStatistics | Taskmaster/Frontend/js/tasks.js:221-238 | total is the list length; completed, high, medium, low and upcoming are each the number of list positions whose task is completed, has that priority, or has now < deadline ≤ now + 7 days; completed ≤ total; high + medium + low ≤ total |

## Left out

- The HTTP layer is not modelled: Express setup, CORS, routing, the authentication middleware, JWT verification and the process-level 500 handler. Operations take the already-authenticated caller id.
- Configuration is not modelled: port, connection string and secret.
- The store and the network are assumed not to fail, so the 500 answers of `getTasks` and `deleteTask` (the catch blocks) do not occur in the model.
- `TaskController.TaskStore.GetTasks`: the store is assumed to accept every sort document the controller builds. A `sortBy` of ":" or ":desc" sorts on the empty field name, which the model treats as an unknown field (store order kept); a store that refuses it would answer 500.
- `TaskController.TaskStore.UpdateTask`: that the store refuses a save changing `_id` is an assumption about the store; the controller does not show it. The reply message `ImmutableId` stands for the store's own text.
- `TaskController.TaskStore.CreateTask`: the 400 for an `_id` already in use is an assumption about the store. `DuplicateKey` is only the leading part of the store's real message, which goes on to name the collection and key.
- `UserController.UserStore.Register`: the same holds for a duplicate id or email; `DuplicateKey` is only the leading part of the store's message.
- `UserController.Login`: `email` and `password` are always strings. A body without `password` that names a known email would pass `undefined` to bcrypt, which throws "Illegal arguments"; the catch then answers 400 with that message rather than "Invalid login credentials", so the reply would show that the email exists. This case is not modelled.
- `UserController.Login`: token signing is a function of the user id alone. The token library by default adds an issued-at time, so two logins by the same user may get different tokens; the model does not capture that.
- Malformed path ids are not modelled. Mongoose would fail to cast them (400 in update, 500 in delete), but ids here are already typed.
- Query parameters given twice (which arrive as arrays) are not modelled.
- The Mongoose schemas (the task and user model files) are not part of this model. In their place:
  - validation is the opaque `validate` function;
  - keys that a create body omits get the placeholder values of `TaskController.Blank`;
  - keys outside the schema are not representable;
  - value casting (for example a date string becoming a date) is not modelled.
- A registration body is exactly username, email and password. Any `_id` or extra key in it is not modelled.
- Password hashing on save is not modelled; it would happen in the user model's hooks.
- The uniqueness of user emails is an assumption of the model. The user schema that would declare it is not part of this model.
- `TaskController.TaskStore.GetTasks`: for a sort field that is not a document key, it promises only a permutation of the matches, because the store gives no order there.
- `TaskController.TaskStore.GetTasks`: the order among tasks with equal sort values is not stated.
- Lower-casing is ASCII only.
- A week is 7 × 24 hours. Calendar days that are longer or shorter because of daylight saving are ignored.
- Requests are handled one at a time. The model does not capture interleaving between concurrent requests (last write wins), nor a response arriving while the client list has changed in the meantime.
- Client code that does not touch the list is not modelled:
  - rendering, the modal and form handling, `alert`/`confirm`, drag and drop;
  - export and import (which calls a nonexistent `createTask`);
  - `renderStatistics` (not defined in the client);
  - reminders and notifications, which use a timer, the wall clock and floating-point rounding.
- A response body that fails to parse as JSON is not modelled: every response carries a task.
- `Client.TaskManager.AddCategory`: an `undefined` category, which JSON serialisation would drop from the body, is not modelled. The category is always a string.
- The constructor's initial `loadTasks` call is not made by `Client.TaskManager.constructor`. It is the separate `LoadTasks` method.
- The front end's login, registration and token storage are not modelled.
- Module export defects do not affect the modelled logic and are not modelled: the task controller exports an undefined `userController`, and the user controller exports nothing.
