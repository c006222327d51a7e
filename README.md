# A verified model of the to-do service, its client task list and its Pomodoro timer

This project models, in Dafny, the three pieces of sequential logic in a two-tier
to-do application:

- **The auth/task service** (`auth-service/index.js`), module `AuthService`. The
  `User` and `Task` collections are two in-memory tables (`map<Id, User>`,
  `map<Id, Task>`) in the class `Store`; each route handler is a method that
  either changes the tables or returns an error status and leaves them unchanged.
  The bearer-header gate (`authMiddleware`) is the pure function `Authenticate`,
  built on an explicit model of `String.prototype.split(' ')`. bcrypt and JSON
  Web Token signing are function values in a `Crypto` record fixed when the
  store is built; `Sound` states what the service relies on from them
  (`compare(pw, hash(pw))`, `verify(sign(id)) == Some(id)`, a signed token is
  non-empty and has no space). Document ids come from a counter (`nextId`);
  `Date.now` is a parameter of `CreateTask`.
- **The client task list** (`frontend/src/context/TaskContext.jsx`), module
  `TaskContext`. The updaters handed to `setTasks` are the functions `Prepend`,
  `ReplaceById` and `RemoveById`; the provider's `tasks` and `loading` cells are
  fields of the class `TaskProvider`, whose methods take the parsed server
  response (or `None` when the request threw) as a parameter. List entries are
  either a task document or an error body, because the client never checks the
  response status.
- **The Pomodoro timer** (`frontend/src/components/PomodoroTimer.jsx`), module
  `PomodoroTimer`. The transitions are functions on `TimerState`; the component's
  three state cells are fields of the class `Timer`, whose methods are proved to
  perform those transitions and keep the range invariant. `formatTime` is
  `FormatTime`, with a reader `ParseTime` for the round trip.

Behaviour the model keeps from the code:

- The gate takes element 1 of the header split on single spaces and does not
  check the scheme word; an empty element 1 (`"Bearer "`, or two spaces) is
  falsy and answers 401 "Authentication required".
- The schemas mark `email` and `title` as required, and Mongoose's `required`
  check rejects the empty string. So signup with an empty email, and task
  creation with an absent or empty title, fail inside `save()` and take the 500
  path with nothing stored.
- Update replaces `title`/`description` only by truthy values and `completed`
  whenever it is defined, `false` included.

## Model

| member | source | states |
|---|---|---|
| `AuthService.Split` | auth-service/index.js:46 | `split(' ')` gives at least one part, no part contains the separator, and joining the parts with it gives back the header |
| `AuthService.SplitJoin` | auth-service/index.js:46 | splitting undoes joining when no part contains the separator (the other direction of the round trip) |
| `AuthService.BearerToken` | auth-service/index.js:46-47 | a token is extracted exactly when the header is present and element 1 of its split exists and is non-empty; it is then that element, with no space in it |
| `AuthService.BearerTokenOfHeader` | auth-service/index.js:46-47 | a header `<scheme> <token>` yields exactly the token, whatever the scheme word |
| `AuthService.BearerTokenOfLongerHeader` | auth-service/index.js:46-47 | words after the token (`<scheme> <token> <rest>`) are ignored: the token is still element 1 |
| `AuthService.BearerTokenMissing` | auth-service/index.js:46-49 | a header with no space, or ending in its only space, yields no token |
| `AuthService.Authenticate` | auth-service/index.js:44-57 | a missing token gives "Authentication required", a token that fails verification gives "Authentication failed", and a token that verifies passes the gate as exactly the id it verifies to, and only such a token passes |
| `AuthService.GateAcceptsIssuedToken` | auth-service/index.js:46-53 | the header `Bearer <sign(id)>` passes the gate as `id` |
| `AuthService.EmailTaken` | auth-service/index.js:64 | `User.findOne({ email })` finds a user exactly when the email is among the stored users' emails (also line 95) |
| `AuthService.Owns` | auth-service/index.js:153 | `Task.findOne({ _id, userId })` finds the task exactly when the id is stored and its task is among those `Task.find({ userId })` lists (also line 174) |
| `AuthService.OwnedTasks` | auth-service/index.js:139 | `Task.find({ userId })` selects only stored tasks of that owner, and every stored task of that owner |
| `AuthService.Merge` | auth-service/index.js:158-160 | an update keeps the task's id, owner and creation time, and never empties a title |
| `AuthService.MergeFalsyKeeps` | auth-service/index.js:158-159 | an empty or absent title and description leave the task as it was |
| `AuthService.MergeTitleRule` | auth-service/index.js:158 | the title is replaced by the request's title exactly when that is truthy, and kept otherwise |
| `AuthService.MergeDescriptionRule` | auth-service/index.js:159 | the description is replaced by the request's description exactly when that is truthy, and kept otherwise |
| `AuthService.MergeToggleOnly` | auth-service/index.js:158-160 | the client's toggle body `{ completed: !task.completed }` changes the completed flag and nothing else |
| `AuthService.MergeCompletedLands` | auth-service/index.js:160 | a defined `completed`, including `false`, is always written |
| `AuthService.MergeIdempotent` | auth-service/index.js:158-160 | repeating an update changes nothing more |
| `AuthService.InsertNewestFirst` | auth-service/index.js:139 | inserting a task adds exactly it: length grows by one and the members are the old ones plus the task |
| `AuthService.InsertKeepsNewestFirst` | auth-service/index.js:139 | insertion keeps the sequence ordered by `createdAt` descending |
| `AuthService.InsertKeepsDistinct` | auth-service/index.js:139 | inserting a task not already present keeps the sequence free of duplicates |
| `AuthService.Store.constructor` | auth-service/index.js:24-41 | the service starts with empty user and task tables and its invariant established |
| `AuthService.Store.Signup` | auth-service/index.js:60-89 | a taken email gives 400 "User already exists" with nothing changed; an empty email gives 500 with nothing changed; otherwise exactly one user is added holding the email and `hash(password)`, and the token returned is `sign` of its id |
| `AuthService.Store.Login` | auth-service/index.js:91-116 | login succeeds exactly when a user with that email has a password matching the stored hash, returning `sign` of that user's id; every failure, unknown email or wrong password, is the same 401 "Authentication failed" |
| `AuthService.Store.CreateTask` | auth-service/index.js:120-134 | behind the gate, a truthy title stores one new task owned by the caller with `completed = false` and the given creation time; a rejected request or a missing title changes no task and consumes no id, while success consumes exactly one; no other owner's task changes |
| `AuthService.Store.ListTasks` | auth-service/index.js:137-145 | behind the gate, the reply holds exactly the caller's tasks, each once, newest first |
| `AuthService.Store.UpdateTask` | auth-service/index.js:148-168 | only a task matching both id and caller is updated, by the merge rule; otherwise 401 or 404 and no task changes; no other owner's task changes |
| `AuthService.Store.DeleteTask` | auth-service/index.js:171-185 | only a task matching both id and caller is removed; otherwise 401 or 404 and no task changes; no other owner's task changes |
| `AuthService.SignupThenLogin` | auth-service/index.js:60-116 | after a signup with a fresh email, a second signup with it gets 400, login with the same password succeeds with a token for the same user, and that token passes the gate |
| `TaskContext.Prepend` | frontend/src/context/TaskContext.jsx:38 | the new entry is at index 0 and the previous list follows unchanged and in order |
| `TaskContext.ReplaceById` | frontend/src/context/TaskContext.jsx:57-59 | the length is kept, entries with the id are replaced by the update and every other entry is unchanged |
| `TaskContext.ReplaceByIdAbsent` | frontend/src/context/TaskContext.jsx:57-59 | an update for an id not in the list leaves the list as it was |
| `TaskContext.ReplaceByIdIdempotent` | frontend/src/context/TaskContext.jsx:57-59 | applying the same update twice equals applying it once |
| `TaskContext.RemoveById` | frontend/src/context/TaskContext.jsx:75 | no remaining entry has the id, every other entry remains, and the length never increases |
| `TaskContext.RemoveByIdIsSubsequence` | frontend/src/context/TaskContext.jsx:75 | the remaining entries keep their relative order |
| `TaskContext.RemoveByIdLength` | frontend/src/context/TaskContext.jsx:75 | the length drops by exactly the number of entries carrying the id |
| `TaskContext.RemoveByIdAbsent` | frontend/src/context/TaskContext.jsx:75 | deleting an id not in the list leaves the list as it was |
| `TaskContext.RemoveByIdIdempotent` | frontend/src/context/TaskContext.jsx:75 | the delete filter applied twice equals applied once |
| `TaskContext.DeleteUndoesAdd` | frontend/src/context/TaskContext.jsx:27-80 | deleting a just-added task whose id was new restores the previous list |
| `TaskContext.TaskProvider.constructor` | frontend/src/context/TaskContext.jsx:7-8 | the list starts empty and `loading` true |
| `TaskContext.TaskProvider.FetchTasks` | frontend/src/context/TaskContext.jsx:11-25 | `loading` is false afterwards on success and failure; on success the list is replaced wholesale by the response, on failure it is kept |
| `TaskContext.TaskProvider.AddTask` | frontend/src/context/TaskContext.jsx:27-44 | the response body is prepended and returned; when the request throws, the list is unchanged and the error is rethrown |
| `TaskContext.TaskProvider.UpdateTask` | frontend/src/context/TaskContext.jsx:46-65 | the response body replaces the entries with the task's id; when the request throws, the list is unchanged |
| `TaskContext.TaskProvider.DeleteTask` | frontend/src/context/TaskContext.jsx:67-80 | whatever status the server answers, the entries with the id are removed locally; only a thrown request keeps the list |
| `TaskContext.UseTask` | frontend/src/context/TaskContext.jsx:102-108 | the hook returns the provider value exactly when one is present and fails otherwise |
| `PomodoroTimer.Tick` | frontend/src/components/PomodoroTimer.jsx:13-19 | a tick keeps `timeLeft` in range, never starts a stopped timer, and switches mode exactly at the last second |
| `PomodoroTimer.StartPause` | frontend/src/components/PomodoroTimer.jsx:26 | start/pause always flips the running flag and keeps the range invariant in both directions |
| `PomodoroTimer.Reset` | frontend/src/components/PomodoroTimer.jsx:28-31 | reset leaves a stopped timer in the same mode with `timeLeft` in range |
| `PomodoroTimer.TickCountsDown` | frontend/src/components/PomodoroTimer.jsx:13-19 | a tick with more than one second left decreases `timeLeft` by exactly one and leaves mode and running flag unchanged |
| `PomodoroTimer.TickSwitchesMode` | frontend/src/components/PomodoroTimer.jsx:14-17 | the last tick stops the timer, toggles the mode and loads 300 when leaving focus, 1500 when leaving a break |
| `PomodoroTimer.StartPauseFlips` | frontend/src/components/PomodoroTimer.jsx:26 | start/pause flips only the running flag, and twice restores the state |
| `PomodoroTimer.ResetRestarts` | frontend/src/components/PomodoroTimer.jsx:28-31 | reset stops the timer, keeps the mode and loads 300 in a break and 1500 in focus; resetting twice equals once |
| `PomodoroTimer.StepInRange` | frontend/src/components/PomodoroTimer.jsx:9-31 | every transition keeps `1 <= timeLeft <=` the current session's length |
| `PomodoroTimer.RunInRange` | frontend/src/components/PomodoroTimer.jsx:9-31 | any history of events from an in-range state stays in range |
| `PomodoroTimer.ReachableInRange` | frontend/src/components/PomodoroTimer.jsx:5-31 | every state reachable from the initial one (stopped, focus, 1500) has `1 <= timeLeft <= 1500`, and at most 300 in a break |
| `PomodoroTimer.DecimalString` | frontend/src/components/PomodoroTimer.jsx:34-35 | `n.toString()` is a non-empty run of decimal digits |
| `PomodoroTimer.PadStart` | frontend/src/components/PomodoroTimer.jsx:34-35 | `padStart(width, fill)` gives a string of length `max(len, width)` |
| `PomodoroTimer.ParseDecimalString` | frontend/src/components/PomodoroTimer.jsx:34-35 | reading back `n.toString()` gives `n` |
| `PomodoroTimer.ParsePadded` | frontend/src/components/PomodoroTimer.jsx:34-35 | `padStart` with zeros keeps the digits' value |
| `PomodoroTimer.FormatTime` | frontend/src/components/PomodoroTimer.jsx:33-37 | the display is minutes, a colon and two second digits worth `s % 60`, in 00-59; it is five characters for `s < 6000`; reading it back as `mins * 60 + secs` gives the seconds formatted |
| `PomodoroTimer.ReachableDisplay` | frontend/src/components/PomodoroTimer.jsx:7-44 | every reachable state's `timeLeft` displays as exactly five characters |
| `PomodoroTimer.Timer.constructor` | frontend/src/components/PomodoroTimer.jsx:5-7 | the cells start as not running, focus mode and 1500 seconds |
| `PomodoroTimer.Timer.OnTick` | frontend/src/components/PomodoroTimer.jsx:12-20 | one interval callback performs the tick transition and keeps the range invariant |
| `PomodoroTimer.Timer.HandleStartPause` | frontend/src/components/PomodoroTimer.jsx:26 | the handler performs the start/pause transition and keeps the range invariant |
| `PomodoroTimer.Timer.HandleReset` | frontend/src/components/PomodoroTimer.jsx:28-31 | the handler performs the reset transition and keeps the range invariant |

## Left out

- Database connection, schema-validation internals other than `required` on `email` and `title`, and the store's unique index (auth-service/index.js:17-26, auth-service/db.js): the tables are maps, and email uniqueness is an invariant of the model.
- The concurrent-signup race: two requests can both pass the email check and collide at the unique index, ending in the 500 path. Requests are modelled one at a time.
- Store and library failures that only reach the `catch` blocks (500 "Error creating user", "Error logging in", "Error fetching tasks", …) other than the validation failures above, including the cast error for a malformed `taskId`: task ids are modelled as well-formed.
- bcrypt's cost factor and salt: `hash` is a deterministic function value, so two signups with one password store the same hash.
- JSON Web Token issue time, the one-hour expiry and signature checking: `sign` is a deterministic function of the user id, so the signup and login tokens of one user are equal in the model, and `verify` is any function that inverts `sign`.
- `AuthService.Authenticate`: a token that verifies but whose payload lacks `userId` (leaving `req.userId` undefined) is not modelled; `verify` returns an id or nothing.
- Request bodies of signup and login with missing or non-string fields: `email` and `password` are strings. For tasks, absent fields are `None`; non-string titles and a `null` `completed` are not modelled.
- Express routing, CORS, JSON parsing, HTTP response writing, `/health` and server start-up (auth-service/index.js:10-14, 187-199); `auth-service/config.js`.
- The `fetch` calls of the client: the provider methods take the parsed response as a parameter, so the request bodies (title, description, updates) are not part of the model. A `fetchTasks` response that is not a list (an error object) is not modelled; `FetchTasks` takes a list or a failure.
- The effect that calls `fetchTasks` when a token is present (frontend/src/context/TaskContext.jsx:82-86), and the provider's rendering.
- `setInterval`/`clearInterval` timing and the effect lifecycle in the timer: one tick is one discrete step, and a tick happens only while the timer runs.
- React's development double invocation of state updaters: the tick updater calls two other setters, and the model runs each updater once.
- `PomodoroTimer.DecimalString`: JavaScript's `toString` switches to exponent notation from 1e21 and loses integer precision above 2^53; the model prints every natural number in plain decimal. Reachable `timeLeft` values are at most 1500, far below both bounds.
- `formatTime` on negative numbers: the model takes a natural number, and reachable `timeLeft` values are always at least 1.
- Rendering and routing (Login.jsx, Signup.jsx, HomePage.jsx, App.jsx, main.jsx, TaskPage.jsx, the Tailwind and Vite configuration files).
