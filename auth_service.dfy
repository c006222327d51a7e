/**
 * The authentication and task service (auth-service/index.js): the bearer-token
 * gate, signup, login and the owner-scoped task routes, over two in-memory
 * tables that stand for the `User` and `Task` collections.
 */
module AuthService {
  import opened Wrappers

  /** A document id (MongoDB ObjectId), drawn from a counter in this model. */
  type Id = nat

  /** A `User` document: `email` is unique and required, `password` holds the bcrypt hash. */
  datatype User = User(id: Id, email: string, password: string)

  /** A `Task` document; `description` is optional and `userId` is its owner. */
  datatype Task = Task(
    id: Id,
    title: string,
    description: Option<string>,
    completed: bool,
    userId: Id,
    createdAt: int)

  /** An HTTP reply: a status with a JSON value, or a status with `{ message }`. */
  datatype Reply<T> = Ok(status: nat, value: T) | Err(status: nat, message: string)

  /**
   * The two foreign libraries, as function values fixed when the service starts:
   * bcrypt's `hash` and `compare`, and JSON Web Token `sign` and `verify` under
   * the server's secret.
   */
  datatype Crypto = Crypto(
    hash: string -> string,
    compare: (string, string) -> bool,
    sign: Id -> string,
    verify: string -> Option<Id>)

  /** What the service relies on from the libraries. */
  ghost predicate Sound(c: Crypto)
  {
    && (forall pw :: c.compare(pw, c.hash(pw)))
    && (forall id: Id :: c.verify(c.sign(id)) == Some(id))
    // a signed token is base64url text joined by dots: never empty, never a space
    && (forall id: Id :: c.sign(id) != "" && ' ' !in c.sign(id))
  }

  // ---------------------------------------------------------------------------
  // String.prototype.split on one character, and its inverse
  // ---------------------------------------------------------------------------

  /** Joins `parts` with `sep` between consecutive parts. */
  function Join(parts: seq<string>, sep: char): string
  {
    if |parts| == 0 then ""
    else if |parts| == 1 then parts[0]
    else parts[0] + [sep] + Join(parts[1..], sep)
  }

  /** `s.split(sep)`: the maximal runs of `s` between occurrences of `sep`. */
  function Split(s: string, sep: char): (parts: seq<string>)
    ensures |parts| >= 1
    ensures forall i :: 0 <= i < |parts| ==> sep !in parts[i]
    ensures Join(parts, sep) == s
  {
    if s == [] then [""]
    else
      var rest := Split(s[1..], sep);
      if s[0] == sep then
        assert s == [sep] + s[1..];
        [""] + rest
      else
        var parts := [[s[0]] + rest[0]] + rest[1..];
        assert parts[1..] == rest[1..];
        assert s == [s[0]] + s[1..];
        parts
  }

  lemma {:induction false} SplitNoSep(a: string, sep: char)
    requires sep !in a
    ensures Split(a, sep) == [a]
  {
    if a != [] {
      SplitNoSep(a[1..], sep);
      assert [a[0]] + a[1..] == a;
    }
  }

  lemma {:induction false} SplitAtSep(a: string, b: string, sep: char)
    requires sep !in a
    ensures Split(a + [sep] + b, sep) == [a] + Split(b, sep)
  {
    var s := a + [sep] + b;
    if a == [] {
      assert s[1..] == b;
    } else {
      assert s[1..] == a[1..] + [sep] + b;
      SplitAtSep(a[1..], b, sep);
      assert [a[0]] + a[1..] == a;
    }
  }

  /** Splitting undoes joining when no part contains the separator. */
  lemma {:induction false} SplitJoin(parts: seq<string>, sep: char)
    requires |parts| >= 1
    requires forall i :: 0 <= i < |parts| ==> sep !in parts[i]
    ensures Split(Join(parts, sep), sep) == parts
  {
    if |parts| == 1 {
      SplitNoSep(parts[0], sep);
    } else {
      SplitJoin(parts[1..], sep);
      SplitAtSep(parts[0], Join(parts[1..], sep), sep);
      assert [parts[0]] + parts[1..] == parts;
    }
  }

  // ---------------------------------------------------------------------------
  // authMiddleware
  // ---------------------------------------------------------------------------

  /**
   * `req.headers.authorization?.split(' ')[1]`, kept only when truthy: an absent
   * header, a header without a space, or an empty second element gives nothing.
   */
  function BearerToken(authorization: Option<string>): (token: Option<string>)
    ensures token.Some? ==> authorization.Some?
    ensures token.Some? ==> token.value != "" && ' ' !in token.value
    ensures token.Some? ==>
      |Split(authorization.value, ' ')| >= 2 && Split(authorization.value, ' ')[1] == token.value
    ensures authorization.Some? && |Split(authorization.value, ' ')| >= 2
         && Split(authorization.value, ' ')[1] != ""
      ==> token == Some(Split(authorization.value, ' ')[1])
  {
    match authorization
    case None => None
    case Some(header) =>
      var parts := Split(header, ' ');
      if |parts| < 2 || parts[1] == "" then None else Some(parts[1])
  }

  /** A header `<scheme> <token>` yields the token; the scheme word is not checked. */
  lemma BearerTokenOfHeader(scheme: string, token: string)
    requires ' ' !in scheme && ' ' !in token && token != ""
    ensures BearerToken(Some(scheme + " " + token)) == Some(token)
  {
    SplitAtSep(scheme, token, ' ');
    SplitNoSep(token, ' ');
  }

  /** Words after the token are ignored: `split(' ')[1]` is still the token. */
  lemma BearerTokenOfLongerHeader(scheme: string, token: string, rest: string)
    requires ' ' !in scheme && ' ' !in token && token != ""
    ensures BearerToken(Some(scheme + " " + token + " " + rest)) == Some(token)
  {
    SplitAtSep(scheme, token + " " + rest, ' ');
    SplitAtSep(token, rest, ' ');
    assert scheme + [' '] + (token + [' '] + rest) == scheme + " " + token + " " + rest;
  }

  /** A header with no space, or one that ends in its only space, yields no token. */
  lemma BearerTokenMissing(scheme: string)
    requires ' ' !in scheme
    ensures BearerToken(Some(scheme)) == None
    ensures BearerToken(Some(scheme + " ")) == None
  {
    SplitNoSep(scheme, ' ');
    SplitAtSep(scheme, "", ' ');
    assert scheme + [' '] + "" == scheme + " ";
  }

  /** The gate's decision: pass on the decoded user id, or reject with 401 and a message. */
  datatype Access = Granted(userId: Id) | Denied(message: string)

  /** `authMiddleware`: extract the bearer token, then verify it. */
  function Authenticate(authorization: Option<string>, verify: string -> Option<Id>): (a: Access)
    ensures BearerToken(authorization).None? ==> a == Denied("Authentication required")
    ensures BearerToken(authorization).Some? && verify(BearerToken(authorization).value).None?
      ==> a == Denied("Authentication failed")
    ensures a.Granted? ==> verify(BearerToken(authorization).value) == Some(a.userId)
    ensures BearerToken(authorization).Some? && verify(BearerToken(authorization).value).Some?
      ==> a == Granted(verify(BearerToken(authorization).value).value)
  {
    match BearerToken(authorization)
    case None => Denied("Authentication required")
    case Some(token) =>
      match verify(token)
      case None => Denied("Authentication failed")
      case Some(id) => Granted(id)
  }

  /** The header the frontend sends, `Bearer ${token}`, passes the gate as the signer's id. */
  lemma GateAcceptsIssuedToken(c: Crypto, id: Id)
    requires Sound(c)
    ensures Authenticate(Some("Bearer " + c.sign(id)), c.verify) == Granted(id)
  {
    var token := c.sign(id);
    assert token != "" && ' ' !in token;
    assert "Bearer " + token == "Bearer" + " " + token;
    BearerTokenOfHeader("Bearer", token);
  }

  // ---------------------------------------------------------------------------
  // Table queries and the update-merge rule
  // ---------------------------------------------------------------------------

  /** JavaScript truthiness of an optional string: present and not empty. */
  predicate Truthy(s: Option<string>)
  {
    s.Some? && s.value != ""
  }

  /** `User.findOne({ email })` finds a document: the email is among the stored ones. */
  predicate EmailTaken(users: map<Id, User>, email: string): (taken: bool)
    ensures taken <==> email in (set id | id in users :: users[id].email)
  {
    exists id :: id in users && users[id].email == email
  }

  /**
   * `Task.findOne({ _id: taskId, userId })` finds a document: the task exists and
   * is one of those `Task.find({ userId })` lists.
   */
  predicate Owns(tasks: map<Id, Task>, taskId: Id, userId: Id): (owned: bool)
    ensures owned <==> taskId in tasks && tasks[taskId] in OwnedTasks(tasks, userId)
  {
    taskId in tasks && tasks[taskId].userId == userId
  }

  /** The documents `Task.find({ userId })` selects. */
  ghost function OwnedTasks(tasks: map<Id, Task>, userId: Id): (owned: set<Task>)
    ensures forall t :: t in owned ==> t.userId == userId && t in tasks.Values
    ensures forall id :: id in tasks && tasks[id].userId == userId ==> tasks[id] in owned
  {
    set id | id in tasks && tasks[id].userId == userId :: tasks[id]
  }

  /**
   * The PUT handler's update rule: `title` and `description` replace the stored
   * value only when truthy; `completed` replaces it whenever it is defined.
   */
  function Merge(t: Task, title: Option<string>, description: Option<string>, completed: Option<bool>): (r: Task)
    ensures r.id == t.id && r.userId == t.userId && r.createdAt == t.createdAt
    ensures t.title != "" ==> r.title != ""
  {
    t.(title := if Truthy(title) then title.value else t.title,
       description := if Truthy(description) then description else t.description,
       completed := if completed.Some? then completed.value else t.completed)
  }

  /** An empty or absent title or description keeps the stored one. */
  lemma MergeFalsyKeeps(t: Task, title: Option<string>, description: Option<string>)
    requires !Truthy(title) && !Truthy(description)
    ensures Merge(t, title, description, None) == t
  {
  }

  /** The title is replaced exactly when the request's title is truthy. */
  lemma MergeTitleRule(t: Task, title: Option<string>, description: Option<string>, completed: Option<bool>)
    ensures Truthy(title) ==> Merge(t, title, description, completed).title == title.value
    ensures !Truthy(title) ==> Merge(t, title, description, completed).title == t.title
  {
  }

  /** The description is replaced exactly when the request's description is truthy. */
  lemma MergeDescriptionRule(t: Task, title: Option<string>, description: Option<string>, completed: Option<bool>)
    ensures Truthy(description) ==> Merge(t, title, description, completed).description == description
    ensures !Truthy(description) ==> Merge(t, title, description, completed).description == t.description
  {
  }

  /** The client's toggle, a body with only `completed`, flips that flag and nothing else. */
  lemma MergeToggleOnly(t: Task, completed: bool)
    ensures Merge(t, None, None, Some(completed)) == t.(completed := completed)
  {
  }

  /** A defined `completed`, `false` included, always lands. */
  lemma MergeCompletedLands(t: Task, title: Option<string>, description: Option<string>, completed: bool)
    ensures Merge(t, title, description, Some(completed)).completed == completed
  {
  }

  /** Sending the same update twice changes nothing the second time. */
  lemma MergeIdempotent(t: Task, title: Option<string>, description: Option<string>, completed: Option<bool>)
    ensures Merge(Merge(t, title, description, completed), title, description, completed)
         == Merge(t, title, description, completed)
  {
  }

  // ---------------------------------------------------------------------------
  // `.sort({ createdAt: -1 })`
  // ---------------------------------------------------------------------------

  predicate NewestFirst(s: seq<Task>)
  {
    forall i, j :: 0 <= i < j < |s| ==> s[i].createdAt >= s[j].createdAt
  }

  predicate Distinct(s: seq<Task>)
  {
    forall i, j :: 0 <= i < j < |s| ==> s[i] != s[j]
  }

  /** Places `t` in a newest-first sequence, before the first task no newer than it. */
  function InsertNewestFirst(t: Task, s: seq<Task>): (r: seq<Task>)
    ensures |r| == |s| + 1
    ensures forall x :: x in r <==> x == t || x in s
  {
    if s == [] || t.createdAt >= s[0].createdAt then [t] + s
    else [s[0]] + InsertNewestFirst(t, s[1..])
  }

  /** `x` is no older than any task of `s`. */
  predicate NoOlderThanAll(x: Task, s: seq<Task>)
  {
    forall y :: y in s ==> x.createdAt >= y.createdAt
  }

  lemma HeadNoOlder(s: seq<Task>)
    requires s != [] && NewestFirst(s)
    ensures NoOlderThanAll(s[0], s)
  {
    forall y | y in s ensures s[0].createdAt >= y.createdAt {
      var k :| 0 <= k < |s| && s[k] == y;
      if k > 0 {
        assert s[0].createdAt >= s[k].createdAt;
      }
    }
  }

  lemma ConsNewestFirst(x: Task, s: seq<Task>)
    requires NewestFirst(s) && NoOlderThanAll(x, s)
    ensures NewestFirst([x] + s)
  {
    var r := [x] + s;
    forall i, j | 0 <= i < j < |r| ensures r[i].createdAt >= r[j].createdAt {
      assert r[j] == s[j - 1];
      if i == 0 {
        assert s[j - 1] in s;
      } else {
        assert r[i] == s[i - 1];
      }
    }
  }

  lemma {:induction false} InsertKeepsNewestFirst(t: Task, s: seq<Task>)
    requires NewestFirst(s)
    ensures NewestFirst(InsertNewestFirst(t, s))
  {
    if s == [] {
      ConsNewestFirst(t, s);
    } else if t.createdAt >= s[0].createdAt {
      HeadNoOlder(s);
      ConsNewestFirst(t, s);
    } else {
      assert NewestFirst(s[1..]);
      InsertKeepsNewestFirst(t, s[1..]);
      HeadNoOlder(s);
      var rest := InsertNewestFirst(t, s[1..]);
      assert forall y :: y in s[1..] ==> y in s;
      assert NoOlderThanAll(s[0], rest);
      ConsNewestFirst(s[0], rest);
    }
  }

  lemma {:induction false} InsertKeepsDistinct(t: Task, s: seq<Task>)
    requires Distinct(s) && t !in s
    ensures Distinct(InsertNewestFirst(t, s))
  {
    if s == [] || t.createdAt >= s[0].createdAt {
    } else {
      var rest := InsertNewestFirst(t, s[1..]);
      assert s[0] !in s[1..];
      InsertKeepsDistinct(t, s[1..]);
      var r := [s[0]] + rest;
      forall i, j | 0 <= i < j < |r| ensures r[i] != r[j] {
        if i == 0 {
          assert r[j] in rest;
        } else {
          assert r[i] == rest[i - 1] && r[j] == rest[j - 1];
        }
      }
    }
  }

  /** Tasks owned by anyone other than `userId` are untouched, and all that changed is owned by `userId`. */
  ghost predicate ConfinedTo(before: map<Id, Task>, after: map<Id, Task>, userId: Id)
  {
    && (forall id :: id in before && before[id].userId != userId ==> id in after && after[id] == before[id])
    && (forall id :: id in after && (id !in before || after[id] != before[id]) ==> after[id].userId == userId)
  }

  // ---------------------------------------------------------------------------
  // The service
  // ---------------------------------------------------------------------------

  class Store {
    const crypto: Crypto
    var users: map<Id, User>
    var tasks: map<Id, Task>
    var nextId: Id

    /** Ids are keys and fresh below `nextId`; required fields are non-empty; emails are unique. */
    ghost predicate Valid()
      reads this
    {
      && Sound(crypto)
      && (forall id :: id in users ==> users[id].id == id && id < nextId && users[id].email != "")
      && (forall id :: id in tasks ==> tasks[id].id == id && id < nextId && tasks[id].title != "")
      && (forall a, b :: a in users && b in users && users[a].email == users[b].email ==> a == b)
    }

    constructor (crypto: Crypto)
      requires Sound(crypto)
      ensures Valid()
      ensures this.crypto == crypto && users == map[] && tasks == map[]
    {
      this.crypto := crypto;
      users, tasks, nextId := map[], map[], 0;
    }

    /** POST /signup. */
    method Signup(email: string, password: string) returns (r: Reply<string>)
      requires Valid()
      modifies this
      ensures Valid() && tasks == old(tasks)
      ensures EmailTaken(old(users), email) ==>
        r == Err(400, "User already exists") && users == old(users) && nextId == old(nextId)
      ensures !EmailTaken(old(users), email) && email == "" ==>
        r == Err(500, "Error creating user") && users == old(users) && nextId == old(nextId)
      ensures !EmailTaken(old(users), email) && email != "" ==>
        && r == Ok(201, crypto.sign(old(nextId)))
        && old(nextId) !in old(users)
        && users == old(users)[old(nextId) := User(old(nextId), email, crypto.hash(password))]
        && nextId == old(nextId) + 1
    {
      if EmailTaken(users, email) {
        return Err(400, "User already exists");
      }
      var hashed := crypto.hash(password);
      if email == "" {
        // the schema's `required` rejects an empty string when `user.save()` validates
        return Err(500, "Error creating user");
      }
      var id := nextId;
      users := users[id := User(id, email, hashed)];
      nextId := nextId + 1;
      r := Ok(201, crypto.sign(id));
    }

    /** POST /login: one undifferentiated failure for an unknown email and a wrong password. */
    method Login(email: string, password: string) returns (r: Reply<string>)
      requires Valid()
      ensures r.Ok? <==> exists id :: id in users && users[id].email == email && crypto.compare(password, users[id].password)
      ensures r.Ok? ==> r.status == 200 && exists id :: id in users && users[id].email == email && r.value == crypto.sign(id)
      ensures r.Err? ==> r == Err(401, "Authentication failed")
    {
      if !EmailTaken(users, email) {
        return Err(401, "Authentication failed");
      }
      var id :| id in users && users[id].email == email;
      if !crypto.compare(password, users[id].password) {
        return Err(401, "Authentication failed");
      }
      r := Ok(200, crypto.sign(id));
    }

    /** POST /tasks: a new task owned by the caller, not completed. */
    method CreateTask(authorization: Option<string>, title: Option<string>, description: Option<string>, now: int)
      returns (r: Reply<Task>)
      requires Valid()
      modifies this
      ensures Valid() && users == old(users)
      ensures Authenticate(authorization, crypto.verify).Denied? ==>
        r == Err(401, Authenticate(authorization, crypto.verify).message) && tasks == old(tasks)
        && nextId == old(nextId)
      ensures Authenticate(authorization, crypto.verify).Granted? && !Truthy(title) ==>
        r == Err(500, "Error creating task") && tasks == old(tasks) && nextId == old(nextId)
      ensures Authenticate(authorization, crypto.verify).Granted? && Truthy(title) ==>
        && r.Ok? && r.status == 201 && nextId == old(nextId) + 1
        && r.value == Task(old(nextId), title.value, description, false, Authenticate(authorization, crypto.verify).userId, now)
        && old(nextId) !in old(tasks)
        && tasks == old(tasks)[old(nextId) := r.value]
      ensures Authenticate(authorization, crypto.verify).Granted? ==>
        ConfinedTo(old(tasks), tasks, Authenticate(authorization, crypto.verify).userId)
    {
      var access := Authenticate(authorization, crypto.verify);
      if access.Denied? {
        return Err(401, access.message);
      }
      if !Truthy(title) {
        // the schema's `required` rejects a missing or empty title when `task.save()` validates
        return Err(500, "Error creating task");
      }
      var task := Task(nextId, title.value, description, false, access.userId, now);
      tasks := tasks[nextId := task];
      nextId := nextId + 1;
      r := Ok(201, task);
    }

    /** GET /tasks: exactly the caller's tasks, newest first. */
    method ListTasks(authorization: Option<string>) returns (r: Reply<seq<Task>>)
      requires Valid()
      ensures Authenticate(authorization, crypto.verify).Denied? ==>
        r == Err(401, Authenticate(authorization, crypto.verify).message)
      ensures Authenticate(authorization, crypto.verify).Granted? ==>
        && r.Ok? && r.status == 200
        && (forall t :: t in r.value <==> t in OwnedTasks(tasks, Authenticate(authorization, crypto.verify).userId))
        && Distinct(r.value)
        && NewestFirst(r.value)
    {
      var access := Authenticate(authorization, crypto.verify);
      if access.Denied? {
        return Err(401, access.message);
      }
      var found: seq<Task> := [];
      var pending := tasks.Keys;
      while pending != {}
        invariant pending <= tasks.Keys
        invariant forall t :: t in found <==> t in OwnedTasks(tasks, access.userId) && t.id !in pending
        invariant Distinct(found) && NewestFirst(found)
        decreases pending
      {
        var id :| id in pending;
        if tasks[id].userId == access.userId {
          InsertKeepsNewestFirst(tasks[id], found);
          InsertKeepsDistinct(tasks[id], found);
          found := InsertNewestFirst(tasks[id], found);
        }
        pending := pending - {id};
      }
      r := Ok(200, found);
    }

    /** PUT /tasks/:taskId: merge the update into the caller's task with that id. */
    method UpdateTask(authorization: Option<string>, taskId: Id,
                      title: Option<string>, description: Option<string>, completed: Option<bool>)
      returns (r: Reply<Task>)
      requires Valid()
      modifies this
      ensures Valid() && users == old(users) && nextId == old(nextId)
      ensures Authenticate(authorization, crypto.verify).Denied? ==>
        r == Err(401, Authenticate(authorization, crypto.verify).message) && tasks == old(tasks)
      ensures Authenticate(authorization, crypto.verify).Granted? &&
              !Owns(old(tasks), taskId, Authenticate(authorization, crypto.verify).userId) ==>
        r == Err(404, "Task not found") && tasks == old(tasks)
      ensures Authenticate(authorization, crypto.verify).Granted? &&
              Owns(old(tasks), taskId, Authenticate(authorization, crypto.verify).userId) ==>
        && r == Ok(200, Merge(old(tasks)[taskId], title, description, completed))
        && tasks == old(tasks)[taskId := r.value]
      ensures Authenticate(authorization, crypto.verify).Granted? ==>
        ConfinedTo(old(tasks), tasks, Authenticate(authorization, crypto.verify).userId)
    {
      var access := Authenticate(authorization, crypto.verify);
      if access.Denied? {
        return Err(401, access.message);
      }
      if !Owns(tasks, taskId, access.userId) {
        return Err(404, "Task not found");
      }
      var task := Merge(tasks[taskId], title, description, completed);
      tasks := tasks[taskId := task];
      r := Ok(200, task);
    }

    /** DELETE /tasks/:taskId: remove the caller's task with that id. */
    method DeleteTask(authorization: Option<string>, taskId: Id) returns (r: Reply<string>)
      requires Valid()
      modifies this
      ensures Valid() && users == old(users) && nextId == old(nextId)
      ensures Authenticate(authorization, crypto.verify).Denied? ==>
        r == Err(401, Authenticate(authorization, crypto.verify).message) && tasks == old(tasks)
      ensures Authenticate(authorization, crypto.verify).Granted? &&
              !Owns(old(tasks), taskId, Authenticate(authorization, crypto.verify).userId) ==>
        r == Err(404, "Task not found") && tasks == old(tasks)
      ensures Authenticate(authorization, crypto.verify).Granted? &&
              Owns(old(tasks), taskId, Authenticate(authorization, crypto.verify).userId) ==>
        r == Ok(200, "Task deleted successfully") && tasks == old(tasks) - {taskId}
      ensures Authenticate(authorization, crypto.verify).Granted? ==>
        ConfinedTo(old(tasks), tasks, Authenticate(authorization, crypto.verify).userId)
    {
      var access := Authenticate(authorization, crypto.verify);
      if access.Denied? {
        return Err(401, access.message);
      }
      if !Owns(tasks, taskId, access.userId) {
        return Err(404, "Task not found");
      }
      tasks := tasks - {taskId};
      r := Ok(200, "Task deleted successfully");
    }
  }

  /**
   * A client session against a running service: sign up, sign up again with the
   * same email, log in, and present the login token at the gate.
   */
  method SignupThenLogin(store: Store, email: string, password: string)
    returns (first: Reply<string>, second: Reply<string>, login: Reply<string>, access: Access)
    requires store.Valid() && email != "" && !EmailTaken(store.users, email)
    modifies store
    ensures store.Valid()
    ensures first.Ok? && first.status == 201
    ensures second == Err(400, "User already exists")
    ensures login.Ok? && store.crypto.verify(login.value) == store.crypto.verify(first.value)
    ensures access.Granted? && Some(access.userId) == store.crypto.verify(first.value)
  {
    first := store.Signup(email, password);
    ghost var id := old(store.nextId);
    assert store.users[id] == User(id, email, store.crypto.hash(password));
    second := store.Signup(email, password);
    login := store.Login(email, password);
    GateAcceptsIssuedToken(store.crypto, id);
    access := Authenticate(Some("Bearer " + login.value), store.crypto.verify);
  }
}
