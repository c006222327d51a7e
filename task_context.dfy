/**
 * The client's task list (frontend/src/context/TaskContext.jsx): the provider's
 * `tasks` and `loading` cells, the pure list updaters handed to `setTasks`, and
 * the `useTask` guard.
 */
module TaskContext {
  import opened Wrappers
  import AuthService

  /**
   * An element of the client list: whatever JSON the server answered. The client
   * never inspects `response.ok`, so an error body `{ message }` can land in the
   * list as well as a task document.
   */
  datatype Entry = TaskEntry(task: AuthService.Task) | ErrorBody(message: string)

  /** `entry._id`: error bodies have none (`undefined`). */
  function EntryId(e: Entry): Option<AuthService.Id>
  {
    match e
    case TaskEntry(t) => Some(t.id)
    case ErrorBody(_) => None
  }

  /** `entry._id === id`. */
  predicate HasId(e: Entry, id: AuthService.Id)
  {
    EntryId(e) == Some(id)
  }

  // ---------------------------------------------------------------------------
  // The updaters handed to setTasks
  // ---------------------------------------------------------------------------

  /** `prev => [newTask, ...prev]` (addTask). */
  function Prepend(prev: seq<Entry>, e: Entry): (r: seq<Entry>)
    ensures |r| == |prev| + 1 && r[0] == e
    ensures forall i :: 0 <= i < |prev| ==> r[i + 1] == prev[i]
  {
    [e] + prev
  }

  /** `prev => prev.map(task => task._id === id ? updated : task)` (updateTask). */
  function ReplaceById(prev: seq<Entry>, id: AuthService.Id, updated: Entry): (r: seq<Entry>)
    ensures |r| == |prev|
    ensures forall i :: 0 <= i < |prev| ==> r[i] == if HasId(prev[i], id) then updated else prev[i]
  {
    if prev == [] then []
    else [if HasId(prev[0], id) then updated else prev[0]] + ReplaceById(prev[1..], id, updated)
  }

  /** `prev => prev.filter(task => task._id !== id)` (deleteTask). */
  function RemoveById(prev: seq<Entry>, id: AuthService.Id): (r: seq<Entry>)
    ensures |r| <= |prev|
    ensures forall e :: e in r <==> e in prev && !HasId(e, id)
  {
    if prev == [] then []
    else if HasId(prev[0], id) then RemoveById(prev[1..], id)
    else [prev[0]] + RemoveById(prev[1..], id)
  }

  /** `r` is `s` with some elements dropped and the rest in their order. */
  predicate IsSubsequence(r: seq<Entry>, s: seq<Entry>)
    decreases |s|
  {
    if r == [] then true
    else if s == [] then false
    else if r[0] == s[0] then IsSubsequence(r[1..], s[1..])
    else IsSubsequence(r, s[1..])
  }

  /** Number of entries carrying `id`. */
  function CountId(s: seq<Entry>, id: AuthService.Id): nat
  {
    if s == [] then 0 else (if HasId(s[0], id) then 1 else 0) + CountId(s[1..], id)
  }

  /** Replacing an id the list does not hold changes nothing. */
  lemma {:induction false} ReplaceByIdAbsent(prev: seq<Entry>, id: AuthService.Id, updated: Entry)
    requires forall e :: e in prev ==> !HasId(e, id)
    ensures ReplaceById(prev, id, updated) == prev
  {
    if prev != [] {
      assert prev[0] in prev;
      assert forall e :: e in prev[1..] ==> e in prev;
      ReplaceByIdAbsent(prev[1..], id, updated);
      assert [prev[0]] + prev[1..] == prev;
    }
  }

  /** Applying the same update twice equals applying it once. */
  lemma ReplaceByIdIdempotent(prev: seq<Entry>, id: AuthService.Id, updated: Entry)
    ensures ReplaceById(ReplaceById(prev, id, updated), id, updated) == ReplaceById(prev, id, updated)
  {
  }

  /** Removal keeps the order of the remaining entries. */
  lemma {:induction false} RemoveByIdIsSubsequence(prev: seq<Entry>, id: AuthService.Id)
    ensures IsSubsequence(RemoveById(prev, id), prev)
  {
    if prev != [] {
      RemoveByIdIsSubsequence(prev[1..], id);
      var rest := RemoveById(prev[1..], id);
      if HasId(prev[0], id) {
        SubsequenceSkip(rest, prev[1..], prev[0]);
      } else {
        assert ([prev[0]] + rest)[1..] == rest;
      }
    }
  }

  lemma {:induction false} SubsequenceSkip(r: seq<Entry>, s: seq<Entry>, x: Entry)
    requires IsSubsequence(r, s)
    ensures IsSubsequence(r, [x] + s)
    decreases |s|, 1
  {
    if r != [] && r[0] == x {
      // matching x first leaves r[1..] against s, which the original match implies
      SubsequenceTail(r, s);
      assert ([x] + s)[1..] == s;
    } else {
      assert ([x] + s)[1..] == s;
    }
  }

  lemma {:induction false} SubsequenceTail(r: seq<Entry>, s: seq<Entry>)
    requires r != [] && IsSubsequence(r, s)
    ensures IsSubsequence(r[1..], s)
    decreases |s|, 0
  {
    if r[0] != s[0] {
      SubsequenceTail(r, s[1..]);
      SubsequenceSkip(r[1..], s[1..], s[0]);
      assert [s[0]] + s[1..] == s;
    } else {
      SubsequenceSkip(r[1..], s[1..], s[0]);
      assert [s[0]] + s[1..] == s;
    }
  }

  /** Removal drops exactly the entries that carry the id. */
  lemma {:induction false} RemoveByIdLength(prev: seq<Entry>, id: AuthService.Id)
    ensures |RemoveById(prev, id)| == |prev| - CountId(prev, id)
  {
    if prev != [] {
      RemoveByIdLength(prev[1..], id);
    }
  }

  /** The delete filter is idempotent. */
  lemma {:induction false} RemoveByIdIdempotent(prev: seq<Entry>, id: AuthService.Id)
    ensures RemoveById(RemoveById(prev, id), id) == RemoveById(prev, id)
  {
    RemoveByIdAbsent(RemoveById(prev, id), id);
  }

  /** Removing an id the list does not hold changes nothing. */
  lemma {:induction false} RemoveByIdAbsent(prev: seq<Entry>, id: AuthService.Id)
    requires forall e :: e in prev ==> !HasId(e, id)
    ensures RemoveById(prev, id) == prev
  {
    if prev != [] {
      assert prev[0] in prev;
      assert forall e :: e in prev[1..] ==> e in prev;
      RemoveByIdAbsent(prev[1..], id);
      assert [prev[0]] + prev[1..] == prev;
    }
  }

  /** Deleting a freshly added task whose id was not in the list restores the list. */
  lemma DeleteUndoesAdd(prev: seq<Entry>, e: Entry, id: AuthService.Id)
    requires HasId(e, id)
    requires forall x :: x in prev ==> !HasId(x, id)
    ensures RemoveById(Prepend(prev, e), id) == prev
  {
    assert Prepend(prev, e)[1..] == prev;
    RemoveByIdAbsent(prev, id);
  }

  // ---------------------------------------------------------------------------
  // The provider
  // ---------------------------------------------------------------------------

  /** How an async provider function ends: it returns a value or rethrows. */
  datatype Call<T> = Returns(value: T) | Throws

  class TaskProvider {
    var tasks: seq<Entry>
    var loading: bool

    /** `useState([])` and `useState(true)`. */
    constructor ()
      ensures tasks == [] && loading
    {
      tasks, loading := [], true;
    }

    /**
     * fetchTasks, given the parsed response (`None` when `fetch` or `json()`
     * threw): the list is replaced wholesale, and `loading` drops either way.
     */
    method FetchTasks(response: Option<seq<Entry>>)
      modifies this
      ensures !loading
      ensures response.Some? ==> tasks == response.value
      ensures response.None? ==> tasks == old(tasks)
    {
      if response.Some? {
        tasks := response.value;
      }
      loading := false;
    }

    /** addTask, given the parsed response body (`None` when the request threw). */
    method AddTask(response: Option<Entry>) returns (r: Call<Entry>)
      modifies this
      ensures loading == old(loading)
      ensures response.Some? ==> r == Returns(response.value) && tasks == Prepend(old(tasks), response.value)
      ensures response.None? ==> r == Throws && tasks == old(tasks)
    {
      if response.None? {
        return Throws;
      }
      tasks := Prepend(tasks, response.value);
      r := Returns(response.value);
    }

    /** updateTask, given the parsed response body (`None` when the request threw). */
    method UpdateTask(taskId: AuthService.Id, response: Option<Entry>) returns (r: Call<Entry>)
      modifies this
      ensures loading == old(loading)
      ensures response.Some? ==>
        r == Returns(response.value) && tasks == ReplaceById(old(tasks), taskId, response.value)
      ensures response.None? ==> r == Throws && tasks == old(tasks)
    {
      if response.None? {
        return Throws;
      }
      tasks := ReplaceById(tasks, taskId, response.value);
      r := Returns(response.value);
    }

    /**
     * deleteTask, given the response status (`None` when `fetch` threw): the
     * status is never read, so any answer removes the task locally.
     */
    method DeleteTask(taskId: AuthService.Id, status: Option<nat>) returns (r: Call<()>)
      modifies this
      ensures loading == old(loading)
      ensures status.Some? ==> r == Returns(()) && tasks == RemoveById(old(tasks), taskId)
      ensures status.None? ==> r == Throws && tasks == old(tasks)
    {
      if status.None? {
        return Throws;
      }
      tasks := RemoveById(tasks, taskId);
      r := Returns(());
    }
  }

  /** useTask: the provider value, or an error outside a TaskProvider. */
  function UseTask(context: Option<TaskProvider>): (r: Call<TaskProvider>)
    ensures r.Returns? <==> context.Some?
    ensures r.Returns? ==> r.value == context.value
  {
    match context
    case None => Throws
    case Some(provider) => Returns(provider)
  }
}
