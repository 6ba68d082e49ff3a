/**
 * The to-do record and the list transformations the handlers apply to the
 * shared `todos` list: mark by id, remove by id, replace by id, set every
 * record's `completed` flag, and the `every(completed)` test.
 */
module Todos {
  import opened Seqs

  datatype Option<T> = None | Some(value: T)

  /** The fixed user every record is created for. */
  const USER_ID: int := 1880

  /** Local-only delete status of a record; `Deleted` exists in the type but is never assigned. */
  datatype DelState = Idle | Deleting | Deleted

  datatype Todo = Todo(deleting: DelState, id: int, userId: int, title: string, completed: bool)

  predicate IsActive(t: Todo) { !t.completed }

  predicate IsCompleted(t: Todo) { t.completed }

  /** `todos.map(todo => todo.id)`. */
  function Ids(ts: seq<Todo>): (r: seq<int>)
    ensures |r| == |ts|
    ensures forall i :: 0 <= i < |ts| ==> r[i] == ts[i].id
  {
    seq(|ts|, i requires 0 <= i < |ts| => ts[i].id)
  }

  /**
   * `todos.every(todo => todo.completed)`: holds exactly when filtering the
   * active records leaves nothing, and so of the empty list.
   */
  predicate AllCompleted(ts: seq<Todo>): (b: bool)
    ensures b <==> Filter(IsActive, ts) == []
    ensures ts == [] ==> b
  {
    var b := forall i :: 0 <= i < |ts| ==> ts[i].completed;
    assert b <==> Filter(IsActive, ts) == [] by {
      if b {
        FilterDropsAll(IsActive, ts);
      } else {
        var i :| 0 <= i < |ts| && !ts[i].completed;
        FilterKeeps(IsActive, ts, ts[i]);
      }
    }
    b
  }

  /**
   * Sets the delete status of every record carrying `id`; every other field of
   * every record, and the status of records with other ids, stay as they were.
   */
  function MarkDeleting(ts: seq<Todo>, id: int, d: DelState): (r: seq<Todo>)
    ensures |r| == |ts|
    ensures forall i :: 0 <= i < |ts| ==>
      r[i].id == ts[i].id && r[i].userId == ts[i].userId
      && r[i].title == ts[i].title && r[i].completed == ts[i].completed
    ensures forall i :: 0 <= i < |ts| ==>
      r[i].deleting == if ts[i].id == id then d else ts[i].deleting
  {
    seq(|ts|, i requires 0 <= i < |ts| => if ts[i].id == id then ts[i].(deleting := d) else ts[i])
  }

  /**
   * A failed delete undoes its optimistic mark: when the records carrying `id`
   * were idle, marking them deleting and then idle again gives back the list.
   */
  lemma DeleteMarkUndone(ts: seq<Todo>, id: int)
    requires forall i :: 0 <= i < |ts| && ts[i].id == id ==> ts[i].deleting == Idle
    ensures MarkDeleting(MarkDeleting(ts, id, Deleting), id, Idle) == ts
  {
    var r := MarkDeleting(MarkDeleting(ts, id, Deleting), id, Idle);
    forall i | 0 <= i < |ts|
      ensures r[i] == ts[i]
    {
    }
  }

  /**
   * `todos.filter(todo => todo.id !== id)`: no record carrying `id` is left, and
   * every other record is kept as often as before and in its order.
   */
  function WithoutId(ts: seq<Todo>, id: int): (r: seq<Todo>)
    ensures IsSubseq(r, ts)
    ensures forall i :: 0 <= i < |r| ==> r[i].id != id
    ensures forall t: Todo :: t.id != id ==> multiset(r)[t] == multiset(ts)[t]
  {
    var r := Filter((t: Todo) => t.id != id, ts);
    assert forall i :: 0 <= i < |r| ==> r[i] in multiset(r);
    r
  }

  /**
   * Removing the records of `id` after marking them gives the same list as
   * removing them from the unmarked list: a successful delete leaves exactly the
   * records with other ids, unchanged.
   */
  lemma {:induction false} RemoveAfterMark(ts: seq<Todo>, id: int, d: DelState)
    ensures WithoutId(MarkDeleting(ts, id, d), id) == WithoutId(ts, id)
  {
    if ts != [] {
      var m := MarkDeleting(ts, id, d);
      assert m == [m[0]] + MarkDeleting(ts[1..], id, d);
      assert ts == [ts[0]] + ts[1..];
      FilterAppend((t: Todo) => t.id != id, [m[0]], MarkDeleting(ts[1..], id, d));
      FilterAppend((t: Todo) => t.id != id, [ts[0]], ts[1..]);
      RemoveAfterMark(ts[1..], id, d);
    }
  }

  /**
   * `todos.map(t => t.id === id ? updated : t)`: every record carrying `id` is
   * replaced by `updated`, every other record is left as it was.
   */
  function ReplaceById(ts: seq<Todo>, id: int, updated: Todo): (r: seq<Todo>)
    ensures |r| == |ts|
    ensures forall i :: 0 <= i < |ts| ==> r[i] == if ts[i].id == id then updated else ts[i]
  {
    seq(|ts|, i requires 0 <= i < |ts| => if ts[i].id == id then updated else ts[i])
  }

  /** Replacing by a record with the same id keeps the list of ids. */
  lemma ReplaceKeepsIds(ts: seq<Todo>, updated: Todo)
    ensures Ids(ReplaceById(ts, updated.id, updated)) == Ids(ts)
  {
  }

  /**
   * `todos.map(todo => todo.completed !== target ? {...todo, completed: target} : todo)`:
   * afterwards every record is completed exactly when `target` holds, and ids,
   * titles, owners, delete status, length and order are unchanged.
   */
  function CompleteAll(ts: seq<Todo>, target: bool): (r: seq<Todo>)
    ensures |r| == |ts|
    ensures forall i :: 0 <= i < |ts| ==> r[i] == ts[i].(completed := target)
  {
    seq(|ts|, i requires 0 <= i < |ts| => if ts[i].completed != target then ts[i].(completed := target) else ts[i])
  }

  /**
   * `ids.filter(x => x !== id)` on the in-flight ids: `id` no longer occurs and
   * every other id is kept as often as before.
   */
  function Without(ids: seq<int>, id: int): (r: seq<int>)
    ensures id !in r
    ensures forall x :: x != id ==> multiset(r)[x] == multiset(ids)[x]
    ensures IsSubseq(r, ids)
  {
    var r := Filter((x: int) => x != id, ids);
    assert id !in multiset(r);
    r
  }
}
