/**
 * The application's to-do store: the state held by the top-level component and
 * its asynchronous handlers (load, add, delete, clear completed, toggle all).
 *
 * Each handler is split at its `await`: a `Begin…` method holds the effects that
 * happen before the request is sent (the optimistic placeholder, the `deleting`
 * mark, the in-flight ids), and a `Settle…` method holds the try/catch/finally
 * effects, with the outcome of the request passed in as `ok`. For the batch
 * handlers, `ok` stands for "every request of the batch resolved".
 */
module App {
  import opened Seqs
  import opened JsString
  import opened Todos

  const EMPTY_TITLE_ERROR: string := "Title should not be empty"
  const LOAD_ERROR: string := "Unable to load todos"
  const ADD_ERROR: string := "Unable to add a todo"
  const DELETE_ERROR: string := "Unable to delete a todo"
  const CLEAR_ERROR: string := "Unable to delete completed todos"
  const TOGGLE_ALL_ERROR: string := "Unable to update todos"

  /** A record as sent to the create endpoint: no id yet, the server assigns it. */
  datatype Draft = Draft(title: string, completed: bool, userId: int)

  /** The whole store, as one value; the methods below state their effect on it. */
  datatype StoreState = StoreState(
    todos: seq<Todo>,
    error: string,
    filter: string,
    newTodoTitle: string,
    tempTodo: Option<Todo>,
    isSubmitting: bool,
    haveId: seq<int>)

  /** The optimistic record shown while a create is pending: sentinel id 0, not completed, idle. */
  predicate IsPlaceholder(t: Todo)
  {
    t.id == 0 && !t.completed && t.deleting == Idle && t.userId == USER_ID
  }

  /**
   * The filter test applied to each record when rendering the list: a
   * completed record is hidden only by "active", an active one only by
   * "completed"; any other filter value hides nothing.
   */
  function Selector(filter: string): (f: Todo -> bool)
    ensures forall t: Todo :: f(t) <==> (t.completed ==> filter != "active") && (!t.completed ==> filter != "completed")
  {
    (t: Todo) => if filter == "active" then !t.completed else if filter == "completed" then t.completed else true
  }

  /**
   * The visible list: an order-preserving subsequence of `ts`; "active" keeps
   * exactly the records not completed, "completed" exactly the completed ones,
   * and any other filter value keeps everything.
   */
  function FilteredTodos(ts: seq<Todo>, filter: string): (r: seq<Todo>)
    ensures IsSubseq(r, ts)
    ensures filter == "active" ==>
      forall t: Todo :: multiset(r)[t] == if t.completed then 0 else multiset(ts)[t]
    ensures filter == "completed" ==>
      forall t: Todo :: multiset(r)[t] == if t.completed then multiset(ts)[t] else 0
    ensures filter != "active" && filter != "completed" ==> r == ts
  {
    if filter != "active" && filter != "completed" then
      FilterKeepsAll(Selector(filter), ts);
      Filter(Selector(filter), ts)
    else
      Filter(Selector(filter), ts)
  }

  /** The "active" and "completed" views split the list between them. */
  lemma FilteredPartition(ts: seq<Todo>)
    ensures |FilteredTodos(ts, "active")| + |FilteredTodos(ts, "completed")| == |ts|
  {
    FilterPartition(Selector("active"), Selector("completed"), ts);
  }

  /** Each record of a view passes that view's test. */
  lemma FilteredMembers(ts: seq<Todo>, filter: string, i: int)
    requires 0 <= i < |FilteredTodos(ts, filter)|
    ensures FilteredTodos(ts, filter)[i] in ts
    ensures filter == "active" ==> !FilteredTodos(ts, filter)[i].completed
    ensures filter == "completed" ==> FilteredTodos(ts, filter)[i].completed
  {
    FilterSatisfies(Selector(filter), ts, i);
  }

  /**
   * The status the toggle-all button sets, `!todos.every(completed)`: true when
   * some record is active, false when all are completed and for the empty list.
   */
  function ToggleAllTarget(ts: seq<Todo>): (target: bool)
    ensures target <==> exists i :: 0 <= i < |ts| && !ts[i].completed
    ensures ts == [] ==> !target
  {
    !AllCompleted(ts)
  }

  /** The records the toggle-all button sends: those whose status differs from the target. */
  function ToggleBatch(ts: seq<Todo>, target: bool): (r: seq<Todo>)
    ensures IsSubseq(r, ts)
    ensures forall i :: 0 <= i < |r| ==> r[i].completed != target
    ensures forall t: Todo :: t.completed != target ==> multiset(r)[t] == multiset(ts)[t]
  {
    var r := Filter((t: Todo) => t.completed != target, ts);
    assert forall i :: 0 <= i < |r| ==> r[i] in multiset(r);
    r
  }

  /** The create requests of a toggle-all batch, one per record, carrying the target status. */
  function ToggleUploads(batch: seq<Todo>, target: bool): (r: seq<Draft>)
    ensures |r| == |batch|
    ensures forall i :: 0 <= i < |r| ==>
      r[i].completed == target && r[i].title == batch[i].title && r[i].userId == batch[i].userId
  {
    seq(|batch|, i requires 0 <= i < |batch| => Draft(batch[i].title, target, batch[i].userId))
  }

  // The store steps as transitions on StoreState; the methods of Store below
  // are proved to perform exactly these.

  /**
   * Add, before the request. A title that is only white space shows the
   * empty-title error and changes nothing else. Any other title starts
   * submitting, clears the input and shows a placeholder carrying the title as
   * typed; the list, the in-flight ids, the filter and the error are kept.
   */
  function AddBegun(s: StoreState, title: string): (r: StoreState)
    ensures (forall i :: 0 <= i < |title| ==> IsWhiteSpace(title[i])) ==> r == s.(error := EMPTY_TITLE_ERROR)
    ensures (exists i :: 0 <= i < |title| && !IsWhiteSpace(title[i])) ==>
      && r.isSubmitting && r.newTodoTitle == ""
      && r.tempTodo.Some? && IsPlaceholder(r.tempTodo.value) && r.tempTodo.value.title == title
      && r.(isSubmitting := s.isSubmitting, newTodoTitle := s.newTodoTitle, tempTodo := s.tempTodo) == s
  {
    if Trim(title) == [] then s.(error := EMPTY_TITLE_ERROR)
    else s.(isSubmitting := true, newTodoTitle := "", tempTodo := Some(Todo(Idle, 0, USER_ID, title, false)))
  }

  /**
   * Add, settled. On success the created record is appended after the others
   * and the error cleared; on failure the list is kept, the add error shown and
   * the typed title put back in the input. Either way the placeholder is gone,
   * submitting is over, and the filter and in-flight ids are kept.
   */
  function AddSettled(s: StoreState, title: string, ok: bool, created: Todo): (r: StoreState)
    ensures r.tempTodo == None && !r.isSubmitting
    ensures r.filter == s.filter && r.haveId == s.haveId
    ensures ok ==>
      && |r.todos| == |s.todos| + 1 && r.todos[..|s.todos|] == s.todos && r.todos[|s.todos|] == created
      && r.error == "" && r.newTodoTitle == s.newTodoTitle
    ensures !ok ==> r.todos == s.todos && r.error == ADD_ERROR && r.newTodoTitle == title
  {
    var t := if ok then s.(todos := s.todos + [created], tempTodo := None, error := "")
             else s.(error := ADD_ERROR, tempTodo := None, newTodoTitle := title);
    t.(isSubmitting := false, tempTodo := None)
  }

  /**
   * Delete, before the request: `id` joins the end of the in-flight ids once
   * more, and exactly the records carrying it are marked deleting, none
   * removed; nothing else changes.
   */
  function DeleteBegun(s: StoreState, id: int): (r: StoreState)
    ensures |r.haveId| == |s.haveId| + 1 && r.haveId[..|s.haveId|] == s.haveId && r.haveId[|s.haveId|] == id
    ensures multiset(r.haveId)[id] == multiset(s.haveId)[id] + 1
    ensures |r.todos| == |s.todos| && Ids(r.todos) == Ids(s.todos)
    ensures forall i :: 0 <= i < |s.todos| ==>
      r.todos[i] == s.todos[i].(deleting := if s.todos[i].id == id then Deleting else s.todos[i].deleting)
    ensures r.(todos := s.todos, haveId := s.haveId) == s
  {
    var r := s.(haveId := s.haveId + [id], todos := MarkDeleting(s.todos, id, Deleting));
    assert r.haveId[..|s.haveId|] == s.haveId;
    r
  }

  /**
   * Delete, settled. On success no record carrying `id` is left and every
   * other record is kept, in order; on failure the records carrying `id` are
   * idle again, nothing is removed and the delete error is shown. Either way
   * every occurrence of `id` leaves the in-flight ids and the others stay.
   */
  function DeleteSettled(s: StoreState, id: int, ok: bool): (r: StoreState)
    ensures id !in r.haveId
    ensures forall x :: x != id ==> multiset(r.haveId)[x] == multiset(s.haveId)[x]
    ensures ok ==> IsSubseq(r.todos, s.todos) && forall i :: 0 <= i < |r.todos| ==> r.todos[i].id != id
    ensures ok ==> forall t: Todo :: t.id != id ==> multiset(r.todos)[t] == multiset(s.todos)[t]
    ensures ok ==> r.error == s.error
    ensures !ok ==> |r.todos| == |s.todos| && Ids(r.todos) == Ids(s.todos) && r.error == DELETE_ERROR
    ensures !ok ==> forall i :: 0 <= i < |s.todos| ==>
      r.todos[i] == s.todos[i].(deleting := if s.todos[i].id == id then Idle else s.todos[i].deleting)
    ensures r.(todos := s.todos, haveId := s.haveId, error := s.error) == s
  {
    var t := if ok then s.(todos := WithoutId(s.todos, id))
             else s.(error := DELETE_ERROR, todos := MarkDeleting(s.todos, id, Idle));
    t.(haveId := Without(s.haveId, id))
  }

  /**
   * Clear completed, before the requests: the in-flight ids are exactly the
   * ids of the completed records, in order, one per completed record, and
   * nothing else changes. Nothing is in flight exactly when no record is
   * completed.
   */
  function ClearBegun(s: StoreState): (r: StoreState)
    ensures r.haveId == Ids(Filter(IsCompleted, s.todos))
    ensures forall i :: 0 <= i < |s.todos| && s.todos[i].completed ==> s.todos[i].id in r.haveId
    ensures |r.haveId| + |Filter(IsActive, s.todos)| == |s.todos|
    ensures r.haveId == [] <==> forall i :: 0 <= i < |s.todos| ==> !s.todos[i].completed
    ensures r.(haveId := s.haveId) == s
  {
    var done := Filter(IsCompleted, s.todos);
    var r := s.(haveId := Ids(done));
    assert forall i :: 0 <= i < |s.todos| && s.todos[i].completed ==> s.todos[i].id in r.haveId by {
      forall i | 0 <= i < |s.todos| && s.todos[i].completed
        ensures s.todos[i].id in r.haveId
      {
        FilterKeeps(IsCompleted, s.todos, s.todos[i]);
        var k :| 0 <= k < |done| && done[k] == s.todos[i];
        assert r.haveId[k] == s.todos[i].id;
      }
    }
    assert (forall i :: 0 <= i < |s.todos| ==> !s.todos[i].completed) ==> r.haveId == [] by {
      if forall i :: 0 <= i < |s.todos| ==> !s.todos[i].completed {
        FilterDropsAll(IsCompleted, s.todos);
      }
    }
    FilterPartition(IsActive, IsCompleted, s.todos);
    r
  }

  /**
   * Clear completed, settled. An empty batch cannot fail (`Promise.all` of no
   * promises resolves). On success only the active records remain, each kept
   * as often as before and in order; on failure nothing is removed and the
   * clear error is shown. Either way nothing is in flight afterwards.
   */
  function ClearSettled(s: StoreState, ok: bool): (r: StoreState)
    requires ok || s.haveId != []
    ensures r.haveId == []
    ensures ok ==> IsSubseq(r.todos, s.todos) && forall i :: 0 <= i < |r.todos| ==> !r.todos[i].completed
    ensures ok ==> forall t: Todo :: !t.completed ==> multiset(r.todos)[t] == multiset(s.todos)[t]
    ensures ok ==> r.error == s.error
    ensures !ok ==> r.todos == s.todos && r.error == CLEAR_ERROR
    ensures r.(todos := s.todos, error := s.error, haveId := s.haveId) == s
  {
    var t := if ok then s.(todos := Filter(IsActive, s.todos)) else s.(error := CLEAR_ERROR);
    assert ok ==> forall i :: 0 <= i < |t.todos| ==> !t.todos[i].completed by {
      if ok {
        forall i | 0 <= i < |t.todos|
          ensures !t.todos[i].completed
        {
          FilterSatisfies(IsActive, s.todos, i);
        }
      }
    }
    t.(haveId := [])
  }

  /**
   * Toggle all, before the requests: the in-flight ids are exactly the ids of
   * the batch, the records whose status differs from the target, in order;
   * nothing else changes. The batch is empty exactly when the list is.
   */
  function ToggleAllBegun(s: StoreState): (r: StoreState)
    ensures r.haveId == Ids(ToggleBatch(s.todos, ToggleAllTarget(s.todos)))
    ensures forall i :: 0 <= i < |s.todos| && s.todos[i].completed != ToggleAllTarget(s.todos) ==>
      s.todos[i].id in r.haveId
    ensures r.haveId == [] <==> s.todos == []
    ensures r.(haveId := s.haveId) == s
  {
    var target := ToggleAllTarget(s.todos);
    var batch := ToggleBatch(s.todos, target);
    var r := s.(haveId := Ids(batch));
    assert forall i :: 0 <= i < |s.todos| && s.todos[i].completed != target ==> s.todos[i].id in r.haveId by {
      forall i | 0 <= i < |s.todos| && s.todos[i].completed != target
        ensures s.todos[i].id in r.haveId
      {
        assert s.todos[i] in multiset(s.todos);
        assert s.todos[i] in multiset(batch);
        var k :| 0 <= k < |batch| && batch[k] == s.todos[i];
        assert r.haveId[k] == s.todos[i].id;
      }
    }
    assert s.todos != [] ==> r.haveId != [] by {
      if s.todos != [] {
        if target {
          var j :| 0 <= j < |s.todos| && !s.todos[j].completed;
          assert s.todos[j].id in r.haveId;
        } else {
          assert s.todos[0].completed;
          assert s.todos[0].id in r.haveId;
        }
      }
    }
    r
  }

  /**
   * Toggle all, settled. An empty batch cannot fail (`Promise.all` of no
   * promises resolves). On success every record takes the target status and
   * keeps everything else, in order; on failure the list is kept and the
   * toggle-all error is shown. Either way nothing is in flight afterwards.
   */
  function ToggleAllSettled(s: StoreState, target: bool, ok: bool): (r: StoreState)
    requires ok || s.haveId != []
    ensures r.haveId == []
    ensures ok ==> |r.todos| == |s.todos| && Ids(r.todos) == Ids(s.todos)
    ensures ok ==> forall i :: 0 <= i < |s.todos| ==> r.todos[i] == s.todos[i].(completed := target)
    ensures ok ==> r.error == s.error
    ensures !ok ==> r.todos == s.todos && r.error == TOGGLE_ALL_ERROR
    ensures r.(todos := s.todos, error := s.error, haveId := s.haveId) == s
  {
    var t := if ok then s.(todos := CompleteAll(s.todos, target)) else s.(error := TOGGLE_ALL_ERROR);
    t.(haveId := [])
  }

  /**
   * A whole add, from an idle store whose input holds the title: on success
   * the record is appended and the input and error are cleared; on failure the
   * store is as before except for the add error.
   */
  lemma AddRoundTrip(s: StoreState, title: string, created: Todo)
    requires Trim(title) != [] && s.newTodoTitle == title
    requires s.tempTodo == None && !s.isSubmitting
    ensures AddSettled(AddBegun(s, title), title, true, created)
      == s.(todos := s.todos + [created], newTodoTitle := "", error := "")
    ensures AddSettled(AddBegun(s, title), title, false, created) == s.(error := ADD_ERROR)
  {
  }

  /**
   * A whole delete of an id that was not in flight and whose records were
   * idle: success leaves exactly the records with other ids, unchanged; failure
   * leaves the store as before except for the delete error.
   */
  lemma DeleteRoundTrip(s: StoreState, id: int)
    requires id !in s.haveId
    requires forall i :: 0 <= i < |s.todos| && s.todos[i].id == id ==> s.todos[i].deleting == Idle
    ensures DeleteSettled(DeleteBegun(s, id), id, true) == s.(todos := WithoutId(s.todos, id))
    ensures DeleteSettled(DeleteBegun(s, id), id, false) == s.(error := DELETE_ERROR)
  {
    var p := (x: int) => x != id;
    FilterAppend(p, s.haveId, [id]);
    FilterKeepsAll(p, s.haveId);
    FilterDropsAll(p, [id]);
    assert Without(s.haveId + [id], id) == s.haveId;
    RemoveAfterMark(s.todos, id, Deleting);
    DeleteMarkUndone(s.todos, id);
  }

  /**
   * A whole clear-completed batch from a store with nothing in flight is all or
   * nothing: success removes every completed record, failure (possible only
   * when some record is completed) removes none; with no completed record the
   * store ends as it began.
   */
  lemma ClearRoundTrip(s: StoreState)
    requires s.haveId == []
    ensures ClearSettled(ClearBegun(s), true) == s.(todos := Filter(IsActive, s.todos))
    ensures (exists i :: 0 <= i < |s.todos| && s.todos[i].completed) ==>
      ClearSettled(ClearBegun(s), false) == s.(error := CLEAR_ERROR)
    ensures (forall i :: 0 <= i < |s.todos| ==> !s.todos[i].completed) ==>
      ClearSettled(ClearBegun(s), true) == s
  {
    if forall i :: 0 <= i < |s.todos| ==> !s.todos[i].completed {
      FilterKeepsAll(IsActive, s.todos);
    }
  }

  /**
   * A whole toggle-all batch from a store with nothing in flight is all or
   * nothing: success gives every record the target status, failure (possible
   * only for a non-empty list) changes no record; on an empty list the store
   * ends as it began.
   */
  lemma ToggleAllRoundTrip(s: StoreState)
    requires s.haveId == []
    ensures ToggleAllSettled(ToggleAllBegun(s), ToggleAllTarget(s.todos), true)
      == s.(todos := CompleteAll(s.todos, ToggleAllTarget(s.todos)))
    ensures s.todos != [] ==>
      ToggleAllSettled(ToggleAllBegun(s), ToggleAllTarget(s.todos), false) == s.(error := TOGGLE_ALL_ERROR)
    ensures s.todos == [] ==> ToggleAllSettled(ToggleAllBegun(s), ToggleAllTarget(s.todos), true) == s
  {
  }

  /**
   * One active record: toggle all sends one request with status true, and on
   * success the record becomes completed.
   */
  lemma ToggleAllOneActive(t: Todo)
    requires !t.completed
    ensures ToggleAllTarget([t])
    ensures ToggleUploads(ToggleBatch([t], true), true) == [Draft(t.title, true, t.userId)]
    ensures CompleteAll([t], true) == [t.(completed := true)]
  {
    assert ToggleBatch([t], true) == [t];
  }

  class Store {
    var todos: seq<Todo>
    var error: string
    var filter: string
    var newTodoTitle: string
    var tempTodo: Option<Todo>
    var isSubmitting: bool
    var haveId: seq<int>

    ghost function State(): StoreState
      reads this
    {
      StoreState(todos, error, filter, newTodoTitle, tempTodo, isSubmitting, haveId)
    }

    /** The placeholder exists only while a create is submitting, and it is a placeholder record. */
    ghost predicate Valid()
      reads this
    {
      tempTodo.Some? ==> isSubmitting && IsPlaceholder(tempTodo.value)
    }

    /**
     * What the invariant gives the list view: when no create is submitting no
     * placeholder row is shown, and a shown placeholder is never completed and
     * never being deleted.
     */
    lemma PlaceholderOnlyWhileSubmitting()
      requires Valid()
      ensures !isSubmitting ==> tempTodo == None
      ensures tempTodo.Some? ==> tempTodo.value.id == 0 && !tempTodo.value.completed && tempTodo.value.deleting == Idle
    {
    }

    /** The initial state: nothing loaded, no error, the "all" filter, nothing in flight. */
    constructor ()
      ensures Valid()
      ensures State() == StoreState([], "", "all", "", None, false, [])
    {
      todos, error, filter, newTodoTitle := [], "", "all", "";
      tempTodo, isSubmitting, haveId := None, false, [];
    }

    /** Load, before the request: the error is cleared. */
    method BeginLoad()
      requires Valid()
      modifies this
      ensures Valid()
      ensures State() == old(State()).(error := "")
    {
      error := "";
    }

    /** Load, settled: the fetched list replaces `todos`, or the load error is shown and `todos` is kept. */
    method SettleLoad(ok: bool, fetched: seq<Todo>)
      requires Valid()
      modifies this
      ensures Valid()
      ensures ok ==> State() == old(State()).(todos := fetched)
      ensures !ok ==> State() == old(State()).(error := LOAD_ERROR)
    {
      if ok {
        todos := fetched;
      } else {
        error := LOAD_ERROR;
      }
    }

    /**
     * Add, before the request. A title that is only white space sets the
     * empty-title error and changes nothing else; no request is made. Otherwise
     * the store starts submitting, clears the input and shows a placeholder with
     * the title as typed; the request carries the trimmed title.
     */
    method BeginAdd(title: string) returns (draft: Option<Draft>)
      requires Valid()
      modifies this
      ensures Valid()
      ensures draft.None? <==> forall i :: 0 <= i < |title| ==> IsWhiteSpace(title[i])
      ensures State() == AddBegun(old(State()), title)
      ensures draft.None? ==> State() == old(State()).(error := EMPTY_TITLE_ERROR)
      ensures draft.Some? ==>
        && draft.value == Draft(Trim(title), false, USER_ID)
        && draft.value.title != []
        && isSubmitting && newTodoTitle == "" && todos == old(todos)
        && tempTodo == Some(Todo(Idle, 0, USER_ID, title, false))
    {
      if Trim(title) == [] {
        error := EMPTY_TITLE_ERROR;
        return None;
      }
      isSubmitting := true;
      newTodoTitle := "";
      tempTodo := Some(Todo(Idle, 0, USER_ID, title, false));
      draft := Some(Draft(Trim(title), false, USER_ID));
    }

    /**
     * Add, settled. On success the created record is appended after the
     * existing ones and the error is cleared; on failure the list is kept, the
     * add error is shown and the typed title is put back in the input. Either
     * way the placeholder is gone and submitting is over.
     */
    method SettleAdd(title: string, ok: bool, created: Todo)
      requires Valid()
      modifies this
      ensures Valid()
      ensures tempTodo == None && !isSubmitting
      ensures ok ==>
        && |todos| == |old(todos)| + 1
        && todos[..|old(todos)|] == old(todos)
        && todos[|old(todos)|] == created
      ensures !ok ==> todos == old(todos) && error == ADD_ERROR && newTodoTitle == title
      ensures State() == AddSettled(old(State()), title, ok, created)
    {
      if ok {
        todos := todos + [created];
        tempTodo := None;
        error := "";
      } else {
        error := ADD_ERROR;
        tempTodo := None;
        newTodoTitle := title;
      }
      isSubmitting := false;
      tempTodo := None;
    }

    /** Delete, before the request: `id` is put in flight and its records are marked deleting. */
    method BeginDelete(id: int)
      requires Valid()
      modifies this
      ensures Valid()
      ensures State() == DeleteBegun(old(State()), id)
      ensures id in haveId
    {
      haveId := haveId + [id];
      todos := MarkDeleting(todos, id, Deleting);
    }

    /**
     * Delete, settled. On success the records carrying `id` are removed and the
     * others kept in order; on failure they are marked idle again and the delete
     * error is shown. Either way `id` is no longer in flight.
     */
    method SettleDelete(id: int, ok: bool)
      requires Valid()
      modifies this
      ensures Valid()
      ensures id !in haveId
      ensures ok ==> forall i :: 0 <= i < |todos| ==> todos[i].id != id
      ensures !ok ==> |todos| == |old(todos)| && error == DELETE_ERROR
      ensures State() == DeleteSettled(old(State()), id, ok)
    {
      if ok {
        todos := WithoutId(todos, id);
      } else {
        error := DELETE_ERROR;
        todos := MarkDeleting(todos, id, Idle);
      }
      haveId := Without(haveId, id);
    }

    /**
     * Clear completed, before the requests: the in-flight ids become exactly the
     * ids of the completed records, which are also the ids to delete.
     */
    method BeginClearCompleted() returns (targets: seq<int>)
      requires Valid()
      modifies this
      ensures Valid()
      ensures targets == Ids(Filter(IsCompleted, old(todos)))
      ensures forall i :: 0 <= i < |old(todos)| && old(todos)[i].completed ==> old(todos)[i].id in targets
      ensures State() == ClearBegun(old(State()))
    {
      ghost var s0 := State();
      targets := Ids(Filter(IsCompleted, todos));
      haveId := targets;
      assert State() == ClearBegun(s0);
    }

    /**
     * Clear completed, settled; an empty batch cannot fail. On success only the
     * active records remain, in order; on failure nothing is removed and the clear error is shown. Either
     * way nothing is in flight afterwards.
     */
    method SettleClearCompleted(ok: bool)
      requires ok || haveId != []
      requires Valid()
      modifies this
      ensures Valid()
      ensures haveId == []
      ensures ok ==> forall i :: 0 <= i < |todos| ==> !todos[i].completed
      ensures !ok ==> todos == old(todos) && error == CLEAR_ERROR
      ensures State() == ClearSettled(old(State()), ok)
    {
      ghost var s0 := State();
      if ok {
        todos := Filter(IsActive, todos);
      } else {
        error := CLEAR_ERROR;
      }
      haveId := [];
      assert State() == ClearSettled(s0, ok);
    }

    /**
     * Toggle all, before the requests: the target status is `!every(completed)`;
     * the records whose status differs from it are put in flight and one create
     * request carrying the target status is issued for each of them.
     */
    method BeginToggleAll() returns (target: bool, uploads: seq<Draft>)
      requires Valid()
      modifies this
      ensures Valid()
      ensures target == ToggleAllTarget(old(todos))
      ensures uploads == ToggleUploads(ToggleBatch(old(todos), target), target)
      ensures State() == ToggleAllBegun(old(State()))
    {
      target := !AllCompleted(todos);
      var batch := ToggleBatch(todos, target);
      haveId := Ids(batch);
      uploads := ToggleUploads(batch, target);
    }

    /**
     * Toggle all, settled; an empty batch cannot fail. On success every record
     * has the target status and
     * nothing else about it changes; on failure the list is kept and the
     * toggle-all error is shown. Either way nothing is in flight afterwards.
     */
    method SettleToggleAll(target: bool, ok: bool)
      requires ok || haveId != []
      requires Valid()
      modifies this
      ensures Valid()
      ensures haveId == []
      ensures ok ==> |todos| == |old(todos)| && Ids(todos) == Ids(old(todos))
      ensures ok ==> forall i :: 0 <= i < |todos| ==>
        todos[i].completed == target && todos[i].title == old(todos)[i].title
      ensures !ok ==> todos == old(todos) && error == TOGGLE_ALL_ERROR
      ensures State() == ToggleAllSettled(old(State()), target, ok)
    {
      if ok {
        todos := CompleteAll(todos, target);
      } else {
        error := TOGGLE_ALL_ERROR;
      }
      haveId := [];
    }

    /** A click on a footer link selects its filter. */
    method SetFilter(f: string)
      requires Valid()
      modifies this
      ensures Valid()
      ensures State() == old(State()).(filter := f)
    {
      filter := f;
    }

    /** Typing in the new-todo input. */
    method SetNewTodoTitle(s: string)
      requires Valid()
      modifies this
      ensures Valid()
      ensures State() == old(State()).(newTodoTitle := s)
    {
      newTodoTitle := s;
    }

    /** Closing the error notification clears the error. */
    method DismissError()
      requires Valid()
      modifies this
      ensures Valid()
      ensures State() == old(State()).(error := "")
    {
      error := "";
    }
  }
}
