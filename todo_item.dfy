/**
 * One row of the list: its local editing state (`isEditing`, `newTitle`,
 * `isSaving`) and its handlers, which act on the shared store through the
 * callbacks the row receives (replace its record in `todos`, start the store's
 * delete, report an error).
 */
module TodoItem {
  import opened Seqs
  import opened JsString
  import opened Todos
  import opened App

  const UPDATE_ERROR: string := "Unable to update the todo"
  const ITEM_DELETE_ERROR: string := "Unable to delete the todo"

  /**
   * What committing an edit does, decided on the trimmed new title. A rename
   * carries the record it will write, built before its request is sent.
   */
  datatype SavePlan = DeleteItem | KeepTitle | Rename(updated: Todo)

  /**
   * A new title that is only white space deletes the record; one whose trimmed
   * form equals the current title only leaves edit mode; any other renames: the
   * record to write is the current one with the trimmed title and every other
   * field as it was.
   */
  function PlanSave(newTitle: string, current: Todo): (p: SavePlan)
    ensures p == DeleteItem <==> forall i :: 0 <= i < |newTitle| ==> IsWhiteSpace(newTitle[i])
    ensures p == KeepTitle <==> Trim(newTitle) != [] && Trim(newTitle) == current.title
    ensures p.Rename? ==>
      && p.updated == current.(title := Trim(newTitle))
      && p.updated.title != current.title && p.updated.title != []
  {
    var t := Trim(newTitle);
    if t == [] then DeleteItem
    else if t != current.title then Rename(current.(title := t))
    else KeepTitle
  }

  /** The remove button is disabled exactly while some entry of the in-flight ids is the record's id. */
  predicate RemoveDisabled(haveId: seq<int>, id: int): (b: bool)
    ensures b <==> exists i :: 0 <= i < |haveId| && haveId[i] == id
    ensures b <==> multiset(haveId)[id] > 0
  {
    id in haveId
  }

  /**
   * The loading overlay shows while the id is in flight or the row is saving:
   * whenever the remove button is disabled, and besides that exactly while
   * the row is saving.
   */
  predicate OverlayActive(haveId: seq<int>, id: int, isSaving: bool): (b: bool)
    ensures RemoveDisabled(haveId, id) ==> b
    ensures !RemoveDisabled(haveId, id) ==> (b <==> isSaving)
  {
    id in haveId || isSaving
  }

  /**
   * How the busy indicators follow the store: a disabled remove button always
   * comes with the overlay, and without a save in progress the two agree; the
   * start of a delete disables the button and its settlement enables it again.
   */
  lemma BusyIndicators(haveId: seq<int>, id: int, isSaving: bool)
    ensures RemoveDisabled(haveId, id) ==> OverlayActive(haveId, id, isSaving)
    ensures OverlayActive(haveId, id, false) <==> RemoveDisabled(haveId, id)
    ensures RemoveDisabled(haveId + [id], id)
    ensures !RemoveDisabled(Without(haveId, id), id)
  {
    assert (haveId + [id])[|haveId|] == id;
  }

  /**
   * While a clear-completed batch is pending, the remove button of every
   * completed record is disabled.
   */
  lemma ClearCompletedDisablesCompleted(ts: seq<Todo>, i: int)
    requires 0 <= i < |ts| && ts[i].completed
    ensures RemoveDisabled(Ids(Filter(IsCompleted, ts)), ts[i].id)
  {
    FilterKeeps(IsCompleted, ts, ts[i]);
    var k :| 0 <= k < |Filter(IsCompleted, ts)| && Filter(IsCompleted, ts)[k] == ts[i];
    assert Ids(Filter(IsCompleted, ts))[k] == ts[i].id;
  }

  /**
   * The store after the row's own delete request settled. On success the
   * store's delete of the id starts: the id is appended to the in-flight ids
   * and exactly its records are marked deleting, none removed yet. On failure only the row's
   * delete error is shown. The filter, the input and the placeholder are kept.
   */
  function DeleteOutcome(s: StoreState, id: int, ok: bool): (r: StoreState)
    ensures r.filter == s.filter && r.newTodoTitle == s.newTodoTitle
    ensures r.tempTodo == s.tempTodo && r.isSubmitting == s.isSubmitting
    ensures ok ==> RemoveDisabled(r.haveId, id) && r.error == s.error
    ensures ok ==> r.haveId == s.haveId + [id]
    ensures ok ==> |r.todos| == |s.todos| && Ids(r.todos) == Ids(s.todos)
    ensures ok ==> forall i :: 0 <= i < |r.todos| && r.todos[i].id == id ==> r.todos[i].deleting == Deleting
    ensures ok ==> forall i :: 0 <= i < |s.todos| ==>
      r.todos[i] == s.todos[i].(deleting := if s.todos[i].id == id then Deleting else s.todos[i].deleting)
    ensures !ok ==> r.todos == s.todos && r.haveId == s.haveId && r.error == ITEM_DELETE_ERROR
  {
    if ok then DeleteBegun(s, id) else s.(error := ITEM_DELETE_ERROR)
  }

  class Item {
    /** The shared store behind `setTodos`, `onDeleteTodo` and `onError`. */
    const store: Store
    /** The record this row renders (a prop). */
    var todo: Todo
    var isEditing: bool
    var newTitle: string
    var isSaving: bool

    /** A row starts out of edit mode, not saving, with the record's title in its edit buffer. */
    constructor (store: Store, todo: Todo)
      ensures this.store == store && this.todo == todo
      ensures !isEditing && !isSaving && newTitle == todo.title
    {
      this.store := store;
      this.todo := todo;
      isEditing := false;
      newTitle := todo.title;
      isSaving := false;
    }

    /** A re-render hands the row the current version of its record (same key, same id); local state is kept. */
    method Rerender(t: Todo)
      requires t.id == todo.id
      modifies this
      ensures todo == t
      ensures isEditing == old(isEditing) && newTitle == old(newTitle) && isSaving == old(isSaving)
    {
      todo := t;
    }

    /** A double click on the title enters edit mode. */
    method StartEditing()
      modifies this
      ensures isEditing
      ensures todo == old(todo) && newTitle == old(newTitle) && isSaving == old(isSaving)
    {
      isEditing := true;
    }

    /** Typing in the edit field. */
    method ChangeTitle(s: string)
      modifies this
      ensures newTitle == s
      ensures todo == old(todo) && isEditing == old(isEditing) && isSaving == old(isSaving)
    {
      newTitle := s;
    }

    /** Toggle, before the request: the row is saving; the request carries the record with its status negated. */
    method BeginToggle() returns (updated: Todo)
      modifies this
      ensures isSaving
      ensures updated == todo.(completed := !todo.completed)
      ensures todo == old(todo) && isEditing == old(isEditing) && newTitle == old(newTitle)
    {
      isSaving := true;
      updated := todo.(completed := !todo.completed);
    }

    /**
     * Toggle, settled, given the record `BeginToggle` built. On success every
     * record with the row's id becomes that record, as it was when the toggle
     * began, even if the row was re-rendered since; every other record is left
     * alone. On failure the list is kept and the update error is shown. Either
     * way the row is no longer saving.
     */
    method SettleToggle(updated: Todo, ok: bool)
      requires updated.id == todo.id
      requires store.Valid()
      modifies this, store
      ensures store.Valid()
      ensures !isSaving
      ensures todo == old(todo) && isEditing == old(isEditing) && newTitle == old(newTitle)
      ensures ok ==> store.State() == old(store.State()).(
        todos := ReplaceById(old(store.todos), todo.id, updated))
      ensures ok ==> forall i :: 0 <= i < |store.todos| && old(store.todos)[i].id == todo.id ==>
        store.todos[i] == updated
      ensures ok ==> Ids(store.todos) == Ids(old(store.todos))
      ensures !ok ==> store.State() == old(store.State()).(error := UPDATE_ERROR)
    {
      if ok {
        ReplaceKeepsIds(store.todos, updated);
        store.todos := ReplaceById(store.todos, todo.id, updated);
      } else {
        store.error := UPDATE_ERROR;
      }
      isSaving := false;
    }

    /**
     * The remove button, once the row's own delete request settled: on success
     * the store's delete of the id starts; on failure the list is untouched and
     * the row's delete error is shown. The row's own state does not change.
     */
    method HandleDelete(ok: bool)
      requires store.Valid()
      modifies store
      ensures store.Valid()
      ensures store.State() == DeleteOutcome(old(store.State()), todo.id, ok)
      ensures !ok ==> store.todos == old(store.todos)
    {
      if ok {
        store.BeginDelete(todo.id);
      } else {
        store.error := ITEM_DELETE_ERROR;
      }
    }

    /**
     * Committing an edit, before any request. A title that trims to the current
     * one only leaves edit mode; a new title puts the row in saving; a blank one
     * changes nothing yet (it is deleted by `SettleSaveTitle`).
     */
    method BeginSaveTitle() returns (plan: SavePlan)
      modifies this
      ensures plan == PlanSave(old(newTitle), old(todo))
      ensures plan.Rename? ==> plan.updated.id == todo.id
      ensures todo == old(todo) && newTitle == old(newTitle)
      ensures plan == KeepTitle ==> !isEditing && isSaving == old(isSaving)
      ensures plan.Rename? ==> isSaving && isEditing == old(isEditing)
      ensures plan == DeleteItem ==> isSaving == old(isSaving) && isEditing == old(isEditing)
    {
      plan := PlanSave(newTitle, todo);
      match plan {
        case KeepTitle =>
          isEditing := false;
        case Rename(_) =>
          isSaving := true;
        case DeleteItem =>
      }
    }

    /**
     * Committing an edit, once its request settled. A blank title was a delete:
     * the store changes exactly as for the remove button and the row stays in
     * edit mode. A rename replaces the records carrying the id by the record
     * the plan carries, built when the edit was committed, on success, or shows
     * the update error and keeps the list on failure; either way the row leaves
     * saving and edit mode.
     */
    method SettleSaveTitle(plan: SavePlan, ok: bool)
      requires plan != KeepTitle
      requires plan.Rename? ==> plan.updated.id == todo.id
      requires store.Valid()
      modifies this, store
      ensures store.Valid()
      ensures todo == old(todo) && newTitle == old(newTitle)
      ensures plan == DeleteItem ==>
        && store.State() == DeleteOutcome(old(store.State()), todo.id, ok)
        && isEditing == old(isEditing) && isSaving == old(isSaving)
      ensures plan.Rename? ==> !isSaving && !isEditing
      ensures plan.Rename? && ok ==> store.State() == old(store.State()).(
        todos := ReplaceById(old(store.todos), todo.id, plan.updated))
      ensures plan.Rename? && ok ==> Ids(store.todos) == Ids(old(store.todos))
      ensures plan.Rename? && !ok ==> store.State() == old(store.State()).(error := UPDATE_ERROR)
    {
      if plan == DeleteItem {
        HandleDelete(ok);
        return;
      }
      if ok {
        ReplaceKeepsIds(store.todos, plan.updated);
        store.todos := ReplaceById(store.todos, todo.id, plan.updated);
      } else {
        store.error := UPDATE_ERROR;
      }
      isSaving := false;
      isEditing := false;
    }
  }
}
