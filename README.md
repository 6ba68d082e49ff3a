# Verified model of the to-do store of a React to-do application

The application keeps a list of to-do records fetched from a REST resource and
lets the user add, toggle, rename, delete, clear completed and toggle all of
them, showing optimistic state while requests are in flight. This project
models the part of it that holds and changes that state:

- the store of the top-level component (`src/App.tsx`): the records, the error
  message, the filter, the new-title input, the optimistic placeholder, the
  submitting flag and the in-flight ids, and its five asynchronous handlers
  (load, add, delete, clear completed, toggle all) together with the filtered
  view and the toggle-all flag;
- the per-row editor (`src/components/TodoItem.tsx`): `isEditing`, `newTitle`,
  `isSaving`, and its toggle, delete and save-title handlers, which act on the
  shared store;
- the footer's derived values (`src/components/Footer.tsx`): the items-left
  counter, the "Clear completed" button, and the filter links.

Every asynchronous handler is split at its `await` into a `Begin…` method (the
effects before the request: placeholder, `deleting` mark, in-flight ids) and a
`Settle…` method (the try/catch/finally effects) that takes the outcome of the
request as a boolean `ok`. For the two batch handlers `ok` means "every request
of the batch resolved". The store is a class (`App.Store`) whose methods are
proved to perform pure transitions on a `StoreState` value (`App.AddBegun`,
`App.DeleteSettled`, …); the round-trip lemmas are stated on those transitions.
The row is a class (`TodoItem.Item`) holding a reference to the store it
shares with the other rows.

Files: `seqs.dfy` (the array `filter` used throughout, characterised by order
and multiplicities), `js_string.dfy` (`trim` and upper-casing), `todo.dfy`
(the record and the list transformations), `app.dfy`, `todo_item.dfy`,
`footer.dfy`.

## Behaviour as written

Behaviours of the code worth noting, all of which the model keeps:

- Adding does not check `isSubmitting`: a second add while one is pending is
  not rejected by the store (only the disabled input prevents it).
- Toggling one record does not put its id in flight; it only sets the row's
  `isSaving`.
- A failed load keeps whatever `todos` held before (empty at start-up).
- Toggle all issues create requests (`uploadTodo`), not update requests; the
  model records the request bodies it sends (`App.ToggleUploads`).
- Deleting from a row issues the row's own delete request and, on success,
  starts the store's delete, which issues a second one; the model keeps these
  as two separate transitions (`TodoItem.Item.HandleDelete`, then
  `App.Store.SettleDelete`).
- A clear-completed or toggle-all batch with no requests cannot fail, since
  `Promise.all` of no promises resolves; the toggle-all button is shown even
  for an empty list, so that case is reachable. The settle steps require `ok`
  when nothing is in flight.
- The row's toggle and rename write the record they built before their
  request, not the row's record at settlement: a re-render in between (the
  store marking the record deleting, say) is overwritten.
- The footer builds its links' href with a separate branch for the "all"
  filter, but that branch yields the same "#/all" the general case would.

## Model

| member | source | states |
|---|---|---|
| Todos.Ids | src/App.tsx:120 | the id list has one entry per record, the record's id, in order |
| Todos.AllCompleted | src/App.tsx:134 | `every(completed)`, also the toggle-all button's active flag (line 192), holds exactly when filtering the active records leaves nothing, and for the empty list |
| Todos.MarkDeleting | src/App.tsx:95-99 | exactly the records carrying the id get the given delete status; ids, owners, titles, statuses and all other records are unchanged, length preserved |
| Todos.DeleteMarkUndone | src/App.tsx:106-110 | marking deleting and then idle again gives back the original list when its records for the id were idle |
| Todos.WithoutId | src/App.tsx:103 | no record with the id remains; every other record is kept with its multiplicity, in order |
| Todos.RemoveAfterMark | src/App.tsx:95-103 | removing the id after the optimistic mark equals removing it from the unmarked list |
| Todos.ReplaceById | src/components/TodoItem.tsx:60-62 | every record with the id becomes the updated record; every other record is untouched; length preserved |
| Todos.ReplaceKeepsIds | src/components/TodoItem.tsx:102-104 | replacing by a record with the same id keeps the id list |
| Todos.CompleteAll | src/App.tsx:155-161 | every record becomes the same record with `completed` set to the target; length and order unchanged |
| Todos.Without | src/App.tsx:113 | the id leaves the in-flight ids; every other id is kept with its multiplicity, in order |
| Seqs.Filter | src/App.tsx:125 | `filter` returns an order-preserving subsequence holding each element that passes exactly as often as the input, and nothing else |
| Seqs.FilterPartition | src/App.tsx:169-179 | filtering by a test and by its negation gives lengths that add up to the input's |
| JsString.TrimStart | src/App.tsx:54 | only leading white space is dropped; the result is a suffix starting with a non-white-space character |
| JsString.TrimEnd | src/App.tsx:54 | only trailing white space is dropped; the result is a prefix ending with a non-white-space character |
| JsString.Trim | src/App.tsx:54 | the trimmed title is empty exactly when the title is all white space; otherwise it starts and ends with other characters |
| JsString.TrimIsInfix | src/App.tsx:72 | the trimmed title is the contiguous middle of the title, between a white-space prefix and suffix |
| JsString.TrimIdempotent | src/components/TodoItem.tsx:95-99 | trimming an already trimmed title changes nothing |
| JsString.ToUpper | src/components/Footer.tsx:38 | lower-case ASCII letters map to their upper-case letter, every other character to itself |
| JsString.Capitalize | src/components/Footer.tsx:38 | only the first character is upper-cased; length and the rest are preserved |
| App.Selector | src/App.tsx:169-178 | a completed record is hidden only by the "active" filter, an active one only by "completed"; any other filter hides nothing |
| App.FilteredTodos | src/App.tsx:169-179 | the view is a subsequence of `todos`; "active" keeps exactly the uncompleted records, "completed" exactly the completed ones, any other filter everything |
| App.FilteredPartition | src/App.tsx:169-179 | the "active" and "completed" views' lengths add up to the number of records |
| App.FilteredMembers | src/App.tsx:169-179 | every record of a view is a record of `todos` that passes the view's test |
| App.ToggleAllTarget | src/App.tsx:134-136 | the target is true exactly when some record is active; false for the empty list |
| App.ToggleBatch | src/App.tsx:137-139 | the batch holds exactly the records whose status differs from the target, in order |
| App.ToggleUploads | src/App.tsx:143-150 | one request body per batch record, with its title and owner and the target status |
| App.AddBegun | src/App.tsx:53-69 | an all-white-space title only sets the empty-title error; any other starts submitting, clears the input and shows a placeholder with the title as typed, with list, in-flight ids, filter and error kept |
| App.AddSettled | src/App.tsx:70-89 | success appends the created record after the others and clears the error; failure keeps the list, sets the add error and restores the input; either way no placeholder, not submitting, filter and in-flight ids kept |
| App.DeleteBegun | src/App.tsx:92-99 | the id is appended once more to the in-flight ids; exactly its records are marked deleting, none removed, ids kept; nothing else changes |
| App.DeleteSettled | src/App.tsx:100-114 | success leaves exactly the other records in order and keeps the error; failure marks exactly the id's records idle, changes nothing else about any record, removes none and sets the delete error; every occurrence of the id, and only it, leaves the in-flight ids |
| App.ClearBegun | src/App.tsx:117-121 | the in-flight ids are exactly the ids of the completed records, in order, one per completed record; nothing is in flight exactly when no record is completed; nothing else changes |
| App.ClearSettled | src/App.tsx:123-130 | an empty batch cannot fail; success keeps exactly the active records in order and keeps the error; failure keeps the list and sets the clear error; nothing in flight afterwards |
| App.ToggleAllBegun | src/App.tsx:133-150 | the in-flight ids are exactly the ids of the records whose status differs from the target, in order; the batch is empty exactly when the list is; nothing else changes |
| App.ToggleAllSettled | src/App.tsx:152-166 | an empty batch cannot fail; success gives every record the target status with all else kept, in order, and keeps the error; failure keeps the list and sets the toggle-all error; nothing in flight afterwards |
| App.AddRoundTrip | src/App.tsx:53-89 | a whole add from an idle store appends the created record and clears input and error on success, and on failure leaves the store as before except for the add error |
| App.DeleteRoundTrip | src/App.tsx:92-114 | a whole delete of an idle id leaves exactly the other records on success, and on failure the store as before except for the delete error |
| App.ClearRoundTrip | src/App.tsx:117-130 | clear completed is all or nothing: success leaves only the active records, failure (possible only with a completed record) changes no record; with nothing completed the store ends as it began |
| App.ToggleAllRoundTrip | src/App.tsx:133-166 | toggle all is all or nothing: success sets every record to the target, failure (possible only for a non-empty list) changes no record; on an empty list the store ends as it began |
| App.ToggleAllOneActive | src/App.tsx:133-161 | with one active record, one request with status true is sent and the record becomes completed |
| App.Store.constructor | src/App.tsx:12-18 | the initial store: no records, no error, filter "all", empty input, no placeholder, not submitting, nothing in flight |
| App.Store.PlaceholderOnlyWhileSubmitting | src/App.tsx:60-88 | under the store invariant, no placeholder is shown unless a create is submitting, and a shown placeholder has id 0, is not completed and is idle |
| App.Store.BeginLoad | src/App.tsx:35-36 | loading first clears the error and changes nothing else |
| App.Store.SettleLoad | src/App.tsx:38-45 | success replaces `todos` by the fetched list; failure sets the load error and keeps `todos` |
| App.Store.BeginAdd | src/App.tsx:53-76 | an all-white-space title only sets the empty-title error and sends nothing; otherwise submitting starts, the input is cleared, the placeholder (id 0, title as typed, not completed) is shown and the trimmed title is sent |
| App.Store.SettleAdd | src/App.tsx:77-89 | success appends the created record after the earlier ones, unchanged; failure keeps `todos`, sets the add error and puts the title back in the input; either way no placeholder and not submitting |
| App.Store.BeginDelete | src/App.tsx:92-99 | the id is appended to the in-flight ids and exactly its records are marked deleting |
| App.Store.SettleDelete | src/App.tsx:100-114 | success removes exactly the id's records; failure marks them idle and sets the delete error; the id is no longer in flight |
| App.Store.BeginClearCompleted | src/App.tsx:117-121 | the in-flight ids become the ids of the completed records, the ids deleted |
| App.Store.SettleClearCompleted | src/App.tsx:123-130 | an empty batch cannot fail; success leaves no completed record and keeps the active ones in order; failure keeps `todos` and sets the clear error; nothing in flight |
| App.Store.BeginToggleAll | src/App.tsx:133-150 | the target is `!every(completed)`; the in-flight ids are those of the records whose status differs from it; one request per such record |
| App.Store.SettleToggleAll | src/App.tsx:152-166 | an empty batch cannot fail; success gives every record the target status with ids, titles, length and order kept; failure keeps `todos` and sets the toggle-all error; nothing in flight |
| App.Store.SetFilter | src/App.tsx:219 | a footer link click sets the filter and nothing else |
| App.Store.SetNewTodoTitle | src/App.tsx:200 | typing sets the input and nothing else |
| App.Store.DismissError | src/App.tsx:226 | closing the notification clears the error and nothing else |
| TodoItem.PlanSave | src/components/TodoItem.tsx:84-99 | a blank new title deletes; one whose trim equals the current title keeps it; otherwise the record to write is the current one with the trimmed, different, non-empty title |
| TodoItem.RemoveDisabled | src/components/TodoItem.tsx:158 | the remove button is disabled exactly when some in-flight id is the record's id |
| TodoItem.OverlayActive | src/components/TodoItem.tsx:167 | the overlay shows whenever the remove button is disabled, and otherwise exactly while the row is saving |
| TodoItem.BusyIndicators | src/components/TodoItem.tsx:158-167 | the remove button is disabled iff the id is in flight; the overlay shows iff the id is in flight or the row is saving; starting a delete disables it and settling enables it |
| TodoItem.ClearCompletedDisablesCompleted | src/App.tsx:118-120 | during clear completed the remove button of every completed record is disabled |
| TodoItem.DeleteOutcome | src/components/TodoItem.tsx:71-76 | success starts the store's delete: the id is appended to the in-flight ids and exactly its records are marked deleting, all else kept, none removed; failure changes only the error, to the row's delete error |
| TodoItem.Item.constructor | src/components/TodoItem.tsx:23-25 | a row starts out of edit mode, not saving, with the record's title as edit buffer |
| TodoItem.Item.Rerender | src/components/TodoList.tsx:25-33 | a re-render gives the row the current record with the same id and keeps its local state |
| TodoItem.Item.StartEditing | src/components/TodoItem.tsx:150 | a double click enters edit mode |
| TodoItem.Item.ChangeTitle | src/components/TodoItem.tsx:79-81 | typing sets the edit buffer |
| TodoItem.Item.BeginToggle | src/components/TodoItem.tsx:54-56 | the row is saving and the request carries the record with its status negated |
| TodoItem.Item.SettleToggle | src/components/TodoItem.tsx:56-67 | success replaces every record with the row's id by the toggled copy built when the toggle began, whatever the row shows now, and leaves the others and the ids; failure keeps the list and reports the update error; the row is no longer saving |
| TodoItem.Item.HandleDelete | src/components/TodoItem.tsx:70-77 | success starts the store's delete of the id; failure keeps the list and reports the row's delete error |
| TodoItem.Item.BeginSaveTitle | src/components/TodoItem.tsx:83-99 | an unchanged trimmed title only leaves edit mode, a new one sets saving and builds the renamed record from the row's record, a blank one changes nothing yet |
| TodoItem.Item.SettleSaveTitle | src/components/TodoItem.tsx:84-113 | a blank title changes the store exactly as the remove button does and stays in edit mode; a rename replaces the id's records by the renamed record built when the edit was committed, or keeps the list and reports the update error; then saving and edit mode end |
| Footer.ActiveTodoCount | src/components/Footer.tsx:20 | the counter is the number of records minus the completed ones; zero exactly when all are completed |
| Footer.HasCompletedTodos | src/components/Footer.tsx:21 | `some(completed)` holds exactly when filtering the completed records leaves something |
| Footer.ClearCompletedDisabled | src/components/Footer.tsx:46 | "Clear completed" is disabled exactly when no record is completed |
| Footer.Href | src/components/Footer.tsx:32 | the href is "#/" followed by the current filter, for every filter, "all" included |
| Footer.Links | src/components/Footer.tsx:29-40 | one link per filter type, in order, with its capitalised label, selected iff it is the current filter, all with the same href |
| Footer.LinkLabels | src/components/Footer.tsx:38 | the labels read "All", "Active", "Completed" |
| Footer.LinksSelection | src/components/Footer.tsx:32-34 | at most one link is selected, one is exactly when the filter is a filter type, and all hrefs agree |

## Left out

- Requests: the HTTP wrappers (`src/api/todos.ts`) and `utils/fetchClient` are not part of this model; a request's outcome is the `ok` parameter of a `Settle…` method, and server state is not modelled.
- The 3-second automatic clearing of the error (a timer) and the focus calls on the input are browser effects and are left out.
- The window key-up and click listeners that commit an edit are left out; `TodoItem.Item.BeginSaveTitle` and `TodoItem.Item.SettleSaveTitle` are called directly.
- Interleaving of the store's handlers: each is one `Begin…` followed by one `Settle…`, with nothing in between (the row's handlers do allow a re-render in between). Races on one id, the concurrent fan-out of the batch requests and the stale `todos` captured by toggle all's settlement are not modelled (with nothing in between, the captured list equals the current one).
- The start-up guard on the user id is not modelled as a branch: the id is a non-zero constant, so loading always runs.
- The rendering components (`TodoList`, `TodoForm`, `ErrorNotification`, the JSX of the top-level component) render only and are not modelled, beyond the placeholder and re-render they imply.
- `src/types/Filter.ts` is not part of this model; its filter types are taken to be "all", "active" and "completed", in that order, the values the top-level component compares against.
- The `Deleted` delete status exists in the record type but no code assigns it; no transition of the model assigns it either.
- Ids are JavaScript numbers; the model uses unbounded integers, and server records are taken to carry a delete status although the server never sends one.
- JsString.ToUpper: upper-cases only ASCII letters, whereas `toUpperCase` applies full Unicode case mapping (which can change the length); the filter names are ASCII.
- JsString.Trim: works on Unicode scalar values, whereas JavaScript strings are UTF-16 code units; every white-space character is a single code unit, so the results agree.
