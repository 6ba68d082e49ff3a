/**
 * The footer's derived values: the items-left counter, whether "Clear
 * completed" is enabled, and for each filter link its label, whether it is
 * selected and its href.
 */
module Footer {
  import opened Seqs
  import opened JsString
  import opened Todos

  /** The filter types, in the order the links are rendered. */
  const FILTER_TYPES: seq<string> := ["all", "active", "completed"]

  /** One rendered filter link. */
  datatype Link = Link(filterType: string, caption: string, selected: bool, href: string)

  /** The counter: the number of records that are not completed. */
  function ActiveTodoCount(ts: seq<Todo>): (n: nat)
    ensures n == |ts| - |Filter(IsCompleted, ts)|
    ensures n == 0 <==> AllCompleted(ts)
  {
    FilterPartition(IsActive, IsCompleted, ts);
    |Filter(IsActive, ts)|
  }

  /** `todos.some(todo => todo.completed)`. */
  function HasCompletedTodos(ts: seq<Todo>): (b: bool)
    ensures b <==> Filter(IsCompleted, ts) != []
  {
    if ts == [] then false
    else ts[0].completed || HasCompletedTodos(ts[1..])
  }

  /** "Clear completed" is disabled exactly when no record is completed. */
  function ClearCompletedDisabled(ts: seq<Todo>): (disabled: bool)
    ensures disabled <==> forall i :: 0 <= i < |ts| ==> !ts[i].completed
  {
    var b := HasCompletedTodos(ts);
    if b then
      var k :| 0 <= k < |Filter(IsCompleted, ts)|;
      FilterSatisfies(IsCompleted, ts, k);
      !b
    else
      assert forall i :: 0 <= i < |ts| ==> !ts[i].completed by {
        forall i | 0 <= i < |ts| ensures !ts[i].completed {
          if ts[i].completed {
            FilterKeeps(IsCompleted, ts, ts[i]);
          }
        }
      }
      !b
  }

  /**
   * The href every link carries. The "all" filter has a branch of its own, but
   * it builds the same string as every other filter: the href is always "#/"
   * followed by the current filter, so that branch changes nothing.
   */
  function Href(filter: string): (h: string)
    ensures h == "#/" + filter
    ensures |h| == |filter| + 2 && h[..2] == "#/"
  {
    "#/" + (if filter == "all" then "all" else filter)
  }

  /** The filter links, one per filter type, rendered under the current filter. */
  function Links(filter: string): (links: seq<Link>)
    ensures |links| == |FILTER_TYPES|
    ensures forall i :: 0 <= i < |links| ==> links[i].filterType == FILTER_TYPES[i]
    ensures forall i :: 0 <= i < |links| ==> links[i].caption == Capitalize(FILTER_TYPES[i])
    ensures forall i :: 0 <= i < |links| ==> (links[i].selected <==> filter == FILTER_TYPES[i])
    ensures forall i :: 0 <= i < |links| ==> links[i].href == Href(filter)
  {
    seq(|FILTER_TYPES|, i requires 0 <= i < |FILTER_TYPES| =>
      Link(FILTER_TYPES[i], Capitalize(FILTER_TYPES[i]), filter == FILTER_TYPES[i], Href(filter)))
  }

  /** The labels read "All", "Active" and "Completed". */
  lemma LinkLabels(filter: string)
    ensures Links(filter)[0].caption == "All"
    ensures Links(filter)[1].caption == "Active"
    ensures Links(filter)[2].caption == "Completed"
  {
    assert Capitalize("all") == "All";
    assert Capitalize("active") == "Active";
    assert Capitalize("completed") == "Completed";
  }

  /**
   * At most one link is selected; one is selected exactly when the current
   * filter is one of the filter types; every link has the same href.
   */
  lemma {:induction false} LinksSelection(filter: string, i: int, j: int)
    requires 0 <= i < |FILTER_TYPES| && 0 <= j < |FILTER_TYPES|
    ensures Links(filter)[i].selected && Links(filter)[j].selected ==> i == j
    ensures Links(filter)[i].href == Links(filter)[j].href
    ensures (exists k :: 0 <= k < |FILTER_TYPES| && Links(filter)[k].selected) <==> filter in FILTER_TYPES
  {
    var links := Links(filter);
    if filter in FILTER_TYPES {
      var k :| 0 <= k < |FILTER_TYPES| && FILTER_TYPES[k] == filter;
      assert links[k].selected;
    }
  }
}
