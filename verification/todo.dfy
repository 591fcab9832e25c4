/**
 * The to-do widget (src/widgets/builtin/todo/Todo.jsx): a list of items
 * with add, toggle, delete and clear-completed, drag-and-drop reordering by
 * two `splice` calls on a copy of the list, and the counts shown in the
 * footer. The component state is `items`, `inputValue`, `draggedItemId` and
 * `dragOverItemId`; `Date.now()` and the ISO time stamp are parameters.
 */
module Todo {
  import opened Wrappers
  import opened Seqs
  import opened Strings

  /** `{id, text, completed, createdAt}`; ids are `Date.now()` numbers. */
  datatype TodoItem = TodoItem(id: int, text: string, completed: bool, createdAt: string)

  /** A drag id slot: `null`, or an item id (truthy unless it is 0). */
  predicate IsSet(slot: Option<int>) {
    slot.Some? && slot.value != 0
  }

  /** The test `item.id === id`. */
  function IdIs(id: int): TodoItem -> bool {
    (item: TodoItem) => item.id == id
  }

  /** The test `item.id !== id`. */
  function IdIsNot(id: int): TodoItem -> bool {
    (item: TodoItem) => item.id != id
  }

  /** The test `!item.completed`. */
  function Active(): TodoItem -> bool {
    (item: TodoItem) => !item.completed
  }

  /** The test `item.completed`. */
  function Completed(): TodoItem -> bool {
    (item: TodoItem) => item.completed
  }

  /** `items.map(item => item.id === id ? {...item, completed: !item.completed} : item)`. */
  function Toggled(items: seq<TodoItem>, id: int): (r: seq<TodoItem>)
    ensures |r| == |items|
    ensures forall i :: 0 <= i < |r| ==>
      r[i] == items[i].(completed := if items[i].id == id then !items[i].completed else items[i].completed)
  {
    if items == [] then []
    else
      var item := items[0];
      [if item.id == id then item.(completed := !item.completed) else item] + Toggled(items[1..], id)
  }

  /** Toggling the same id twice restores the list. */
  lemma {:induction false} ToggleTwice(items: seq<TodoItem>, id: int)
    ensures Toggled(Toggled(items, id), id) == items
  {
    var r := Toggled(Toggled(items, id), id);
    assert |r| == |items|;
    forall i | 0 <= i < |items| ensures r[i] == items[i] {
    }
  }

  /** The index a `splice(start, …)` call acts on for a list of length `len`. */
  function SpliceStart(start: int, len: nat): (r: nat)
    ensures r <= len
    ensures 0 <= start <= len ==> r == start
  {
    if start < 0 then (if len + start < 0 then 0 else len + start)
    else if start > len then len
    else start
  }

  /** `s` without the element at `i`. */
  function RemoveAt<T>(s: seq<T>, i: nat): (r: seq<T>)
    requires i < |s|
    ensures |r| == |s| - 1
  {
    s[..i] + s[i + 1..]
  }

  /**
   * The reorder of `handleDragEnd`: `splice(draggedIndex, 1)` removes the
   * dragged item, `splice(targetIndex, 0, draggedItem)` puts it back. A
   * missing id gives index -1, which `splice` counts from the end.
   */
  function Reordered(items: seq<TodoItem>, draggedId: int, targetId: int): (r: seq<TodoItem>)
    ensures |r| == |items|
  {
    if items == [] then []
    else
      var from := SpliceStart(FindIndex(items, IdIs(draggedId)), |items|);
      var moved := items[from];
      var rest := RemoveAt(items, from);
      var to := SpliceStart(FindIndex(items, IdIs(targetId)), |rest|);
      rest[..to] + [moved] + rest[to..]
  }

  /** The reorder only rearranges: the same items, each as often as before. */
  lemma {:induction false} ReorderedIsPermutation(items: seq<TodoItem>, draggedId: int, targetId: int)
    ensures multiset(Reordered(items, draggedId, targetId)) == multiset(items)
  {
    if items != [] {
      var from := SpliceStart(FindIndex(items, IdIs(draggedId)), |items|);
      var rest := RemoveAt(items, from);
      var to := SpliceStart(FindIndex(items, IdIs(targetId)), |rest|);
      assert items == items[..from] + [items[from]] + items[from + 1..];
      assert multiset(items) == multiset(rest) + multiset{items[from]};
      assert rest == rest[..to] + rest[to..];
      assert multiset(rest[..to] + [items[from]] + rest[to..])
        == multiset(rest[..to]) + multiset{items[from]} + multiset(rest[to..]);
    }
  }

  /**
   * With both items present, the dragged item lands at the target's
   * original index, and taking it out again gives the other items in their
   * old relative order.
   */
  lemma {:induction false} ReorderedMovesDragged(items: seq<TodoItem>, draggedId: int, targetId: int)
    requires FindIndex(items, IdIs(draggedId)) >= 0 && FindIndex(items, IdIs(targetId)) >= 0
    ensures var r := Reordered(items, draggedId, targetId);
      var from, to := FindIndex(items, IdIs(draggedId)), FindIndex(items, IdIs(targetId));
      && r[to] == items[from]
      && RemoveAt(r, to) == RemoveAt(items, from)
  {
    var from, to := FindIndex(items, IdIs(draggedId)), FindIndex(items, IdIs(targetId));
    var rest := RemoveAt(items, from);
    var r := rest[..to] + [items[from]] + rest[to..];
    assert r[to] == items[from];
    assert r[..to] == rest[..to] && r[to + 1..] == rest[to..];
    assert rest[..to] + rest[to..] == rest;
  }

  /** A filter whose test keeps the first element starts with it. */
  lemma {:induction false} FilterKeepsHead(s: seq<TodoItem>, p: TodoItem -> bool)
    requires |s| >= 1 && p(s[0])
    ensures |Filter(s, p)| >= 1 && Filter(s, p)[0] == s[0]
  {
    assert Filter(s, p) == [s[0]] + Filter(s[1..], p);
  }

  /** `handleDelete(id)` and clear-completed leave the items the test keeps, in order. */
  lemma {:induction false} FilterKeepsOrder(items: seq<TodoItem>, p: TodoItem -> bool, i: int, j: int)
    requires 0 <= i < j < |items| && p(items[i]) && p(items[j])
    ensures exists a, b :: 0 <= a < b < |Filter(items, p)| && Filter(items, p)[a] == items[i] && Filter(items, p)[b] == items[j]
  {
    var front, back := items[..j], items[j..];
    assert items == front + back;
    FilterConcat(front, back, p);
    var ff, fb := Filter(front, p), Filter(back, p);
    var all := Filter(items, p);
    assert all == ff + fb;
    assert front[i] == items[i];
    assert items[i] in ff;
    var a :| 0 <= a < |ff| && ff[a] == items[i];
    FilterKeepsHead(back, p);
    var b := |ff|;
    assert all[a] == items[i];
    assert all[b] == fb[0] == items[j];
  }

  /** Deleting an id removes every item with it and keeps every other item. */
  lemma {:induction false} DeleteMeans(items: seq<TodoItem>, id: int)
    ensures forall x :: x in Filter(items, IdIsNot(id)) <==> x in items && x.id != id
    ensures |Filter(items, IdIsNot(id))| + |Filter(items, IdIs(id))| == |items|
  {
    FilterComplement(items, IdIsNot(id), IdIs(id));
  }

  /** The footer counts: the active count is the number of unfinished items, and the three add up. */
  lemma {:induction false} CountsAddUp(items: seq<TodoItem>)
    ensures var total, completed := |items|, |Filter(items, Completed())|;
      && 0 <= completed <= total
      && total - completed == |Filter(items, Active())|
  {
    FilterComplement(items, Completed(), Active());
  }

  /** The component's state. */
  class TodoWidget {
    var items: seq<TodoItem>
    var inputValue: string
    var draggedItemId: Option<int>
    var dragOverItemId: Option<int>

    /** The initial state for the configured items. */
    constructor(configured: seq<TodoItem>)
      ensures items == configured && inputValue == ""
      ensures draggedItemId == None && dragOverItemId == None
    {
      items := configured;
      inputValue := "";
      draggedItemId := None;
      dragOverItemId := None;
    }

    /** `totalCount - completedCount`. */
    function ActiveCount(): (r: int)
      reads this
      ensures r == |Filter(items, Active())|
    {
      CountsAddUp(items);
      |items| - |Filter(items, Completed())|
    }

    /** `handleAdd()`: a blank input does nothing; otherwise the trimmed text is appended, unfinished. */
    method HandleAdd(now: int, stamp: string)
      modifies this
      ensures Trim(old(inputValue)) == "" ==> items == old(items) && inputValue == old(inputValue)
      ensures Trim(old(inputValue)) != "" ==>
        items == old(items) + [TodoItem(now, Trim(old(inputValue)), false, stamp)] && inputValue == ""
      ensures draggedItemId == old(draggedItemId) && dragOverItemId == old(dragOverItemId)
    {
      var text := Trim(inputValue);
      if text == "" {
        return;
      }
      items := items + [TodoItem(now, text, false, stamp)];
      inputValue := "";
    }

    /** `handleToggle(id)`. */
    method HandleToggle(id: int)
      modifies this
      ensures items == Toggled(old(items), id)
      ensures inputValue == old(inputValue)
      ensures draggedItemId == old(draggedItemId) && dragOverItemId == old(dragOverItemId)
    {
      items := Toggled(items, id);
    }

    /** `handleDelete(id)`. */
    method HandleDelete(id: int)
      modifies this
      ensures items == Filter(old(items), IdIsNot(id))
      ensures inputValue == old(inputValue)
      ensures draggedItemId == old(draggedItemId) && dragOverItemId == old(dragOverItemId)
    {
      items := Filter(items, IdIsNot(id));
    }

    /** The clear-completed button. */
    method ClearCompleted()
      modifies this
      ensures items == Filter(old(items), Active())
      ensures |items| == old(ActiveCount())
      ensures inputValue == old(inputValue)
      ensures draggedItemId == old(draggedItemId) && dragOverItemId == old(dragOverItemId)
    {
      items := Filter(items, Active());
    }

    /** `handleDragStart(e, itemId)`. */
    method HandleDragStart(itemId: int)
      modifies this
      ensures draggedItemId == Some(itemId)
      ensures items == old(items) && inputValue == old(inputValue) && dragOverItemId == old(dragOverItemId)
    {
      draggedItemId := Some(itemId);
    }

    /** `handleDragOver(e, itemId)`: another item under a drag becomes the target. */
    method HandleDragOver(itemId: int)
      modifies this
      ensures IsSet(old(draggedItemId)) && old(draggedItemId) != Some(itemId) ==> dragOverItemId == Some(itemId)
      ensures !(IsSet(old(draggedItemId)) && old(draggedItemId) != Some(itemId)) ==> dragOverItemId == old(dragOverItemId)
      ensures dragOverItemId != old(dragOverItemId) ==> dragOverItemId != draggedItemId
      ensures items == old(items) && inputValue == old(inputValue) && draggedItemId == old(draggedItemId)
    {
      if IsSet(draggedItemId) && draggedItemId != Some(itemId) {
        dragOverItemId := Some(itemId);
      }
    }

    /** `handleDragLeave(e)`: leaving the whole element clears the target. */
    method HandleDragLeave(leftElement: bool)
      modifies this
      ensures dragOverItemId == if leftElement then None else old(dragOverItemId)
      ensures items == old(items) && inputValue == old(inputValue) && draggedItemId == old(draggedItemId)
    {
      if leftElement {
        dragOverItemId := None;
      }
    }

    /** `handleDragEnd()`: reorder when both ids are set and differ; the drag state is always cleared. */
    method HandleDragEnd()
      modifies this
      ensures var d, t := old(draggedItemId), old(dragOverItemId);
        items == if IsSet(d) && IsSet(t) && d != t then Reordered(old(items), d.value, t.value) else old(items)
      ensures draggedItemId == None && dragOverItemId == None
      ensures inputValue == old(inputValue)
    {
      if IsSet(draggedItemId) && IsSet(dragOverItemId) && draggedItemId != dragOverItemId {
        items := Reordered(items, draggedItemId.value, dragOverItemId.value);
      }
      draggedItemId := None;
      dragOverItemId := None;
    }
  }
}
