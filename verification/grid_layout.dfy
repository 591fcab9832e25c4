/**
 * The collision resolver and the drag/resize session of the grid container
 * (src/components/Grid/GridLayout.jsx). A drag either moves the item, swaps
 * it with one same-sized item in the way, or pushes every item in the way to
 * the nearest free slot; previews and the commit are always computed from
 * the layout saved when the gesture began.
 */
module GridLayout {
  import opened Wrappers
  import opened Seqs
  import opened GridUtils
  import opened GridItem

  /** `{ ...item, x, y }`. */
  function At(it: Item, x: int, y: int): Item {
    Item(it.id, x, y, it.w, it.h)
  }

  /** `{ ...item, w, h }`. */
  function Sized(it: Item, w: int, h: int): Item {
    Item(it.id, it.x, it.y, w, h)
  }

  /** The ids occurring in a list of items. */
  function Ids(os: seq<Item>): set<string> {
    if os == [] then {} else {os[0].id} + Ids(os[1..])
  }

  lemma {:induction false} IdsMember(os: seq<Item>, o: Item)
    requires o in os
    ensures o.id in Ids(os)
  {
    if os[0] != o {
      assert o in os[1..];
      IdsMember(os[1..], o);
    }
  }

  /** No two entries overlap. */
  predicate Disjoint(layout: Layout) {
    forall i, j :: 0 <= i < |layout| && 0 <= j < |layout| && i != j ==> !Overlaps(layout[i].Box(), layout[j].Box())
  }

  /** No two entries overlap, the one at index `m` aside. */
  predicate DisjointExcept(layout: Layout, m: int) {
    forall i, j :: 0 <= i < |layout| && 0 <= j < |layout| && i != j && i != m && j != m ==>
      !Overlaps(layout[i].Box(), layout[j].Box())
  }

  /** Entry `m` is the first one with this id: the item `find` returns. */
  predicate FirstWithId(layout: Layout, id: string, m: int) {
    0 <= m < |layout| && layout[m].id == id && forall i :: 0 <= i < m ==> layout[i].id != id
  }

  lemma {:induction false} FirstWithIdIsFound(layout: Layout, id: string, m: int)
    requires FirstWithId(layout, id, m)
    ensures FindIndex(layout, HasId(id)) == m
  {
    FindIndexIs(layout, HasId(id), m);
  }

  // ---------------------------------------------------------------------
  // The three branches of calculatePushedLayout
  // ---------------------------------------------------------------------

  /** The plain move: every entry with the id goes to (`x`, `y`). */
  function MoveTo(layout: Layout, id: string, x: int, y: int): (r: Layout)
    ensures |r| == |layout|
    ensures forall i :: 0 <= i < |r| ==> r[i].id == layout[i].id && r[i].w == layout[i].w && r[i].h == layout[i].h
    ensures forall i :: 0 <= i < |r| && layout[i].id == id ==> r[i].x == x && r[i].y == y
    ensures forall i :: 0 <= i < |r| && layout[i].id != id ==> r[i] == layout[i]
  {
    Map(layout, (it: Item) => if it.id == id then At(it, x, y) else it)
  }

  /** The swap: the mover to (`x`, `y`), the other item to the mover's old cell (`ox`, `oy`). */
  function Swap(layout: Layout, id: string, other: string, x: int, y: int, ox: int, oy: int): (r: Layout)
    ensures |r| == |layout|
    ensures forall i :: 0 <= i < |r| ==> r[i].id == layout[i].id && r[i].w == layout[i].w && r[i].h == layout[i].h
    ensures forall i :: 0 <= i < |r| && layout[i].id == id ==> r[i].x == x && r[i].y == y
    ensures forall i :: 0 <= i < |r| && layout[i].id != id && layout[i].id == other ==> r[i].x == ox && r[i].y == oy
    ensures forall i :: 0 <= i < |r| && layout[i].id != id && layout[i].id != other ==> r[i] == layout[i]
  {
    Map(layout, (it: Item) => if it.id == id then At(it, x, y) else if it.id == other then At(it, ox, oy) else it)
  }

  /** `newLayout[k] = item`: writing at index -1 leaves the elements alone. */
  function Place(layout: Layout, k: int, it: Item): Layout {
    if 0 <= k < |layout| then layout[k := it] else layout
  }

  /**
   * The push loop: the overlapped items in order, each not yet pushed one
   * sent to the nearest empty slot around its own original cell, searched
   * in the layout as updated so far and excluding only itself.
   */
  function PushFrom(os: seq<Item>, cur: Layout, pushed: set<string>, cols: int): Layout
    decreases |os|
  {
    if os == [] then cur
    else
      var o := os[0];
      if o.id in pushed then PushFrom(os[1..], cur, pushed, cols)
      else
        var p := NearestEmpty(o.x, o.y, o.w, o.h, cur, o.id, cols);
        var k := FindIndex(cur, HasId(o.id));
        PushFrom(os[1..], Place(cur, k, At(o, p.x, p.y)), pushed + {o.id}, cols)
  }

  /** The items in the way of the mover at its target. */
  function InTheWay(layout: Layout, m: int, x: int, y: int): seq<Item>
    requires 0 <= m < |layout|
  {
    Overlapping(Rect(x, y, layout[m].w, layout[m].h), layout, layout[m].id)
  }

  /** The swap branch applies: exactly one item in the way, of the mover's size. */
  predicate SwapCase(os: seq<Item>, mover: Item) {
    |os| == 1 && os[0].w == mover.w && os[0].h == mover.h
  }

  /** `calculatePushedLayout(id, newX, newY, baseLayout)`. */
  function PushedLayout(id: string, x: int, y: int, base: Layout, cols: int): Layout {
    var m := FindIndex(base, HasId(id));
    if m < 0 then base
    else
      var mover := base[m];
      var os := InTheWay(base, m, x, y);
      if |os| == 0 then MoveTo(base, id, x, y)
      else if SwapCase(os, mover) then Swap(base, id, os[0].id, x, y, mover.x, mover.y)
      else PushFrom(os, base[m := At(mover, x, y)], {id}, cols)
  }

  /** `calculatePushedLayout`, with the push loop written out. */
  method CalculatePushedLayout(id: string, newX: int, newY: int, baseLayout: Layout, cols: int)
    returns (r: Layout)
    ensures r == PushedLayout(id, newX, newY, baseLayout, cols)
  {
    var movingIndex := FindIndex(baseLayout, HasId(id));
    if movingIndex < 0 {
      return baseLayout;
    }
    FindIndexFacts(baseLayout, HasId(id));
    var movingItem := baseLayout[movingIndex];
    var overlappingItems := FindOverlappingItems(newX, newY, movingItem.w, movingItem.h, baseLayout, id);
    if |overlappingItems| == 0 {
      return MoveTo(baseLayout, id, newX, newY);
    }
    if |overlappingItems| == 1 {
      var targetItem := overlappingItems[0];
      if targetItem.w == movingItem.w && targetItem.h == movingItem.h {
        return Swap(baseLayout, id, targetItem.id, newX, newY, movingItem.x, movingItem.y);
      }
    }
    var newLayout := baseLayout[movingIndex := At(movingItem, newX, newY)];
    var pushedItems: set<string> := {id};
    ghost var start := newLayout;
    for i := 0 to |overlappingItems|
      invariant PushFrom(overlappingItems[i..], newLayout, pushedItems, cols) == PushFrom(overlappingItems, start, {id}, cols)
    {
      var overlappedItem := overlappingItems[i];
      assert overlappingItems[i..][0] == overlappedItem && overlappingItems[i..][1..] == overlappingItems[i + 1..];
      if overlappedItem.id in pushedItems {
        continue;
      }
      var emptyPos := FindNearestEmptyPosition(overlappedItem.x, overlappedItem.y, overlappedItem.w, overlappedItem.h,
                                               newLayout, overlappedItem.id, cols);
      var overlappedIndex := FindIndex(newLayout, HasId(overlappedItem.id));
      newLayout := Place(newLayout, overlappedIndex, At(overlappedItem, emptyPos.x, emptyPos.y));
      pushedItems := pushedItems + {overlappedItem.id};
    }
    assert overlappingItems[|overlappingItems|..] == [];
    return newLayout;
  }

  // ---------------------------------------------------------------------
  // What calculatePushedLayout gives
  // ---------------------------------------------------------------------

  /** An id no entry has leaves the layout as it is. */
  lemma {:induction false} PushedUnknownId(id: string, x: int, y: int, base: Layout, cols: int)
    requires forall i :: 0 <= i < |base| ==> base[i].id != id
    ensures PushedLayout(id, x, y, base, cols) == base
  {
    FindIndexIs(base, HasId(id), -1);
  }

  /** Pushing keeps the length and the id at every index. */
  lemma {:induction false} PushFromKeepsIds(os: seq<Item>, cur: Layout, pushed: set<string>, cols: int)
    ensures var r := PushFrom(os, cur, pushed, cols);
      |r| == |cur| && forall i :: 0 <= i < |r| ==> r[i].id == cur[i].id
    decreases |os|
  {
    if os != [] {
      var o := os[0];
      if o.id in pushed {
        PushFromKeepsIds(os[1..], cur, pushed, cols);
      } else {
        var p := NearestEmpty(o.x, o.y, o.w, o.h, cur, o.id, cols);
        var k := FindIndex(cur, HasId(o.id));
        FindIndexFacts(cur, HasId(o.id));
        PushFromKeepsIds(os[1..], Place(cur, k, At(o, p.x, p.y)), pushed + {o.id}, cols);
      }
    }
  }

  /** In every branch the result has the same length and the same ids in the same order. */
  lemma {:induction false} PushedKeepsIds(id: string, x: int, y: int, base: Layout, cols: int)
    ensures var r := PushedLayout(id, x, y, base, cols);
      |r| == |base| && forall i :: 0 <= i < |r| ==> r[i].id == base[i].id
  {
    var m := FindIndex(base, HasId(id));
    if m >= 0 {
      var os := InTheWay(base, m, x, y);
      if |os| == 0 {
        assert PushedLayout(id, x, y, base, cols) == MoveTo(base, id, x, y);
      } else if SwapCase(os, base[m]) {
        assert PushedLayout(id, x, y, base, cols) == Swap(base, id, os[0].id, x, y, base[m].x, base[m].y);
      } else {
        var start := base[m := At(base[m], x, y)];
        assert PushedLayout(id, x, y, base, cols) == PushFrom(os, start, {id}, cols);
        PushFromKeepsIds(os, start, {id}, cols);
      }
    }
  }

  /** Same ids and sizes at every index. */
  predicate SameShape(a: Layout, b: Layout) {
    |a| == |b| && forall i :: 0 <= i < |a| ==> a[i].id == b[i].id && a[i].w == b[i].w && a[i].h == b[i].h
  }

  lemma {:induction false} PushFromKeepsShape(os: seq<Item>, cur: Layout, pushed: set<string>, cols: int, base: Layout)
    requires UniqueIds(base) && SameShape(cur, base)
    requires forall j :: 0 <= j < |os| ==> os[j] in base
    ensures SameShape(PushFrom(os, cur, pushed, cols), base)
    decreases |os|
  {
    if os != [] {
      var o := os[0];
      if o.id in pushed {
        PushFromKeepsShape(os[1..], cur, pushed, cols, base);
      } else {
        var p := NearestEmpty(o.x, o.y, o.w, o.h, cur, o.id, cols);
        var k := FindIndex(cur, HasId(o.id));
        FindIndexFacts(cur, HasId(o.id));
        if k >= 0 {
          var j :| 0 <= j < |base| && base[j] == o;
          assert base[k].id == o.id;
          assert j == k;
        }
        PushFromKeepsShape(os[1..], Place(cur, k, At(o, p.x, p.y)), pushed + {o.id}, cols, base);
      }
    }
  }

  /** With unique ids, no branch changes any item's size. */
  lemma {:induction false} PushedKeepsSizes(id: string, x: int, y: int, base: Layout, cols: int)
    requires UniqueIds(base)
    ensures SameShape(PushedLayout(id, x, y, base, cols), base)
  {
    var m := FindIndex(base, HasId(id));
    if m >= 0 {
      var os := InTheWay(base, m, x, y);
      OverlappingMembers(Rect(x, y, base[m].w, base[m].h), base, base[m].id);
      assert forall j :: 0 <= j < |os| ==> os[j] in os;
      PushFromKeepsShape(os, base[m := At(base[m], x, y)], {id}, cols, base);
    }
  }

  /** Nothing in the way: only the mover's position changes, to the target. */
  lemma {:induction false} PushedPlainMove(id: string, x: int, y: int, base: Layout, cols: int, m: int)
    requires FirstWithId(base, id, m) && InTheWay(base, m, x, y) == []
    ensures var r := PushedLayout(id, x, y, base, cols);
      |r| == |base| && forall i :: 0 <= i < |r| ==> r[i] == if base[i].id == id then At(base[i], x, y) else base[i]
  {
    FirstWithIdIsFound(base, id, m);
  }

  /** Dropping an item that overlaps nothing on its own cell changes nothing. */
  lemma {:induction false} PushedStayPut(base: Layout, cols: int, m: int)
    requires UniqueIds(base) && 0 <= m < |base|
    requires InTheWay(base, m, base[m].x, base[m].y) == []
    ensures PushedLayout(base[m].id, base[m].x, base[m].y, base, cols) == base
  {
    var it := base[m];
    FirstWithIdIsFound(base, it.id, m);
    var r := PushedLayout(it.id, it.x, it.y, base, cols);
    assert forall i :: 0 <= i < |r| ==> r[i] == base[i];
  }

  /**
   * One same-sized item in the way: the mover goes to the target, that item
   * to the mover's original cell, and nothing else changes.
   */
  lemma {:induction false} PushedSwap(id: string, x: int, y: int, base: Layout, cols: int, m: int)
    requires FirstWithId(base, id, m) && SwapCase(InTheWay(base, m, x, y), base[m])
    ensures var r := PushedLayout(id, x, y, base, cols);
      var t := InTheWay(base, m, x, y)[0];
      |r| == |base| && forall i :: 0 <= i < |r| ==>
        r[i] == if base[i].id == id then At(base[i], x, y)
                else if base[i].id == t.id then At(base[i], base[m].x, base[m].y)
                else base[i]
  {
    FirstWithIdIsFound(base, id, m);
  }

  /** The swap can create an overlap: a=(0,0,2×2), b=(2,0,2×2), a dragged to x=1 sends b to (0,0). */
  lemma {:induction false} SwapCanOverlap()
    ensures var base := [Item("a", 0, 0, 2, 2), Item("b", 2, 0, 2, 2)];
      var r := PushedLayout("a", 1, 0, base, 12);
      r == [Item("a", 1, 0, 2, 2), Item("b", 0, 0, 2, 2)] && Overlaps(r[0].Box(), r[1].Box())
  {
    var base := [Item("a", 0, 0, 2, 2), Item("b", 2, 0, 2, 2)];
    FirstWithIdIsFound(base, "a", 0);
    var os := InTheWay(base, 0, 1, 0);
    assert base[1..] == [base[1]] && base[1..][1..] == [];
    assert os == [base[1]];
  }

  /** The push loop never rewrites an entry whose id was already pushed or is not in the list. */
  lemma {:induction false} PushFromUntouched(os: seq<Item>, cur: Layout, pushed: set<string>, cols: int, j: int)
    requires 0 <= j < |cur| && (cur[j].id in pushed || cur[j].id !in Ids(os))
    ensures var r := PushFrom(os, cur, pushed, cols); |r| == |cur| && r[j] == cur[j]
    decreases |os|
  {
    PushFromKeepsIds(os, cur, pushed, cols);
    if os != [] {
      var o := os[0];
      if o.id in pushed {
        PushFromUntouched(os[1..], cur, pushed, cols, j);
      } else {
        var p := NearestEmpty(o.x, o.y, o.w, o.h, cur, o.id, cols);
        var k := FindIndex(cur, HasId(o.id));
        FindIndexFacts(cur, HasId(o.id));
        var next := Place(cur, k, At(o, p.x, p.y));
        assert next[j] == cur[j];
        PushFromUntouched(os[1..], next, pushed + {o.id}, cols, j);
      }
    }
  }

  /** `findIndex` by id looks only at the ids, so layouts with the same id at every index agree on it. */
  lemma {:induction false} FindIdSameIds(a: Layout, b: Layout, id: string)
    requires |a| == |b| && forall i :: 0 <= i < |a| ==> a[i].id == b[i].id
    ensures FindIndex(a, HasId(id)) == FindIndex(b, HasId(id))
  {
    FindIndexFacts(b, HasId(id));
    FindIndexIs(a, HasId(id), FindIndex(b, HasId(id)));
  }

  /** The push loop over `os` is the loop over its first `i` items, then the loop over the rest. */
  lemma {:induction false} PushFromSplit(os: seq<Item>, cur: Layout, pushed: set<string>, cols: int, i: int)
    requires 0 <= i <= |os|
    ensures PushFrom(os, cur, pushed, cols) ==
      PushFrom(os[i..], PushFrom(os[..i], cur, pushed, cols), pushed + Ids(os[..i]), cols)
    decreases |os|
  {
    if i == 0 {
      assert os[..0] == [] && os[0..] == os;
      assert Ids(os[..0]) == {} && PushFrom(os[..0], cur, pushed, cols) == cur;
      assert pushed + Ids(os[..0]) == pushed;
    } else {
      var o := os[0];
      assert os[..i][0] == o && os[..i][1..] == os[1..][..i - 1];
      assert os[1..][i - 1..] == os[i..];
      assert Ids(os[..i]) == {o.id} + Ids(os[1..][..i - 1]);
      if o.id in pushed {
        assert pushed + Ids(os[..i]) == pushed + Ids(os[1..][..i - 1]);
        assert PushFrom(os[..i], cur, pushed, cols) == PushFrom(os[1..][..i - 1], cur, pushed, cols);
        PushFromSplit(os[1..], cur, pushed, cols, i - 1);
      } else {
        var p := NearestEmpty(o.x, o.y, o.w, o.h, cur, o.id, cols);
        var k := FindIndex(cur, HasId(o.id));
        var next := Place(cur, k, At(o, p.x, p.y));
        assert pushed + Ids(os[..i]) == (pushed + {o.id}) + Ids(os[1..][..i - 1]);
        assert PushFrom(os[..i], cur, pushed, cols) == PushFrom(os[1..][..i - 1], next, pushed + {o.id}, cols);
        PushFromSplit(os[1..], next, pushed + {o.id}, cols, i - 1);
      }
    }
  }

  /**
   * The step of the push loop for `os[i]` when its id was not pushed before:
   * the entry `findIndex` gives for that id ends at the nearest empty position
   * around the item's own cell, searched in the layout as the first `i`
   * steps left it; no later step moves it again.
   */
  lemma {:induction false} PushFromPlaces(os: seq<Item>, cur: Layout, pushed: set<string>, cols: int, i: int)
    requires 0 <= i < |os| && os[i].id !in pushed + Ids(os[..i])
    ensures var r := PushFrom(os, cur, pushed, cols);
      var k := FindIndex(cur, HasId(os[i].id));
      var p := NearestEmpty(os[i].x, os[i].y, os[i].w, os[i].h, PushFrom(os[..i], cur, pushed, cols), os[i].id, cols);
      |r| == |cur| && (0 <= k ==> r[k] == At(os[i], p.x, p.y))
  {
    var o := os[i];
    var mid := PushFrom(os[..i], cur, pushed, cols);
    var done := pushed + Ids(os[..i]);
    PushFromSplit(os, cur, pushed, cols, i);
    PushFromKeepsIds(os[..i], cur, pushed, cols);
    PushFromKeepsIds(os, cur, pushed, cols);
    FindIdSameIds(mid, cur, o.id);
    var rest := os[i..];
    assert rest[0] == o && rest[1..] == os[i + 1..];
    var p := NearestEmpty(o.x, o.y, o.w, o.h, mid, o.id, cols);
    var k := FindIndex(mid, HasId(o.id));
    if 0 <= k {
      var next := Place(mid, k, At(o, p.x, p.y));
      assert next[k] == At(o, p.x, p.y);
      PushFromUntouched(os[i + 1..], next, done + {o.id}, cols, k);
    }
  }

  /**
   * The push branch: the mover lands on the target, each item in its way
   * whose id was not pushed before goes to the nearest empty position around
   * its own cell, searched in the layout as the earlier steps left it, and
   * every item that was not in the way keeps its position.
   */
  lemma {:induction false} PushedPushCase(id: string, x: int, y: int, base: Layout, cols: int, m: int)
    requires FirstWithId(base, id, m)
    requires var os := InTheWay(base, m, x, y); |os| > 0 && !SwapCase(os, base[m])
    ensures var r := PushedLayout(id, x, y, base, cols);
      var os := InTheWay(base, m, x, y);
      |r| == |base| && r[m] == At(base[m], x, y)
      && forall i :: 0 <= i < |base| && base[i].id != id && base[i].id !in Ids(os) ==> r[i] == base[i]
    ensures var r := PushedLayout(id, x, y, base, cols);
      var os := InTheWay(base, m, x, y);
      var start := base[m := At(base[m], x, y)];
      forall i :: 0 <= i < |os| && os[i].id !in {id} + Ids(os[..i]) ==>
        var k := FindIndex(base, HasId(os[i].id));
        var p := NearestEmpty(os[i].x, os[i].y, os[i].w, os[i].h, PushFrom(os[..i], start, {id}, cols), os[i].id, cols);
        0 <= k < |r| && r[k] == At(os[i], p.x, p.y)
  {
    FirstWithIdIsFound(base, id, m);
    var os := InTheWay(base, m, x, y);
    var start := base[m := At(base[m], x, y)];
    PushFromUntouched(os, start, {id}, cols, m);
    OverlappingMembers(Rect(x, y, base[m].w, base[m].h), base, id);
    FindIdSameIds(start, base, id);
    forall i | 0 <= i < |os| && os[i].id !in {id} + Ids(os[..i])
      ensures var k := FindIndex(base, HasId(os[i].id));
        var p := NearestEmpty(os[i].x, os[i].y, os[i].w, os[i].h, PushFrom(os[..i], start, {id}, cols), os[i].id, cols);
        0 <= k < |base| && PushFrom(os, start, {id}, cols)[k] == At(os[i], p.x, p.y)
    {
      assert os[i] in os;
      var j :| 0 <= j < |base| && base[j] == os[i];
      FindIndexFacts(base, HasId(os[i].id));
      FindIdSameIds(start, base, os[i].id);
      PushFromPlaces(os, start, {id}, cols, i);
    }
    forall i | 0 <= i < |base| && base[i].id != id && base[i].id !in Ids(os)
      ensures PushFrom(os, start, {id}, cols)[i] == base[i]
    {
      PushFromUntouched(os, start, {id}, cols, i);
    }
  }

  /** Only pairs of the mover and a not-yet-pushed item in its way may overlap. */
  predicate ClashesOnlyWith(cur: Layout, id: string, pending: set<string>) {
    forall i, j :: 0 <= i < |cur| && 0 <= j < |cur| && i != j && Overlaps(cur[i].Box(), cur[j].Box()) ==>
      (cur[i].id == id && cur[j].id in pending) || (cur[j].id == id && cur[i].id in pending)
  }

  /** One push step clears every clash of the pushed item. */
  lemma {:induction false} PushStepClashes(o: Item, cur: Layout, pushed: set<string>, rest: seq<Item>, cols: int, id: string)
    requires UniqueIds(cur) && o.id !in pushed
    requires ClashesOnlyWith(cur, id, ({o.id} + Ids(rest)) - pushed)
    ensures var p := NearestEmpty(o.x, o.y, o.w, o.h, cur, o.id, cols);
      var next := Place(cur, FindIndex(cur, HasId(o.id)), At(o, p.x, p.y));
      UniqueIds(next) && ClashesOnlyWith(next, id, Ids(rest) - (pushed + {o.id}))
  {
    var p := NearestEmpty(o.x, o.y, o.w, o.h, cur, o.id, cols);
    var k := FindIndex(cur, HasId(o.id));
    var next := Place(cur, k, At(o, p.x, p.y));
    FindIndexFacts(cur, HasId(o.id));
    NearestEmptyIsClear(o.x, o.y, o.w, o.h, cur, o.id, cols);
    assert |next| == |cur| && forall i :: 0 <= i < |next| ==> next[i].id == cur[i].id;
    forall i, j | 0 <= i < |next| && 0 <= j < |next| && i != j
      ensures Overlaps(next[i].Box(), next[j].Box()) ==>
        (next[i].id == id && next[j].id in Ids(rest) - (pushed + {o.id}))
        || (next[j].id == id && next[i].id in Ids(rest) - (pushed + {o.id}))
    {
      if 0 <= k && i == k {
        assert cur[j].id != o.id && next[j] == cur[j];
      } else if 0 <= k && j == k {
        assert cur[i].id != o.id && next[i] == cur[i];
        OverlapsSymmetric(next[i].Box(), next[j].Box());
      } else {
        assert next[i] == cur[i] && next[j] == cur[j];
        assert cur[i].id != o.id && cur[j].id != o.id;
      }
    }
  }

  lemma {:induction false} PushFromDisjoint(os: seq<Item>, cur: Layout, pushed: set<string>, cols: int, id: string)
    requires UniqueIds(cur) && ClashesOnlyWith(cur, id, Ids(os) - pushed)
    ensures Disjoint(PushFrom(os, cur, pushed, cols))
    decreases |os|
  {
    if os != [] {
      var o := os[0];
      if o.id in pushed {
        assert Ids(os) - pushed == Ids(os[1..]) - pushed;
        PushFromDisjoint(os[1..], cur, pushed, cols, id);
      } else {
        var p := NearestEmpty(o.x, o.y, o.w, o.h, cur, o.id, cols);
        PushStepClashes(o, cur, pushed, os[1..], cols, id);
        PushFromDisjoint(os[1..], Place(cur, FindIndex(cur, HasId(o.id)), At(o, p.x, p.y)), pushed + {o.id}, cols, id);
      }
    }
  }

  /**
   * The push branch resolves every collision: if the items other than the
   * mover did not overlap each other, no two items of the result overlap.
   */
  lemma {:induction false} PushedDisjoint(id: string, x: int, y: int, base: Layout, cols: int, m: int)
    requires UniqueIds(base) && 0 <= m < |base| && base[m].id == id && DisjointExcept(base, m)
    requires var os := InTheWay(base, m, x, y); |os| > 0 && !SwapCase(os, base[m])
    ensures Disjoint(PushedLayout(id, x, y, base, cols))
  {
    FirstWithIdIsFound(base, id, m);
    var os := InTheWay(base, m, x, y);
    var r := Rect(x, y, base[m].w, base[m].h);
    var start := base[m := At(base[m], x, y)];
    OverlappingMembers(r, base, id);
    forall i, j | 0 <= i < |start| && 0 <= j < |start| && i != j
      ensures Overlaps(start[i].Box(), start[j].Box()) ==>
        (start[i].id == id && start[j].id in Ids(os) - {id}) || (start[j].id == id && start[i].id in Ids(os) - {id})
    {
      if i == m && Overlaps(start[i].Box(), start[j].Box()) {
        assert start[i].Box() == r && start[j] == base[j] && base[j].id != id;
        IdsMember(os, base[j]);
      } else if j == m && Overlaps(start[i].Box(), start[j].Box()) {
        OverlapsSymmetric(start[i].Box(), start[j].Box());
        assert start[j].Box() == r && start[i] == base[i] && base[i].id != id;
        IdsMember(os, base[i]);
      }
    }
    PushFromDisjoint(os, start, {id}, cols, id);
  }

  // ---------------------------------------------------------------------
  // Resize and the container
  // ---------------------------------------------------------------------

  /** The resize preview and commit: only the sizes of the entries with the id change. */
  function Resized(layout: Layout, id: string, w: int, h: int): (r: Layout)
    ensures |r| == |layout|
    ensures forall i :: 0 <= i < |r| ==> r[i].id == layout[i].id && r[i].x == layout[i].x && r[i].y == layout[i].y
    ensures forall i :: 0 <= i < |r| && layout[i].id == id ==> r[i].w == w && r[i].h == h
    ensures forall i :: 0 <= i < |r| && layout[i].id != id ==> r[i] == layout[i]
  {
    Map(layout, (it: Item) => if it.id == id then Sized(it, w, h) else it)
  }

  /** `containerSize`: wide and tall enough for `cols` × `rows` cells with a gap around each. */
  function ContainerSize(cols: int, rows: int, cellSize: int, gap: int): (r: (int, int))
    ensures r.0 == Offset(cols, cellSize, gap) && r.1 == Offset(rows, cellSize, gap)
  {
    (cols * cellSize + (cols + 1) * gap, rows * cellSize + (rows + 1) * gap)
  }

  /** An item inside the columns ends one gap or more before the container's right edge. */
  lemma {:induction false} ItemInsideContainer(x: int, w: int, cols: int, rows: int, cellSize: int, gap: int)
    requires 0 <= x && x + w <= cols && cellSize + gap >= 0
    ensures Offset(x, cellSize, gap) + Extent(w, cellSize, gap) + gap <= ContainerSize(cols, rows, cellSize, gap).0
  {
    AdjacentItemsOneGapApart(x, w, cellSize, gap);
    MulMonotone(cellSize + gap, x + w, cols);
  }

  // ---------------------------------------------------------------------
  // The session: preview, snapshot and the ids being dragged or resized
  // ---------------------------------------------------------------------

  /** `!value` for a nullable id: null and '' both read as unset. */
  predicate Unset(v: Option<string>) {
    v.None? || v.value == ""
  }

  /**
   * The container's state: the store's `layout` and `cols`, the
   * `previewLayout` shown while a gesture is in progress, the
   * `originalLayout` snapshot, and the ids being dragged or resized.
   */
  class GridSession {
    var layout: Layout
    var cols: int
    var previewLayout: Option<Layout>
    var originalLayout: Option<Layout>
    var draggingItemId: Option<string>
    var resizingItemId: Option<string>

    constructor (layout: Layout, cols: int)
      ensures this.layout == layout && this.cols == cols
      ensures previewLayout == None && originalLayout == None && draggingItemId == None && resizingItemId == None
    {
      this.layout := layout;
      this.cols := cols;
      previewLayout := None;
      originalLayout := None;
      draggingItemId := None;
      resizingItemId := None;
    }

    /** `displayLayout`: the preview while there is one, else the store's layout. */
    function DisplayLayout(): Layout
      reads this
    {
      previewLayout.GetOr(layout)
    }

    /** `originalLayout || layout`: what every preview and commit starts from. */
    function Base(): Layout
      reads this
    {
      originalLayout.GetOr(layout)
    }

    /** `handleDragStart`: remember the layout and show it as the preview. */
    method DragStart(id: string)
      modifies this
      ensures draggingItemId == Some(id) && originalLayout == Some(old(layout)) && previewLayout == Some(old(layout))
      ensures layout == old(layout) && cols == old(cols) && resizingItemId == old(resizingItemId)
    {
      draggingItemId := Some(id);
      originalLayout := Some(layout);
      previewLayout := Some(layout);
    }

    /** `handleDragMove`: the preview is the pushed layout computed from the snapshot, never from the last preview. */
    method DragMove(id: string, newX: int, newY: int)
      modifies this
      ensures draggingItemId == if Unset(old(draggingItemId)) then Some(id) else old(draggingItemId)
      ensures previewLayout == Some(PushedLayout(id, newX, newY, old(Base()), old(cols)))
      ensures layout == old(layout) && cols == old(cols) && originalLayout == old(originalLayout)
      ensures resizingItemId == old(resizingItemId)
    {
      if Unset(draggingItemId) {
        draggingItemId := Some(id);
      }
      var baseLayout := Base();
      var newPreviewLayout := CalculatePushedLayout(id, newX, newY, baseLayout, cols);
      previewLayout := Some(newPreviewLayout);
    }

    /** `handleDragEnd`: commit the pushed layout computed from the snapshot and clear the session. */
    method DragEnd(id: string, newX: int, newY: int)
      modifies this
      ensures layout == PushedLayout(id, newX, newY, old(Base()), old(cols))
      ensures previewLayout == None && draggingItemId == None && originalLayout == None
      ensures cols == old(cols) && resizingItemId == old(resizingItemId)
    {
      var baseLayout := Base();
      var newLayout := CalculatePushedLayout(id, newX, newY, baseLayout, cols);
      layout := newLayout;
      previewLayout := None;
      draggingItemId := None;
      originalLayout := None;
    }

    /** `handleResizeStart`: remember the layout and show it as the preview. */
    method ResizeStart(id: string)
      modifies this
      ensures resizingItemId == Some(id) && originalLayout == Some(old(layout)) && previewLayout == Some(old(layout))
      ensures layout == old(layout) && cols == old(cols) && draggingItemId == old(draggingItemId)
    {
      resizingItemId := Some(id);
      originalLayout := Some(layout);
      previewLayout := Some(layout);
    }

    /** `handleResizeMove`: the preview is the snapshot with the item's size rewritten; nothing is pushed. */
    method ResizeMove(id: string, newW: int, newH: int)
      modifies this
      ensures resizingItemId == if Unset(old(resizingItemId)) then Some(id) else old(resizingItemId)
      ensures previewLayout == Some(Resized(old(Base()), id, newW, newH))
      ensures layout == old(layout) && cols == old(cols) && originalLayout == old(originalLayout)
      ensures draggingItemId == old(draggingItemId)
    {
      if Unset(resizingItemId) {
        resizingItemId := Some(id);
      }
      var baseLayout := Base();
      previewLayout := Some(Resized(baseLayout, id, newW, newH));
    }

    /** `handleResizeEnd`: commit the resized snapshot and clear the session. */
    method ResizeEnd(id: string, newW: int, newH: int)
      modifies this
      ensures layout == Resized(old(Base()), id, newW, newH)
      ensures previewLayout == None && resizingItemId == None && originalLayout == None
      ensures cols == old(cols) && draggingItemId == old(draggingItemId)
    {
      var baseLayout := Base();
      layout := Resized(baseLayout, id, newW, newH);
      previewLayout := None;
      resizingItemId := None;
      originalLayout := None;
    }
  }
}
