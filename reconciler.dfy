/** What each drag event does to the board: the active identifier cell and
    the hierarchy of items and sub-items, as one value. */
module Reconciler {
  import opened Wrappers
  import opened Identifiers
  import opened Arrays
  import opened Hierarchy

  /** The two state cells of the board. */
  datatype State = State(data: seq<Item>, activeId: Option<string>)

  /** Why a drop or a hover could not be carried out. */
  datatype Failure =
    | MissingItem      // an item index was -1, and indexing it would throw
    | MissingElement   // `splice` took nothing out of an empty list
    | StaleParent      // the element is not under the item its identifier names

  /** What an event did. */
  datatype Outcome = Ignored | Moved | Failed(failure: Failure)

  /** The state after an event, with what the event did. */
  datatype Step = Step(next: State, outcome: Outcome)

  /** Drag-start records the dragged identifier and nothing else. */
  function DragStart(st: State, id: string): (r: State)
    ensures r.data == st.data && r.activeId == Some(id)
  {
    State(st.data, Some(id))
  }

  /** Drag-cancel forgets the dragged identifier; the board stays as it is. */
  function DragCancel(st: State): (r: State)
    ensures r.data == st.data && r.activeId == None
  {
    State(st.data, None)
  }

  /** The top-level reorder of a drop of one item onto another: the item at
      `active`'s index is spliced out and spliced back in at `over`'s index,
      with JavaScript's reading of an index of -1. */
  function ReorderItems(data: seq<Item>, active: string, over: string): (r: Result<seq<Item>, Failure>)
    ensures r.Err? <==> data == []
    ensures r.Err? ==> r.error == MissingElement
    ensures r.Ok? ==> multiset(r.value) == multiset(data)
  {
    var out := SpliceOut(data, FindIndex(data, ItemNamed(active)));
    if out.1.None? then Err(MissingElement)
    else Ok(SpliceIn(out.0, FindIndex(data, ItemNamed(over)), out.1.value))
  }

  /** The top-level reorder keeps every item identifier and every sub-item
      identifier, each as many times as before. */
  lemma {:induction false} ReorderItemsKeepsIds(data: seq<Item>, active: string, over: string)
    ensures var r := ReorderItems(data, active, over);
      r.Ok? ==> multiset(ItemIds(r.value)) == multiset(ItemIds(data)) &&
                multiset(AllSubIds(r.value)) == multiset(AllSubIds(data))
  {
    var from := FindIndex(data, ItemNamed(active));
    var to := FindIndex(data, ItemNamed(over));
    var k := SpliceStart(from, |data|);
    if k < |data| {
      var rest := RemoveAt(data, k);
      assert SpliceOut(data, from) == (rest, Some(data[k]));
      RemoveItemIds(data, k);
      InsertItemIds(rest, SpliceStart(to, |rest|), data[k]);
    }
  }

  /** The sub-item reorder of a drop of one sub-item onto another, with the
      parent items found from the identifiers' third token. A sub-item that
      is not under the item its identifier names is refused. */
  function ReorderSubItems(data: seq<Item>, active: string, over: string): (r: Result<seq<Item>, Failure>)
    ensures r.Err? && r.error == MissingItem <==>
      ParentItemId(active) !in ItemIds(data) || ParentItemId(over) !in ItemIds(data)
    ensures r.Err? ==> r.error != MissingElement
    ensures r.Ok? ==> ItemIds(r.value) == ItemIds(data)
    ensures r.Ok? ==> multiset(AllSubIds(r.value)) == multiset(AllSubIds(data))
  {
    var p := FindIndex(data, ItemNamed(ParentItemId(active)));
    var q := FindIndex(data, ItemNamed(ParentItemId(over)));
    if p < 0 || q < 0 then Err(MissingItem)
    else
      var i := FindIndex(data[p].subItems, SubNamed(active));
      var j := FindIndex(data[q].subItems, SubNamed(over));
      if i < 0 || j < 0 then Err(StaleParent)
      else Ok(MoveSub(data, p, i, q, j))
  }

  /** The sub-item reorder as the drop handler writes it: the sub-item
      indices are used even when they are -1, so `splice(-1, 1)` takes the
      last sub-item of the named parent instead of the dragged one. */
  function ReorderSubItemsAsWritten(data: seq<Item>, active: string, over: string): (r: Result<seq<Item>, Failure>)
    ensures r.Err? && r.error == MissingItem <==>
      ParentItemId(active) !in ItemIds(data) || ParentItemId(over) !in ItemIds(data)
    ensures r.Err? ==> r.error != StaleParent
    ensures r.Ok? ==> ItemIds(r.value) == ItemIds(data)
  {
    var p := FindIndex(data, ItemNamed(ParentItemId(active)));
    var q := FindIndex(data, ItemNamed(ParentItemId(over)));
    if p < 0 || q < 0 then Err(MissingItem)
    else
      var i := FindIndex(data[p].subItems, SubNamed(active));
      var j := FindIndex(data[q].subItems, SubNamed(over));
      var out := SpliceOut(data[p].subItems, i);
      if out.1.None? then Err(MissingElement)
      else
        var d1 := data[p := data[p].(subItems := out.0)];
        var d2 := d1[q := d1[q].(subItems := SpliceIn(d1[q].subItems, j, out.1.value))];
        ItemIdsUpdate(data, p, d1[p]);
        ItemIdsUpdate(d1, q, d2[q]);
        Ok(d2)
  }

  /** The cross-item move of a hover: the items owning `active` and `over`
      are looked up, `active` is filtered out of its owner's sub-items and
      put at the front of the other's. An owner index of -1 throws. */
  function MoveToFront(data: seq<Item>, active: string, over: string): (r: Result<seq<Item>, Failure>)
    ensures r.Err? <==>
      (forall k :: 0 <= k < |data| ==> active !in IdsOf(data[k].subItems)) ||
      (forall k :: 0 <= k < |data| ==> over !in IdsOf(data[k].subItems))
    ensures r.Err? ==> r.error == MissingItem
    ensures r.Ok? ==> ItemIds(r.value) == ItemIds(data)
  {
    var src := FindIndex(data, ItemOwning(active));
    var dst := FindIndex(data, ItemOwning(over));
    if src < 0 || dst < 0 then Err(MissingItem)
    else
      FindOwnedSub(data[src].subItems, active);
      var moved := data[src].subItems[FindIndex(data[src].subItems, SubNamed(active))];
      var d1 := data[src := data[src].(subItems := FilterOut(data[src].subItems, active))];
      var d2 := d1[dst := d1[dst].(subItems := [moved] + d1[dst].subItems)];
      ItemIdsUpdate(data, src, d1[src]);
      ItemIdsUpdate(d1, dst, d2[dst]);
      Ok(d2)
  }

  /** Drag-end. Without a non-empty over identifier, or onto itself, nothing
      happens. Two top-level identifiers reorder the items and keep the
      active identifier; two sub-item identifiers reorder sub-items and clear
      it; any other pair of token counts is ignored. */
  function DragEnd(st: State, active: string, over: Option<string>): (r: Step)
    ensures over.None? || over == Some("") || over == Some(active) ==> r == Step(st, Ignored)
    ensures (over.Some? && !(TokenCount(active) == 2 == TokenCount(over.value)) &&
             !(TokenCount(active) == 4 == TokenCount(over.value))) ==> r == Step(st, Ignored)
    ensures r.outcome != Moved ==> r.next.data == st.data
    ensures r.outcome == Ignored ==> r.next == st
    ensures r.next.activeId == st.activeId || r.next.activeId == None
    ensures r.outcome == Moved ==>
      multiset(ItemIds(r.next.data)) == multiset(ItemIds(st.data)) &&
      multiset(AllSubIds(r.next.data)) == multiset(AllSubIds(st.data))
  {
    if over.None? || over.value == "" || active == over.value then Step(st, Ignored)
    else if TokenCount(active) == 2 && TokenCount(over.value) == 2 then
      ReorderItemsKeepsIds(st.data, active, over.value);
      match ReorderItems(st.data, active, over.value)
      case Ok(d) => Step(State(d, st.activeId), Moved)
      case Err(f) => Step(st, Failed(f))
    else if TokenCount(active) == 4 && TokenCount(over.value) == 4 then
      match ReorderSubItems(st.data, active, over.value)
      case Ok(d) => Step(State(d, None), Moved)
      case Err(f) => Step(State(st.data, None), Failed(f))
    else Step(st, Ignored)
  }

  /** Drag-over. Without an over target, onto itself, when either element has
      no container or both share one, nothing happens; otherwise the active
      sub-item moves to the front of the over element's item. */
  function DragOver(st: State, active: string, over: Option<string>): (r: Step)
    ensures r.outcome == Ignored <==>
      over.None? || over == Some(active) ||
      Container(st.data, active).None? || Container(st.data, over.value).None? ||
      Container(st.data, active).value.id == Container(st.data, over.value).value.id
    ensures r.outcome != Moved ==> r.next == st
    ensures r.next.activeId == st.activeId
    ensures r.outcome == Moved ==> ItemIds(r.next.data) == ItemIds(st.data)
  {
    if over.None? || active == over.value then Step(st, Ignored)
    else
      var from := Container(st.data, active);
      var to := Container(st.data, over.value);
      if from.None? || to.None? || from.value.id == to.value.id then Step(st, Ignored)
      else
        match MoveToFront(st.data, active, over.value)
        case Ok(d) => Step(State(d, st.activeId), Moved)
        case Err(f) => Step(st, Failed(f))
  }

  /** Sub-item `i` of item `p` still sits under the item its identifier names. */
  predicate UnderNamedParent(data: seq<Item>, p: nat, i: nat)
  {
    && p < |data| && i < |data[p].subItems|
    && TokenCount(data[p].subItems[i].id) == 4
    && ParentItemId(data[p].subItems[i].id) == data[p].id
  }

  /** The empty identifier splits into one token. */
  lemma {:induction false} EmptyIdHasOneToken()
    ensures TokenCount("") == 1
  {
    assert Split("", Sep) == [""];
  }

  /** On a well-formed board, two sub-items at different positions carry
      different identifiers, and each list is free of duplicates. */
  lemma {:induction false} DistinctPositions(data: seq<Item>, p: nat, i: nat, q: nat, j: nat)
    requires WellFormed(data)
    requires p < |data| && i < |data[p].subItems| && q < |data| && j < |data[q].subItems|
    requires p != q || i != j
    ensures data[p].subItems[i].id != data[q].subItems[j].id
    ensures NoDuplicates(IdsOf(data[p].subItems)) && NoDuplicates(IdsOf(data[q].subItems))
  {
    ExclusiveOwnership(data);
    var a, o := IdsOf(data[p].subItems)[i], IdsOf(data[q].subItems)[j];
    if p < q {
      assert a in IdsOf(data[p].subItems);
    } else if q < p {
      assert o in IdsOf(data[q].subItems);
    }
  }

  /** On a well-formed board, taking a sub-item out of its list leaves no
      sub-item with its identifier there. */
  lemma {:induction false} RemovedSubGone(data: seq<Item>, p: nat, i: nat)
    requires WellFormed(data) && p < |data| && i < |data[p].subItems|
    ensures data[p].subItems[i].id !in IdsOf(RemoveAt(data[p].subItems, i))
  {
    var s := data[p].subItems;
    var rest := RemoveAt(s, i);
    forall k | 0 <= k < |rest|
      ensures IdsOf(rest)[k] != s[i].id
    {
      var n := if k < i then k else k + 1;
      assert rest[k] == s[n];
      DistinctPositions(data, p, i, p, n);
    }
  }

  /** On a well-formed board the hover's filter-and-prepend is the reference
      move of sub-item `i` of item `p` to the front of item `q`. */
  lemma {:induction false} MoveToFrontIsMoveSub(data: seq<Item>, p: nat, i: nat, q: nat, j: nat)
    requires WellFormed(data) && p != q
    requires p < |data| && i < |data[p].subItems| && q < |data| && j < |data[q].subItems|
    ensures MoveToFront(data, data[p].subItems[i].id, data[q].subItems[j].id) == Ok(MoveSub(data, p, i, q, 0))
  {
    var subs := data[p].subItems;
    var a, o := subs[i].id, data[q].subItems[j].id;
    assert && FindIndex(data, ItemOwning(a)) == p && FindIndex(data, ItemOwning(o)) == q
           && FindIndex(subs, SubNamed(a)) == i && FilterOut(subs, a) == RemoveAt(subs, i) by {
      DistinctPositions(data, p, i, q, j);
      assert a in IdsOf(subs) && o in IdsOf(data[q].subItems);
      FindOwner(data, p, a);
      FindOwner(data, q, o);
      FindSub(subs, i);
      FilterOutOne(subs, i);
    }
    var d1 := data[p := data[p].(subItems := RemoveAt(subs, i))];
    InsertAtFront(d1[q].subItems, subs[i]);
  }

  /** On a well-formed board, hovering sub-item `i` of item `p` over a
      sub-item of a different item `q` commits the reference move to the
      front of `q`'s list and keeps the active identifier. */
  lemma {:induction false} DragOverIsMoveSub(st: State, p: nat, i: nat, q: nat, j: nat)
    requires WellFormed(st.data) && p != q
    requires p < |st.data| && i < |st.data[p].subItems| && q < |st.data| && j < |st.data[q].subItems|
    ensures var data := st.data;
      DragOver(st, data[p].subItems[i].id, Some(data[q].subItems[j].id)) ==
        Step(State(MoveSub(data, p, i, q, 0), st.activeId), Moved)
  {
    var data := st.data;
    var a, o := data[p].subItems[i].id, data[q].subItems[j].id;
    DistinctPositions(data, p, i, q, j);
    assert a in IdsOf(data[p].subItems) && o in IdsOf(data[q].subItems);
    ContainerOfSubItem(data, p, a);
    ContainerOfSubItem(data, q, o);
    assert ItemIds(data)[p] != ItemIds(data)[q];
    MoveToFrontIsMoveSub(data, p, i, q, j);
  }

  /** `moved` is well-formed `data` after sub-item `i` of item `p` went to
      the front of item `q`'s list: it left `p`'s list, is now the first of
      `q`'s, and every other item, the item order and the multiset of
      sub-item identifiers are as they were. */
  predicate MovedToFront(data: seq<Item>, moved: seq<Item>, p: nat, i: nat, q: nat)
    requires p < |data| && q < |data| && i < |data[p].subItems|
  {
    && SubMoved(data, moved, p, i, q, 0)
    && moved[q].subItems == [data[p].subItems[i]] + data[q].subItems
    && WellFormed(moved)
  }

  /** The reference move to the front of another item keeps a board well formed. */
  lemma {:induction false} MoveSubToFront(data: seq<Item>, p: nat, i: nat, q: nat)
    requires WellFormed(data) && p != q
    requires p < |data| && i < |data[p].subItems| && q < |data|
    ensures MovedToFront(data, MoveSub(data, p, i, q, 0), p, i, q)
  {
    var t := data[q].subItems;
    MoveSubMoves(data, p, i, q, 0);
    assert t[..0] == [] && t[0..] == t;
    WellFormedByMultisets(data, MoveSub(data, p, i, q, 0));
  }

  /** Hovering sub-item `i` of item `p` over a sub-item of a different item
      `q` takes it out of `p`'s list and makes it the first of `q`'s; every
      other item, the item order and the active identifier stay as they
      were, and the board stays well formed. */
  lemma {:induction false} DragOverMovesSubItem(st: State, p: nat, i: nat, q: nat, j: nat)
    requires WellFormed(st.data) && p != q
    requires p < |st.data| && i < |st.data[p].subItems| && q < |st.data| && j < |st.data[q].subItems|
    ensures var data := st.data;
      var r := DragOver(st, data[p].subItems[i].id, Some(data[q].subItems[j].id));
      && r.outcome == Moved && r.next.activeId == st.activeId
      && MovedToFront(data, r.next.data, p, i, q)
  {
    DragOverIsMoveSub(st, p, i, q, j);
    MoveSubToFront(st.data, p, i, q);
  }

  /** Hovering one sub-item over another of the same item does nothing. */
  lemma {:induction false} DragOverWithinItemIgnored(st: State, p: nat, i: nat, j: nat)
    requires WellFormed(st.data)
    requires p < |st.data| && i < |st.data[p].subItems| && j < |st.data[p].subItems|
    ensures DragOver(st, st.data[p].subItems[i].id, Some(st.data[p].subItems[j].id)) == Step(st, Ignored)
  {
    var subs := st.data[p].subItems;
    assert subs[i].id in IdsOf(subs) && subs[j].id in IdsOf(subs);
    ContainerOfSubItem(st.data, p, subs[i].id);
    ContainerOfSubItem(st.data, p, subs[j].id);
  }

  /** On a well-formed board an item identifier is nobody's sub-item. */
  lemma {:induction false} ItemIdOwnedByNone(data: seq<Item>, x: string)
    requires WellFormed(data) && x in ItemIds(data)
    ensures forall k :: 0 <= k < |data| ==> x !in IdsOf(data[k].subItems)
  {
    InAllSubIds(data, x);
    assert x !in AllSubIds(data);
  }

  /** A hover that would move between two different items but involves a
      top-level identifier fails: the owner index is -1 and the hover throws. */
  lemma {:induction false} DragOverTopLevelFails(st: State, active: string, over: string)
    requires WellFormed(st.data) && active != over
    requires Container(st.data, active).Some? && Container(st.data, over).Some?
    requires Container(st.data, active).value.id != Container(st.data, over).value.id
    requires active in ItemIds(st.data) || over in ItemIds(st.data)
    ensures DragOver(st, active, Some(over)) == Step(st, Failed(MissingItem))
  {
    assert MoveToFront(st.data, active, over).Err? by {
      if active in ItemIds(st.data) {
        ItemIdOwnedByNone(st.data, active);
      } else {
        ItemIdOwnedByNone(st.data, over);
      }
    }
  }

  /** Every hover keeps a well-formed board well formed. */
  lemma {:induction false} DragOverKeepsWellFormed(st: State, active: string, over: Option<string>)
    requires WellFormed(st.data)
    ensures WellFormed(DragOver(st, active, over).next.data)
  {
    var data := st.data;
    if DragOver(st, active, over).outcome == Moved {
      var p := FindIndex(data, ItemOwning(active));
      var q := FindIndex(data, ItemOwning(over.value));
      assert 0 <= p && 0 <= q;
      assert p != q by {
        FindOwnedSub(data[p].subItems, active);
        FindOwnedSub(data[q].subItems, over.value);
        ContainerOfSubItem(data, p, active);
        ContainerOfSubItem(data, q, over.value);
      }
      MoveToFrontKeepsWellFormed(data, active, over.value);
    }
  }

  /** Every hover on a well-formed board keeps the sub-item identifiers,
      each as many times as before: a hover never loses or copies one. */
  lemma {:induction false} DragOverKeepsSubIds(st: State, active: string, over: Option<string>)
    requires WellFormed(st.data)
    ensures multiset(AllSubIds(DragOver(st, active, over).next.data)) == multiset(AllSubIds(st.data))
  {
    var data := st.data;
    if DragOver(st, active, over).outcome == Moved {
      var p := FindIndex(data, ItemOwning(active));
      var q := FindIndex(data, ItemOwning(over.value));
      assert 0 <= p && 0 <= q;
      assert p != q by {
        FindOwnedSub(data[p].subItems, active);
        FindOwnedSub(data[q].subItems, over.value);
        ContainerOfSubItem(data, p, active);
        ContainerOfSubItem(data, q, over.value);
      }
      MoveToFrontKeepsWellFormed(data, active, over.value);
    }
  }

  /** A cross-item move of a hover keeps a well-formed board well formed
      and keeps its sub-item identifiers. */
  lemma {:induction false} MoveToFrontKeepsWellFormed(data: seq<Item>, active: string, over: string)
    requires WellFormed(data) && MoveToFront(data, active, over).Ok?
    requires FindIndex(data, ItemOwning(active)) != FindIndex(data, ItemOwning(over))
    ensures WellFormed(MoveToFront(data, active, over).value)
    ensures multiset(AllSubIds(MoveToFront(data, active, over).value)) == multiset(AllSubIds(data))
  {
    var p := FindIndex(data, ItemOwning(active));
    var q := FindIndex(data, ItemOwning(over));
    var i := FindIndex(data[p].subItems, SubNamed(active));
    var j := FindIndex(data[q].subItems, SubNamed(over));
    assert 0 <= i && 0 <= j by {
      FindOwnedSub(data[p].subItems, active);
      FindOwnedSub(data[q].subItems, over);
    }
    MoveToFrontIsMoveSub(data, p, i, q, j);
    MoveSubToFront(data, p, i, q);
  }

  /** On a well-formed board, dropping item `from` onto item `to` commits
      the reference array move of the items and keeps the active identifier. */
  lemma {:induction false} DragEndIsArrayMove(st: State, from: nat, to: nat)
    requires WellFormed(st.data) && from < |st.data| && to < |st.data| && from != to
    ensures var data := st.data;
      DragEnd(st, data[from].id, Some(data[to].id)) == Step(State(ArrayMove(data, from, to), st.activeId), Moved)
  {
    var data := st.data;
    assert ItemIds(data)[from] != ItemIds(data)[to];
    assert data[from].id in ItemIds(data) && data[to].id in ItemIds(data);
    EmptyIdHasOneToken();
    FindItem(data, from);
    FindItem(data, to);
    SpliceMoveIsArrayMove(data, from, to);
  }

  /** Dropping item `from` onto item `to` is the reference array move: the
      items are permuted, the dropped item lands at `to` and the others keep
      their relative order; the active identifier is kept. */
  lemma {:induction false} DragEndMovesItem(st: State, from: nat, to: nat)
    requires WellFormed(st.data) && from < |st.data| && to < |st.data| && from != to
    ensures var data := st.data;
      var r := DragEnd(st, data[from].id, Some(data[to].id));
      && r.outcome == Moved && r.next.activeId == st.activeId
      && r.next.data == ArrayMove(data, from, to)
      && multiset(r.next.data) == multiset(data)
      && r.next.data[to] == data[from]
      && RemoveAt(r.next.data, to) == RemoveAt(data, from)
  {
    DragEndIsArrayMove(st, from, to);
    ArrayMovePermutes(st.data, from, to);
    ArrayMoveKeepsOthersInOrder(st.data, from, to);
  }

  /** Dropping sub-item `i` of item `p` onto sub-item `j` of item `q`, both
      under the items their identifiers name, commits the reference move to
      index `j` and clears the active identifier. */
  lemma {:induction false} DragEndIsMoveSub(st: State, p: nat, i: nat, q: nat, j: nat)
    requires WellFormed(st.data) && UnderNamedParent(st.data, p, i) && UnderNamedParent(st.data, q, j)
    requires p != q || i != j
    ensures var data := st.data;
      DragEnd(st, data[p].subItems[i].id, Some(data[q].subItems[j].id)) ==
        Step(State(MoveSub(data, p, i, q, j), None), Moved)
  {
    var data := st.data;
    assert data[p].subItems[i].id != data[q].subItems[j].id by {
      DistinctPositions(data, p, i, q, j);
    }
    EmptyIdHasOneToken();
    ReorderSubItemsIsMoveSub(data, p, i, q, j);
  }

  /** With both sub-items under the items their identifiers name, the
      corrected sub-item reorder finds both parents and both sub-items and
      is the reference move. */
  lemma {:induction false} ReorderSubItemsIsMoveSub(data: seq<Item>, p: nat, i: nat, q: nat, j: nat)
    requires WellFormed(data) && UnderNamedParent(data, p, i) && UnderNamedParent(data, q, j)
    requires p != q || i != j
    ensures ReorderSubItems(data, data[p].subItems[i].id, data[q].subItems[j].id) == Ok(MoveSub(data, p, i, q, j))
  {
    DistinctPositions(data, p, i, q, j);
    FindItem(data, p);
    FindItem(data, q);
    FindSub(data[p].subItems, i);
    FindSub(data[q].subItems, j);
  }

  /** Dropping sub-item `i` of item `p` onto sub-item `j` of item `q`, both
      under the items their identifiers name, is the reference move: within
      one item the list is array-moved, across items the sub-item leaves
      `p`'s list and lands at `j` in `q`'s. The item order and the set of
      sub-item identifiers are kept and the active identifier is cleared. */
  lemma {:induction false} DragEndMovesSubItem(st: State, p: nat, i: nat, q: nat, j: nat)
    requires WellFormed(st.data) && UnderNamedParent(st.data, p, i) && UnderNamedParent(st.data, q, j)
    requires p != q || i != j
    ensures var data := st.data;
      var r := DragEnd(st, data[p].subItems[i].id, Some(data[q].subItems[j].id));
      && r.outcome == Moved && r.next.activeId == None
      && SubMoved(data, r.next.data, p, i, q, j)
      && WellFormed(r.next.data)
  {
    var data := st.data;
    DragEndIsMoveSub(st, p, i, q, j);
    MoveSubMoves(data, p, i, q, j);
    WellFormedByMultisets(data, MoveSub(data, p, i, q, j));
  }

  /** Every drop keeps a well-formed board well formed. */
  lemma {:induction false} DragEndKeepsWellFormed(st: State, active: string, over: Option<string>)
    requires WellFormed(st.data)
    ensures WellFormed(DragEnd(st, active, over).next.data)
  {
    var r := DragEnd(st, active, over);
    if r.outcome == Moved {
      WellFormedByMultisets(st.data, r.next.data);
    }
  }

  /** A drop of a sub-item that is no longer under the item its identifier
      names, or onto one that is not, is refused: the board is unchanged
      and the active identifier is cleared. */
  lemma {:induction false} StaleDropRefused(st: State, active: string, over: string, p: nat, q: nat)
    requires NoDuplicates(ItemIds(st.data)) && active != over
    requires TokenCount(active) == 4 && TokenCount(over) == 4
    requires p < |st.data| && st.data[p].id == ParentItemId(active)
    requires q < |st.data| && st.data[q].id == ParentItemId(over)
    requires active !in IdsOf(st.data[p].subItems) || over !in IdsOf(st.data[q].subItems)
    ensures DragEnd(st, active, Some(over)) == Step(State(st.data, None), Failed(StaleParent))
  {
    EmptyIdHasOneToken();
    FindItem(st.data, p);
    FindItem(st.data, q);
    FindOwnedSub(st.data[p].subItems, active);
    FindOwnedSub(st.data[q].subItems, over);
    assert ReorderSubItems(st.data, active, over) == Err(StaleParent);
  }

  /** While both sub-items are under the items their identifiers name, the
      drop as written and the corrected drop agree. */
  lemma {:induction false} AsWrittenAgreesWhenParentsCurrent(data: seq<Item>, active: string, over: string)
    requires ReorderSubItems(data, active, over).Ok?
    ensures ReorderSubItemsAsWritten(data, active, over) == ReorderSubItems(data, active, over)
  {
    var p := FindIndex(data, ItemNamed(ParentItemId(active)));
    var q := FindIndex(data, ItemNamed(ParentItemId(over)));
    var i := FindIndex(data[p].subItems, SubNamed(active));
    var j := FindIndex(data[q].subItems, SubNamed(over));
    var d1 := data[p := data[p].(subItems := RemoveAt(data[p].subItems, i))];
    assert j <= |d1[q].subItems|;
  }

  /** The drop as written, when the dragged sub-item has left the item its
      identifier names for another item, takes the last sub-item of the
      named item instead, a sub-item nobody dragged, and moves that. */
  lemma {:induction false} StaleDropMovesBystander(data: seq<Item>, active: string, over: string, p: nat, q: nat, j: nat)
    requires NoDuplicates(ItemIds(data)) && p != q
    requires p < |data| && data[p].id == ParentItemId(active) && active !in IdsOf(data[p].subItems)
    requires q < |data| && data[q].id == ParentItemId(over)
    requires j < |data[q].subItems| && data[q].subItems[j].id == over && NoDuplicates(IdsOf(data[q].subItems))
    requires data[p].subItems != []
    ensures var s := data[p].subItems;
      var r := ReorderSubItemsAsWritten(data, active, over);
      && r.Ok? && |r.value| == |data| && s[|s| - 1].id != active
      && r.value[p].subItems == s[..|s| - 1]
      && r.value[q].subItems == InsertAt(data[q].subItems, j, s[|s| - 1])
  {
    var s := data[p].subItems;
    var last := s[|s| - 1];
    FindItem(data, p);
    FindItem(data, q);
    assert IdsOf(s)[|s| - 1] == last.id;
    var i := FindIndex(s, SubNamed(active));
    forall k | 0 <= k < |s| ensures !SubNamed(active)(s[k]) {
      assert IdsOf(s)[k] == s[k].id;
    }
    assert i == -1;
    assert SpliceStart(i, |s|) == |s| - 1;
    assert RemoveAt(s, |s| - 1) == s[..|s| - 1] by {
      assert s[|s|..] == [];
    }
    assert SpliceOut(s, i) == (s[..|s| - 1], Some(last));
    FindSub(data[q].subItems, j);
    var d1 := data[p := data[p].(subItems := s[..|s| - 1])];
    assert d1[q].subItems == data[q].subItems;
  }

  /** The outcome `r` of the drop as written after sub-item `i` of item `p`
      of `data` was hovered to the front of item `q`: the named item loses
      its last remaining sub-item, which differs from the dragged one, and
      that sub-item lands after the one dropped onto, which now sits at
      index `j + 1` of `q`'s list. */
  predicate BystanderMoved(data: seq<Item>, r: Result<seq<Item>, Failure>, p: nat, i: nat, q: nat, j: nat)
    requires p < |data| && q < |data| && i < |data[p].subItems| && j < |data[q].subItems|
    requires |data[p].subItems| >= 2
  {
    var s, t := data[p].subItems, data[q].subItems;
    var rest := RemoveAt(s, i);
    && r.Ok? && |r.value| == |data| && rest[|rest| - 1].id != s[i].id
    && r.value[p].subItems == rest[..|rest| - 1]
    && r.value[q].subItems == InsertAt([s[i]] + t, j + 1, rest[|rest| - 1])
  }

  /** A hover that moves sub-item `i` of item `p` into item `q`, followed by
      the drop of the same two identifiers, is refused by the corrected drop:
      the dragged sub-item is no longer under the item its identifier names. */
  lemma {:induction false} HoverThenDropRefused(st: State, p: nat, i: nat, q: nat, j: nat)
    requires WellFormed(st.data) && p != q
    requires UnderNamedParent(st.data, p, i) && UnderNamedParent(st.data, q, j)
    ensures var a, o := st.data[p].subItems[i].id, st.data[q].subItems[j].id;
      var s1 := DragOver(st, a, Some(o)).next;
      DragEnd(s1, a, Some(o)) == Step(State(s1.data, None), Failed(StaleParent))
  {
    var data := st.data;
    var a, o := data[p].subItems[i].id, data[q].subItems[j].id;
    var s1 := DragOver(st, a, Some(o)).next;
    assert && WellFormed(s1.data) && |s1.data| == |data|
           && s1.data[p] == data[p].(subItems := RemoveAt(data[p].subItems, i))
           && s1.data[q].id == data[q].id by {
      DragOverMovesSubItem(st, p, i, q, j);
    }
    RemovedSubGone(data, p, i);
    DistinctPositions(data, p, i, q, j);
    StaleDropRefused(s1, a, o, p, q);
  }

  /** The same hover and drop, as written: the drop misses the dragged
      sub-item under the item its identifier names, splices out that item's
      last remaining sub-item instead, and inserts it into `q`'s list next
      to the sub-item dropped onto. */
  lemma {:induction false} HoverThenDropMovesBystander(st: State, p: nat, i: nat, q: nat, j: nat)
    requires WellFormed(st.data) && p != q
    requires UnderNamedParent(st.data, p, i) && UnderNamedParent(st.data, q, j)
    requires |st.data[p].subItems| >= 2
    ensures var a, o := st.data[p].subItems[i].id, st.data[q].subItems[j].id;
      var s1 := DragOver(st, a, Some(o)).next;
      BystanderMoved(st.data, ReorderSubItemsAsWritten(s1.data, a, o), p, i, q, j)
  {
    var data := st.data;
    var s, t := data[p].subItems, data[q].subItems;
    var s1 := DragOver(st, s[i].id, Some(t[j].id)).next;
    assert && |s1.data| == |data|
           && s1.data[p] == data[p].(subItems := RemoveAt(s, i))
           && s1.data[q] == data[q].(subItems := [s[i]] + t) by {
      DragOverMovesSubItem(st, p, i, q, j);
    }
    assert NoDuplicates(ItemIds(s1.data)) && NoDuplicates(IdsOf(s1.data[q].subItems)) by {
      DragOverMovesSubItem(st, p, i, q, j);
      DistinctPositions(s1.data, p, 0, q, 0);
    }
    assert s[i].id !in IdsOf(s1.data[p].subItems) by {
      RemovedSubGone(data, p, i);
    }
    DropAfterHoverAsWritten(data, s1.data, p, i, q, j);
  }

  /** The drop as written on the board `moved` that a hover of sub-item `i`
      of item `p` into item `q` of `data` left behind. */
  lemma {:induction false} DropAfterHoverAsWritten(data: seq<Item>, moved: seq<Item>, p: nat, i: nat, q: nat, j: nat)
    requires p != q && p < |data| && q < |data| && i < |data[p].subItems| && j < |data[q].subItems|
    requires |data[p].subItems| >= 2
    requires ParentItemId(data[p].subItems[i].id) == data[p].id
    requires ParentItemId(data[q].subItems[j].id) == data[q].id
    requires NoDuplicates(ItemIds(moved)) && |moved| == |data|
    requires moved[p] == data[p].(subItems := RemoveAt(data[p].subItems, i))
    requires moved[q] == data[q].(subItems := [data[p].subItems[i]] + data[q].subItems)
    requires data[p].subItems[i].id !in IdsOf(moved[p].subItems)
    requires NoDuplicates(IdsOf(moved[q].subItems))
    ensures BystanderMoved(data, ReorderSubItemsAsWritten(moved, data[p].subItems[i].id, data[q].subItems[j].id), p, i, q, j)
  {
    var s, t := data[p].subItems, data[q].subItems;
    assert moved[p].subItems == RemoveAt(s, i) && moved[q].subItems == [s[i]] + t;
    assert moved[q].subItems[j + 1] == t[j];
    StaleDropMovesBystander(moved, s[i].id, t[j].id, p, q, j + 1);
  }
}
