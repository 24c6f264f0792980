/** Concrete drag sequences on the board as constructed. */
module Scenarios {
  import opened Wrappers
  import opened Identifiers
  import opened Arrays
  import opened Hierarchy
  import opened Reconciler

  /** The board as constructed, with nothing dragged. */
  function Start(): State
  {
    State(Initial(), None)
  }

  /** A board laid out as constructed: `item-<i>` at index `i` owning
      `sub-item-<i>-<j>` at index `j`, five items of three. */
  ghost predicate AsConstructed(data: seq<Item>)
  {
    && |data| == 5
    && (forall i :: 0 <= i < 5 ==> data[i].id == ItemId(i) && |data[i].subItems| == 3)
    && (forall i, j :: 0 <= i < 5 && 0 <= j < 3 ==> data[i].subItems[j].id == SubItemId(i, j))
  }

  /** The constructed board is laid out as constructed and well formed. */
  lemma {:induction false} StartAsConstructed()
    ensures AsConstructed(Start().data) && WellFormed(Start().data)
  {
    InitialWellFormed();
  }

  /** The item identifiers the scenarios use, spelled out. */
  lemma {:induction false} ItemSpelling()
    ensures ItemId(0) == "item-0" && ItemId(1) == "item-1" && ItemId(2) == "item-2"
    ensures ItemId(3) == "item-3" && ItemId(4) == "item-4"
  {
  }

  /** The sub-item identifiers of the first two items, spelled out. */
  lemma {:induction false} SubItemSpellingLow()
    ensures SubItemId(0, 0) == "sub-item-0-0" && SubItemId(0, 1) == "sub-item-0-1" && SubItemId(0, 2) == "sub-item-0-2"
    ensures SubItemId(1, 0) == "sub-item-1-0" && SubItemId(1, 1) == "sub-item-1-1" && SubItemId(1, 2) == "sub-item-1-2"
  {
    assert NatToString(0) == "0" && NatToString(1) == "1" && NatToString(2) == "2";
  }

  /** The sub-item identifiers of the third and fourth items, spelled out. */
  lemma {:induction false} SubItemSpellingHigh()
    ensures SubItemId(2, 0) == "sub-item-2-0" && SubItemId(2, 1) == "sub-item-2-1" && SubItemId(2, 2) == "sub-item-2-2"
    ensures SubItemId(3, 0) == "sub-item-3-0" && SubItemId(3, 1) == "sub-item-3-1" && SubItemId(3, 2) == "sub-item-3-2"
  {
    assert NatToString(0) == "0" && NatToString(1) == "1" && NatToString(2) == "2" && NatToString(3) == "3";
  }

  /** Dropping `item-0` onto `item-2` orders the items 1, 2, 0, 3, 4. */
  lemma {:induction false} ScenarioItemDrop(st: State)
    requires AsConstructed(st.data) && WellFormed(st.data)
    ensures var r := DragEnd(st, ItemId(0), Some(ItemId(2)));
      && r.outcome == Moved
      && ItemIds(r.next.data) == [ItemId(1), ItemId(2), ItemId(0), ItemId(3), ItemId(4)]
  {
    DragEndMovesItem(st, 0, 2);
    ItemOrderAfterMove(st.data);
  }

  /** Moving item 0 to index 2 of a board laid out as constructed. */
  lemma {:induction false} ItemOrderAfterMove(data: seq<Item>)
    requires AsConstructed(data)
    ensures ItemIds(ArrayMove(data, 0, 2)) == [ItemId(1), ItemId(2), ItemId(0), ItemId(3), ItemId(4)]
  {
    var m := ArrayMove(data, 0, 2);
    assert m[0] == data[1] && m[1] == data[2] && m[2] == data[0] && m[3] == data[3] && m[4] == data[4];
  }

  /** Hovering `sub-item-0-1` over `sub-item-3-0` moves it to the front of
      item 3, leaving two sub-items in item 0 and four in item 3. */
  lemma {:induction false} ScenarioHoverMove(st: State)
    requires AsConstructed(st.data) && WellFormed(st.data)
    ensures var r := DragOver(st, SubItemId(0, 1), Some(SubItemId(3, 0)));
      && r.outcome == Moved && |r.next.data| == 5
      && IdsOf(r.next.data[0].subItems) == [SubItemId(0, 0), SubItemId(0, 2)]
      && IdsOf(r.next.data[3].subItems) == [SubItemId(0, 1), SubItemId(3, 0), SubItemId(3, 1), SubItemId(3, 2)]
  {
    DragOverMovesSubItem(st, 0, 1, 3, 0);
    RemoveFromThree(st.data[0].subItems);
    FrontOfThree(st.data[0].subItems[1], st.data[3].subItems);
  }

  /** Dropping `sub-item-1-0` onto `sub-item-1-2` within item 1 puts it
      where `sub-item-1-2` was; the list keeps its three entries. */
  lemma {:induction false} ScenarioSubItemDrop(st: State)
    requires AsConstructed(st.data) && WellFormed(st.data)
    ensures var r := DragEnd(st, SubItemId(1, 0), Some(SubItemId(1, 2)));
      && r.outcome == Moved && r.next.activeId == None && |r.next.data| == 5
      && IdsOf(r.next.data[1].subItems) == [SubItemId(1, 1), SubItemId(1, 2), SubItemId(1, 0)]
  {
    SubItemIdParent(1, 0);
    SubItemIdParent(1, 2);
    DragEndMovesSubItem(st, 1, 0, 1, 2);
    FirstToLastOfThree(st.data[1].subItems);
  }

  /** Dropping an item onto a sub-item changes nothing. */
  lemma {:induction false} ScenarioMixedDrop(st: State)
    ensures DragEnd(st, ItemId(1), Some(SubItemId(2, 0))) == Step(st, Ignored)
  {
    ItemIdTokens(1);
    SubItemIdTokens(2, 0);
  }

  /** Starting a drag of `sub-item-0-0`, hovering it over `sub-item-2-0` and
      cancelling leaves it at the front of item 2: the cancel does not undo
      the move made while hovering. */
  lemma {:induction false} ScenarioCancelKeepsMove(st: State)
    requires AsConstructed(st.data) && WellFormed(st.data)
    ensures var s1 := DragStart(st, SubItemId(0, 0));
      var s2 := DragOver(s1, SubItemId(0, 0), Some(SubItemId(2, 0))).next;
      var s3 := DragCancel(s2);
      && s1.activeId == Some(SubItemId(0, 0))
      && s3.activeId == None && |s3.data| == 5
      && IdsOf(s3.data[0].subItems) == [SubItemId(0, 1), SubItemId(0, 2)]
      && IdsOf(s3.data[2].subItems) == [SubItemId(0, 0), SubItemId(2, 0), SubItemId(2, 1), SubItemId(2, 2)]
  {
    DragOverMovesSubItem(DragStart(st, SubItemId(0, 0)), 0, 0, 2, 0);
    RemoveFromThree(st.data[0].subItems);
    FrontOfThree(st.data[0].subItems[0], st.data[2].subItems);
  }

  /** After `sub-item-0-1` has moved to item 3 while hovering, the drop as
      written reads item 0 from its identifier, misses it there and splices
      out item 0's last sub-item, `sub-item-0-2`, which nobody dragged, into
      item 3 next to `sub-item-3-0`. */
  lemma {:induction false} StaleDropAsWritten(st: State)
    requires AsConstructed(st.data) && WellFormed(st.data)
    ensures var s1 := DragOver(st, SubItemId(0, 1), Some(SubItemId(3, 0))).next;
      var r := ReorderSubItemsAsWritten(s1.data, SubItemId(0, 1), SubItemId(3, 0));
      && r.Ok? && |r.value| == 5
      && IdsOf(r.value[0].subItems) == [SubItemId(0, 0)]
      && IdsOf(r.value[3].subItems) == [SubItemId(0, 1), SubItemId(0, 2), SubItemId(3, 0), SubItemId(3, 1), SubItemId(3, 2)]
  {
    var s0, s3 := st.data[0].subItems, st.data[3].subItems;
    SubItemIdParent(0, 1);
    SubItemIdParent(3, 0);
    HoverThenDropMovesBystander(st, 0, 1, 3, 0);
    FirstOfThree(s0);
    assert RemoveAt(s0, 1)[1] == s0[2];
    SecondOfFour([s0[1]] + s3, s0[2]);
  }

  /** The same drop, corrected, is refused and leaves the board as it is. */
  lemma {:induction false} StaleDropRefusedOnBoard(st: State)
    requires AsConstructed(st.data) && WellFormed(st.data)
    ensures var s1 := DragOver(st, SubItemId(0, 1), Some(SubItemId(3, 0))).next;
      DragEnd(s1, SubItemId(0, 1), Some(SubItemId(3, 0))) == Step(State(s1.data, None), Failed(StaleParent))
  {
    SubItemIdParent(0, 1);
    SubItemIdParent(3, 0);
    HoverThenDropRefused(st, 0, 1, 3, 0);
  }

  /** Taking one of three sub-items out of a list. */
  lemma {:induction false} RemoveFromThree(s: seq<SubItem>)
    requires |s| == 3
    ensures IdsOf(RemoveAt(s, 0)) == [s[1].id, s[2].id]
    ensures IdsOf(RemoveAt(s, 1)) == [s[0].id, s[2].id]
  {
    var r0, r1 := RemoveAt(s, 0), RemoveAt(s, 1);
    assert r0[0] == s[1] && r0[1] == s[2];
    assert r1[0] == s[0] && r1[1] == s[2];
  }

  /** Putting a sub-item in front of a list of three. */
  lemma {:induction false} FrontOfThree(x: SubItem, t: seq<SubItem>)
    requires |t| == 3
    ensures IdsOf([x] + t) == [x.id, t[0].id, t[1].id, t[2].id]
  {
    assert [x] + t == [x, t[0], t[1], t[2]];
  }

  /** Moving the first of three sub-items to the last index. */
  lemma {:induction false} FirstToLastOfThree(s: seq<SubItem>)
    requires |s| == 3
    ensures IdsOf(ArrayMove(s, 0, 2)) == [s[1].id, s[2].id, s[0].id]
  {
    var m := ArrayMove(s, 0, 2);
    assert m[0] == s[1] && m[1] == s[2] && m[2] == s[0];
  }

  /** What is left of a list of three after taking out the second, then the last. */
  lemma {:induction false} FirstOfThree(s: seq<SubItem>)
    requires |s| == 3
    ensures IdsOf(RemoveAt(s, 1)[..1]) == [s[0].id]
  {
    assert RemoveAt(s, 1)[..1] == [s[0]];
  }

  /** A sub-item put second into a list of four. */
  lemma {:induction false} SecondOfFour(t: seq<SubItem>, x: SubItem)
    requires |t| == 4
    ensures IdsOf(InsertAt(t, 1, x)) == [t[0].id, x.id, t[1].id, t[2].id, t[3].id]
  {
    var m := InsertAt(t, 1, x);
    assert m == [t[0]] + [x] + t[1..];
    assert m[0] == t[0] && m[1] == x && m[2] == t[1] && m[3] == t[2] && m[4] == t[3];
  }
}
