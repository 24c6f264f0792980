/** The board component: its two state cells and the handlers the drag
    context calls, each changing the cells the way the handler does. */
module App {
  import opened Wrappers
  import opened Identifiers
  import opened Arrays
  import opened Hierarchy
  import opened Reconciler

  class Board {
    /** The items in display order, each with its sub-items. */
    var data: seq<Item>
    /** The identifier being dragged, for the overlay. */
    var activeId: Option<string>

    /** The board's invariant: unique, well-shaped identifiers. */
    ghost predicate Valid()
      reads this
    {
      WellFormed(data)
    }

    /** The two cells as one value. */
    function Snapshot(): State
      reads this
    {
      State(data, activeId)
    }

    /** The board as first rendered: five items of three sub-items, nothing dragged. */
    constructor ()
      ensures data == Initial() && activeId == None
      ensures Valid()
    {
      data := Initial();
      activeId := None;
      InitialWellFormed();
    }

    /** Drag-start: remember what is dragged. */
    method OnDragStart(id: string)
      modifies this
      ensures Snapshot() == DragStart(old(Snapshot()), id)
      ensures data == old(data)
    {
      activeId := Some(id);
    }

    /** Drag-cancel: forget what is dragged; a hover move already made stays. */
    method OnDragCancel()
      modifies this
      ensures Snapshot() == DragCancel(old(Snapshot()))
      ensures data == old(data)
    {
      activeId := None;
    }

    /** Drop: dispatch on the token counts of the two identifiers. */
    method HandleDragEnd(active: string, over: Option<string>) returns (outcome: Outcome)
      requires Valid()
      modifies this
      ensures Step(Snapshot(), outcome) == DragEnd(old(Snapshot()), active, over)
      ensures Valid()
    {
      ghost var before := Snapshot();
      if over.None? || over.value == "" {
        outcome := Ignored;
      } else if active == over.value {
        outcome := Ignored;
      } else {
        var source := Split(active, Sep);
        var destination := Split(over.value, Sep);
        assert |source| == TokenCount(active) && |destination| == TokenCount(over.value);
        if |source| == 2 && |destination| == 2 {
          var next;
          next, outcome := DropItem(data, active, over.value);
          data := next;
        } else if |source| == 4 && |destination| == 4 {
          outcome := DropSubItem(active, over.value);
          activeId := None;
        } else {
          outcome := Ignored;
        }
      }
      DragEndKeepsWellFormed(before, active, over);
    }

    /** The drop of one item onto another: splice the dropped item out of a
        copy of the closure's list and back in at the index of the item
        dropped onto; the handler passes the copy to `setData`. */
    static method DropItem(items: seq<Item>, active: string, over: string) returns (next: seq<Item>, outcome: Outcome)
      ensures match ReorderItems(items, active, over)
        case Ok(d) => next == d && outcome == Moved
        case Err(f) => next == items && outcome == Failed(f)
    {
      var sourceIndex := FindIndex(items, ItemNamed(active));
      var destinationIndex := FindIndex(items, ItemNamed(over));
      var out := SpliceOut(items, sourceIndex);
      if out.1.None? {
        next, outcome := items, Failed(MissingElement);
      } else {
        next, outcome := SpliceIn(out.0, destinationIndex, out.1.value), Moved;
      }
    }

    /** The drop of one sub-item onto another: find both parents from the
        identifiers, then splice the sub-item out of its parent's list and
        into the other's at the index of the sub-item dropped onto. */
    method DropSubItem(active: string, over: string) returns (outcome: Outcome)
      requires TokenCount(active) == 4 && TokenCount(over) == 4
      modifies this
      ensures activeId == old(activeId)
      ensures match ReorderSubItems(old(data), active, over)
        case Ok(d) => data == d && outcome == Moved
        case Err(f) => data == old(data) && outcome == Failed(f)
    {
      var source := Split(active, Sep);
      var destination := Split(over, Sep);
      var sourceItemIndex := FindIndex(data, ItemNamed("item-" + source[2]));
      var destinationItemIndex := FindIndex(data, ItemNamed("item-" + destination[2]));
      if sourceItemIndex < 0 || destinationItemIndex < 0 {
        outcome := Failed(MissingItem);
      } else {
        var sourceSubs := data[sourceItemIndex].subItems;
        var sourceSubItemIndex := FindIndex(sourceSubs, SubNamed(active));
        var destinationSubItemIndex := FindIndex(data[destinationItemIndex].subItems, SubNamed(over));
        if sourceSubItemIndex < 0 || destinationSubItemIndex < 0 {
          outcome := Failed(StaleParent);
        } else {
          var moved := sourceSubs[sourceSubItemIndex];
          var updated := data;
          updated := updated[sourceItemIndex := updated[sourceItemIndex].(subItems := RemoveAt(sourceSubs, sourceSubItemIndex))];
          var destinationSubs := updated[destinationItemIndex].subItems;
          updated := updated[destinationItemIndex := updated[destinationItemIndex].(subItems := InsertAt(destinationSubs, destinationSubItemIndex, moved))];
          data := updated;
          outcome := Moved;
        }
      }
    }

    /** Hover: move a sub-item to the front of the item hovered over when
        the two elements belong to different items. */
    method HandleDragOver(active: string, over: Option<string>) returns (outcome: Outcome)
      requires Valid()
      modifies this
      ensures Step(Snapshot(), outcome) == DragOver(old(Snapshot()), active, over)
      ensures Valid()
    {
      ghost var before := Snapshot();
      if over.None? {
        outcome := Ignored;
      } else if active == over.value {
        outcome := Ignored;
      } else {
        var activeContainer := Container(data, active);
        var overContainer := Container(data, over.value);
        if activeContainer.None? || overContainer.None? {
          outcome := Ignored;
        } else if activeContainer.value.id == overContainer.value.id {
          outcome := Ignored;
        } else {
          outcome := MoveAcross(active, over.value);
        }
      }
      DragOverKeepsWellFormed(before, active, over);
    }

    /** The cross-item move of a hover: filter the sub-item out of the item
        owning it and put it at the front of the item owning `over`. */
    method MoveAcross(active: string, over: string) returns (outcome: Outcome)
      modifies this
      ensures activeId == old(activeId)
      ensures match MoveToFront(old(data), active, over)
        case Ok(d) => data == d && outcome == Moved
        case Err(f) => data == old(data) && outcome == Failed(f)
    {
      var updated := data;
      var sourceItemIndex := FindIndex(updated, ItemOwning(active));
      var destinationItemIndex := FindIndex(updated, ItemOwning(over));
      if sourceItemIndex < 0 {
        return Failed(MissingItem);
      }
      var sourceSubs := updated[sourceItemIndex].subItems;
      FindOwnedSub(sourceSubs, active);
      var sourceItem := sourceSubs[FindIndex(sourceSubs, SubNamed(active))];
      updated := updated[sourceItemIndex := updated[sourceItemIndex].(subItems := FilterOut(sourceSubs, active))];
      if destinationItemIndex < 0 {
        // the front insertion would index item -1 and throw; nothing is committed
        return Failed(MissingItem);
      }
      var destinationSubs := updated[destinationItemIndex].subItems;
      updated := updated[destinationItemIndex := updated[destinationItemIndex].(subItems := [sourceItem] + destinationSubs)];
      data := updated;
      outcome := Moved;
    }
  }
}
