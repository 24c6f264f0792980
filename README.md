# Drag-and-drop reconciliation of a two-level sortable board

The `App` component of this project renders a board of five items. Each
item owns three sub-items. Items are named `item-<i>` and sub-items
`sub-item-<i>-<j>`. Next to the board data sits one more state cell, the
identifier being dragged (`activeId`). Four drag handlers change this state:

- drag-start records the dragged identifier;
- drag-cancel forgets it;
- drag-over moves a sub-item to the front of another item's list while the
  dragged element hovers over that item;
- drag-end reorders items, or sub-items, when the element is dropped.

Drag-end tells items and sub-items apart by how many pieces
`id.split("-")` returns: 2 for an item, 4 for a sub-item. For a sub-item
it re-derives the parent item as `item-<third piece>`.

The model is split into modules:

- `wrappers.dfy` (`Wrappers`): `Option` and `Result`.
- `identifiers.dfy` (`Identifiers`): `split` on one separator and its
  inverse `join`, the decimal rendering of an index, the two identifier
  shapes, the token count and the re-derived parent identifier.
- `arrays.dfy` (`Arrays`): the JavaScript array operations the handlers
  are built from, over sequences:
  - `findIndex`, which returns -1 when nothing matches;
  - `splice`, where a negative start counts back from the end;
  - `filter`.

  It also gives a reference definition of moving one element to another
  index (`ArrayMove`).
- `hierarchy.dfy` (`Hierarchy`): the item and sub-item records, the board
  as constructed, the `find`/`some` lookups, container resolution, and the
  reference move of one sub-item (`MoveSub`). It also defines the board
  invariant `WellFormed`: unique item and sub-item identifiers, with 2 and
  4 tokens.
- `reconciler.dfy` (`Reconciler`): each event as a function from the state
  to the next state, together with what the event did (ignored, moved or
  failed). The lemmas about the events are here too.
- `app.dfy` (`App`): the class `Board`. Its fields are `data` and
  `activeId`, and it has one method per handler. Each method updates the
  fields step by step, as the handler does. Each is proved to compute
  exactly the `Reconciler` function and to keep the board well formed.
- `scenarios.dfy` (`Scenarios`): concrete drag sequences on the board as
  constructed.

Modelling choices:

- `setData` and `setActiveId` are immediate assignments of values.
- Where the handler would throw, the model returns an explicit failure and
  commits no board change. This happens when an item index is -1 and
  `updatedData[-1].subItems` is read. The failures are:
  - `MissingItem`: a hover that involves a top-level identifier, or a drop
    whose identifier names an item that does not exist;
  - `MissingElement`: `splice(k, 1)` took nothing out, because the list it
    worked on was empty. In the item branch that needs an empty board. In
    the sub-item branch as written (`ReorderSubItemsAsWritten`) it happens
    whenever the item named by the dragged identifier has no sub-items left.
    For example, on the board as constructed: hover `sub-item-0-1` over
    `sub-item-3-0` and drop it there, then do the same with `sub-item-0-0`.
    The first drop, as written, also takes `sub-item-0-2` out of item 0, so
    the second drop finds item 0 empty. The board's corrected drop refuses
    that case as `StaleParent` before any splice.
- A failure is not a silent no-op. Drag-end's sub-item branch still clears
  `activeId` on failure, because `setActiveId(null)` sits outside the
  updater.
- The sub-item branch of drag-end, as written, splices with the sub-item
  indices even when they are -1. `splice(-1, 1)` then takes the last
  sub-item of the named item, which is not the one dragged.
  - `ReorderSubItemsAsWritten` models this behaviour.
  - The board uses `ReorderSubItems` instead, which refuses such a drop
    with the failure `StaleParent`.
  - `AsWrittenAgreesWhenParentsCurrent` proves the two agree whenever both
    sub-items are under the items their identifiers name.
  - See "Findings".
- Drag-end ignores a missing *or empty* `over` identifier (`!over?.id`).
  Drag-over ignores only a missing one (`!over`).
- The item branch of drag-end is modelled as written. If `active` names no
  item, `splice(-1, 1)` moves the last item. The board's identifiers
  always name rendered items, so this does not arise from the UI.

## Model

| member | source | states |
|---|---|---|
| Identifiers.Split | src/App.tsx:54-55 | `split("-")` gives at least one piece and no piece contains the separator |
| Identifiers.JoinSplit | src/App.tsx:54-55 | joining the pieces of `split` with the separator gives back the identifier: splitting loses nothing |
| Identifiers.SplitJoin | src/App.tsx:54-55 | splitting pieces that are free of separators after joining them returns exactly those pieces |
| Identifiers.ItemId | src/App.tsx:36 | `item-${index}` is `item-` followed by the decimal digits of the index |
| Identifiers.SubItemId | src/App.tsx:39 | `sub-item-${index}-${subIndex}` is `sub-item-` followed by digits and separators only |
| Identifiers.TokenCount | src/App.tsx:54-57 | `split("-").length` is at least 1, and exactly 1 when the identifier holds no `-` |
| Identifiers.ParentItemId | src/App.tsx:70-73 | `item-${parts[2]}` is `item-` followed by a piece without `-`; with fewer than three pieces it is `item-undefined` |
| Identifiers.NatToString | src/App.tsx:36-39 | an index renders as decimal digits, with no leading zero and no `-` |
| Identifiers.ParseNatToString | src/App.tsx:36-39 | reading the decimal rendering of an index gives the index back |
| Identifiers.NatToStringInjective | src/App.tsx:36-39 | two indices render alike exactly when they are equal |
| Identifiers.ItemIdTokens | src/App.tsx:54-57 | `item-<i>` splits into `item` and `<i>`: 2 tokens |
| Identifiers.SubItemIdTokens | src/App.tsx:54-66 | `sub-item-<i>-<j>` splits into `sub`, `item`, `<i>`, `<j>`: 4 tokens |
| Identifiers.SubItemIdParent | src/App.tsx:69-74 | `item-${parts[2]}` of `sub-item-<i>-<j>` is `item-<i>`, the item it was created under |
| Identifiers.ItemIdInjective | src/App.tsx:35-36 | item identifiers are equal exactly when their indices are |
| Identifiers.SubItemIdInjective | src/App.tsx:38-39 | sub-item identifiers are equal exactly when both index pairs are |
| Identifiers.ItemIdIsNotSubItemId | src/App.tsx:35-43 | no item identifier is a sub-item identifier |
| Arrays.FindIndex | src/App.tsx:58-59 | `findIndex` gives the first index whose element satisfies the test, and -1 exactly when none does |
| Arrays.SpliceStart | src/App.tsx:62 | `splice`'s start always lies within the list: an in-range start is kept, and a negative one down to minus the length counts back from the end, so -1 is the last element |
| Arrays.RemoveAt | src/App.tsx:62 | removing one element shortens the list by one and removes exactly that element from its multiset |
| Arrays.InsertAt | src/App.tsx:63 | inserting puts the element at the index and adds exactly it to the multiset |
| Arrays.SpliceOut | src/App.tsx:62 | `const [x] = s.splice(k, 1)`: when nothing is taken the list is unchanged; otherwise the list keeps its other elements; in range it is `RemoveAt` |
| Arrays.SpliceIn | src/App.tsx:63 | `s.splice(k, 0, x)` adds exactly `x`; in range it is `InsertAt` |
| Arrays.InsertAtFront | src/App.tsx:128 | `unshift` puts the element in front: inserting at index 0 is prepending |
| Arrays.SpliceMoveIsArrayMove | src/App.tsx:61-63 | splicing out at `from` and back in at `to` is the reference move |
| Arrays.ArrayMovePermutes | src/App.tsx:61-63 | the reference move is a permutation |
| Arrays.ArrayMoveKeepsOthersInOrder | src/App.tsx:61-63 | after a move the element is at `to`; removing it leaves the others in their old relative order |
| Hierarchy.Initial | src/App.tsx:34-43 | the `Array.from` construction builds 5 items; `item-<i>` is at index `i` with 3 sub-items, and `sub-item-<i>-<j>` is at index `j` |
| Hierarchy.InitialItemIds | src/App.tsx:35-36 | the initial item identifiers are unique and have 2 tokens |
| Hierarchy.InitialOwnership | src/App.tsx:38-41 | on the board as constructed each item's sub-item identifiers are distinct and no two items share one |
| Hierarchy.InitialSubItemIds | src/App.tsx:38-39 | the initial sub-item identifiers are unique across the board and have 4 tokens |
| Hierarchy.InitialWellFormed | src/App.tsx:34-43 | the board as constructed is well formed |
| Hierarchy.Container | src/App.tsx:102-107 | the container of an identifier is the item it names; otherwise the first item whose sub-items include it; otherwise none, exactly when no item has it |
| Hierarchy.ContainerOfItem | src/App.tsx:102-107 | on a well-formed board a top-level identifier is its own container |
| Hierarchy.ContainerOfSubItem | src/App.tsx:102-107 | on a well-formed board a sub-item's container is the one item that owns it |
| Hierarchy.FilterOut | src/App.tsx:125-127 | `filter` keeps exactly the sub-items without the identifier |
| Hierarchy.FilterOutOne | src/App.tsx:125-127 | on a list without duplicates, filtering out a present identifier removes just that sub-item |
| Hierarchy.FilterOutAbsent | src/App.tsx:125-127 | filtering out an absent identifier changes nothing |
| Hierarchy.FindItem | src/App.tsx:69-74 | with unique item identifiers, looking up an item's identifier finds its index |
| Hierarchy.FindOwner | src/App.tsx:114-119 | with unique sub-item identifiers, the owner lookup finds the one item holding the sub-item |
| Hierarchy.FindSub | src/App.tsx:79-84 | with unique identifiers in a list, looking up a sub-item's identifier finds its index |
| Hierarchy.FindOwnedSub | src/App.tsx:121-123 | `find` over a sub-item list succeeds exactly when the list holds the identifier |
| Hierarchy.MoveSub | src/App.tsx:86-87 | the reference sub-item move keeps the item order and the multiset of sub-item identifiers |
| Hierarchy.MoveSubMoves | src/App.tsx:86-87 | `MoveSub` array-moves within one list; across lists it removes the sub-item from one list and inserts it into the other; other items are unchanged |
| Reconciler.DragStart | src/App.tsx:141 | drag-start sets `activeId` to the dragged identifier and leaves the board alone |
| Reconciler.DragCancel | src/App.tsx:142 | drag-cancel clears `activeId` and leaves the board alone |
| Reconciler.ReorderItems | src/App.tsx:57-65 | the item reorder fails only on an empty board; otherwise it permutes the items |
| Reconciler.ReorderItemsKeepsIds | src/App.tsx:57-65 | the item reorder keeps the multisets of item and sub-item identifiers |
| Reconciler.ReorderSubItems | src/App.tsx:66-91 | the corrected sub-item reorder fails with `MissingItem` exactly when a re-derived parent does not exist, never with `MissingElement`; success keeps the item order and the sub-item multiset |
| Reconciler.ReorderSubItemsAsWritten | src/App.tsx:67-90 | the reorder as written fails with `MissingItem` exactly when a re-derived parent does not exist, and never reports a stale parent; success keeps the item order |
| Reconciler.MoveToFront | src/App.tsx:112-131 | the hover move fails, with `MissingItem`, exactly when no item owns `active` or none owns `over`; success keeps the item order |
| Reconciler.DragEnd | src/App.tsx:45-94 | no over identifier, an empty one, the same identifier, or mixed token counts leave the state unchanged; a failure leaves the board unchanged; `activeId` is kept or cleared; a move keeps every identifier |
| Reconciler.DragOver | src/App.tsx:96-132 | the hover is ignored exactly when there is no over, the same identifier, a missing container or a shared container; without a move the state is unchanged; `activeId` is kept; a move keeps the item order |
| Reconciler.MoveToFrontIsMoveSub | src/App.tsx:112-131 | on a well-formed board, filter-then-`unshift` is the reference move to index 0 of the other item |
| Reconciler.DragOverIsMoveSub | src/App.tsx:96-132 | hovering a sub-item over a sub-item of a different item commits that move and keeps `activeId` |
| Reconciler.MoveSubToFront | src/App.tsx:125-128 | the move to the front leaves the sub-item first in the other list; other items are unchanged; the board stays well formed |
| Reconciler.DragOverMovesSubItem | src/App.tsx:112-131 | the cross-item hover removes the sub-item from its list and makes it element 0 of the other; every other item, the item order, the sub-item multiset and `activeId` are kept |
| Reconciler.DragOverWithinItemIgnored | src/App.tsx:110 | hovering over a sub-item of the same item does nothing |
| Reconciler.ItemIdOwnedByNone | src/App.tsx:114-119 | on a well-formed board no item owns a top-level identifier |
| Reconciler.DragOverTopLevelFails | src/App.tsx:114-128 | a cross-container hover that involves a top-level identifier fails with `MissingItem` and changes nothing |
| Reconciler.DragOverKeepsWellFormed | src/App.tsx:96-132 | every hover keeps a well-formed board well formed |
| Reconciler.DragOverKeepsSubIds | src/App.tsx:96-132 | every hover on a well-formed board keeps the multiset of sub-item identifiers: no sub-item is lost or copied |
| Reconciler.MoveToFrontKeepsWellFormed | src/App.tsx:112-131 | a hover move between two different owners keeps the board well formed and keeps the multiset of sub-item identifiers |
| Reconciler.DragEndIsArrayMove | src/App.tsx:57-65 | dropping item `from` onto item `to` commits the reference move and keeps `activeId` |
| Reconciler.DragEndMovesItem | src/App.tsx:57-65 | the item drop is a permutation; the item lands at `to`; the others keep their relative order |
| Reconciler.DragEndIsMoveSub | src/App.tsx:66-92 | dropping a sub-item onto another, both under the items their identifiers name, commits the reference move and clears `activeId` |
| Reconciler.ReorderSubItemsIsMoveSub | src/App.tsx:67-90 | with both sub-items under the items their identifiers name, the corrected reorder finds both parents and both sub-items and commits the reference move |
| Reconciler.DragEndMovesSubItem | src/App.tsx:66-92 | that drop array-moves within one item and moves the sub-item between lists across items; item order and the sub-item multiset are kept; `activeId` is cleared; the board stays well formed |
| Reconciler.DragEndKeepsWellFormed | src/App.tsx:45-94 | every drop keeps a well-formed board well formed |
| Reconciler.StaleDropRefused | src/App.tsx:66-92 | a sub-item drop where either sub-item is not under the item its identifier names is refused with `StaleParent`; the board is unchanged and `activeId` is cleared |
| Reconciler.AsWrittenAgreesWhenParentsCurrent | src/App.tsx:67-90 | while both sub-items are under their named items, the reorder as written equals the corrected one |
| Reconciler.StaleDropMovesBystander | src/App.tsx:79-87 | as written, a dragged sub-item missing from its named item makes the drop take that item's last sub-item, another one, and insert it at the over sub-item's index |
| Reconciler.HoverThenDropRefused | src/App.tsx:66-92 | after a cross-item hover, dropping the same two identifiers is refused by the corrected drop |
| Reconciler.HoverThenDropMovesBystander | src/App.tsx:69-87 | after a cross-item hover, the drop as written moves the last remaining sub-item of the old item, not the dragged one, into the new item |
| Reconciler.DropAfterHoverAsWritten | src/App.tsx:69-87 | the drop as written, on any board the hover left, moves that bystander |
| App.Board.constructor | src/App.tsx:32-43 | the board starts as constructed, with no active identifier, and is well formed |
| App.Board.OnDragStart | src/App.tsx:141 | the handler computes `DragStart` and leaves `data` alone |
| App.Board.OnDragCancel | src/App.tsx:142 | the handler computes `DragCancel` and leaves `data` alone |
| App.Board.HandleDragEnd | src/App.tsx:45-94 | the handler's new fields and outcome are exactly `DragEnd`'s; the board stays well formed |
| App.Board.DropItem | src/App.tsx:57-65 | the two splices on a copy of the closure's list, the value the handler passes to `setData`, give exactly `ReorderItems`'s result, or the list unchanged and `MissingElement` when the board is empty |
| App.Board.DropSubItem | src/App.tsx:66-91 | the lookups and splices commit `ReorderSubItems`'s result, or nothing on failure; `activeId` is kept |
| App.Board.HandleDragOver | src/App.tsx:96-111 | the handler's new fields and outcome are exactly `DragOver`'s; the board stays well formed |
| App.Board.MoveAcross | src/App.tsx:112-131 | the filter and front insertion commit `MoveToFront`'s result, or nothing on failure; `activeId` is kept |
| Scenarios.StartAsConstructed | src/App.tsx:34-43 | the initial state's board is laid out as constructed and well formed |
| Scenarios.ItemSpelling | src/App.tsx:36 | the item identifier builder spells `item-0` to `item-4` |
| Scenarios.SubItemSpellingLow | src/App.tsx:39 | the sub-item identifier builder spells `sub-item-0-0` to `sub-item-1-2` |
| Scenarios.SubItemSpellingHigh | src/App.tsx:39 | the sub-item identifier builder spells `sub-item-2-0` to `sub-item-3-2` |
| Scenarios.ScenarioItemDrop | src/App.tsx:57-65 | dropping `item-0` onto `item-2` orders the items 1, 2, 0, 3, 4 |
| Scenarios.ScenarioHoverMove | src/App.tsx:112-131 | hovering `sub-item-0-1` over `sub-item-3-0` leaves item 0 with `0-0, 0-2` and item 3 with `0-1, 3-0, 3-1, 3-2` |
| Scenarios.ScenarioSubItemDrop | src/App.tsx:66-92 | dropping `sub-item-1-0` onto `sub-item-1-2` gives `1-1, 1-2, 1-0` and clears `activeId` |
| Scenarios.ScenarioMixedDrop | src/App.tsx:54-93 | dropping `item-1` onto `sub-item-2-0` changes nothing |
| Scenarios.ScenarioCancelKeepsMove | src/App.tsx:141-142 | start, hover into another item, then cancel: `activeId` is cleared and the hover move stays |
| Scenarios.StaleDropAsWritten | src/App.tsx:69-87 | on the constructed board, the hover of `sub-item-0-1` onto `sub-item-3-0` followed by the drop as written moves `sub-item-0-2` into item 3 |
| Scenarios.StaleDropRefusedOnBoard | src/App.tsx:66-92 | the same sequence with the corrected drop is refused with `StaleParent` and leaves the board as the hover left it |

## Left out

- The rendering is left out: `SortableItem`, the item and sub-item markup and the drag overlay portal (src/App.tsx:134-206). They change no state.
- The dnd-kit machinery is left out: sensors, `closestCenter` collision detection, `SortableContext` strategies and `DndContext`. The model takes the active and over identifiers as given inputs.
- React's asynchronous and batched updates are left out. So is the difference between the closure's `data` and the updater's `prevData`, and a second run of an updater. Every update is an immediate assignment to one state.
- Aliasing is left out. `[...prevData]` is a shallow copy, and both handlers mutate the sub-item arrays it shares with the previous state. The model has value semantics.
- When the hover throws at the front insertion, the code has already assigned the filtered list into a shared item object. The model commits nothing on a failure.
- `UniqueIdentifier` also admits numbers. The model has string identifiers only.
- When `splice` takes nothing out, the code then inserts `undefined`, which the next render fails on. The model reports `MissingElement` and leaves the list unchanged. In the item branch this needs an empty board. In the sub-item branch as written it happens whenever the item named by the dragged identifier has no sub-items left, as the sequence above shows. The board's corrected drop refuses that case with `StaleParent`.
- Display `content` strings are built as the code builds them, then only carried along.
- A failed lookup is not a silent no-op in this code. It throws, or the splice moves a different element. The model follows the code and reports these cases as failures, or as the as-written functions.

## Findings

| source | as written | input that shows it | evidently intended | confidence | as-written member | corrected member |
|---|---|---|---|---|---|---|
| src/App.tsx:79-87 | The drop splices with the sub-item indices that `findIndex` returned, without checking them. When the dragged sub-item is no longer under the item its identifier names, the index is -1, and `splice(-1, 1)` removes that item's last sub-item instead. | On the board as constructed, hover `sub-item-0-1` over `sub-item-3-0`, which moves it into item 3. Then drop it on `sub-item-3-0`. The drop takes `sub-item-0-2`, which nobody dragged, out of item 0 and inserts it into item 3. | Move only the dragged sub-item, and refuse the drop when it is not where its identifier says. | not executed | Scenarios.StaleDropAsWritten | Scenarios.StaleDropRefusedOnBoard |
