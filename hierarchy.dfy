/** The board's data: an ordered list of items, each owning an ordered list
    of sub-items, and the lookups the drag handlers run over it. */
module Hierarchy {
  import opened Wrappers
  import opened Identifiers
  import opened Arrays

  /** A second-level entry: its identifier and display text. */
  datatype SubItem = SubItem(id: string, content: string)

  /** A top-level entry: its identifier, display text and the sub-items it owns, in order. */
  datatype Item = Item(id: string, content: string, subItems: seq<SubItem>)

  /** The identifiers of a list of sub-items, in order. */
  function IdsOf(subs: seq<SubItem>): (ids: seq<string>)
    ensures |ids| == |subs|
    ensures forall k :: 0 <= k < |subs| ==> ids[k] == subs[k].id
  {
    seq(|subs|, k requires 0 <= k < |subs| => subs[k].id)
  }

  /** The identifiers of the top-level items, in order. */
  function ItemIds(data: seq<Item>): (ids: seq<string>)
    ensures |ids| == |data|
    ensures forall k :: 0 <= k < |data| ==> ids[k] == data[k].id
  {
    seq(|data|, k requires 0 <= k < |data| => data[k].id)
  }

  /** The identifiers of every sub-item, item by item. */
  function AllSubIds(data: seq<Item>): seq<string>
    decreases |data|
  {
    if data == [] then [] else IdsOf(data[0].subItems) + AllSubIds(data[1..])
  }

  /** The board as constructed: five items, `item-<i>` at index `i`, each
      with three sub-items, `sub-item-<i>-<j>` at index `j`. */
  function Initial(): (board: seq<Item>)
    ensures |board| == 5
    ensures forall i :: 0 <= i < 5 ==> board[i].id == ItemId(i) && |board[i].subItems| == 3
    ensures forall i, j :: 0 <= i < 5 && 0 <= j < 3 ==> board[i].subItems[j].id == SubItemId(i, j)
  {
    seq(5, i requires 0 <= i < 5 =>
      Item(ItemId(i), "Item " + NatToString(i + 1),
        seq(3, j requires 0 <= j < 3 =>
          SubItem(SubItemId(i, j), "Sub Item " + NatToString(i + 1) + "." + NatToString(j + 1)))))
  }

  /** `({ id }) => id === x` over items. */
  function ItemNamed(x: string): Item -> bool
  {
    (it: Item) => it.id == x
  }

  /** `({ subItems }) => subItems.some(({ id }) => id === x)`. */
  function ItemOwning(x: string): Item -> bool
  {
    (it: Item) => x in IdsOf(it.subItems)
  }

  /** `({ id }) => id === x` over sub-items. */
  function SubNamed(x: string): SubItem -> bool
  {
    (sub: SubItem) => sub.id == x
  }

  /** The item an element belongs to: the item itself for a top-level
      identifier, otherwise the first item whose sub-items include it. */
  function Container(data: seq<Item>, x: string): (r: Option<Item>)
    ensures r.Some? ==> r.value in data && (r.value.id == x || x in IdsOf(r.value.subItems))
    ensures r.None? <==> forall k :: 0 <= k < |data| ==> data[k].id != x && x !in IdsOf(data[k].subItems)
    ensures x in ItemIds(data) ==> r.Some? && r.value.id == x
    ensures r.Some? && r.value.id != x ==>
      exists k :: 0 <= k < |data| && r.value == data[k] && x in IdsOf(data[k].subItems) &&
        forall m :: 0 <= m < k ==> x !in IdsOf(data[m].subItems)
  {
    var i := FindIndex(data, ItemNamed(x));
    if 0 <= i then Some(data[i])
    else
      var j := FindIndex(data, ItemOwning(x));
      if 0 <= j then Some(data[j]) else None
  }

  /** `subs.filter((sub) => sub.id !== x)`: the sub-items not carrying `x`, in order. */
  function FilterOut(subs: seq<SubItem>, x: string): (r: seq<SubItem>)
    ensures forall k :: 0 <= k < |r| ==> r[k].id != x
    ensures forall sub :: sub in r <==> sub in subs && sub.id != x
    decreases |subs|
  {
    if subs == [] then []
    else if subs[0].id == x then FilterOut(subs[1..], x)
    else [subs[0]] + FilterOut(subs[1..], x)
  }

  /** The board's invariant: item identifiers are unique and two-token,
      sub-item identifiers are unique across the whole board and four-token. */
  predicate WellFormed(data: seq<Item>)
  {
    && NoDuplicates(ItemIds(data))
    && NoDuplicates(AllSubIds(data))
    && (forall x :: x in ItemIds(data) ==> TokenCount(x) == 2)
    && (forall x :: x in AllSubIds(data) ==> TokenCount(x) == 4)
  }

  /** The sub-item identifiers of two boards joined. */
  lemma {:induction false} AllSubIdsAppend(a: seq<Item>, b: seq<Item>)
    ensures AllSubIds(a + b) == AllSubIds(a) + AllSubIds(b)
    decreases |a|
  {
    if a == [] {
      assert a + b == b;
    } else {
      assert (a + b)[0] == a[0] && (a + b)[1..] == a[1..] + b;
      AllSubIdsAppend(a[1..], b);
      assert AllSubIds(a + b) == IdsOf(a[0].subItems) + AllSubIds(a[1..] + b);
    }
  }

  /** An identifier is a sub-item of the board exactly when some item owns it. */
  lemma {:induction false} InAllSubIds(data: seq<Item>, x: string)
    ensures x in AllSubIds(data) <==> exists k :: 0 <= k < |data| && x in IdsOf(data[k].subItems)
    decreases |data|
  {
    if data != [] {
      InAllSubIds(data[1..], x);
      if x in AllSubIds(data[1..]) {
        var k :| 0 <= k < |data| - 1 && x in IdsOf(data[1..][k].subItems);
        assert data[1..][k] == data[k + 1];
      }
      if exists k :: 0 <= k < |data| && x in IdsOf(data[k].subItems) {
        var k :| 0 <= k < |data| && x in IdsOf(data[k].subItems);
        if k > 0 {
          assert data[1..][k - 1] == data[k];
        }
      }
    }
  }

  /** Exclusive ownership: sub-item identifiers are unique across the board
      exactly when each item's list is free of duplicates and no identifier
      is owned by two items. */
  lemma {:induction false} ExclusiveOwnership(data: seq<Item>)
    ensures NoDuplicates(AllSubIds(data)) <==>
      (forall k :: 0 <= k < |data| ==> NoDuplicates(IdsOf(data[k].subItems))) &&
      (forall k, m, x :: 0 <= k < m < |data| && x in IdsOf(data[k].subItems) ==> x !in IdsOf(data[m].subItems))
    decreases |data|
  {
    if data != [] {
      var head, tail := IdsOf(data[0].subItems), AllSubIds(data[1..]);
      ExclusiveOwnership(data[1..]);
      NoDuplicatesAppend(head, tail);
      forall x ensures x in tail <==> exists m :: 1 <= m < |data| && x in IdsOf(data[m].subItems) {
        InAllSubIds(data[1..], x);
        if x in tail {
          var m :| 0 <= m < |data| - 1 && x in IdsOf(data[1..][m].subItems);
          assert data[1..][m] == data[m + 1];
        }
        if exists m :: 1 <= m < |data| && x in IdsOf(data[m].subItems) {
          var m :| 1 <= m < |data| && x in IdsOf(data[m].subItems);
          assert data[1..][m - 1] == data[m];
        }
      }
      assert forall k :: 0 <= k < |data| - 1 ==> data[1..][k] == data[k + 1];
    }
  }

  /** Replacing one item changes the sub-item identifiers by that item's lists. */
  lemma {:induction false} AllSubIdsUpdate(data: seq<Item>, k: nat, it: Item)
    requires k < |data|
    ensures multiset(AllSubIds(data[k := it])) + multiset(IdsOf(data[k].subItems))
         == multiset(AllSubIds(data)) + multiset(IdsOf(it.subItems))
  {
    var pre, post := data[..k], data[k + 1..];
    assert data == pre + [data[k]] + post;
    assert data[k := it] == pre + [it] + post;
    AllSubIdsAppend(pre + [data[k]], post);
    AllSubIdsAppend(pre, [data[k]]);
    AllSubIdsAppend(pre + [it], post);
    AllSubIdsAppend(pre, [it]);
    SingleItemIds(data[k]);
    SingleItemIds(it);
  }

  /** The item identifiers of two boards joined. */
  lemma {:induction false} ItemIdsAppend(a: seq<Item>, b: seq<Item>)
    ensures ItemIds(a + b) == ItemIds(a) + ItemIds(b)
  {
  }

  /** Replacing an item by one with the same identifier keeps the item identifiers. */
  lemma {:induction false} ItemIdsUpdate(data: seq<Item>, k: nat, it: Item)
    requires k < |data| && it.id == data[k].id
    ensures ItemIds(data[k := it]) == ItemIds(data)
  {
    var a, b := ItemIds(data[k := it]), ItemIds(data);
    assert forall m :: 0 <= m < |data| ==> a[m] == b[m];
  }

  /** The identifiers of a board made of one item. */
  lemma {:induction false} SingleItemIds(it: Item)
    ensures ItemIds([it]) == [it.id]
    ensures AllSubIds([it]) == IdsOf(it.subItems)
  {
    assert [it][1..] == [];
  }

  /** Taking an item out removes its identifier and its sub-items' identifiers. */
  lemma {:induction false} RemoveItemIds(data: seq<Item>, k: nat)
    requires k < |data|
    ensures multiset(ItemIds(RemoveAt(data, k))) + multiset{data[k].id} == multiset(ItemIds(data))
    ensures multiset(AllSubIds(RemoveAt(data, k))) + multiset(IdsOf(data[k].subItems)) == multiset(AllSubIds(data))
  {
    var pre, mid, post := data[..k], [data[k]], data[k + 1..];
    assert data == pre + mid + post;
    assert RemoveAt(data, k) == pre + post;
    SingleItemIds(data[k]);
    ItemIdsAppend(pre + mid, post);
    ItemIdsAppend(pre, mid);
    ItemIdsAppend(pre, post);
    AllSubIdsAppend(pre + mid, post);
    AllSubIdsAppend(pre, mid);
    AllSubIdsAppend(pre, post);
  }

  /** Putting an item in adds its identifier and its sub-items' identifiers. */
  lemma {:induction false} InsertItemIds(data: seq<Item>, k: nat, it: Item)
    requires k <= |data|
    ensures multiset(ItemIds(InsertAt(data, k, it))) == multiset(ItemIds(data)) + multiset{it.id}
    ensures multiset(AllSubIds(InsertAt(data, k, it))) == multiset(AllSubIds(data)) + multiset(IdsOf(it.subItems))
  {
    var pre, mid, post := data[..k], [it], data[k..];
    assert data == pre + post;
    assert InsertAt(data, k, it) == pre + mid + post;
    SingleItemIds(it);
    ItemIdsAppend(pre + mid, post);
    ItemIdsAppend(pre, mid);
    ItemIdsAppend(pre, post);
    AllSubIdsAppend(pre + mid, post);
    AllSubIdsAppend(pre, mid);
    AllSubIdsAppend(pre, post);
  }

  /** The identifiers of a list with one sub-item taken out. */
  lemma {:induction false} IdsOfRemoveAt(subs: seq<SubItem>, i: nat)
    requires i < |subs|
    ensures IdsOf(RemoveAt(subs, i)) == RemoveAt(IdsOf(subs), i)
  {
  }

  /** The identifiers of a list with one sub-item put in. */
  lemma {:induction false} IdsOfInsertAt(subs: seq<SubItem>, j: nat, x: SubItem)
    requires j <= |subs|
    ensures IdsOf(InsertAt(subs, j, x)) == InsertAt(IdsOf(subs), j, x.id)
  {
  }

  /** Moving one sub-item between lists (`moveSubItem` and, within one list,
      `reorderSubItems`): sub-item `i` of item `p` is taken out, then inserted
      at index `j` of item `q`'s list as that list is after the removal. */
  function MoveSub(data: seq<Item>, p: nat, i: nat, q: nat, j: nat): (r: seq<Item>)
    requires p < |data| && q < |data| && i < |data[p].subItems|
    requires j <= |data[q].subItems| - (if p == q then 1 else 0)
    ensures |r| == |data| && ItemIds(r) == ItemIds(data)
    ensures multiset(AllSubIds(r)) == multiset(AllSubIds(data))
  {
    var moved := data[p].subItems[i];
    var d1 := data[p := data[p].(subItems := RemoveAt(data[p].subItems, i))];
    MoveSubKeepsIds(data, p, i, q, j);
    d1[q := d1[q].(subItems := InsertAt(d1[q].subItems, j, moved))]
  }

  /** `moved` is `data` with sub-item `i` of item `p` moved to index `j` of
      item `q`'s list: within one item the list is array-moved, across items
      the sub-item leaves `p`'s list and is inserted into `q`'s; every other
      item, the item order and the multiset of sub-item identifiers are kept. */
  predicate SubMoved(data: seq<Item>, moved: seq<Item>, p: nat, i: nat, q: nat, j: nat)
    requires p < |data| && q < |data| && i < |data[p].subItems|
    requires j <= |data[q].subItems| - (if p == q then 1 else 0)
  {
    var s, t := data[p].subItems, data[q].subItems;
    && |moved| == |data| && ItemIds(moved) == ItemIds(data)
    && (p == q ==> moved[p] == data[p].(subItems := ArrayMove(s, i, j)))
    && (p != q ==> moved[p] == data[p].(subItems := RemoveAt(s, i)))
    && (p != q ==> moved[q] == data[q].(subItems := InsertAt(t, j, s[i])))
    && (forall k :: 0 <= k < |data| && k != p && k != q ==> moved[k] == data[k])
    && multiset(AllSubIds(moved)) == multiset(AllSubIds(data))
  }

  /** `MoveSub` is the reference move of one sub-item. */
  lemma {:induction false} MoveSubMoves(data: seq<Item>, p: nat, i: nat, q: nat, j: nat)
    requires p < |data| && q < |data| && i < |data[p].subItems|
    requires j <= |data[q].subItems| - (if p == q then 1 else 0)
    ensures SubMoved(data, MoveSub(data, p, i, q, j), p, i, q, j)
  {
    if p == q {
      SpliceMoveIsArrayMove(data[p].subItems, i, j);
    }
  }

  /** The proof that `MoveSub` loses and duplicates no identifier. */
  lemma {:induction false} MoveSubKeepsIds(data: seq<Item>, p: nat, i: nat, q: nat, j: nat)
    requires p < |data| && q < |data| && i < |data[p].subItems|
    requires j <= |data[q].subItems| - (if p == q then 1 else 0)
    ensures var d1 := data[p := data[p].(subItems := RemoveAt(data[p].subItems, i))];
      var d2 := d1[q := d1[q].(subItems := InsertAt(d1[q].subItems, j, data[p].subItems[i]))];
      ItemIds(d2) == ItemIds(data) && multiset(AllSubIds(d2)) == multiset(AllSubIds(data))
  {
    var moved := data[p].subItems[i];
    var d1 := data[p := data[p].(subItems := RemoveAt(data[p].subItems, i))];
    RemoveSubIds(data, p, i);
    InsertSubIds(d1, q, j, moved);
  }

  /** Taking sub-item `i` out of item `p` removes exactly its identifier. */
  lemma {:induction false} RemoveSubIds(data: seq<Item>, p: nat, i: nat)
    requires p < |data| && i < |data[p].subItems|
    ensures var d1 := data[p := data[p].(subItems := RemoveAt(data[p].subItems, i))];
      ItemIds(d1) == ItemIds(data) &&
      multiset(AllSubIds(d1)) + multiset{data[p].subItems[i].id} == multiset(AllSubIds(data))
  {
    var subs := data[p].subItems;
    var rest := RemoveAt(subs, i);
    var d1 := data[p := data[p].(subItems := rest)];
    var x := multiset{subs[i].id};
    var a, b := multiset(AllSubIds(data)), multiset(AllSubIds(d1));
    var sp, r := multiset(IdsOf(subs)), multiset(IdsOf(rest));
    assert r + x == sp by {
      IdsOfRemoveAt(subs, i);
      assert IdsOf(subs)[i] == subs[i].id;
    }
    assert b + sp == a + r by {
      AllSubIdsUpdate(data, p, d1[p]);
    }
    assert (b + x) + r == a + r;
    Cancel(b + x, a, r);
    assert ItemIds(d1) == ItemIds(data);
  }

  /** Inserting a sub-item into item `q` adds exactly its identifier. */
  lemma {:induction false} InsertSubIds(data: seq<Item>, q: nat, j: nat, moved: SubItem)
    requires q < |data| && j <= |data[q].subItems|
    ensures var d2 := data[q := data[q].(subItems := InsertAt(data[q].subItems, j, moved))];
      ItemIds(d2) == ItemIds(data) &&
      multiset(AllSubIds(d2)) == multiset(AllSubIds(data)) + multiset{moved.id}
  {
    var subs := data[q].subItems;
    var grown := InsertAt(subs, j, moved);
    var d2 := data[q := data[q].(subItems := grown)];
    var x := multiset{moved.id};
    var b, c := multiset(AllSubIds(data)), multiset(AllSubIds(d2));
    var sq, g := multiset(IdsOf(subs)), multiset(IdsOf(grown));
    assert g == sq + x by {
      IdsOfInsertAt(subs, j, moved);
    }
    assert c + sq == b + g by {
      AllSubIdsUpdate(data, q, d2[q]);
    }
    assert c + sq == (b + x) + sq;
    Cancel(c, b + x, sq);
    assert ItemIds(d2) == ItemIds(data);
  }

  /** Adding the same multiset to two sides can be undone. */
  lemma {:induction false} Cancel<T>(a: multiset<T>, c: multiset<T>, b: multiset<T>)
    requires a + b == c + b
    ensures a == c
  {
    forall z ensures a[z] == c[z] {
      assert (a + b)[z] == (c + b)[z];
    }
  }

  /** A board whose item and sub-item identifiers are a reordering of a
      well-formed board's is well formed. */
  lemma {:induction false} WellFormedByMultisets(a: seq<Item>, b: seq<Item>)
    requires WellFormed(a)
    requires multiset(ItemIds(a)) == multiset(ItemIds(b))
    requires multiset(AllSubIds(a)) == multiset(AllSubIds(b))
    ensures WellFormed(b)
  {
    PermutationKeepsNoDuplicates(ItemIds(a), ItemIds(b));
    PermutationKeepsNoDuplicates(AllSubIds(a), AllSubIds(b));
    forall x | x in ItemIds(b) ensures TokenCount(x) == 2 {
      assert x in multiset(ItemIds(b));
    }
    forall x | x in AllSubIds(b) ensures TokenCount(x) == 4 {
      assert x in multiset(AllSubIds(b));
    }
  }

  /** On a well-formed board an item identifier is found at its own position. */
  lemma {:induction false} FindItem(data: seq<Item>, k: nat)
    requires NoDuplicates(ItemIds(data)) && k < |data|
    ensures FindIndex(data, ItemNamed(data[k].id)) == k
  {
    var r := FindIndex(data, ItemNamed(data[k].id));
    assert ItemNamed(data[k].id)(data[k]);
    assert 0 <= r <= k && ItemIds(data)[r] == ItemIds(data)[k];
  }

  /** On a well-formed board a sub-item's owner is the one item holding it. */
  lemma {:induction false} FindOwner(data: seq<Item>, k: nat, x: string)
    requires NoDuplicates(AllSubIds(data)) && k < |data| && x in IdsOf(data[k].subItems)
    ensures FindIndex(data, ItemOwning(x)) == k
  {
    ExclusiveOwnership(data);
    assert ItemOwning(x)(data[k]);
    var r := FindIndex(data, ItemOwning(x));
    assert 0 <= r <= k && ItemOwning(x)(data[r]);
  }

  /** On a well-formed board a sub-item is found at its own position. */
  lemma {:induction false} FindSub(subs: seq<SubItem>, i: nat)
    requires NoDuplicates(IdsOf(subs)) && i < |subs|
    ensures FindIndex(subs, SubNamed(subs[i].id)) == i
  {
    var r := FindIndex(subs, SubNamed(subs[i].id));
    assert SubNamed(subs[i].id)(subs[i]);
    assert 0 <= r <= i && IdsOf(subs)[r] == IdsOf(subs)[i];
  }

  /** `find` over a list of sub-items succeeds exactly when the list holds the identifier. */
  lemma {:induction false} FindOwnedSub(subs: seq<SubItem>, x: string)
    ensures x in IdsOf(subs) <==> 0 <= FindIndex(subs, SubNamed(x))
  {
    if x in IdsOf(subs) {
      var i :| 0 <= i < |subs| && IdsOf(subs)[i] == x;
      assert SubNamed(x)(subs[i]);
    } else {
      forall k | 0 <= k < |subs| ensures !SubNamed(x)(subs[k]) {
        assert IdsOf(subs)[k] == subs[k].id;
      }
    }
  }

  /** Container resolution on a well-formed board: a top-level item is its
      own container. */
  lemma {:induction false} ContainerOfItem(data: seq<Item>, k: nat)
    requires WellFormed(data) && k < |data|
    ensures Container(data, data[k].id) == Some(data[k])
  {
    FindItem(data, k);
  }

  /** Container resolution on a well-formed board: a sub-item's container is
      the one item that owns it. */
  lemma {:induction false} ContainerOfSubItem(data: seq<Item>, k: nat, x: string)
    requires WellFormed(data) && k < |data| && x in IdsOf(data[k].subItems)
    ensures Container(data, x) == Some(data[k])
  {
    InAllSubIds(data, x);
    assert TokenCount(x) == 4;
    assert x !in ItemIds(data);
    assert FindIndex(data, ItemNamed(x)) == -1;
    FindOwner(data, k, x);
  }

  /** On a list without duplicates, filtering one identifier out removes
      exactly the one sub-item that carries it. */
  lemma {:induction false} FilterOutOne(subs: seq<SubItem>, i: nat)
    requires NoDuplicates(IdsOf(subs)) && i < |subs|
    ensures FilterOut(subs, subs[i].id) == RemoveAt(subs, i)
    decreases |subs|
  {
    var x, tail := subs[i].id, subs[1..];
    assert IdsOf(tail) == IdsOf(subs)[1..];
    assert NoDuplicates(IdsOf(tail)) && IdsOf(subs)[0] !in IdsOf(tail) by {
      NoDuplicatesTail(IdsOf(subs));
    }
    if i == 0 {
      FilterOutAbsent(tail, x);
      assert RemoveAt(subs, 0) == tail;
    } else {
      assert subs[0].id != x by {
        assert IdsOf(subs)[0] != IdsOf(subs)[i];
      }
      assert tail[i - 1] == subs[i];
      FilterOutOne(tail, i - 1);
      RemoveAtTail(subs, i);
    }
  }

  /** Filtering out an identifier no sub-item carries changes nothing. */
  lemma {:induction false} FilterOutAbsent(subs: seq<SubItem>, x: string)
    requires x !in IdsOf(subs)
    ensures FilterOut(subs, x) == subs
    decreases |subs|
  {
    if subs != [] {
      assert IdsOf(subs)[0] == subs[0].id;
      assert IdsOf(subs[1..]) == IdsOf(subs)[1..];
      FilterOutAbsent(subs[1..], x);
      assert [subs[0]] + subs[1..] == subs;
    }
  }

  /** The item identifiers of the board as constructed are unique and two-token. */
  lemma {:induction false} InitialItemIds()
    ensures NoDuplicates(ItemIds(Initial()))
    ensures forall x :: x in ItemIds(Initial()) ==> TokenCount(x) == 2
  {
    var ids := ItemIds(Initial());
    forall i, j | 0 <= i < j < 5 ensures ids[i] != ids[j] {
      ItemIdInjective(i, j);
    }
    forall x | x in ids ensures TokenCount(x) == 2 {
      var i :| 0 <= i < 5 && ids[i] == x;
      ItemIdTokens(i);
    }
  }

  /** Each initial item's sub-item identifiers are distinct, and no two
      initial items share one. */
  lemma {:induction false} InitialOwnership()
    ensures forall k :: 0 <= k < |Initial()| ==> NoDuplicates(IdsOf(Initial()[k].subItems))
    ensures forall k, m, x :: 0 <= k < m < |Initial()| && x in IdsOf(Initial()[k].subItems) ==>
      x !in IdsOf(Initial()[m].subItems)
  {
    var data := Initial();
    forall i | 0 <= i < 5 ensures NoDuplicates(IdsOf(data[i].subItems)) {
      var ids := IdsOf(data[i].subItems);
      forall j, j' | 0 <= j < j' < 3 ensures ids[j] != ids[j'] {
        SubItemIdInjective(i, j, i, j');
      }
    }
    forall i, m, x | 0 <= i < m < 5 && x in IdsOf(data[i].subItems)
      ensures x !in IdsOf(data[m].subItems)
    {
      var j :| 0 <= j < 3 && IdsOf(data[i].subItems)[j] == x;
      forall j' | 0 <= j' < 3 ensures IdsOf(data[m].subItems)[j'] != x {
        SubItemIdInjective(i, j, m, j');
      }
    }
  }

  /** The sub-item identifiers of the board as constructed are unique and four-token. */
  lemma {:induction false} InitialSubItemIds()
    ensures NoDuplicates(AllSubIds(Initial()))
    ensures forall x :: x in AllSubIds(Initial()) ==> TokenCount(x) == 4
  {
    var data := Initial();
    assert NoDuplicates(AllSubIds(data)) by {
      InitialOwnership();
      ExclusiveOwnership(data);
    }
    forall x | x in AllSubIds(data) ensures TokenCount(x) == 4 {
      InAllSubIds(data, x);
      var i :| 0 <= i < 5 && x in IdsOf(data[i].subItems);
      var j :| 0 <= j < 3 && IdsOf(data[i].subItems)[j] == x;
      SubItemIdTokens(i, j);
    }
  }

  /** The board as constructed is well formed. */
  lemma {:induction false} InitialWellFormed()
    ensures WellFormed(Initial())
  {
    InitialItemIds();
    InitialSubItemIds();
  }
}
