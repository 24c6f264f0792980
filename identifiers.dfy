/** Identifier text. The board names its elements `item-<i>` and
    `sub-item-<i>-<j>`, and the drop handler classifies an identifier by the
    number of tokens `split("-")` cuts it into. */
module Identifiers {

  /** The character the drop handler splits identifiers on. */
  const Sep: char := '-'

  /** `s.split(sep)` for a one-character separator: the pieces between
      separators, empty pieces included, so there is always one more piece
      than there are separators. */
  function Split(s: string, sep: char): (parts: seq<string>)
    ensures |parts| >= 1
    ensures forall k :: 0 <= k < |parts| ==> sep !in parts[k]
    decreases |s|
  {
    if s == [] then [[]]
    else
      var rest := Split(s[1..], sep);
      assert s == [s[0]] + s[1..];
      if s[0] == sep then [[]] + rest
      else [[s[0]] + rest[0]] + rest[1..]
  }

  /** `parts.join(sep)`: the inverse of `Split`. */
  function Join(parts: seq<string>, sep: char): string
    requires |parts| >= 1
  {
    if |parts| == 1 then parts[0] else parts[0] + [sep] + Join(parts[1..], sep)
  }

  /** Joining a piece in front of at least one other puts a separator between them. */
  lemma {:induction false} JoinCons(p: string, rest: seq<string>, sep: char)
    requires |rest| >= 1
    ensures Join([p] + rest, sep) == p + [sep] + Join(rest, sep)
  {
    assert ([p] + rest)[1..] == rest;
  }

  /** Joining the pieces again gives back the string that was split. */
  lemma {:induction false} JoinSplit(s: string, sep: char)
    ensures Join(Split(s, sep), sep) == s
    decreases |s|
  {
    if s != [] {
      JoinSplit(s[1..], sep);
      var rest := Split(s[1..], sep);
      assert s == [s[0]] + s[1..];
      if s[0] == sep {
        assert ([[]] + rest)[1..] == rest;
      } else {
        var parts := [[s[0]] + rest[0]] + rest[1..];
        if |rest| > 1 {
          assert parts[1..] == rest[1..];
        }
      }
    }
  }

  /** A prefix free of separators is glued to the first piece of what follows it. */
  lemma {:induction false} SplitAfterPlain(w: string, t: string, sep: char)
    requires sep !in w
    ensures Split(w + t, sep) == [w + Split(t, sep)[0]] + Split(t, sep)[1..]
    decreases |w|
  {
    if w == [] {
      var parts := Split(t, sep);
      assert w + t == t;
      assert w + parts[0] == parts[0];
      assert [parts[0]] + parts[1..] == parts;
    } else {
      SplitAfterPlain(w[1..], t, sep);
      var rest := Split(w[1..] + t, sep);
      assert (w + t)[0] == w[0] != sep;
      assert (w + t)[1..] == w[1..] + t;
      assert Split(w + t, sep) == [[w[0]] + rest[0]] + rest[1..];
      assert [w[0]] + (w[1..] + Split(t, sep)[0]) == w + Split(t, sep)[0];
    }
  }

  /** Splitting a join of separator-free pieces gives back the pieces. */
  lemma {:induction false} SplitJoin(parts: seq<string>, sep: char)
    requires |parts| >= 1
    requires forall k :: 0 <= k < |parts| ==> sep !in parts[k]
    ensures Split(Join(parts, sep), sep) == parts
    decreases |parts|
  {
    if |parts| == 1 {
      SplitAfterPlain(parts[0], [], sep);
      assert parts[0] + [] == parts[0];
    } else {
      var tail := Join(parts[1..], sep);
      SplitJoin(parts[1..], sep);
      SplitAfterPlain(parts[0], [sep] + tail, sep);
      assert parts[0] + [sep] + tail == parts[0] + ([sep] + tail);
      assert ([sep] + tail)[1..] == tail;
      assert Split([sep] + tail, sep) == [[]] + parts[1..];
      assert parts[0] + [] == parts[0];
      assert [parts[0]] + parts[1..] == parts;
    }
  }

  /** The character for a decimal digit. */
  function Digit(d: nat): (c: char)
    requires d < 10
    ensures '0' <= c <= '9'
  {
    ('0' as int + d) as char
  }

  /** `${n}` for a non-negative integer: its decimal digits, without leading zeros. */
  function NatToString(n: nat): (s: string)
    ensures |s| >= 1
    ensures forall k :: 0 <= k < |s| ==> '0' <= s[k] <= '9'
    ensures |s| > 1 ==> s[0] != '0'
    ensures Sep !in s
    decreases n
  {
    if n < 10 then [Digit(n)] else NatToString(n / 10) + [Digit(n % 10)]
  }

  /** The value of a string of decimal digits. */
  function ParseNat(s: string): nat
    requires forall k :: 0 <= k < |s| ==> '0' <= s[k] <= '9'
    decreases |s|
  {
    if s == [] then 0
    else 10 * ParseNat(s[..|s| - 1]) + (s[|s| - 1] as int - '0' as int)
  }

  /** Reading the decimal rendering of `n` gives `n` back. */
  lemma {:induction false} ParseNatToString(n: nat)
    ensures ParseNat(NatToString(n)) == n
    decreases n
  {
    var s := NatToString(n);
    if n < 10 {
      assert s[..0] == [];
    } else {
      ParseNatToString(n / 10);
      assert s[..|s| - 1] == NatToString(n / 10);
    }
  }

  /** Distinct indices render as distinct strings. */
  lemma {:induction false} NatToStringInjective(m: nat, n: nat)
    ensures NatToString(m) == NatToString(n) <==> m == n
  {
    ParseNatToString(m);
    ParseNatToString(n);
  }

  /** The identifier of the top-level item created at index `i`. */
  function ItemId(i: nat): (id: string)
    ensures |id| > 5 && id[..5] == "item-"
    ensures forall k :: 5 <= k < |id| ==> '0' <= id[k] <= '9'
  {
    "item-" + NatToString(i)
  }

  /** The identifier of the `j`-th sub-item created under item `i`. */
  function SubItemId(i: nat, j: nat): (id: string)
    ensures |id| > 11 && id[..9] == "sub-item-"
    ensures forall k :: 9 <= k < |id| ==> '0' <= id[k] <= '9' || id[k] == Sep
  {
    "sub-item-" + NatToString(i) + "-" + NatToString(j)
  }

  /** The number of pieces `id.split("-")` gives: the drop handler's dispatch
      key. An identifier without a separator is one piece. */
  function TokenCount(id: string): (n: nat)
    ensures n >= 1
    ensures n == 1 <==> Sep !in id
  {
    JoinSplit(id, Sep);
    if Sep in id then |Split(id, Sep)|
    else
      SplitJoin([id], Sep);
      |Split(id, Sep)|
  }

  /** `item-${parts[2]}`: the item identifier the drop handler re-derives
      from the third token of a sub-item identifier; a missing third token
      renders as `undefined`. */
  function ParentItemId(id: string): (parent: string)
    ensures |parent| >= 5 && parent[..5] == "item-"
    ensures Sep !in parent[5..]
    ensures TokenCount(id) < 3 ==> parent == "item-undefined"
  {
    var parts := Split(id, Sep);
    "item-" + (if |parts| >= 3 then parts[2] else "undefined")
  }

  /** An item identifier splits into the word `item` and its index. */
  lemma {:induction false} ItemIdTokens(i: nat)
    ensures Split(ItemId(i), Sep) == ["item", NatToString(i)]
    ensures TokenCount(ItemId(i)) == 2
  {
    var parts := ["item", NatToString(i)];
    assert Join(parts, Sep) == ItemId(i) by {
      assert Join(parts[1..], Sep) == NatToString(i);
    }
    SplitJoin(parts, Sep);
  }

  /** Joining the four pieces of a sub-item identifier spells it out. */
  lemma {:induction false} JoinSubItemPieces(a: string, b: string)
    ensures Join(["sub", "item", a, b], Sep) == "sub-item-" + a + "-" + b
  {
    JoinCons(a, [b], Sep);
    JoinCons("item", [a, b], Sep);
    assert ["sub"] + ["item", a, b] == ["sub", "item", a, b];
    JoinCons("sub", ["item", a, b], Sep);
    assert "sub" + "-" + ("item" + "-" + (a + "-" + b)) == "sub-item-" + a + "-" + b;
  }

  /** A sub-item identifier splits into `sub`, `item`, the parent index and its own index. */
  lemma {:induction false} SubItemIdTokens(i: nat, j: nat)
    ensures Split(SubItemId(i, j), Sep) == ["sub", "item", NatToString(i), NatToString(j)]
    ensures TokenCount(SubItemId(i, j)) == 4
  {
    var a, b := NatToString(i), NatToString(j);
    JoinSubItemPieces(a, b);
    SplitJoin(["sub", "item", a, b], Sep);
  }

  /** The parent re-derived from a freshly built sub-item identifier is the
      item it was created under. */
  lemma {:induction false} SubItemIdParent(i: nat, j: nat)
    ensures TokenCount(SubItemId(i, j)) == 4
    ensures ParentItemId(SubItemId(i, j)) == ItemId(i)
  {
    SubItemIdTokens(i, j);
  }

  /** Item identifiers are distinct exactly when their indices are. */
  lemma {:induction false} ItemIdInjective(i: nat, i': nat)
    ensures ItemId(i) == ItemId(i') <==> i == i'
  {
    if ItemId(i) == ItemId(i') {
      ItemIdTokens(i);
      ItemIdTokens(i');
      NatToStringInjective(i, i');
    }
  }

  /** Sub-item identifiers are distinct exactly when their index pairs are. */
  lemma {:induction false} SubItemIdInjective(i: nat, j: nat, i': nat, j': nat)
    ensures SubItemId(i, j) == SubItemId(i', j') <==> i == i' && j == j'
  {
    if SubItemId(i, j) == SubItemId(i', j') {
      SubItemIdTokens(i, j);
      SubItemIdTokens(i', j');
      NatToStringInjective(i, i');
      NatToStringInjective(j, j');
    }
  }

  /** No item identifier is also a sub-item identifier: they differ in token count. */
  lemma {:induction false} ItemIdIsNotSubItemId(i: nat, a: nat, b: nat)
    ensures ItemId(i) != SubItemId(a, b)
  {
    ItemIdTokens(i);
    SubItemIdTokens(a, b);
  }
}
