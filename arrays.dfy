/** The JavaScript array operations the reconciler is built from —
    `findIndex`, `splice` and `filter` — over immutable sequences, and a
    reference definition of moving one element to another index. */
module Arrays {
  import opened Wrappers

  /** `s.findIndex(p)`: the first index whose element satisfies `p`, or -1
      when there is none. */
  function FindIndex<T>(s: seq<T>, p: T -> bool): (r: int)
    ensures -1 <= r < |s|
    ensures 0 <= r ==> p(s[r])
    ensures forall k :: 0 <= k < |s| && (r < 0 || k < r) ==> !p(s[k])
    decreases |s|
  {
    if s == [] then -1
    else if p(s[0]) then 0
    else
      var r := FindIndex(s[1..], p);
      if r < 0 then -1 else r + 1
  }

  /** The position `splice(start, …)` acts at: a negative `start` counts
      back from the end (but not past the front), a large one stops at the end. */
  function SpliceStart(start: int, len: nat): (k: nat)
    ensures k <= len
    ensures 0 <= start <= len ==> k == start
    ensures -(len as int) <= start < 0 ==> k == len + start
  {
    if start < 0 then (if len + start < 0 then 0 else len + start)
    else if start > len then len
    else start
  }

  /** The sequence without its element at index `k`. */
  function RemoveAt<T>(s: seq<T>, k: nat): (r: seq<T>)
    requires k < |s|
    ensures |r| == |s| - 1
    ensures multiset(r) + multiset{s[k]} == multiset(s)
  {
    assert s == s[..k] + [s[k]] + s[k + 1..];
    s[..k] + s[k + 1..]
  }

  /** Removing a later element commutes with taking the first one off. */
  lemma {:induction false} RemoveAtTail<T>(s: seq<T>, k: nat)
    requires 0 < k < |s|
    ensures RemoveAt(s, k) == [s[0]] + RemoveAt(s[1..], k - 1)
  {
    assert s[1..][..k - 1] == s[1..k];
    assert s[1..][k..] == s[k + 1..];
    assert s[..k] == [s[0]] + s[1..k];
  }

  /** The sequence with `x` inserted so that it sits at index `k`. */
  function InsertAt<T>(s: seq<T>, k: nat, x: T): (r: seq<T>)
    requires k <= |s|
    ensures |r| == |s| + 1 && r[k] == x
    ensures multiset(r) == multiset(s) + multiset{x}
  {
    assert s == s[..k] + s[k..];
    s[..k] + [x] + s[k..]
  }

  /** Inserting at index 0 puts the element in front. */
  lemma {:induction false} InsertAtFront<T>(s: seq<T>, x: T)
    ensures InsertAt(s, 0, x) == [x] + s
  {
    assert s[..0] == [] && s[0..] == s;
  }

  /** `const [x] = s.splice(start, 1)`: what is left of `s`, and the element
      taken out (`None`, JavaScript's `undefined`, when nothing was). */
  function SpliceOut<T>(s: seq<T>, start: int): (r: (seq<T>, Option<T>))
    ensures r.1.None? ==> r.0 == s
    ensures r.1.Some? ==> multiset(r.0) + multiset{r.1.value} == multiset(s)
    ensures 0 <= start < |s| ==> r == (RemoveAt(s, start), Some(s[start]))
  {
    var k := SpliceStart(start, |s|);
    if k < |s| then (RemoveAt(s, k), Some(s[k])) else (s, None)
  }

  /** `s.splice(start, 0, x)`: `x` inserted at the position `start` selects. */
  function SpliceIn<T>(s: seq<T>, start: int, x: T): (r: seq<T>)
    ensures multiset(r) == multiset(s) + multiset{x}
    ensures 0 <= start <= |s| ==> r == InsertAt(s, start, x)
  {
    InsertAt(s, SpliceStart(start, |s|), x)
  }

  /** Reference definition of moving the element at `from` to index `to`:
      it ends at `to`, and the elements between the two indices shift one
      place towards `from` to make room. */
  function ArrayMove<T>(s: seq<T>, from: nat, to: nat): (r: seq<T>)
    requires from < |s| && to < |s|
    ensures |r| == |s|
  {
    seq(|s|, m requires 0 <= m < |s| =>
      if m == to then s[from]
      else if from <= m < to then s[m + 1]
      else if to < m <= from then s[m - 1]
      else s[m])
  }

  /** Taking the element out at `from` and putting it back at `to`, as the
      drop handler's two splices do, is the reference move. */
  lemma {:induction false} SpliceMoveIsArrayMove<T>(s: seq<T>, from: nat, to: nat)
    requires from < |s| && to < |s|
    ensures SpliceOut(s, from) == (RemoveAt(s, from), Some(s[from]))
    ensures SpliceIn(RemoveAt(s, from), to, s[from]) == ArrayMove(s, from, to)
  {
    var r := InsertAt(RemoveAt(s, from), to, s[from]);
    var m := ArrayMove(s, from, to);
    assert |r| == |m|;
    forall k | 0 <= k < |r|
      ensures r[k] == m[k]
    {
      if k < to {
        assert r[k] == RemoveAt(s, from)[k];
      } else if k > to {
        assert r[k] == RemoveAt(s, from)[k - 1];
      }
    }
  }

  /** A move loses and duplicates nothing. */
  lemma {:induction false} ArrayMovePermutes<T>(s: seq<T>, from: nat, to: nat)
    requires from < |s| && to < |s|
    ensures multiset(ArrayMove(s, from, to)) == multiset(s)
  {
    SpliceMoveIsArrayMove(s, from, to);
  }

  /** After a move the element sits at `to`, and taking it out again leaves
      the others in their original relative order. */
  lemma {:induction false} ArrayMoveKeepsOthersInOrder<T>(s: seq<T>, from: nat, to: nat)
    requires from < |s| && to < |s|
    ensures ArrayMove(s, from, to)[to] == s[from]
    ensures RemoveAt(ArrayMove(s, from, to), to) == RemoveAt(s, from)
  {
    SpliceMoveIsArrayMove(s, from, to);
    var rest := RemoveAt(s, from);
    assert InsertAt(rest, to, s[from])[..to] == rest[..to];
    assert InsertAt(rest, to, s[from])[to + 1..] == rest[to..];
    assert rest == rest[..to] + rest[to..];
  }

  /** No element occurs at two positions. */
  predicate NoDuplicates<T(==)>(s: seq<T>)
  {
    forall i, j :: 0 <= i < j < |s| ==> s[i] != s[j]
  }

  /** A sequence without duplicates holds each value at most once. */
  lemma {:induction false} NoDuplicatesCount<T>(s: seq<T>, x: T)
    requires NoDuplicates(s)
    ensures multiset(s)[x] <= 1
    decreases |s|
  {
    if s != [] {
      assert s == [s[0]] + s[1..];
      NoDuplicatesTail(s);
      NoDuplicatesCount(s[1..], x);
    }
  }

  /** Without its first element a sequence without duplicates still has
      none, and no longer holds that element. */
  lemma {:induction false} NoDuplicatesTail<T>(s: seq<T>)
    requires NoDuplicates(s) && s != []
    ensures NoDuplicates(s[1..]) && s[0] !in s[1..]
  {
    forall i, j | 0 <= i < j < |s| - 1
      ensures s[1..][i] != s[1..][j]
    {
      assert s[1..][i] == s[i + 1] && s[1..][j] == s[j + 1];
    }
    forall k | 0 <= k < |s| - 1
      ensures s[1..][k] != s[0]
    {
      assert s[1..][k] == s[k + 1];
    }
  }

  /** A value at two positions occurs at least twice. */
  lemma {:induction false} TwoPositionsCount<T>(s: seq<T>, i: nat, j: nat)
    requires i < j < |s| && s[i] == s[j]
    ensures multiset(s)[s[i]] >= 2
  {
    assert s == s[..j] + s[j..];
    assert s[i] in s[..j];
    assert s[j] in s[j..];
  }

  /** Reordering a sequence without duplicates leaves none. */
  lemma {:induction false} PermutationKeepsNoDuplicates<T>(a: seq<T>, b: seq<T>)
    requires multiset(a) == multiset(b) && NoDuplicates(a)
    ensures NoDuplicates(b)
  {
    forall i, j | 0 <= i < j < |b|
      ensures b[i] != b[j]
    {
      if b[i] == b[j] {
        TwoPositionsCount(b, i, j);
        NoDuplicatesCount(a, b[i]);
      }
    }
  }

  /** Two sequences joined have no duplicates exactly when neither has and
      they share no value. */
  lemma {:induction false} NoDuplicatesAppend<T>(a: seq<T>, b: seq<T>)
    ensures NoDuplicates(a + b) <==>
      NoDuplicates(a) && NoDuplicates(b) && forall x :: x in a ==> x !in b
  {
    var ab := a + b;
    if NoDuplicates(ab) {
      forall i, j | 0 <= i < j < |b| ensures b[i] != b[j] {
        assert ab[|a| + i] == b[i] && ab[|a| + j] == b[j];
      }
      forall x | x in a ensures x !in b {
        var i :| 0 <= i < |a| && a[i] == x;
        assert ab[i] == x;
        forall j | 0 <= j < |b| ensures b[j] != x {
          assert ab[|a| + j] == b[j];
        }
      }
      forall i, j | 0 <= i < j < |a| ensures a[i] != a[j] {
        assert ab[i] == a[i] && ab[j] == a[j];
      }
    }
    if NoDuplicates(a) && NoDuplicates(b) && forall x :: x in a ==> x !in b {
      forall i, j | 0 <= i < j < |ab| ensures ab[i] != ab[j] {
        if j < |a| {
          assert ab[i] == a[i] && ab[j] == a[j];
        } else if i >= |a| {
          assert ab[i] == b[i - |a|] && ab[j] == b[j - |a|];
        } else {
          assert ab[i] == a[i] && ab[j] == b[j - |a|];
          assert a[i] in a && b[j - |a|] in b;
        }
      }
      assert NoDuplicates(ab);
    }
  }
}
