/**
 * The JavaScript array operations the store and the drag resolver use, on
 * sequences: `splice` for one insertion or one removal, `filter` by
 * inequality, and `indexOf`.
 */
module SeqOps {

  /**
   * The position at which `splice(start, ...)` acts on an array of length
   * `len`: a negative start counts back from the end, and the result is
   * clamped to [0, len].
   */
  function SpliceStart(start: int, len: nat): (k: nat)
    ensures k <= len
    ensures 0 <= start <= len ==> k == start
    ensures start < 0 ==> k == if len + start < 0 then 0 else len + start
    ensures start > len ==> k == len
  {
    if start < 0 then (if len + start < 0 then 0 else len + start)
    else if start > len then len
    else start
  }

  /** `s.splice(start, 0, x)` on a copy of `s`: `x` sits at the splice position, the rest keep their order. */
  function InsertAt<T>(s: seq<T>, start: int, x: T): (r: seq<T>)
    ensures |r| == |s| + 1
    ensures multiset(r) == multiset(s) + multiset{x}
    ensures forall a :: 0 <= a < |r| ==>
      r[a] == if a < SpliceStart(start, |s|) then s[a] else if a == SpliceStart(start, |s|) then x else s[a - 1]
  {
    var k := SpliceStart(start, |s|);
    assert s == s[..k] + s[k..];
    s[..k] + [x] + s[k..]
  }

  /** Splicing at the length appends. */
  lemma InsertAtEnd<T>(s: seq<T>, x: T)
    ensures InsertAt(s, |s|, x) == s + [x]
  {
    assert s[..|s|] == s && s[|s|..] == [];
  }

  /** `s.splice(i, 1)` on a copy of `s`, for an index in range: the others close up in order. */
  function RemoveAt<T>(s: seq<T>, i: nat): (r: seq<T>)
    requires i < |s|
    ensures |r| == |s| - 1
    ensures multiset(r) == multiset(s) - multiset{s[i]}
    ensures forall a :: 0 <= a < |r| ==> r[a] == if a < i then s[a] else s[a + 1]
  {
    assert s == s[..i] + [s[i]] + s[i + 1..];
    s[..i] + s[i + 1..]
  }

  /** Removing an element and inserting it back where it was is the identity. */
  lemma RemoveInsertRoundTrip<T>(s: seq<T>, i: nat)
    requires i < |s|
    ensures InsertAt(RemoveAt(s, i), i, s[i]) == s
  {
  }

  /** Where the element at position `a` of a moved sequence came from, with `k` the insertion position. */
  function MoveSource(a: nat, from: nat, k: nat): nat
  {
    if a == k then from
    else
      var b := if a < k then a else a - 1;
      if b < from then b else b + 1
  }

  /**
   * Removes the element at `from` and inserts it again at `to`, as the two
   * `splice` calls of a reorder do: a permutation that puts `s[from]` at the
   * splice position.
   */
  function MoveItem<T>(s: seq<T>, from: nat, to: int): (r: seq<T>)
    requires from < |s|
    ensures |r| == |s|
    ensures multiset(r) == multiset(s)
    ensures r[SpliceStart(to, |s| - 1)] == s[from]
    ensures 0 <= to < |s| ==> r[to] == s[from]
    ensures forall a :: 0 <= a < |s| ==>
      MoveSource(a, from, SpliceStart(to, |s| - 1)) < |s| && r[a] == s[MoveSource(a, from, SpliceStart(to, |s| - 1))]
  {
    var r := InsertAt(RemoveAt(s, from), to, s[from]);
    MoveItemPointwise(s, from, to);
    assert multiset(r) == multiset(s) by {
      assert s[from] in multiset(s);
    }
    r
  }

  lemma MoveItemPointwise<T>(s: seq<T>, from: nat, to: int)
    requires from < |s|
    ensures var r := InsertAt(RemoveAt(s, from), to, s[from]);
      var k := SpliceStart(to, |s| - 1);
      forall a :: 0 <= a < |s| ==> MoveSource(a, from, k) < |s| && r[a] == s[MoveSource(a, from, k)]
  {
    var t := RemoveAt(s, from);
    var k := SpliceStart(to, |t|);
    var r := InsertAt(t, to, s[from]);
    forall a | 0 <= a < |s| ensures MoveSource(a, from, k) < |s| && r[a] == s[MoveSource(a, from, k)] {
      if a < k {
        assert r[a] == t[a];
      } else if a > k {
        assert r[a] == t[a - 1];
      }
    }
  }

  /** The elements a move does not pick up keep their relative order. */
  lemma MoveItemKeepsOthers<T>(s: seq<T>, from: nat, to: int)
    requires from < |s|
    ensures RemoveAt(MoveItem(s, from, to), SpliceStart(to, |s| - 1)) == RemoveAt(s, from)
  {
    assert MoveItem(s, from, to) == InsertAt(RemoveAt(s, from), to, s[from]);
    InsertRemoveRoundTrip(RemoveAt(s, from), to, s[from]);
  }

  /** Removing what was just inserted, at the position it was inserted, is the identity. */
  lemma InsertRemoveRoundTrip<T>(t: seq<T>, to: int, x: T)
    ensures RemoveAt(InsertAt(t, to, x), SpliceStart(to, |t|)) == t
  {
    var k := SpliceStart(to, |t|);
    var u := InsertAt(t, to, x);
    var r := RemoveAt(u, k);
    forall a | 0 <= a < |t| ensures r[a] == t[a] {
      if a < k {
        assert r[a] == u[a];
      } else {
        assert r[a] == u[a + 1];
      }
    }
  }

  /** `s.filter(y => y !== x)`. */
  function Without<T(==)>(s: seq<T>, x: T): (r: seq<T>)
    ensures multiset(r) == multiset(s)[x := 0]
    ensures x !in r
    ensures |r| <= |s|
  {
    if s == [] then []
    else
      assert s == [s[0]] + s[1..];
      (if s[0] == x then [] else [s[0]]) + Without(s[1..], x)
  }

  lemma ConcatAssoc<T>(p: seq<T>, q: seq<T>, r: seq<T>)
    ensures p + (q + r) == (p + q) + r
  {
  }

  /** Filtering keeps the relative order of what it keeps: it distributes over concatenation. */
  lemma {:induction false} WithoutConcat<T>(a: seq<T>, b: seq<T>, x: T)
    ensures Without(a + b, x) == Without(a, x) + Without(b, x)
  {
    if a == [] {
      assert a + b == b;
    } else {
      var head := if a[0] == x then [] else [a[0]];
      assert (a + b)[0] == a[0];
      assert (a + b)[1..] == a[1..] + b;
      assert Without(a + b, x) == head + Without(a[1..] + b, x);
      assert Without(a, x) == head + Without(a[1..], x);
      WithoutConcat(a[1..], b, x);
      ConcatAssoc(head, Without(a[1..], x), Without(b, x));
    }
  }

  /** Filtering out an element that does not occur changes nothing. */
  lemma {:induction false} WithoutAbsent<T>(s: seq<T>, x: T)
    requires x !in s
    ensures Without(s, x) == s
  {
    if s != [] {
      WithoutAbsent(s[1..], x);
    }
  }

  /** `s.indexOf(x)`: the first position of `x`, or -1. */
  function IndexOf<T(==)>(s: seq<T>, x: T): (r: int)
    ensures -1 <= r < |s|
    ensures r == -1 <==> x !in s
    ensures r >= 0 ==> s[r] == x && x !in s[..r]
  {
    if s == [] then -1
    else if s[0] == x then 0
    else
      var r := IndexOf(s[1..], x);
      assert r >= 0 ==> s[..r + 1] == [s[0]] + s[1..][..r];
      if r == -1 then -1 else r + 1
  }
}
