/** Ordering and slicing of the lists the pages show.  The source sorts with
    comparators that never answer 0 (ties compare as "less"), so the model
    only promises what any sort with such a comparator delivers when keys
    differ: a permutation ordered by the key.  Slicing follows
    `Array.prototype.slice`, negative indices included. */
module Sorting {

  /** Non-decreasing by `key`. */
  predicate SortedBy<T>(s: seq<T>, key: T -> int)
  {
    forall i, j :: 0 <= i < j < |s| ==> key(s[i]) <= key(s[j])
  }

  /** Non-increasing by `key`. */
  predicate SortedDescBy<T>(s: seq<T>, key: T -> int)
  {
    forall i, j :: 0 <= i < j < |s| ==> key(s[i]) >= key(s[j])
  }

  function Insert<T>(x: T, s: seq<T>, key: T -> int): (r: seq<T>)
    requires SortedBy(s, key)
    ensures SortedBy(r, key)
    ensures multiset(r) == multiset(s) + multiset{x}
    ensures |r| == |s| + 1
    decreases |s|, 1
  {
    if |s| == 0 then [x]
    else if key(x) <= key(s[0]) then [x] + s
    else
      var rest := Insert(x, s[1..], key);
      assert s == [s[0]] + s[1..];
      InsertKeepsLowerBound(x, s[1..], key, key(s[0]));
      ConsSorted(s[0], rest, key);
      [s[0]] + rest
  }

  /** A head no larger than any element of a sorted tail keeps it sorted. */
  lemma ConsSorted<T>(h: T, t: seq<T>, key: T -> int)
    requires SortedBy(t, key) && forall k :: 0 <= k < |t| ==> key(h) <= key(t[k])
    ensures SortedBy([h] + t, key)
  {
    var r := [h] + t;
    forall i, j | 0 <= i < j < |r| ensures key(r[i]) <= key(r[j]) {
      if i > 0 {
        assert r[i] == t[i - 1] && r[j] == t[j - 1];
      } else {
        assert r[j] == t[j - 1];
      }
    }
  }

  /** A lower bound of `x` and of every element stays a lower bound of
      every element after the insertion. */
  lemma InsertKeepsLowerBound<T>(x: T, t: seq<T>, key: T -> int, lo: int)
    requires SortedBy(t, key)
    requires lo <= key(x) && forall k :: 0 <= k < |t| ==> lo <= key(t[k])
    ensures forall k :: 0 <= k < |Insert(x, t, key)| ==> lo <= key(Insert(x, t, key)[k])
    decreases |t|, 2
  {
    var r := Insert(x, t, key);
    forall k | 0 <= k < |r| ensures lo <= key(r[k]) {
      assert r[k] in multiset(r);
      if r[k] in multiset(t) {
        var m :| 0 <= m < |t| && t[m] == r[k];
      }
    }
  }

  /** Sorting by an integer key, ascending. */
  function Sort<T>(s: seq<T>, key: T -> int): (r: seq<T>)
    ensures SortedBy(r, key)
    ensures multiset(r) == multiset(s)
    ensures |r| == |s|
  {
    if |s| == 0 then []
    else
      assert s == [s[0]] + s[1..];
      Insert(s[0], Sort(s[1..], key), key)
  }

  /** Sorting by an integer key, descending. */
  function SortDesc<T>(s: seq<T>, key: T -> int): (r: seq<T>)
    ensures SortedDescBy(r, key)
    ensures multiset(r) == multiset(s)
    ensures |r| == |s|
  {
    var r := Sort(s, x => -key(x));
    assert forall i, j :: 0 <= i < j < |r| ==> -key(r[i]) <= -key(r[j]);
    r
  }

  /** Two orderings of the same elements by distinct keys coincide: the
      result of a sort is fixed once no two elements share a key. */
  lemma {:induction false} SortedPermutationUnique<T>(a: seq<T>, b: seq<T>, key: T -> int)
    requires multiset(a) == multiset(b)
    requires SortedBy(a, key) && SortedBy(b, key)
    requires forall i, j :: 0 <= i < j < |a| ==> key(a[i]) != key(a[j])
    ensures a == b
  {
    if |a| > 0 {
      TailsAgree(a, b, key);
      SortedPermutationUnique(a[1..], b[1..], key);
      assert a == [a[0]] + a[1..];
      assert b == [b[0]] + b[1..];
    } else {
      assert |b| == |multiset(b)| == 0;
    }
  }

  /** The heads of two such arrangements agree and their tails are again
      such arrangements. */
  lemma TailsAgree<T>(a: seq<T>, b: seq<T>, key: T -> int)
    requires |a| > 0
    requires multiset(a) == multiset(b)
    requires SortedBy(a, key) && SortedBy(b, key)
    requires forall i, j :: 0 <= i < j < |a| ==> key(a[i]) != key(a[j])
    ensures |b| > 0 && a[0] == b[0]
    ensures multiset(a[1..]) == multiset(b[1..])
    ensures SortedBy(a[1..], key) && SortedBy(b[1..], key)
    ensures forall i, j :: 0 <= i < j < |a[1..]| ==> key(a[1..][i]) != key(a[1..][j])
  {
    assert |b| == |multiset(b)| == |multiset(a)| == |a|;
    SameHead(a, b, key);
    TailOf(a, key);
    TailOf(b, key);
  }

  /** What survives dropping the head of a sorted sequence. */
  lemma TailOf<T>(a: seq<T>, key: T -> int)
    requires |a| > 0 && SortedBy(a, key)
    ensures SortedBy(a[1..], key)
    ensures multiset(a[1..]) == multiset(a) - multiset{a[0]}
    ensures (forall i, j :: 0 <= i < j < |a| ==> key(a[i]) != key(a[j])) ==>
              forall i, j :: 0 <= i < j < |a[1..]| ==> key(a[1..][i]) != key(a[1..][j])
  {
    assert a == [a[0]] + a[1..];
  }

  /** Two sorted arrangements of the same non-empty multiset with distinct
      keys start with the same element: the one of least key. */
  lemma SameHead<T>(a: seq<T>, b: seq<T>, key: T -> int)
    requires |a| > 0 && |b| > 0
    requires multiset(a) == multiset(b)
    requires SortedBy(a, key) && SortedBy(b, key)
    requires forall i, j :: 0 <= i < j < |a| ==> key(a[i]) != key(a[j])
    ensures a[0] == b[0]
  {
    assert a[0] in multiset(b);
    assert b[0] in multiset(a);
    var i :| 0 <= i < |b| && b[i] == a[0];
    var j :| 0 <= j < |a| && a[j] == b[0];
    assert key(a[j]) == key(b[0]) <= key(b[i]) == key(a[0]);
    if j != 0 {
      assert false;
    }
  }

  /** Keys that are distinct along a list stay distinct along any of its
      rearrangements. */
  lemma DistinctKeysPermuted<T>(a: seq<T>, b: seq<T>, key: T -> int)
    requires multiset(a) == multiset(b)
    requires forall i, j :: 0 <= i < j < |a| ==> key(a[i]) != key(a[j])
    ensures forall i, j :: 0 <= i < j < |b| ==> key(b[i]) != key(b[j])
  {
    forall i, j | 0 <= i < j < |b|
      ensures key(b[i]) != key(b[j])
    {
      assert b[i] in multiset(a) && b[j] in multiset(a);
      var x :| 0 <= x < |a| && a[x] == b[i];
      var y :| 0 <= y < |a| && a[y] == b[j];
      if key(b[i]) == key(b[j]) {
        assert x == y;
        TwiceCounted(b, i, j);
        OnlyOnce(a, x, key);
        assert false;
      }
    }
  }

  /** An element at two positions occurs at least twice. */
  lemma TwiceCounted<T>(b: seq<T>, i: nat, j: nat)
    requires i < j < |b| && b[i] == b[j]
    ensures multiset(b)[b[i]] >= 2
  {
    assert b == b[..i] + [b[i]] + b[i + 1..j] + [b[j]] + b[j + 1..];
  }

  /** An element whose key no other position shares occurs once. */
  lemma OnlyOnce<T>(a: seq<T>, x: nat, key: T -> int)
    requires x < |a|
    requires forall i, j :: 0 <= i < j < |a| ==> key(a[i]) != key(a[j])
    ensures multiset(a)[a[x]] == 1
  {
    assert a == a[..x] + [a[x]] + a[x + 1..];
    assert a[x] !in a[..x];
    assert a[x] !in a[x + 1..];
  }

  /** `Array.prototype.slice` index normalisation: a negative index counts
      from the end, and the result is clamped to `[0, len]`. */
  function SliceIndex(i: int, len: nat): (r: nat)
    ensures r <= len
    ensures 0 <= i <= len ==> r == i
    ensures i > len ==> r == len
    ensures i < 0 ==> r == if len + i < 0 then 0 else len + i
  {
    if i < 0 then (if len + i < 0 then 0 else len + i)
    else if i > len then len
    else i
  }

  /** `s.slice(start, end)`. */
  function JsSlice<T(==)>(s: seq<T>, start: int, end: int): (r: seq<T>)
    ensures |r| <= |s|
    ensures 0 <= start <= end ==> |r| <= end - start
    ensures SubseqContiguous(r, s)
  {
    var a := SliceIndex(start, |s|);
    var b := SliceIndex(end, |s|);
    if b <= a then
      assert s[0..0] == [];
      []
    else
      assert SubseqContiguous(s[a..b], s) by { assert s[a..b] == s[a..b]; }
      s[a..b]
  }

  /** `r` occurs in `s` as a contiguous block. */
  predicate SubseqContiguous<T(==)>(r: seq<T>, s: seq<T>)
  {
    exists a, b :: 0 <= a <= b <= |s| && r == s[a..b]
  }

  /** `s.slice(0, n)`: the first `n` elements, or all of them. */
  function Take<T(==)>(s: seq<T>, n: nat): (r: seq<T>)
    ensures |r| == if n < |s| then n else |s|
    ensures r == s[..|r|]
  {
    JsSlice(s, 0, n)
  }

  /** `ORDER BY key DESC LIMIT n`. */
  function TopBy<T(==)>(s: seq<T>, key: T -> int, n: nat): (r: seq<T>)
    ensures |r| == if n < |s| then n else |s|
    ensures SortedDescBy(r, key)
    ensures multiset(r) <= multiset(s)
    ensures |s| <= n ==> multiset(r) == multiset(s)
  {
    var t := SortDesc(s, key);
    var r := Take(t, n);
    PrefixOfSortedDesc(t, |r|, key);
    r
  }

  /** A prefix of a descending list is descending, and it and the rest
      together hold the whole list. */
  lemma PrefixOfSortedDesc<T>(t: seq<T>, k: nat, key: T -> int)
    requires k <= |t| && SortedDescBy(t, key)
    ensures SortedDescBy(t[..k], key)
    ensures multiset(t[..k]) + multiset(t[k..]) == multiset(t)
  {
    assert t == t[..k] + t[k..];
  }

  /** What `LIMIT` cuts off ranks no higher than anything it keeps. */
  lemma TopByKeepsLargest<T>(s: seq<T>, key: T -> int, n: nat, x: T)
    requires x in multiset(s) - multiset(TopBy(s, key, n))
    ensures forall k :: 0 <= k < |TopBy(s, key, n)| ==> key(x) <= key(TopBy(s, key, n)[k])
  {
    var t := SortDesc(s, key);
    var r := TopBy(s, key, n);
    assert r == t[..|r|];
    assert t == r + t[|r|..];
    assert multiset(t) == multiset(r) + multiset(t[|r|..]);
    assert x in multiset(t[|r|..]);
    var j :| 0 <= j < |t[|r|..]| && t[|r|..][j] == x;
    assert t[|r| + j] == x;
  }
}
