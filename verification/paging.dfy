/** The pagination every list page repeats: `Math.ceil(n / size)` pages,
    the page slice `(page - 1) * size .. page * size`, and the row of page
    links from two before to two after the current page. */
module Paging {
  import Sorting

  /** `Math.ceil(n / size)`. */
  function TotalPages(n: nat, size: nat): (p: nat)
    requires size > 0
    ensures p * size >= n
    ensures n > 0 ==> (p - 1) * size < n
    ensures n == 0 <==> p == 0
  {
    (n + size - 1) / size
  }

  /** `list.slice((page - 1) * size, (page - 1) * size + size)`. */
  function Page<T(==)>(s: seq<T>, page: int, size: nat): (r: seq<T>)
    ensures |r| <= size
    ensures page >= 1 && (page - 1) * size <= |s| ==>
      r == s[(page - 1) * size .. if page * size < |s| then page * size else |s|]
  {
    var start := (page - 1) * size;
    Sorting.JsSlice(s, start, start + size)
  }

  /** Every element is on exactly the page its position says, and that
      page is one of the `TotalPages` pages. */
  lemma OnItsPage<T>(s: seq<T>, size: nat, k: nat)
    requires size > 0 && k < |s|
    ensures 1 <= k / size + 1 <= TotalPages(|s|, size)
    ensures var page := Page(s, k / size + 1, size);
      k % size < |page| && page[k % size] == s[k]
  {
    var q := k / size;
    PageStart(k, size);
    DivAtLeast(q + 1, |s| + size - 1, size);
    OnPageFrom(s, size, q * size, q, k);
  }

  /** Page `q + 1` starts at `start == q * size`, so a position from there
      to `size` further sits at its offset on that page. */
  lemma OnPageFrom<T>(s: seq<T>, size: nat, start: int, q: int, k: nat)
    requires size > 0 && k < |s| && q >= 0
    requires start == q * size && start <= k < start + size
    ensures var page := Page(s, q + 1, size);
      k - start < |page| && page[k - start] == s[k]
  {
    NextPage(q, size);
    var page := Page(s, q + 1, size);
    assert page == s[start .. if start + size < |s| then start + size else |s|];
  }

  /** Position `k` lies on the page that starts at `k - k % size`. */
  lemma PageStart(k: nat, size: nat)
    requires size > 0
    ensures (k / size) * size == k - k % size
    ensures (k / size) * size <= k < (k / size) * size + size
  {
  }

  /** Page `q + 1` starts at `q * size` and ends `size` later. */
  lemma NextPage(q: int, size: nat)
    ensures (q + 1 - 1) * size == q * size
    ensures (q + 1) * size == q * size + size
  {
  }

  /** `a` pages of `size` fit in `b` only if `b / size` is at least `a`. */
  lemma DivAtLeast(a: nat, b: nat, size: nat)
    requires size > 0 && a * size <= b
    ensures a <= b / size
  {
    var d := b / size;
    assert b == d * size + b % size;
    if d < a {
      MulMonotonic(d + 1, a, size);
      assert false;
    }
  }

  lemma {:induction false} MulMonotonic(x: nat, y: nat, z: nat)
    requires x <= y
    ensures x * z <= y * z
    decreases y - x
  {
    if x < y {
      MulMonotonic(x, y - 1, z);
      assert y * z == (y - 1) * z + z;
    }
  }

  /** `renderPagination(totalPages)`: nothing for a single page; otherwise
      the numbers from two before to two after the current page, clipped
      to 1 and `total`. */
  function PageWindow(current: int, total: int): (r: seq<int>)
    ensures total <= 1 ==> r == []
    ensures |r| <= 5
    ensures forall k :: 0 <= k < |r| ==> 1 <= r[k] <= total
    ensures forall k :: 0 <= k < |r| ==> r[k] == r[0] + k
    ensures total > 1 && 1 <= current <= total ==> current in r
    ensures forall p :: p in r <==>
      total > 1 && 1 <= p <= total && current - 2 <= p <= current + 2
    ensures total > 1 && |r| > 0 ==>
      r[0] == (if current - 2 > 1 then current - 2 else 1)
      && r[|r| - 1] == (if current + 2 < total then current + 2 else total)
    ensures total > 1 && 1 <= current <= total ==> |r| > 0
  {
    if total <= 1 then []
    else
      var first := if current - 2 > 1 then current - 2 else 1;
      var last := if current + 2 < total then current + 2 else total;
      if last < first then []
      else
        var w := seq(last - first + 1, k requires 0 <= k < last - first + 1 => first + k);
        assert forall p :: first <= p <= last ==> p in w by {
          forall p | first <= p <= last ensures p in w {
            assert w[p - first] == p;
          }
        }
        w
  }
}
