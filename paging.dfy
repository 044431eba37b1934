/** Page arithmetic shared by the list pages: `Array.prototype.slice`,
    the slice of one page, and the page count. */
module Paging {
  import opened Common

  /** The styles a status badge takes on the list pages. */
  datatype BadgeVariant = Default | Secondary | Destructive | Outline

  /** How `slice` reads an index: a negative one counts back from the
      end; the result is clamped to `[0, len]`. */
  function SliceIndex(i: int, len: nat): (r: nat)
    ensures r <= len
    ensures 0 <= i <= len ==> r == i
    ensures i > len ==> r == len
    ensures i < 0 ==> r == Max(len + i, 0)
  {
    if i < 0 then (if len + i < 0 then 0 else len + i)
    else if i > len then len
    else i
  }

  /** `s.slice(start, end)`. */
  function Slice<T>(s: seq<T>, start: int, end: int): (r: seq<T>)
    ensures |r| <= |s|
    ensures SliceIndex(start, |s|) < SliceIndex(end, |s|) ==>
      r == s[SliceIndex(start, |s|)..SliceIndex(end, |s|)]
    ensures SliceIndex(start, |s|) >= SliceIndex(end, |s|) ==> r == []
  {
    var a := SliceIndex(start, |s|);
    var b := SliceIndex(end, |s|);
    if a < b then s[a..b] else []
  }

  /** Page `page` (counted from 1) of `perPage` entries: the slice
      from `(page - 1) * perPage` to `page * perPage`. */
  function PageOf<T>(s: seq<T>, page: int, perPage: nat): seq<T>
  {
    Slice(s, (page - 1) * perPage, page * perPage)
  }

  /** `Math.ceil(n / perPage)`: the fewest pages that hold `n`
      entries. */
  function TotalPages(n: nat, perPage: nat): (r: nat)
    requires perPage > 0
    ensures r * perPage >= n
    ensures r > 0 ==> (r - 1) * perPage < n
    ensures r == 0 <==> n == 0
  {
    (n + perPage - 1) / perPage
  }

  /** Multiplying by a non-negative factor keeps the order. */
  lemma MulMono(x: int, y: int, k: nat)
    requires x <= y
    ensures x * k <= y * k
  {
    assert y * k == x * k + (y - x) * k;
  }

  /** A page counted from 1 is the run of entries from its first index,
      cut at the end of the list, so it holds at most `perPage` of them;
      a page past the last one is empty. */
  lemma PageContents<T>(s: seq<T>, page: int, perPage: nat)
    requires page >= 1 && perPage > 0
    ensures |PageOf(s, page, perPage)| <= perPage
    ensures (page - 1) * perPage < |s| ==>
      PageOf(s, page, perPage) == s[(page - 1) * perPage..Min(page * perPage, |s|)]
    ensures (page - 1) * perPage >= |s| ==> PageOf(s, page, perPage) == []
    ensures PageOf(s, page, perPage) != [] <==> page <= TotalPages(|s|, perPage)
  {
    var first := (page - 1) * perPage;
    var past := page * perPage;
    MulMono(0, page - 1, perPage);
    assert past == first + perPage;
    var n := TotalPages(|s|, perPage);
    if page <= n {
      MulMono(page - 1, n - 1, perPage);
      assert first < |s|;
    } else {
      MulMono(n, page - 1, perPage);
      assert first >= |s|;
    }
  }

  /** A prefix is a shorter prefix followed by the entries between. */
  lemma SplitAt<T>(s: seq<T>, lo: nat, hi: nat)
    requires lo <= hi <= |s|
    ensures s[..hi] == s[..lo] + s[lo..hi]
  {
  }

  /** Pages 1 to `n` laid end to end. */
  function PagesUpTo<T>(s: seq<T>, n: nat, perPage: nat): seq<T>
  {
    if n == 0 then [] else PagesUpTo(s, n - 1, perPage) + PageOf(s, n, perPage)
  }

  /** The first `n` pages are the first `n * perPage` entries, in
      order. */
  lemma {:induction false} PagesUpToPrefix<T>(s: seq<T>, n: nat, perPage: nat)
    requires perPage > 0
    ensures PagesUpTo(s, n, perPage) == s[..Min(n * perPage, |s|)]
  {
    if n > 0 {
      PagesUpToPrefix(s, n - 1, perPage);
      PageContents(s, n, perPage);
      var first := (n - 1) * perPage;
      var past := n * perPage;
      assert past == first + perPage;
      MulMono(0, n - 1, perPage);
      var lo := Min(first, |s|);
      var hi := Min(past, |s|);
      assert 0 <= lo <= hi <= |s|;
      SplitAt(s, lo, hi);
    }
  }

  /** Pages 1 to `TotalPages` hold every entry exactly once, in list
      order. */
  lemma PagesCoverList<T>(s: seq<T>, perPage: nat)
    requires perPage > 0
    ensures PagesUpTo(s, TotalPages(|s|, perPage), perPage) == s
  {
    PagesUpToPrefix(s, TotalPages(|s|, perPage), perPage);
    assert s[..|s|] == s;
  }
}
