/**
 * The page window of the generation listing: page `p` of size `n` is the
 * slice `[(p - 1) * n, (p - 1) * n + n)` of the name list, with the slice
 * clamped to the list's length as a Python slice is.
 */
module Pagination {
  import opened Math

  /** A slice `s[start:end]` for non-negative bounds: both bounds are clamped to the length. */
  function Slice<T>(s: seq<T>, start: nat, end: nat): (r: seq<T>)
    ensures |r| == Max(0, Min(end, |s|) - start)
    ensures forall i :: 0 <= i < |r| ==> r[i] == s[start + i]
  {
    var lo := Min(start, |s|);
    var hi := Max(lo, Min(end, |s|));
    s[lo..hi]
  }

  /** Where page `page` of size `pageSize` starts in the list. */
  function PageStart(page: int, pageSize: int): nat
    requires page >= 1 && pageSize >= 1
  {
    (page - 1) * pageSize
  }

  /** One page of the listing; the bounds are the ones the endpoint's query parameters admit. */
  function Page<T>(names: seq<T>, page: int, pageSize: int): (r: seq<T>)
    requires page >= 1 && 1 <= pageSize <= 100
    ensures |r| == Max(0, Min(pageSize, |names| - PageStart(page, pageSize)))
    ensures |r| <= pageSize
    ensures forall i :: 0 <= i < |r| ==> r[i] == names[PageStart(page, pageSize) + i]
    ensures PageStart(page, pageSize) >= |names| ==> r == []
  {
    var start := PageStart(page, pageSize);
    Slice(names, start, start + pageSize)
  }

  /** Two slices that meet make one slice. */
  lemma SliceAppend<T>(s: seq<T>, a: nat, b: nat, c: nat)
    requires a <= b <= c
    ensures Slice(s, a, b) + Slice(s, b, c) == Slice(s, a, c)
  {
    var l, r, w := Slice(s, a, b), Slice(s, b, c), Slice(s, a, c);
    assert |l + r| == |w|;
    forall i | 0 <= i < |w| ensures (l + r)[i] == w[i] {
      if i >= |l| {
        assert |l| == b - a;
      }
    }
  }

  /** The next page starts one page size further on. */
  lemma NextPageStart(page: int, pageSize: int)
    requires page >= 1 && pageSize >= 1
    ensures PageStart(page + 1, pageSize) == PageStart(page, pageSize) + pageSize
  {
    assert page * pageSize == (page - 1) * pageSize + pageSize;
  }

  /** Page `p + 1` starts where page `p` ends: together they are one window twice as long. */
  lemma PagesAdjacent<T>(names: seq<T>, page: int, pageSize: int)
    requires page >= 1 && 1 <= pageSize <= 100
    ensures Page(names, page, pageSize) + Page(names, page + 1, pageSize)
         == Slice(names, PageStart(page, pageSize), PageStart(page, pageSize) + 2 * pageSize)
  {
    var start := PageStart(page, pageSize);
    NextPageStart(page, pageSize);
    SliceAppend(names, start, start + pageSize, start + 2 * pageSize);
  }

  /** The pages 1 to `count`, one after the other. */
  function FirstPages<T>(names: seq<T>, count: nat, pageSize: int): seq<T>
    requires 1 <= pageSize <= 100
  {
    if count == 0 then [] else FirstPages(names, count - 1, pageSize) + Page(names, count, pageSize)
  }

  /** Reading the first `count` pages in order reads the list's first `count * pageSize` names, no more, no less. */
  lemma {:induction false} FirstPagesArePrefix<T>(names: seq<T>, count: nat, pageSize: int)
    requires 1 <= pageSize <= 100
    ensures FirstPages(names, count, pageSize) == names[..Min(count * pageSize, |names|)]
  {
    if count == 0 {
      assert Min(count * pageSize, |names|) == 0;
    } else {
      FirstPagesArePrefix(names, count - 1, pageSize);
      var before := PageStart(count, pageSize);
      NextPageStart(count, pageSize);
      assert before == (count - 1) * pageSize;
      assert PageStart(count + 1, pageSize) == count * pageSize;
      SliceAppend(names, 0, before, before + pageSize);
      assert names[..Min(before, |names|)] == Slice(names, 0, before);
      assert names[..Min(count * pageSize, |names|)] == Slice(names, 0, before + pageSize);
    }
  }

  /** Name `j` of the list is entry `j % pageSize` of page `j / pageSize + 1`. */
  lemma PageOf<T>(names: seq<T>, j: nat, pageSize: int)
    requires j < |names| && 1 <= pageSize <= 100
    ensures j % pageSize < |Page(names, j / pageSize + 1, pageSize)|
    ensures Page(names, j / pageSize + 1, pageSize)[j % pageSize] == names[j]
  {
    assert PageStart(j / pageSize + 1, pageSize) == (j / pageSize) * pageSize;
    assert (j / pageSize) * pageSize + j % pageSize == j;
  }
}
