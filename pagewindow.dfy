/**
 * The page-number strip of the front end's pagination control
 * (frontend/src/components/common/Pagination.jsx): which page numbers are
 * shown around the current page, where an ellipsis stands for skipped pages,
 * and what clicking a number or the previous/next arrows asks for.
 * JavaScript numbers are modelled as integers; `undefined` for the
 * previous page is 0, which JavaScript also reads as false.
 */
module PageWindow {
  import opened Wrappers

  /** Pages shown on either side of the current one. */
  const Delta: int := 1

  /** An entry of the strip: a page number or the '...' marker. */
  datatype Entry = Page(n: int) | Dots

  /** Page `i` is always shown when it is the first, the last or within `Delta` of the current page. */
  predicate Kept(i: int, current: int, total: int)
  {
    i == 1 || i == total || (current - Delta <= i && i <= current + Delta)
  }

  /** The kept pages among 1..k, in increasing order. */
  function KeptUpTo(current: int, total: int, k: int): seq<int>
    decreases if k < 1 then 0 else k
  {
    if k < 1 then [] else KeptUpTo(current, total, k - 1) + (if Kept(k, current, total) then [k] else [])
  }

  /** What the second pass adds for page `i` when the previous kept page is `l`. */
  function Step(l: int, i: int): seq<Entry>
  {
    (if i - l == 2 then [Page(l + 1)] else if i - l != 1 then [Dots] else []) + [Page(i)]
  }

  /** The kept pages with the gaps between them filled in or marked. */
  function Dotted(s: seq<int>): seq<Entry>
    decreases |s|
  {
    if |s| == 0 then []
    else if |s| == 1 then [Page(s[0])]
    else Dotted(s[..|s| - 1]) + Step(s[|s| - 2], s[|s| - 1])
  }

  /** The strip `getPageNumbers` returns. */
  function PageNumbers(current: int, total: int): seq<Entry>
  {
    Dotted(KeptUpTo(current, total, total))
  }

  predicate Increasing(s: seq<int>)
  {
    forall a, b :: 0 <= a < b < |s| ==> s[a] < s[b]
  }

  /**
   * Entry `j` sits well in the strip: an ellipsis is between two numbers that
   * are more than two apart, and a number followed by a number is followed by
   * the next one.
   */
  predicate WellPlaced(d: seq<Entry>, j: int)
    requires 0 <= j < |d|
  {
    if d[j].Dots? then
      0 < j < |d| - 1 && d[j - 1].Page? && d[j + 1].Page? && d[j + 1].n > d[j - 1].n + 2
    else
      j + 1 < |d| && d[j + 1].Page? ==> d[j + 1].n == d[j].n + 1
  }

  predicate WellFormed(d: seq<Entry>)
  {
    forall j :: 0 <= j < |d| ==> WellPlaced(d, j)
  }

  /** `getPageNumbers`: one loop collects the kept pages, a second fills or marks the gaps. */
  method GetPageNumbers(currentPage: int, totalPages: int) returns (rangeWithDots: seq<Entry>)
    ensures rangeWithDots == PageNumbers(currentPage, totalPages)
  {
    var range := CollectKept(currentPage, totalPages);
    KeptPositive(currentPage, totalPages, totalPages);
    rangeWithDots := FillGaps(range);
  }

  /** The first loop of `getPageNumbers`: the kept pages among 1..totalPages. */
  method CollectKept(currentPage: int, totalPages: int) returns (range: seq<int>)
    ensures range == KeptUpTo(currentPage, totalPages, totalPages)
  {
    range := [];
    var i := 1;
    while i <= totalPages
      invariant 1 <= i && (totalPages >= 1 ==> i <= totalPages + 1) && (totalPages < 1 ==> i == 1)
      invariant range == KeptUpTo(currentPage, totalPages, i - 1)
    {
      if i == 1 || i == totalPages || (i >= currentPage - Delta && i <= currentPage + Delta) {
        range := range + [i];
      }
      i := i + 1;
    }
  }

  /**
   * The second loop of `getPageNumbers`: `l` is the previous page, unset
   * (0) before the first one.
   */
  method FillGaps(range: seq<int>) returns (rangeWithDots: seq<Entry>)
    requires forall a :: 0 <= a < |range| ==> range[a] >= 1
    ensures rangeWithDots == Dotted(range)
  {
    rangeWithDots := [];
    var l := 0;
    var k := 0;
    while k < |range|
      invariant 0 <= k <= |range|
      invariant l == if k == 0 then 0 else range[k - 1]
      invariant rangeWithDots == Dotted(range[..k])
    {
      var p := range[k];
      if l != 0 {
        if p - l == 2 {
          rangeWithDots := rangeWithDots + [Page(l + 1)];
        } else if p - l != 1 {
          rangeWithDots := rangeWithDots + [Dots];
        }
      }
      rangeWithDots := rangeWithDots + [Page(p)];
      l := p;
      assert range[..k + 1][..k] == range[..k];
      k := k + 1;
    }
    assert range[..k] == range;
  }

  /** Exactly the kept pages among 1..k are collected. */
  lemma {:induction false} KeptMembers(current: int, total: int, k: int, x: int)
    ensures x in KeptUpTo(current, total, k) <==> 1 <= x <= k && Kept(x, current, total)
    decreases if k < 1 then 0 else k
  {
    if k >= 1 {
      KeptMembers(current, total, k - 1, x);
    }
  }

  /** Every collected page is at least 1. */
  lemma KeptPositive(current: int, total: int, k: int)
    ensures forall a :: 0 <= a < |KeptUpTo(current, total, k)| ==> KeptUpTo(current, total, k)[a] >= 1
  {
    var s := KeptUpTo(current, total, k);
    forall a | 0 <= a < |s|
      ensures s[a] >= 1
    {
      KeptMembers(current, total, k, s[a]);
    }
  }

  /** The collected pages strictly increase. */
  lemma {:induction false} KeptIncreasing(current: int, total: int, k: int)
    ensures Increasing(KeptUpTo(current, total, k))
    decreases if k < 1 then 0 else k
  {
    if k >= 1 {
      var s := KeptUpTo(current, total, k - 1);
      KeptIncreasing(current, total, k - 1);
      forall a | 0 <= a < |s|
        ensures s[a] < k
      {
        KeptMembers(current, total, k - 1, s[a]);
      }
    }
  }

  /** The strip starts with the first kept page and ends with the last. */
  lemma {:induction false} DottedEnds(s: seq<int>)
    requires |s| >= 1
    ensures |Dotted(s)| >= 1
    ensures Dotted(s)[0] == Page(s[0])
    ensures Dotted(s)[|Dotted(s)| - 1] == Page(s[|s| - 1])
    decreases |s|
  {
    if |s| > 1 {
      DottedEnds(s[..|s| - 1]);
    }
  }

  /** Every kept page appears as a number in the strip. */
  lemma {:induction false} DottedKeepsPages(s: seq<int>)
    ensures forall x :: x in s ==> Page(x) in Dotted(s)
    decreases |s|
  {
    if |s| > 1 {
      var t := s[..|s| - 1];
      DottedKeepsPages(t);
      forall x | x in s
        ensures Page(x) in Dotted(s)
      {
        if x != s[|s| - 1] {
          var a :| 0 <= a < |s| && s[a] == x;
          assert t[a] == x;
        }
      }
    }
  }

  /** A number in the strip is a kept page or the one page between two kept pages. */
  lemma {:induction false} DottedPagesFromRange(s: seq<int>)
    ensures forall e :: e in Dotted(s) && e.Page? ==> e.n in s || (e.n - 1 in s && e.n + 1 in s)
    decreases |s|
  {
    if |s| > 1 {
      var t := s[..|s| - 1];
      DottedPagesFromRange(t);
      forall x | x in t
        ensures x in s
      {
        var a :| 0 <= a < |t| && t[a] == x;
        assert s[a] == x;
      }
    }
  }

  /** Over increasing pages, every ellipsis stands for more than one page and numbers next to each other are consecutive. */
  lemma {:induction false} DottedWellFormed(s: seq<int>)
    requires Increasing(s)
    ensures WellFormed(Dotted(s))
    decreases |s|
  {
    if |s| > 1 {
      var t := s[..|s| - 1];
      var l, i := s[|s| - 2], s[|s| - 1];
      assert Increasing(t);
      DottedWellFormed(t);
      DottedEnds(t);
      var d, u := Dotted(t), Step(l, i);
      assert d[|d| - 1] == Page(l);
      assert i - l >= 1;
      var e := d + u;
      assert Dotted(s) == e;
      forall j | 0 <= j < |e|
        ensures WellPlaced(e, j)
      {
        if j < |d| - 1 {
          assert WellPlaced(d, j);
          assert e[j] == d[j] && e[j + 1] == d[j + 1];
          if d[j].Dots? {
            assert e[j - 1] == d[j - 1];
          }
        }
      }
    }
  }

  /** In a well-formed strip the numbers strictly increase from left to right. */
  lemma {:induction false} WellFormedIncreasing(d: seq<Entry>, a: int, b: int)
    requires WellFormed(d)
    requires 0 <= a < b < |d| && d[a].Page? && d[b].Page?
    ensures d[a].n < d[b].n
    decreases b - a
  {
    assert WellPlaced(d, a);
    if d[a + 1].Page? {
      if b > a + 1 {
        WellFormedIncreasing(d, a + 1, b);
      }
    } else {
      assert WellPlaced(d, a + 1);
      if b > a + 2 {
        WellFormedIncreasing(d, a + 2, b);
      }
    }
  }

  /**
   * The strip for `total` pages: empty without pages; otherwise it runs from
   * page 1 to page `total`, shows every page that is kept, shows no number
   * outside 1..total, never marks a single missing page with an ellipsis and
   * its numbers strictly increase.
   */
  lemma PageNumbersShape(current: int, total: int)
    ensures var d := PageNumbers(current, total);
      && (total < 1 ==> d == [])
      && (total >= 1 ==> |d| >= 1 && d[0] == Page(1) && d[|d| - 1] == Page(total))
      && (forall x :: 1 <= x <= total && Kept(x, current, total) ==> Page(x) in d)
      && (forall e :: e in d && e.Page? ==> 1 <= e.n <= total)
      && WellFormed(d)
      && (forall a, b :: 0 <= a < b < |d| && d[a].Page? && d[b].Page? ==> d[a].n < d[b].n)
  {
    var s := KeptUpTo(current, total, total);
    var d := Dotted(s);
    KeptIncreasing(current, total, total);
    DottedWellFormed(s);
    DottedKeepsPages(s);
    DottedPagesFromRange(s);
    forall x | 1 <= x <= total && Kept(x, current, total)
      ensures Page(x) in d
    {
      KeptMembers(current, total, total, x);
    }
    forall e | e in d && e.Page?
      ensures 1 <= e.n <= total
    {
      KeptMembers(current, total, total, e.n);
      KeptMembers(current, total, total, e.n - 1);
      KeptMembers(current, total, total, e.n + 1);
    }
    if total >= 1 {
      DottedEnds(s);
      KeptMembers(current, total, total, 1);
      KeptMembers(current, total, total, total);
      KeptMembers(current, total, total, s[0]);
      KeptMembers(current, total, total, s[|s| - 1]);
      var a :| 0 <= a < |s| && s[a] == 1;
      var b :| 0 <= b < |s| && s[b] == total;
      if a > 0 {
        assert s[0] < s[a];
      }
      if b < |s| - 1 {
        assert s[b] < s[|s| - 1];
      }
    }
    forall a, b | 0 <= a < b < |d| && d[a].Page? && d[b].Page?
      ensures d[a].n < d[b].n
    {
      WellFormedIncreasing(d, a, b);
    }
  }

  /** `handlePageClick`: the ellipsis and the current page ask for nothing; another number asks for that page. */
  function HandlePageClick(entry: Entry, current: int): (r: Option<int>)
    ensures r.Some? <==> entry.Page? && entry.n != current
    ensures r.Some? ==> entry == Page(r.value)
  {
    if entry != Dots && entry != Page(current) then Some(entry.n) else None
  }

  /** A click on the strip asks only for another page that exists. */
  lemma ClickStaysInRange(current: int, total: int, entry: Entry)
    requires entry in PageNumbers(current, total)
    ensures HandlePageClick(entry, current).Some? ==>
      var p := HandlePageClick(entry, current).value;
      1 <= p <= total && p != current
  {
    PageNumbersShape(current, total);
  }

  /** The previous-page arrow: one page back, never below page 1. */
  function Previous(current: int): (r: int)
    ensures r >= 1
    ensures current > 1 ==> r == current - 1
    ensures current <= 1 ==> r == 1
  {
    if 1 > current - 1 then 1 else current - 1
  }

  /** The next-page arrow: one page on, never past the last page. */
  function Next(current: int, total: int): (r: int)
    ensures r <= total
    ensures current < total ==> r == current + 1
    ensures current >= total ==> r == total
  {
    if total < current + 1 then total else current + 1
  }

  /** From any existing page, both arrows lead to an existing page next to it or to the same page at the ends. */
  lemma ArrowsStayInRange(current: int, total: int)
    requires 1 <= current <= total
    ensures 1 <= Previous(current) <= total && 1 <= Next(current, total) <= total
    ensures Previous(current) == current <==> current == 1
    ensures Next(current, total) == current <==> current == total
  {
  }
}
