/**
 * The query surface over the stored matching areas: the rectangles of one
 * page (getSubSectionsForPage) and of the whole document
 * (getAllSubSectionsOfMatches), both in the order in which the areas were
 * found, and how the two relate.
 */
module RegionQueries {
  import opened Wrappers
  import opened PageModel
  import opened CandidateTracker
  import opened AreaBuilder

  /** The rectangles of a list of subsections, in order (getArea of each). */
  function Areas(subs: seq<SubSection>): (r: seq<Rect>)
    ensures |r| == |subs| && forall i :: 0 <= i < |subs| ==> r[i] == subs[i].area
  {
    if subs == [] then [] else Areas(subs[..|subs| - 1]) + [subs[|subs| - 1].area]
  }

  /** The rectangles of the subsections of `a` keyed at page `p`. */
  function PageRects(a: MatchingArea, p: int): seq<Rect> {
    if p in a.sections then Areas(a.sections[p]) else []
  }

  /** The rectangles on page `p`, area after area. */
  function RectsForPage(areas: seq<MatchingArea>, p: int): seq<Rect> {
    if areas == [] then []
    else RectsForPage(areas[..|areas| - 1], p) + PageRects(areas[|areas| - 1], p)
  }

  /** The subsections of `a` keyed at pages lo..hi-1, in page order. */
  function SubsOnPages(a: MatchingArea, lo: int, hi: int): seq<SubSection>
    decreases hi - lo
  {
    if hi <= lo then []
    else SubsOnPages(a, lo, hi - 1) + (if hi - 1 in a.sections then a.sections[hi - 1] else [])
  }

  /** The subsections of one area, page by page from its start page to its end page. */
  function AreaSubSections(a: MatchingArea): seq<SubSection> {
    SubsOnPages(a, a.startPage, a.endPage + 1)
  }

  /** Every subsection of every area, area after area. */
  function AllSubSections(areas: seq<MatchingArea>): seq<SubSection> {
    if areas == [] then []
    else AllSubSections(areas[..|areas| - 1]) + AreaSubSections(areas[|areas| - 1])
  }

  /** The rectangles of every subsection of every area. */
  function AllRects(areas: seq<MatchingArea>): seq<Rect> {
    Areas(AllSubSections(areas))
  }

  /** How many of the areas span page `p`. */
  function Covering(areas: seq<MatchingArea>, p: int): nat {
    if areas == [] then 0
    else Covering(areas[..|areas| - 1], p) + (if areas[|areas| - 1].startPage <= p <= areas[|areas| - 1].endPage then 1 else 0)
  }

  /**
   * The page query returns one rectangle for each built area that spans the
   * page, and none for any other area.
   */
  lemma {:induction false} RectsForPageCount(areas: seq<MatchingArea>, p: int)
    requires forall i :: 0 <= i < |areas| ==> Shaped(areas[i])
    ensures |RectsForPage(areas, p)| == Covering(areas, p)
  {
    if areas != [] {
      RectsForPageCount(areas[..|areas| - 1], p);
    }
  }

  /**
   * The area of a candidate over pages b..e yields, page by page, exactly one
   * rectangle on each of the pages b..e and none on any other page.
   */
  lemma OneRectPerSpannedPage(doc: Document, filter: Option<FilteredArea>,
                              c: Candidate, p: int)
    requires WellFormed(c, |doc.pages|)
    ensures |RectsForPage([BuildArea(doc, filter, c)], p)| == if c.beginPage <= p <= c.endPage then 1 else 0
  {
    RectsForPageCount([BuildArea(doc, filter, c)], p);
  }

  /** The sum over pages lo..hi-1 of the number of rectangles the page query returns. */
  function PageTotal(areas: seq<MatchingArea>, lo: int, hi: int): nat
    decreases hi - lo
  {
    if hi <= lo then 0 else PageTotal(areas, lo, hi - 1) + |RectsForPage(areas, hi - 1)|
  }

  /** The same sum for one area. */
  function AreaPageTotal(a: MatchingArea, lo: int, hi: int): nat
    decreases hi - lo
  {
    if hi <= lo then 0 else AreaPageTotal(a, lo, hi - 1) + |PageRects(a, hi - 1)|
  }

  lemma {:induction false} PageTotalOfNothing(lo: int, hi: int)
    ensures PageTotal([], lo, hi) == 0
    decreases hi - lo
  {
    if lo < hi {
      PageTotalOfNothing(lo, hi - 1);
    }
  }

  lemma {:induction false} PageTotalSnoc(init: seq<MatchingArea>, a: MatchingArea, lo: int, hi: int)
    ensures PageTotal(init + [a], lo, hi) == PageTotal(init, lo, hi) + AreaPageTotal(a, lo, hi)
    decreases hi - lo
  {
    if lo < hi {
      PageTotalSnoc(init, a, lo, hi - 1);
      assert (init + [a])[..|init|] == init;
    }
  }

  lemma {:induction false} SubsOnPagesLength(a: MatchingArea, lo: int, hi: int)
    ensures |SubsOnPages(a, lo, hi)| == AreaPageTotal(a, lo, hi)
    decreases hi - lo
  {
    if lo < hi {
      SubsOnPagesLength(a, lo, hi - 1);
    }
  }

  lemma {:induction false} SubsOnPagesSplit(a: MatchingArea, lo: int, mid: int, hi: int)
    requires lo <= mid <= hi
    ensures SubsOnPages(a, lo, hi) == SubsOnPages(a, lo, mid) + SubsOnPages(a, mid, hi)
    decreases hi - lo
  {
    if mid < hi {
      SubsOnPagesSplit(a, lo, mid, hi - 1);
    }
  }

  lemma {:induction false} SubsOnPagesOutside(a: MatchingArea, lo: int, hi: int)
    requires forall p :: lo <= p < hi ==> p !in a.sections
    ensures SubsOnPages(a, lo, hi) == []
    decreases hi - lo
  {
    if lo < hi {
      SubsOnPagesOutside(a, lo, hi - 1);
    }
  }

  /** An area within pages lo..hi-1 has as many subsections as its pages there have rectangles. */
  lemma AreaSubSectionsTotal(a: MatchingArea, lo: int, hi: int)
    requires Shaped(a) && lo <= a.startPage && a.endPage < hi
    ensures |AreaSubSections(a)| == AreaPageTotal(a, lo, hi)
  {
    SubsOnPagesSplit(a, lo, a.startPage, hi);
    SubsOnPagesSplit(a, a.startPage, a.endPage + 1, hi);
    SubsOnPagesOutside(a, lo, a.startPage);
    SubsOnPagesOutside(a, a.endPage + 1, hi);
    SubsOnPagesLength(a, lo, hi);
  }

  /**
   * The whole-document query returns as many rectangles as the page query
   * returns over all pages together, when every area lies within pages lo..hi-1.
   */
  lemma {:induction false} AllRectsIsSumOverPages(areas: seq<MatchingArea>, lo: int, hi: int)
    requires forall i :: 0 <= i < |areas| ==> Shaped(areas[i]) && lo <= areas[i].startPage && areas[i].endPage < hi
    ensures |AllRects(areas)| == PageTotal(areas, lo, hi)
  {
    if areas == [] {
      PageTotalOfNothing(lo, hi);
    } else {
      var init, a := areas[..|areas| - 1], areas[|areas| - 1];
      assert areas == init + [a];
      AllRectsIsSumOverPages(init, lo, hi);
      AreaSubSectionsTotal(a, lo, hi);
      PageTotalSnoc(init, a, lo, hi);
      assert AllSubSections(areas) == AllSubSections(init) + AreaSubSections(a);
    }
  }
}
