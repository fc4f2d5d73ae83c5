/**
 * The area builder: turns a candidate whose slots are set and in order into a
 * MatchingArea, one rectangle per page from its begin page to its end page.
 * The rectangle of a page depends on whether the area lies on a single page
 * and otherwise on whether the page is its first, an interior or its last page.
 */
module AreaBuilder {
  import opened Wrappers
  import opened PageModel
  import opened CandidateTracker

  /** SubSectionOfMatch: a rectangle on one page. */
  datatype SubSection = SubSection(page: int, area: Rect)

  /** The subsections of one match, keyed by page, with the match's first and last page. */
  datatype MatchingArea = MatchingArea(startPage: int, endPage: int, sections: map<int, seq<SubSection>>)

  /**
   * The shape of a built area: its keys are exactly the pages from its start
   * page to its end page, and each key holds one subsection drawn on that page.
   */
  ghost predicate Shaped(a: MatchingArea) {
    && 1 <= a.startPage <= a.endPage
    && (forall p :: p in a.sections <==> a.startPage <= p <= a.endPage)
    && (forall p :: p in a.sections ==> |a.sections[p]| == 1 && a.sections[p][0].page == p)
  }

  /** Every area of the list is shaped. */
  ghost predicate AllShaped(areas: seq<MatchingArea>) {
    forall i :: 0 <= i < |areas| ==> Shaped(areas[i])
  }

  /** The height of the footer margin of a page (zero without a filter). */
  function FooterHeight(g: PageGeometry, filter: Option<FilteredArea>): real {
    if filter.None? then 0.0 else filter.value.footerScale * g.height
  }

  /** An area on one page: from the begin anchor down to the end anchor, across the page. */
  function SinglePageRect(g: PageGeometry, c: Candidate): (r: Rect)
    ensures r.top == c.beginY && r.top + r.height == c.endY
    ensures r.left == 0.0 && r.width == g.width
  {
    Rect(c.beginY, 0.0, g.width, c.endY - c.beginY)
  }

  /**
   * The first page of an area over several pages: from the begin anchor down
   * to the footer line when the footer margin is positive, and otherwise down
   * to the bottom of the page's text.
   */
  function FirstPageRect(g: PageGeometry, beginY: real, filter: Option<FilteredArea>): (r: Rect)
    ensures r.top == beginY
    ensures r.top + r.height ==
      if FooterHeight(g, filter) > 0.0 then g.height - FooterHeight(g, filter) else g.textBottom
    ensures r.left == 0.0 && r.width == g.width
  {
    var footerHeight := FooterHeight(g, filter);
    var height := g.height - beginY;
    Rect(beginY, 0.0, g.width,
      if footerHeight > 0.0 then height - footerHeight else height - (g.height - g.textBottom))
  }

  /**
   * An interior page: from the header line (a positive header), else from the
   * integer nearest to half the text top; down to the footer line (a positive
   * footer), else down to midway between the text bottom and the page bottom.
   */
  function InteriorRect(g: PageGeometry, filter: Option<FilteredArea>): (r: Rect)
    ensures r.top == if HasHeader(filter) then Round(filter.value.headerScale * g.height) as real
                     else Round(0.5 * g.textTop) as real
    ensures r.top + r.height == if HasFooter(filter) then g.height - filter.value.footerScale * g.height
                                else (g.height + g.textBottom) / 2.0
    ensures r.left == 0.0 && r.width == g.width
  {
    var top := if HasHeader(filter) then Round(filter.value.headerScale * g.height) else Round(0.5 * g.textTop);
    var height := g.height - top as real;
    Rect(top as real, 0.0, g.width,
      if HasFooter(filter) then height - filter.value.footerScale * g.height
      else height - 0.5 * (g.height - g.textBottom))
  }

  /**
   * Configuring a header is not monotone on interior pages: a zero header
   * puts the top at half the text top, while a small positive header puts it
   * at the header line, which can lie above that.
   */
  lemma HeaderCanRaiseInteriorTop(g: PageGeometry, headerScale: real, footerScale: real)
    requires 0.0 < headerScale && headerScale * g.height + 1.0 <= 0.5 * g.textTop
    ensures InteriorRect(g, Some(FilteredArea(headerScale, footerScale))).top
          < InteriorRect(g, Some(FilteredArea(0.0, footerScale))).top
  {
    var headerLine := Round(headerScale * g.height);
    var halfTextTop := Round(0.5 * g.textTop);
    assert headerLine as real <= headerScale * g.height + 0.5 <= 0.5 * g.textTop - 0.5 < halfTextTop as real;
  }

  /**
   * With a positive header an interior page's rectangle starts on the line
   * its text was searched from; with a positive footer it ends within half a
   * point of the bottom of the search band.
   */
  lemma InteriorRectFollowsSearchBand(g: PageGeometry, filter: Option<FilteredArea>)
    ensures HasHeader(filter) ==> InteriorRect(g, filter).top == SearchBand(g, filter).top as real
    ensures HasFooter(filter) ==>
      var bandBottom := (SearchBand(g, filter).top + SearchBand(g, filter).height) as real;
      var rectBottom := InteriorRect(g, filter).top + InteriorRect(g, filter).height;
      -0.5 < bandBottom - rectBottom <= 0.5
  { }

  /**
   * Heights are not clamped. A header and a footer of 0.6 each, both within
   * [0, 1], overlap on an 800-point page: the interior rectangle starts at
   * the header line 480 and ends at the footer line 320.
   */
  lemma OverlappingMarginsGiveNegativeHeight()
    ensures InteriorRect(PageGeometry(600.0, 800.0, 100.0, 700.0), Some(FilteredArea(0.6, 0.6))).height == -160.0
  {
  }

  /**
   * When the two margins do not overlap (their fractions add up to at most
   * one), an interior rectangle between them is at most half a point
   * negative, from rounding the header line. Without either margin it lies
   * between half the text top and below the text bottom, and is never
   * negative on a page at least one point high whose text top is not below
   * its text bottom.
   */
  lemma InteriorHeightBounds(g: PageGeometry, filter: Option<FilteredArea>)
    requires 0.0 <= g.height
    ensures HasHeader(filter) && HasFooter(filter) && filter.value.headerScale + filter.value.footerScale <= 1.0 ==>
      InteriorRect(g, filter).height >= -0.5
    ensures !HasHeader(filter) && !HasFooter(filter) && 1.0 <= g.height && g.textTop <= g.textBottom ==>
      InteriorRect(g, filter).height >= 0.0
  {
  }

  /**
   * The last page: from the header line whenever a filter is given (even a
   * zero header), else from the integer nearest to half the text top; down to
   * the end anchor.
   */
  function LastPageRect(g: PageGeometry, endY: real, filter: Option<FilteredArea>): (r: Rect)
    ensures r.top == if filter.Some? then Round(filter.value.headerScale * g.height) as real
                     else Round(0.5 * g.textTop) as real
    ensures r.top + r.height == endY
    ensures r.left == 0.0 && r.width == g.width
  {
    var top := if filter.Some? then Round(filter.value.headerScale * g.height) else Round(0.5 * g.textTop);
    Rect(top as real, 0.0, g.width, endY - top as real)
  }

  /** The rectangle of page `p` of the area of candidate `c`. */
  function PageRect(doc: Document, filter: Option<FilteredArea>, c: Candidate, p: int): Rect
    requires WellFormed(c, |doc.pages|) && c.beginPage <= p <= c.endPage
  {
    var g := PageAt(doc, p);
    if c.beginPage == c.endPage then SinglePageRect(g, c)
    else if p == c.beginPage then FirstPageRect(g, c.beginY, filter)
    else if p == c.endPage then LastPageRect(g, c.endY, filter)
    else InteriorRect(g, filter)
  }

  /**
   * The matching area of a candidate: keyed at exactly its pages, one
   * full-width subsection per page.
   */
  function BuildArea(doc: Document, filter: Option<FilteredArea>, c: Candidate): (a: MatchingArea)
    requires WellFormed(c, |doc.pages|)
    ensures Shaped(a) && a.startPage == c.beginPage && a.endPage == c.endPage
    ensures forall p :: p in a.sections ==>
      1 <= p <= |doc.pages| && a.sections[p][0].area.left == 0.0 && a.sections[p][0].area.width == PageAt(doc, p).width
  {
    MatchingArea(c.beginPage, c.endPage,
      map p | c.beginPage <= p <= c.endPage :: [SubSection(p, PageRect(doc, filter, c, p))])
  }

  /** A map keyed at exactly the pages of `c`, holding each page's rectangle, is the map of its area. */
  lemma SectionsOfArea(doc: Document, filter: Option<FilteredArea>, c: Candidate,
                       sections: map<int, seq<SubSection>>)
    requires WellFormed(c, |doc.pages|)
    requires forall p :: p in sections <==> c.beginPage <= p <= c.endPage
    requires forall p :: c.beginPage <= p <= c.endPage ==>
      sections[p] == [SubSection(p, PageRect(doc, filter, c, p))]
    ensures BuildArea(doc, filter, c) == MatchingArea(c.beginPage, c.endPage, sections)
  {
  }

  /** The areas of a list of candidates, in the same order. */
  function BuildAreas(doc: Document, filter: Option<FilteredArea>, cs: seq<Candidate>): seq<MatchingArea>
    requires forall i :: 0 <= i < |cs| ==> WellFormed(cs[i], |doc.pages|)
  {
    seq(|cs|, i requires 0 <= i < |cs| => BuildArea(doc, filter, cs[i]))
  }

  /**
   * A candidate on one page gives one subsection on that page: from the begin
   * anchor, at the left edge, as wide as the page, as high as the distance to
   * the end anchor, which is never negative.
   */
  lemma SinglePageArea(doc: Document, filter: Option<FilteredArea>, c: Candidate)
    requires WellFormed(c, |doc.pages|) && c.beginPage == c.endPage
    ensures BuildArea(doc, filter, c).sections ==
      map[c.beginPage := [SubSection(c.beginPage, Rect(c.beginY, 0.0, PageAt(doc, c.beginPage).width, c.endY - c.beginY))]]
    ensures c.endY - c.beginY >= 0.0
  {
  }

  /**
   * A candidate over several pages gives the first-page rectangle on its begin
   * page, the last-page rectangle on its end page and the interior rectangle
   * on every page in between.
   */
  lemma MultiPageArea(doc: Document, filter: Option<FilteredArea>, c: Candidate)
    requires WellFormed(c, |doc.pages|) && c.beginPage < c.endPage
    ensures var s := BuildArea(doc, filter, c).sections;
      && s[c.beginPage] == [SubSection(c.beginPage, FirstPageRect(PageAt(doc, c.beginPage), c.beginY, filter))]
      && s[c.endPage] == [SubSection(c.endPage, LastPageRect(PageAt(doc, c.endPage), c.endY, filter))]
      && forall p :: c.beginPage < p < c.endPage ==>
           s[p] == [SubSection(p, InteriorRect(PageAt(doc, p), filter))]
  {
  }
}
