/**
 * What the PDF library supplies about a document: the geometry of each page,
 * its natural text bounds, and the positioned text elements that fall inside a
 * horizontal band of a page. Also the numeric conversions of the Java code
 * (Math.round and the (int) cast) and the search band that the detector
 * computes from the header/footer filter.
 */
module PageModel {
  import opened Wrappers

  /** Math.round: the nearest integer, halves rounded up. */
  function Round(x: real): (n: int)
    ensures n as real - 0.5 <= x < n as real + 0.5
  {
    (x + 0.5).Floor
  }

  /** An (int) cast of a float: the integer part, truncated toward zero. */
  function Truncate(x: real): (n: int)
    ensures 0.0 <= x ==> 0 <= n && n as real <= x < n as real + 1.0
    ensures x < 0.0 ==> n <= 0 && n as real - 1.0 < x <= n as real
  {
    if x >= 0.0 then x.Floor else -((-x).Floor)
  }

  /** Width and height of a page, and the top and bottom of the box around its text. */
  datatype PageGeometry = PageGeometry(width: real, height: real, textTop: real, textBottom: real)

  /** Header and footer margins, each a fraction of the page height (a missing filter is None). */
  datatype FilteredArea = FilteredArea(headerScale: real, footerScale: real)

  /** A positioned text element; its x coordinate is never read and is not kept. */
  datatype Token = Token(text: string, y: real, height: real)

  /**
   * A rectangle given by its top, left, width and height, the argument order of
   * the rectangle type of the library.
   */
  datatype Rect = Rect(top: real, left: real, width: real, height: real)

  /** The horizontal band of a page searched for text: its top and its height. */
  datatype Band = Band(top: int, height: int)

  /**
   * A document: the geometry of pages 1..|pages| and the text source, which
   * given a page number and the top and height of a band returns the text
   * elements inside that band in reading order.
   */
  datatype Document = Document(pages: seq<PageGeometry>, textIn: (nat, int, int) -> seq<Token>)

  function PageAt(doc: Document, page: int): PageGeometry
    requires 1 <= page <= |doc.pages|
  {
    doc.pages[page - 1]
  }

  predicate HasHeader(filter: Option<FilteredArea>) {
    filter.Some? && filter.value.headerScale > 0.0
  }

  predicate HasFooter(filter: Option<FilteredArea>) {
    filter.Some? && filter.value.footerScale > 0.0
  }

  /**
   * The band of a page in which the detector looks for the patterns. Its top
   * edge is the header line when a positive header is configured and otherwise
   * the truncated top of the text; its bottom edge is the footer line when a
   * positive footer is configured and otherwise the bottom of the text.
   */
  function SearchBand(g: PageGeometry, filter: Option<FilteredArea>): (b: Band)
    ensures HasHeader(filter) ==> b.top == Round(filter.value.headerScale * g.height)
    ensures !HasHeader(filter) ==> b.top == Truncate(g.textTop)
    ensures HasFooter(filter) ==>
      b.top + b.height == Round(g.height - filter.value.footerScale * g.height)
    ensures !HasFooter(filter) ==>
      b.top + b.height == Round(Round(g.height) as real - (g.height - g.textBottom))
  {
    var top := if HasHeader(filter) then Round(filter.value.headerScale * g.height) else Truncate(g.textTop);
    var bottom :=
      if HasFooter(filter) then Round(g.height - filter.value.footerScale * g.height)
      else Round(Round(g.height) as real - (g.height - g.textBottom));
    Band(top, bottom - top)
  }

  /** The text elements of the search band of a page. */
  function PageTokens(doc: Document, filter: Option<FilteredArea>, page: int): seq<Token>
    requires 1 <= page <= |doc.pages|
  {
    var band := SearchBand(PageAt(doc, page), filter);
    doc.textIn(page, band.top, band.height)
  }

  /** The page's text: the texts of its elements, concatenated in order. */
  function PageText(tokens: seq<Token>): string {
    if tokens == [] then [] else PageText(tokens[..|tokens| - 1]) + tokens[|tokens| - 1].text
  }

  /** Every element holds exactly one character, as a glyph does. */
  predicate OneCharEach(tokens: seq<Token>) {
    forall i :: 0 <= i < |tokens| ==> |tokens[i].text| == 1
  }

  /**
   * When every element is a single character, a character offset into the page
   * text is also an index into the element list.
   */
  lemma {:induction false} OneCharTextLength(tokens: seq<Token>)
    requires OneCharEach(tokens)
    ensures |PageText(tokens)| == |tokens|
  {
    if tokens != [] {
      OneCharTextLength(tokens[..|tokens| - 1]);
    }
  }
}
