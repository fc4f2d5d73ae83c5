# Regex search of tabula-java, modelled in Dafny

tabula-java's `RegexSearch` finds regions of a PDF document that lie between
text matching a "before table" regular expression and text matching an "after
table" regular expression. A region may span several pages.

For each page, the search runs through these steps:

- It takes the page's text elements inside a search band. The band lies below
  an optional header margin and above an optional footer margin.
- It joins the texts of those elements into one string.
- It runs both patterns over that string from a moving offset. The earlier
  match fills the begin slot or the end slot of the candidate under
  detection.
- A candidate is closed when both slots are set, its end page is not before
  its begin page and, on a shared page, its end anchor's y is not above its
  begin anchor's y. A new candidate is started after it.

After the last page, an unfinished last candidate is dropped. Each remaining
candidate becomes a `MatchingArea`: one full-width rectangle per page, from
its begin page to its end page. A search stores its areas. It answers two
queries: the rectangles of one page, and the rectangles of the whole
document. When the header/footer filter changes, every search of the document
is recomputed.

The model has seven modules:

- `Wrappers` holds `Option` and `Result`.
- `PageModel` covers the document as the PDF library supplies it:
  - page geometry and text bounds;
  - text elements inside a band;
  - Java's `Math.round` and `(int)` cast on reals;
  - the search band.
- `AnchorScanner` holds the regular-expression engine, seen only through the
  contract of `Matcher.find(from)`. It also defines the pattern of a
  one-character literal (`FindChar`). The worked detections of
  `CandidateTracker` and `Detectors` are built on it.
- `CandidateTracker` holds the `DetectionData` candidates. It also specifies
  the page-by-page scan and the final trim as functions, with the invariants
  that the scan keeps.
- `AreaBuilder` holds the rectangle of each page of a matching area.
- `RegionQueries` specifies the two queries as functions, with the lemmas
  that relate them.
- `Detectors` holds the class `RegexSearch`, whose stored areas are a field.
  Its methods follow the Java loops:
  - detection, page by page and match by match;
  - area building;
  - the two queries;
  - creation;
  - the filter-resize update.

  Each method is proved equal to the specification function of its module.

Six behaviours of the code are easy to miss. The model keeps each of them
as written:

- When detection fails during a filter resize, the failing search has
  already had its list cleared (`RegexSearch.java:99`). It is left with no
  areas. The searches before it keep their new areas, and the ones after it
  keep their old areas.
- The top of the last page of a multi-page area is the header line whenever
  a filter is given, even one with a zero header (`RegexSearch.java:631`).
  Interior pages use the header line only when the header is positive.
- The match's character offset in the page string is used as an index into
  the list of text elements (`RegexSearch.java:485`). This is modelled as
  written: an offset past the end of the list is the error
  `TokenIndexOutOfRange`, which stands for the exception Java throws. When
  every element's text is a single UTF-16 code unit, offsets and indices
  agree, and detection never fails (`GlyphPagesNeverFail`).
- On an interior page the top is the rounded header line only when the
  header is positive, and otherwise half the text top
  (`RegexSearch.java:583-588`). So configuring a small positive header can
  move that top up rather than down (`HeaderCanRaiseInteriorTop`).
- Whether a candidate is closed is decided from pages and y coordinates
  (`RegexSearch.java:417-423` and `:502-508`), never from text offsets. An end
  match found before the begin match on the same line therefore still closes
  the candidate and yields a region (`EndMatchBeforeBeginCloses`).
- Rectangle heights are not clamped. Header and footer fractions that each
  lie in [0, 1] but overlap give an interior rectangle of negative height
  (`OverlappingMarginsGiveNegativeHeight`). Positive margins whose fractions
  add up to at most one keep it at most half a point below zero. Without
  margins it is never negative on a page at least one point high whose text
  top is not below its text bottom (`InteriorHeightBounds`). A first-page rectangle is negative
  likewise when the begin anchor lies below its bottom line, and a last-page
  rectangle when the end anchor lies above its top line.

## Model

| member | source | states |
|---|---|---|
| PageModel.Round | src/main/java/technology/tabula/detectors/RegexSearch.java:375-386 | Math.round gives the integer within one half of its argument (halves round up) |
| PageModel.Truncate | src/main/java/technology/tabula/detectors/RegexSearch.java:371 | the (int) cast keeps the integer part, truncating toward zero for either sign |
| PageModel.SearchBand | src/main/java/technology/tabula/detectors/RegexSearch.java:371-390 | the band's top is the rounded header line when the header is positive, else the truncated text top; its bottom is the rounded footer line when the footer is positive, else the rounded page height less the gap below the text |
| PageModel.OneCharTextLength | src/main/java/technology/tabula/detectors/RegexSearch.java:395-399 | when every element is one character, the page string has as many characters as there are elements |
| CandidateTracker.ChooseSlot | src/main/java/technology/tabula/detectors/RegexSearch.java:429-481 | the match taken is one that was found, and it starts no later than either find result; when both start at the same offset, the begin match is taken exactly when the target's begin slot is unset |
| CandidateTracker.AnchorPlacement | src/main/java/technology/tabula/detectors/RegexSearch.java:455-488 | the begin anchor is half a line above the element's y when the begin text is included, else one line below; the end anchor is one and a half lines below when the end text is included, else at y; for an element of positive height, including an anchor's text widens the area |
| CandidateTracker.ScanText | src/main/java/technology/tabula/detectors/RegexSearch.java:412-494 | scanning one page only appends candidates or fills the last one: every candidate before the last comes out unchanged |
| CandidateTracker.ScanPages | src/main/java/technology/tabula/detectors/RegexSearch.java:365-495 | scanning the remaining pages likewise leaves every candidate before the last unchanged |
| CandidateTracker.ScanTextRound | src/main/java/technology/tabula/detectors/RegexSearch.java:412-492 | one round of the match loop: the new target, the chosen match, then the error when its offset is past the element list, or else the filled slot and the scan resuming at the match's end, which lies past the old offset |
| CandidateTracker.RecordKeepsInvariant | src/main/java/technology/tabula/detectors/RegexSearch.java:414-427 | taking a match on page p keeps the tracker invariant: all but the last candidate are closed, no page exceeds p, and no candidate has a page before an earlier candidate's end page; earlier candidates are untouched |
| CandidateTracker.ScanTextKeepsInvariant | src/main/java/technology/tabula/detectors/RegexSearch.java:412-494 | scanning a page keeps the tracker invariant |
| CandidateTracker.ScanPagesKeepsInvariant | src/main/java/technology/tabula/detectors/RegexSearch.java:365-495 | scanning all remaining pages keeps the tracker invariant up to the last page |
| CandidateTracker.DetectedCandidatesWellFormed | src/main/java/technology/tabula/detectors/RegexSearch.java:500-509 | after the trim, every candidate is closed and lies within the document, and each ends no later than the next one begins |
| CandidateTracker.ScanTextStaysLonely | src/main/java/technology/tabula/detectors/RegexSearch.java:412-494 | when the begin (or end) pattern finds no match in a page's text, scanning that page keeps a single candidate whose begin (or end) slot stays unset |
| CandidateTracker.ScanPagesStaysLonely | src/main/java/technology/tabula/detectors/RegexSearch.java:365-495 | the same over all remaining pages, when the pattern finds no match in any of their search bands |
| CandidateTracker.UnmatchedPatternFindsNothing | src/main/java/technology/tabula/detectors/RegexSearch.java:500-509 | when the begin or the end pattern finds no match in any page's search band of this document, no candidate survives the trim |
| CandidateTracker.EndMatchBeforeBeginCloses | src/main/java/technology/tabula/detectors/RegexSearch.java:412-508 | on a one-line page "B" then "A", with begin pattern "A" (text included) and end pattern "B" (excluded), detection yields the single closed candidate from y 9 to y 10 on page 1, although the end match comes first in the text |
| CandidateTracker.BeginThenEndOnOnePage | src/main/java/technology/tabula/detectors/RegexSearch.java:412-508 | on one page holding "A" (y 10, height 2), "x" and "B" (y 30), with begin pattern "A" and end pattern "B" and neither text included, detection yields the single candidate from one line below "A" (y 12) to the line of "B" (y 30) on page 1 |
| CandidateTracker.BeginThenEndAcrossPages | src/main/java/technology/tabula/detectors/RegexSearch.java:365-508 | with "A" (y 50) on page 1, "x" on page 2 and "B" (y 40) on page 3, detection yields the single candidate from y 52 on page 1 to y 40 on page 3 |
| CandidateTracker.ScanTextNeverFailsOnGlyphs | src/main/java/technology/tabula/detectors/RegexSearch.java:483-487 | on a page of one-character elements, the element lookup at the match offset always succeeds |
| CandidateTracker.ScanPagesNeverFailsOnGlyphs | src/main/java/technology/tabula/detectors/RegexSearch.java:365-495 | the same over all remaining pages |
| CandidateTracker.GlyphPagesNeverFail | src/main/java/technology/tabula/detectors/RegexSearch.java:483-487 | when every page holds one-character elements, detection never fails |
| AreaBuilder.SinglePageRect | src/main/java/technology/tabula/detectors/RegexSearch.java:534-541 | a one-page area runs from the begin anchor down to the end anchor, across the full page width |
| AreaBuilder.FirstPageRect | src/main/java/technology/tabula/detectors/RegexSearch.java:555-570 | the first page runs from the begin anchor down to the footer line when the footer height is positive, else down to the text bottom, at full width |
| AreaBuilder.InteriorRect | src/main/java/technology/tabula/detectors/RegexSearch.java:578-621 | an interior page runs from the rounded header line (positive header) or the rounded half text top, down to the footer line (positive footer) or midway between text bottom and page bottom, at full width |
| AreaBuilder.HeaderCanRaiseInteriorTop | src/main/java/technology/tabula/detectors/RegexSearch.java:583-588 | a positive header whose line lies at least one point above half the text top puts an interior page's top higher than a zero header does |
| AreaBuilder.InteriorRectFollowsSearchBand | src/main/java/technology/tabula/detectors/RegexSearch.java:583-599 | with a positive header an interior rectangle starts on the rounded header line from which the page's text was searched; with a positive footer it ends within half a point of the search band's bottom |
| AreaBuilder.OverlappingMarginsGiveNegativeHeight | src/main/java/technology/tabula/detectors/RegexSearch.java:583-600 | with header and footer fractions of 0.6 on an 800-point page, the interior rectangle's height is -160 |
| AreaBuilder.InteriorHeightBounds | src/main/java/technology/tabula/detectors/RegexSearch.java:583-610 | an interior rectangle between non-overlapping positive margins is at least -0.5 high; without margins, on a page at least one point high whose text top is not below its text bottom, it is never negative |
| AreaBuilder.LastPageRect | src/main/java/technology/tabula/detectors/RegexSearch.java:628-638 | the last page runs from the rounded header line whenever a filter is given, else from the rounded half text top, down to the end anchor, at full width |
| AreaBuilder.BuildArea | src/main/java/technology/tabula/detectors/RegexSearch.java:530-640 | the area of a closed candidate spans its begin page to its end page, is keyed at exactly those pages with one subsection drawn on each, and every rectangle starts at the left edge and spans its page's width |
| AreaBuilder.SectionsOfArea | src/main/java/technology/tabula/detectors/RegexSearch.java:551-638 | a map keyed at exactly the candidate's pages, holding each page's rectangle, is the map of its area |
| AreaBuilder.SinglePageArea | src/main/java/technology/tabula/detectors/RegexSearch.java:534-546 | a one-page candidate yields one subsection on its page, whose rectangle has a height that is never negative |
| AreaBuilder.MultiPageArea | src/main/java/technology/tabula/detectors/RegexSearch.java:551-639 | a multi-page candidate yields the first-page rectangle on its begin page, the last-page rectangle on its end page and the interior rectangle on every page between |
| RegionQueries.Areas | src/main/java/technology/tabula/detectors/RegexSearch.java:288-290 | the rectangles of a subsection list are, position by position, the subsections' areas |
| RegionQueries.RectsForPageCount | src/main/java/technology/tabula/detectors/RegexSearch.java:230-245 | over built areas, the page query returns exactly as many rectangles as there are areas spanning the page |
| RegionQueries.OneRectPerSpannedPage | src/main/java/technology/tabula/detectors/RegexSearch.java:230-245 | the area of a candidate gives one rectangle on each page from its begin page to its end page and none elsewhere |
| RegionQueries.AreaSubSectionsTotal | src/main/java/technology/tabula/detectors/RegexSearch.java:281-283 | a built area within a page range has as many subsections as the per-page counts over that range add up to |
| RegionQueries.AllRectsIsSumOverPages | src/main/java/technology/tabula/detectors/RegexSearch.java:277-293 | the whole-document query returns as many rectangles as the page query returns over all pages together |
| Detectors.DetectedAreas | src/main/java/technology/tabula/detectors/RegexSearch.java:357-513 | detection succeeds exactly when the scan does; it then yields one area per surviving candidate, each keyed at exactly its own pages of the document, in page order |
| Detectors.UnmatchedPatternNoRegions | src/main/java/technology/tabula/detectors/RegexSearch.java:357-513 | when the begin or the end pattern finds no match in any page's search band of this document, detection finds no area and the whole-document query is empty |
| Detectors.AreaAcrossThreePages | src/main/java/technology/tabula/detectors/RegexSearch.java:357-644 | the region detected across those three pages is one area from page 1 to page 3, keyed at exactly pages 1, 2 and 3, with the interior rectangle on page 2 |
| Detectors.DetectedRectsSumOverPages | src/main/java/technology/tabula/detectors/RegexSearch.java:277-293 | for detected areas, the whole-document query's length is the sum of the page query's lengths over pages 1..N |
| Detectors.RegexSearch.constructor | src/main/java/technology/tabula/detectors/RegexSearch.java:163-170 | a new search holds the given patterns and flags and no areas yet |
| Detectors.RegexSearch.Create | src/main/java/technology/tabula/detectors/RegexSearch.java:163-174 | creating a search over a document fails exactly when detection does; otherwise the fresh search stores the detected areas, all well shaped |
| Detectors.RegexSearch.GetSubSectionsForPage | src/main/java/technology/tabula/detectors/RegexSearch.java:230-245 | on a well-shaped search, the loops return the page query over the stored areas |
| Detectors.RegexSearch.AddSubSectionsOf | src/main/java/technology/tabula/detectors/RegexSearch.java:283-285 | visiting an area's pages in ascending order appends exactly that area's subsections |
| Detectors.RegexSearch.GetAllSubSectionsOfMatches | src/main/java/technology/tabula/detectors/RegexSearch.java:277-293 | on a well-shaped search, the two-phase loops return the whole-document query over the stored areas |
| Detectors.RegexSearch.DetectMatchingAreas | src/main/java/technology/tabula/detectors/RegexSearch.java:357-513 | the page loop, the trim and the area building return exactly the detected areas or detection error |
| Detectors.RegexSearch.PageAsText | src/main/java/technology/tabula/detectors/RegexSearch.java:395-399 | appending each element's text gives the page string |
| Detectors.RegexSearch.ScanPageText | src/main/java/technology/tabula/detectors/RegexSearch.java:408-494 | the match loop on one page computes the page scan of the candidate list |
| Detectors.RegexSearch.CalculateMatchingAreas | src/main/java/technology/tabula/detectors/RegexSearch.java:522-644 | popping candidates and filling each area page by page yields the built area of every candidate, in order |
| Detectors.RegexSearch.ResizeEach | src/main/java/technology/tabula/detectors/RegexSearch.java:94-104 | for any detection, the loop stores each search's detection and records the new areas as added and the previous ones as removed, without overlap; a failing detection stops it with that search emptied, the earlier searches updated and every search not yet reached unchanged |
| Detectors.RegexSearch.CheckSearchesOnFilterResize | src/main/java/technology/tabula/detectors/RegexSearch.java:84-106 | every search that starts well shaped ends well shaped; on success every search stores its new detection, and its record lists the new areas as added, the previous areas as removed, and no overlap; a failing detection leaves that search empty, earlier searches updated and later ones as they were |

## Left out

- Text extraction by PDFBox (`ObjectExtractor`, `Page.getText`, text bounds) is abstracted as `Document`. It holds page geometry and a function from a page and band to the elements inside the band, in reading order.
- The regular-expression engine and `PatternSyntaxException` are not modelled. A pattern is any find-from-offset function whose matches lie inside the text at or after the offset.
- Patterns that can match the empty string (`a*`, `^`, `\b`) are outside the model: the `Pattern` type admits only finders whose every match is non-empty, so such a pattern's non-empty matches are not modelled either. In Java such a pattern misbehaves only when an empty match is the one taken, since the scan then resumes at that same offset. The loop can stall there when the same empty match is taken again; it moves on when the other pattern's match at that offset wins the tie rule (lines 443-445). An empty match taken at an offset at or past the page's element count makes `get` at line 485 throw, on any page.
- Java strings count UTF-16 code units, while a Dafny `char` is a Unicode scalar value. The model's offsets, string lengths and the one-character condition of `GlyphPagesNeverFail` agree with Java only for text without characters outside the Basic Multilingual Plane (no surrogate pairs).
- Float arithmetic is modelled as exact reals, and `Math.round`'s saturation at the int range is not modelled. The x coordinate of an anchor is never read for a rectangle and is not kept.
- The logging overload of `getSubSectionsForPage` (lines 247-274) and the `System.out.println` calls are not modelled; they only write text.
- The string-flag constructor (lines 149-161) is not modelled; it only parses its two flags with `Boolean.valueOf` before delegating. The getters (lines 179-187) and the rounded getters of `SubSectionOfMatch` (lines 200-203) are not modelled either.
- `AtomicInteger` slots and `Point2D.Float` coordinates are plain values of `Candidate`. A candidate's slot is filled by replacing the last element of the candidate list.
- Detectors.RegexSearch.AddSubSectionsOf: a `MatchingArea` is a `HashMap`, and Java's `keySet()` loop follows its bucket order. The model visits the area's pages in ascending order from its start page to its end page. These are exactly its keys on a well-shaped area.
- Detectors.RegexSearch.GetAllSubSectionsOfMatches: inherits the ascending page order of `AddSubSectionsOf` in place of `HashMap` key order. It requires a well-shaped search (`Valid`), as the page query does; every search the detector builds is well shaped.
- Detectors.RegexSearch.ResizeEach: Java's record shares its `areasAdded` list with the search. When the same search object appears twice in the array, the later `clear()` also empties the earlier record's list. The model records the detected areas by value.
- Detectors.RegexSearch.CheckSearchesOnFilterResize: inherits the by-value records of `ResizeEach`.
- Detectors.RegexSearch.ResizeEach: the loop runs detection as a function argument rather than calling the detection method. The resize passes `DetectedAreas`, which `DetectMatchingAreas` is proved to return.
- Detectors.RegexSearch.CheckSearchesOnFilterResize: the exception Java throws on a failing detection is the `Failure` result. The records built before it are not returned.
