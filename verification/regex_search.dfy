/**
 * The regex search of the detectors package: a search object holds its two
 * patterns, its two inclusion flags and the matching areas found in a
 * document. It finds them when it is created and again, for every search of
 * a document, when the header/footer filter is resized.
 */
module Detectors {
  import opened Wrappers
  import opened PageModel
  import opened AnchorScanner
  import opened CandidateTracker
  import opened AreaBuilder
  import opened RegionQueries

  /**
   * What a detection yields: the area of every candidate that survives the
   * scan, in the order found. Each area is keyed at exactly its own pages,
   * all of them pages of the document, and each area ends no later than the
   * next one starts.
   */
  function DetectedAreas(cfg: SearchConfig, doc: Document, filter: Option<FilteredArea>)
    : (r: Result<seq<MatchingArea>, DetectError>)
    ensures r.Success? <==> DetectCandidates(cfg, doc, filter).Success?
    ensures r.Success? ==> |r.value| == |DetectCandidates(cfg, doc, filter).value|
    ensures r.Success? ==> AllShaped(r.value) && forall i :: 0 <= i < |r.value| ==> r.value[i].endPage <= |doc.pages|
    ensures r.Success? ==> forall i, j :: 0 <= i < j < |r.value| ==> r.value[i].endPage <= r.value[j].startPage
  {
    match DetectCandidates(cfg, doc, filter)
    case Failure(err) => Failure(err)
    case Success(cs) =>
      DetectedCandidatesWellFormed(cfg, doc, filter);
      Success(BuildAreas(doc, filter, cs))
  }

  /**
   * When the begin or the end pattern matches nowhere in the document's
   * search bands, no area is found and no rectangle is returned.
   */
  lemma UnmatchedPatternNoRegions(cfg: SearchConfig, doc: Document, filter: Option<FilteredArea>)
    requires NoMatchInDocument(cfg.beginPattern, doc, filter) || NoMatchInDocument(cfg.endPattern, doc, filter)
    ensures DetectedAreas(cfg, doc, filter).Success? ==>
      DetectedAreas(cfg, doc, filter).value == [] && AllRects(DetectedAreas(cfg, doc, filter).value) == []
  {
    UnmatchedPatternFindsNothing(cfg, doc, filter);
  }

  /**
   * The whole-document query over the detected areas returns as many
   * rectangles as the page query returns over pages 1..|doc.pages| together.
   */
  lemma DetectedRectsSumOverPages(cfg: SearchConfig, doc: Document, filter: Option<FilteredArea>)
    ensures DetectedAreas(cfg, doc, filter).Success? ==>
      |AllRects(DetectedAreas(cfg, doc, filter).value)| == PageTotal(DetectedAreas(cfg, doc, filter).value, 1, |doc.pages| + 1)
  {
    if DetectedAreas(cfg, doc, filter).Success? {
      AllRectsIsSumOverPages(DetectedAreas(cfg, doc, filter).value, 1, |doc.pages| + 1);
    }
  }

  /**
   * The region found across the three-page document is one area keyed at
   * exactly pages 1, 2 and 3; page 2, between its begin and end pages, gets
   * the interior rectangle.
   */
  lemma AreaAcrossThreePages()
    ensures DetectedAreas(AThenB, ThreePages, None).Success?
    ensures var areas := DetectedAreas(AThenB, ThreePages, None).value;
      && |areas| == 1 && areas[0].startPage == 1 && areas[0].endPage == 3
      && (forall p :: p in areas[0].sections <==> 1 <= p <= 3)
      && areas[0].sections[2] == [SubSection(2, InteriorRect(PageAt(ThreePages, 2), None))]
  {
    var c := Candidate(1, 52.0, 3, 40.0);
    BeginThenEndAcrossPages();
    assert WellFormed(c, |ThreePages.pages|);
    var area := BuildArea(ThreePages, None, c);
    assert BuildAreas(ThreePages, None, [c]) == [area];
    assert DetectedAreas(AThenB, ThreePages, None) == Success([area]);
    MultiPageArea(ThreePages, None, c);
    assert Shaped(area) && area.startPage == 1 && area.endPage == 3;
  }

  /** `x` is one of the first `n` elements of `s`. */
  predicate Occurs<T(==)>(x: T, s: seq<T>, n: nat)
    requires n <= |s|
  {
    n > 0 && (s[n - 1] == x || Occurs(x, s, n - 1))
  }

  lemma {:induction false} OccursAt<T>(x: T, s: seq<T>, n: nat)
    requires n <= |s| && Occurs(x, s, n)
    ensures exists k :: 0 <= k < n && s[k] == x
  {
    if s[n - 1] != x {
      OccursAt(x, s, n - 1);
    }
  }

  /** The record of one search after a filter resize. */
  datatype UpdatesOnResize = UpdatesOnResize(
    updatedRegexSearch: RegexSearch,
    areasAdded: seq<MatchingArea>,
    areasRemoved: seq<MatchingArea>,
    overlapsAnotherSearch: bool)

  class RegexSearch {
    /** The begin and end patterns and their inclusion flags, fixed at creation. */
    const config: SearchConfig
    /** Every area of the document found between the two patterns. */
    var matchingAreas: seq<MatchingArea>

    ghost predicate Valid()
      reads this
    {
      AllShaped(matchingAreas)
    }

    constructor (config: SearchConfig)
      ensures this.config == config && matchingAreas == [] && Valid()
    {
      this.config := config;
      matchingAreas := [];
    }

    /**
     * A search over a document: it stores the detected areas, or fails as
     * the detection does.
     */
    static method Create(regexBeforeTable: Pattern, includeRegexBeforeTable: bool,
                         regexAfterTable: Pattern, includeRegexAfterTable: bool,
                         document: Document, filterArea: Option<FilteredArea>)
      returns (r: Result<RegexSearch, DetectError>)
      ensures var cfg := SearchConfig(regexBeforeTable, includeRegexBeforeTable, regexAfterTable, includeRegexAfterTable);
        var detected := DetectedAreas(cfg, document, filterArea);
        && (r.Success? <==> detected.Success?)
        && (r.Failure? ==> r.error == detected.error)
        && (r.Success? ==> fresh(r.value) && r.value.config == cfg && r.value.matchingAreas == detected.value && r.value.Valid())
    {
      var search := new RegexSearch(SearchConfig(regexBeforeTable, includeRegexBeforeTable,
                                                 regexAfterTable, includeRegexAfterTable));
      var detected := search.DetectMatchingAreas(document, filterArea);
      if detected.Failure? {
        return Failure(detected.error);
      }
      search.matchingAreas := detected.value;
      return Success(search);
    }

    /** The rectangles of the stored areas on one page, area after area. */
    method GetSubSectionsForPage(pageNumber: int) returns (allMatchingAreas: seq<Rect>)
      requires Valid()
      ensures allMatchingAreas == RectsForPage(matchingAreas, pageNumber)
    {
      allMatchingAreas := [];
      for i := 0 to |matchingAreas|
        invariant allMatchingAreas == RectsForPage(matchingAreas[..i], pageNumber)
      {
        var matchingArea := matchingAreas[i];
        if pageNumber in matchingArea.sections {
          var subSections := matchingArea.sections[pageNumber];
          for k := 0 to |subSections|
            invariant allMatchingAreas == RectsForPage(matchingAreas[..i], pageNumber) + Areas(subSections[..k])
          {
            assert subSections[..k + 1][..k] == subSections[..k];
            allMatchingAreas := allMatchingAreas + [subSections[k].area];
          }
          assert subSections[..|subSections|] == subSections;
        }
        assert matchingAreas[..i + 1][..i] == matchingAreas[..i];
      }
      assert matchingAreas[..|matchingAreas|] == matchingAreas;
    }

    /** Appends the subsections of one area, page by page over its page range. */
    static method AddSubSectionsOf(allPagesMatchData: seq<SubSection>, matchingArea: MatchingArea)
      returns (r: seq<SubSection>)
      ensures r == allPagesMatchData + AreaSubSections(matchingArea)
    {
      r := allPagesMatchData;
      var page := matchingArea.startPage;
      while page <= matchingArea.endPage
        invariant matchingArea.startPage <= page
        invariant page <= matchingArea.endPage + 1 || page == matchingArea.startPage
        invariant r == allPagesMatchData + SubsOnPages(matchingArea, matchingArea.startPage, page)
        decreases matchingArea.endPage - page
      {
        if page in matchingArea.sections {
          r := r + matchingArea.sections[page];
        }
        page := page + 1;
      }
    }

    /** The rectangles of every stored area, area after area and page after page. */
    method GetAllSubSectionsOfMatches() returns (allPagesSubSections: seq<Rect>)
      requires Valid()
      ensures allPagesSubSections == AllRects(matchingAreas)
    {
      var allPagesMatchData: seq<SubSection> := [];
      for i := 0 to |matchingAreas|
        invariant allPagesMatchData == AllSubSections(matchingAreas[..i])
      {
        allPagesMatchData := AddSubSectionsOf(allPagesMatchData, matchingAreas[i]);
        assert matchingAreas[..i + 1][..i] == matchingAreas[..i];
      }
      assert matchingAreas[..|matchingAreas|] == matchingAreas;

      allPagesSubSections := [];
      for k := 0 to |allPagesMatchData|
        invariant |allPagesSubSections| == k
        invariant forall j :: 0 <= j < k ==> allPagesSubSections[j] == allPagesMatchData[j].area
      {
        allPagesSubSections := allPagesSubSections + [allPagesMatchData[k].area];
      }
    }

    /**
     * The scan of every page for the two patterns, the trim of an unfinished
     * last candidate, and the areas of the candidates left.
     */
    method DetectMatchingAreas(document: Document, areaToFilter: Option<FilteredArea>)
      returns (r: Result<seq<MatchingArea>, DetectError>)
      ensures r == DetectedAreas(config, document, areaToFilter)
    {
      var totalNumPages := |document.pages|;
      var potentialMatches := [Unset];
      var currentPage := 1;
      while currentPage <= totalNumPages
        invariant 1 <= currentPage <= totalNumPages + 1 && |potentialMatches| > 0
        invariant ScanPages(config, document, areaToFilter, potentialMatches, currentPage) ==
                  ScanPages(config, document, areaToFilter, [Unset], 1)
      {
        var pageTextElements := PageTokens(document, areaToFilter, currentPage);
        var pageAsText := PageAsText(pageTextElements);
        var scanned := ScanPageText(potentialMatches, currentPage, pageTextElements, pageAsText);
        if scanned.Failure? {
          return Failure(scanned.error);
        }
        potentialMatches := scanned.value;
        currentPage := currentPage + 1;
      }

      assert ScanPages(config, document, areaToFilter, [Unset], 1) == Success(potentialMatches);
      DetectedCandidatesWellFormed(config, document, areaToFilter);
      if !Closed(potentialMatches[|potentialMatches| - 1]) {
        potentialMatches := potentialMatches[..|potentialMatches| - 1];
      }
      assert DetectCandidates(config, document, areaToFilter) == Success(potentialMatches);
      var areas := CalculateMatchingAreas(potentialMatches, document, areaToFilter);
      return Success(areas);
    }

    /** The text of a page: its elements' texts appended one by one. */
    static method PageAsText(pageTextElements: seq<Token>) returns (pageAsText: string)
      ensures pageAsText == PageText(pageTextElements)
    {
      pageAsText := "";
      for k := 0 to |pageTextElements|
        invariant pageAsText == PageText(pageTextElements[..k])
      {
        assert pageTextElements[..k + 1][..k] == pageTextElements[..k];
        pageAsText := pageAsText + pageTextElements[k].text;
      }
      assert pageTextElements[..|pageTextElements|] == pageTextElements;
    }

    /**
     * The scan of one page: while either pattern matches after the current
     * offset, the earlier match sets its slot of the candidate under
     * detection (a new one when the last is closed) and the scan resumes
     * after it.
     */
    method ScanPageText(potentialMatches: seq<Candidate>, currentPage: nat,
                        pageTextElements: seq<Token>, pageAsText: string)
      returns (r: Result<seq<Candidate>, DetectError>)
      requires |potentialMatches| > 0
      ensures r == ScanText(config, potentialMatches, currentPage, pageTextElements, pageAsText, 0)
    {
      ghost var goal := ScanText(config, potentialMatches, currentPage, pageTextElements, pageAsText, 0);
      var matches := potentialMatches;
      var startMatchingAt := 0;
      var beforeTableMatch := config.beginPattern(pageAsText, startMatchingAt);
      var afterTableMatch := config.endPattern(pageAsText, startMatchingAt);
      while beforeTableMatch.Some? || afterTableMatch.Some?
        invariant startMatchingAt <= |pageAsText| && |matches| > 0
        invariant beforeTableMatch == config.beginPattern(pageAsText, startMatchingAt)
        invariant afterTableMatch == config.endPattern(pageAsText, startMatchingAt)
        invariant ScanText(config, matches, currentPage, pageTextElements, pageAsText, startMatchingAt) == goal
        decreases |pageAsText| - startMatchingAt
      {
        ghost var before := matches;
        if Closed(matches[|matches| - 1]) {
          matches := matches + [Unset];
        }
        var tableUnderDetection := matches[|matches| - 1];
        var firstMatch := ChooseSlot(beforeTableMatch, afterTableMatch, tableUnderDetection);
        ScanTextRound(config, before, currentPage, pageTextElements, pageAsText, startMatchingAt, matches, firstMatch);
        var firstMatchIndex := firstMatch.span.start;
        if firstMatchIndex >= |pageTextElements| {
          return Failure(TokenIndexOutOfRange(currentPage, firstMatchIndex));
        }
        var element := pageTextElements[firstMatchIndex];
        var yCoordinate := AnchorY(config, firstMatch.slot, element);
        matches := matches[|matches| - 1 := Fill(tableUnderDetection, firstMatch.slot, currentPage, yCoordinate)];
        startMatchingAt := firstMatch.span.end;
        beforeTableMatch := config.beginPattern(pageAsText, startMatchingAt);
        afterTableMatch := config.endPattern(pageAsText, startMatchingAt);
      }
      return Success(matches);
    }

    /** The area of each candidate, taken from the front of the list. */
    method CalculateMatchingAreas(foundMatches: seq<Candidate>, document: Document,
                                  areaToFilter: Option<FilteredArea>)
      returns (matchingAreas: seq<MatchingArea>)
      requires forall i :: 0 <= i < |foundMatches| ==> WellFormed(foundMatches[i], |document.pages|)
      ensures matchingAreas == BuildAreas(document, areaToFilter, foundMatches)
    {
      matchingAreas := [];
      var pending := foundMatches;
      while pending != []
        invariant |matchingAreas| <= |foundMatches| && pending == foundMatches[|matchingAreas|..]
        invariant forall k :: 0 <= k < |matchingAreas| ==>
          matchingAreas[k] == BuildArea(document, areaToFilter, foundMatches[k])
      {
        var foundTable := pending[0];
        assert WellFormed(foundTable, |document.pages|);
        pending := pending[1..];
        var first, last := foundTable.beginPage, foundTable.endPage;
        var sections;
        if first == last {
          sections := map[first := [SubSection(first, SinglePageRect(PageAt(document, first), foundTable))]];
        } else {
          sections := map[first := [SubSection(first, FirstPageRect(PageAt(document, first), foundTable.beginY, areaToFilter))]];
          var iter := first + 1;
          while iter < last
            invariant first + 1 <= iter <= last
            invariant forall p :: p in sections <==> first <= p < iter
            invariant forall p :: first <= p < iter ==>
              sections[p] == [SubSection(p, PageRect(document, areaToFilter, foundTable, p))]
          {
            sections := sections[iter := [SubSection(iter, InteriorRect(PageAt(document, iter), areaToFilter))]];
            iter := iter + 1;
          }
          sections := sections[last := [SubSection(last, LastPageRect(PageAt(document, last), foundTable.endY, areaToFilter))]];
        }
        SectionsOfArea(document, areaToFilter, foundTable, sections);
        var matchingArea := MatchingArea(first, last, sections);
        matchingAreas := matchingAreas + [matchingArea];
      }
    }

    /**
     * Recompute every search of a document after its filter changed. Each
     * search's stored areas are copied, cleared and replaced by a fresh
     * detection; its record lists the copy as removed and the new areas as
     * added, and never flags an overlap. A failing detection stops the loop:
     * that search is left with no areas, the earlier ones keep their new
     * areas and the later ones their old areas.
     */
    static method CheckSearchesOnFilterResize(file: Document, filterArea: Option<FilteredArea>,
                                              currentRegexSearches: seq<RegexSearch>)
      returns (r: Result<seq<UpdatesOnResize>, DetectError>, ghost failedAt: nat)
      requires forall s :: s in currentRegexSearches ==> s.Valid()
      modifies currentRegexSearches
      ensures forall s :: s in currentRegexSearches ==> s.Valid()
      ensures r.Success? ==> |r.value| == |currentRegexSearches| && forall j :: 0 <= j < |currentRegexSearches| ==>
        var s := currentRegexSearches[j];
        var detected := DetectedAreas(s.config, file, filterArea);
        && detected.Success?
        && s.matchingAreas == detected.value
        && r.value[j] == UpdatesOnResize(s, detected.value,
             if Occurs(s, currentRegexSearches, j) then detected.value else old(s.matchingAreas), false)
      ensures r.Failure? ==>
        && failedAt < |currentRegexSearches|
        && DetectedAreas(currentRegexSearches[failedAt].config, file, filterArea) == Failure(r.error)
        && currentRegexSearches[failedAt].matchingAreas == []
        && (forall j :: 0 <= j < failedAt ==>
              DetectedAreas(currentRegexSearches[j].config, file, filterArea).Success? &&
              currentRegexSearches[j].matchingAreas == DetectedAreas(currentRegexSearches[j].config, file, filterArea).value)
        && (forall t :: t in currentRegexSearches && !Occurs(t, currentRegexSearches, failedAt + 1) ==>
              t.matchingAreas == old(t.matchingAreas))
    {
      r, failedAt := ResizeEach(file, filterArea, currentRegexSearches, c => DetectedAreas(c, file, filterArea));
      forall t | t in currentRegexSearches
        ensures t.Valid()
      {
        if r.Success? {
          var j :| 0 <= j < |currentRegexSearches| && currentRegexSearches[j] == t;
        } else if Occurs(t, currentRegexSearches, failedAt) {
          OccursAt(t, currentRegexSearches, failedAt);
          var j :| 0 <= j < failedAt && currentRegexSearches[j] == t;
        }
      }
    }

    /**
     * The loop of the resize, proved against `detect`, the detection every
     * search is expected to compute.
     */
    static method ResizeEach(file: Document, filterArea: Option<FilteredArea>,
                             currentRegexSearches: seq<RegexSearch>,
                             detect: SearchConfig -> Result<seq<MatchingArea>, DetectError>)
      returns (r: Result<seq<UpdatesOnResize>, DetectError>, ghost failedAt: nat)
      modifies currentRegexSearches
      ensures r.Success? ==> |r.value| == |currentRegexSearches| && forall j :: 0 <= j < |currentRegexSearches| ==>
        var s := currentRegexSearches[j];
        && detect(s.config).Success?
        && s.matchingAreas == detect(s.config).value
        && r.value[j] == UpdatesOnResize(s, detect(s.config).value,
             if Occurs(s, currentRegexSearches, j) then detect(s.config).value else old(s.matchingAreas), false)
      ensures r.Failure? ==>
        && failedAt < |currentRegexSearches|
        && detect(currentRegexSearches[failedAt].config) == Failure(r.error)
        && currentRegexSearches[failedAt].matchingAreas == []
        && (forall j :: 0 <= j < failedAt ==>
              detect(currentRegexSearches[j].config).Success? &&
              currentRegexSearches[j].matchingAreas == detect(currentRegexSearches[j].config).value)
        && (forall t :: t in currentRegexSearches && !Occurs(t, currentRegexSearches, failedAt + 1) ==>
              t.matchingAreas == old(t.matchingAreas))
    {
      var updatedSearches: seq<UpdatesOnResize> := [];
      for i := 0 to |currentRegexSearches|
        invariant |updatedSearches| == i
        invariant forall j :: 0 <= j < i ==>
          detect(currentRegexSearches[j].config).Success? &&
          currentRegexSearches[j].matchingAreas == detect(currentRegexSearches[j].config).value
        invariant forall j {:trigger updatedSearches[j]} :: 0 <= j < i ==>
          var s := currentRegexSearches[j];
          updatedSearches[j] == UpdatesOnResize(s, detect(s.config).value,
            if Occurs(s, currentRegexSearches, j) then detect(s.config).value else old(s.matchingAreas), false)
        invariant forall t :: t in currentRegexSearches && !Occurs(t, currentRegexSearches, i) ==>
          t.matchingAreas == old(t.matchingAreas)
      {
        var regexSearch := currentRegexSearches[i];
        var areasToRemove := regexSearch.matchingAreas;
        if Occurs(regexSearch, currentRegexSearches, i) {
          OccursAt(regexSearch, currentRegexSearches, i);
        }
        regexSearch.matchingAreas := [];
        var detected := detect(regexSearch.config);
        if detected.Failure? {
          return Failure(detected.error), i;
        }
        var areasToAdd := detected.value;
        regexSearch.matchingAreas := areasToAdd;
        updatedSearches := updatedSearches + [UpdatesOnResize(regexSearch, areasToAdd, areasToRemove, false)];
      }
      return Success(updatedSearches), 0;
    }
  }
}
