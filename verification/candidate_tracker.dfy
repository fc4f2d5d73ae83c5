/**
 * The candidate tracker of the detector: the specification of the page-by-page
 * scan that fills begin and end slots of candidates (DetectionData) and of the
 * final trim of an unfinished candidate, with the invariants the scan keeps.
 * The scan itself, as loops, is RegexSearch.DetectMatchingAreas.
 */
module CandidateTracker {
  import opened Wrappers
  import opened PageModel
  import opened AnchorScanner

  /** The page number of a slot not filled yet; real pages are numbered from 1. */
  const INIT: nat := 0

  /** Offset factors of an anchor, in line heights (SignOfOffset). */
  const NegativeBuffer: real := -0.5
  const PositiveNoBuffer: real := 1.0
  const PositiveWithBuffer: real := 1.5
  const NoOffset: real := 0.0

  /**
   * A potential matching area: the page and y coordinate of its begin anchor
   * and of its end anchor. A slot whose page is INIT is unset.
   */
  datatype Candidate = Candidate(beginPage: nat, beginY: real, endPage: nat, endY: real)

  /** A fresh DetectionData: both slots unset, coordinates at the origin. */
  const Unset: Candidate := Candidate(INIT, 0.0, INIT, 0.0)

  datatype Slot = BeginSlot | EndSlot

  /** The two patterns and whether the text each matches belongs to the area. */
  datatype SearchConfig = SearchConfig(
    beginPattern: Pattern, includeBegin: bool,
    endPattern: Pattern, includeEnd: bool)

  /** A match whose start offset is past the page's element list (IndexOutOfBoundsException). */
  datatype DetectError = TokenIndexOutOfRange(page: nat, index: nat)

  /**
   * Both slots are set, the end anchor's page is not before the begin
   * anchor's page, and on a shared page the end anchor's y is not above the
   * begin anchor's y. Text offsets are not compared. A candidate that is not closed
   * is reused by the next match, and dropped if it is the last one at the end.
   */
  predicate Closed(c: Candidate) {
    && c.beginPage != INIT
    && c.endPage != INIT
    && !(c.endPage < c.beginPage)
    && !(c.endY < c.beginY && c.endPage == c.beginPage)
  }

  /** The slot a match fills and the match itself. */
  datatype Choice = Choice(slot: Slot, span: Span)

  /**
   * Which of the two find results the scan consumes: the one that exists, or
   * the earlier one; on a tie, the begin match exactly when the target's begin
   * slot is still unset.
   */
  function ChooseSlot(b: Option<Span>, e: Option<Span>, target: Candidate): (r: Choice)
    requires b.Some? || e.Some?
    ensures r.slot == BeginSlot ==> b.Some? && r.span == b.value
    ensures r.slot == EndSlot ==> e.Some? && r.span == e.value
    ensures b.Some? ==> r.span.start <= b.value.start
    ensures e.Some? ==> r.span.start <= e.value.start
    ensures b.Some? && e.Some? && b.value.start == e.value.start ==>
      (r.slot == BeginSlot <==> target.beginPage == INIT)
  {
    if b.Some? && e.Some? then
      if b.value.start == e.value.start then
        if target.beginPage == INIT then Choice(BeginSlot, b.value) else Choice(EndSlot, e.value)
      else if b.value.start < e.value.start then Choice(BeginSlot, b.value)
      else Choice(EndSlot, e.value)
    else if b.None? then Choice(EndSlot, e.value)
    else Choice(BeginSlot, b.value)
  }

  /** The offset factor of an anchor of the given slot. */
  function AnchorFactor(cfg: SearchConfig, slot: Slot): real {
    if slot == BeginSlot then (if cfg.includeBegin then NegativeBuffer else PositiveNoBuffer)
    else (if cfg.includeEnd then PositiveWithBuffer else NoOffset)
  }

  /** The y coordinate stored for an anchor found at the given text element. */
  function AnchorY(cfg: SearchConfig, slot: Slot, t: Token): real {
    t.y + t.height * AnchorFactor(cfg, slot)
  }

  /**
   * Including the begin text moves the begin anchor up by one and a half lines;
   * including the end text moves the end anchor down by one and a half lines;
   * so for an element of positive height, including an anchor's text widens
   * the area.
   */
  lemma AnchorPlacement(cfg: SearchConfig, t: Token)
    ensures AnchorY(cfg, BeginSlot, t) == (if cfg.includeBegin then t.y - t.height / 2.0 else t.y + t.height)
    ensures AnchorY(cfg, EndSlot, t) == (if cfg.includeEnd then t.y + 3.0 * t.height / 2.0 else t.y)
    ensures t.height > 0.0 && cfg.includeBegin ==>
      AnchorY(cfg, BeginSlot, t) < AnchorY(cfg.(includeBegin := false), BeginSlot, t)
    ensures t.height > 0.0 && cfg.includeEnd ==>
      AnchorY(cfg, EndSlot, t) > AnchorY(cfg.(includeEnd := false), EndSlot, t)
  {
  }

  /** The list with its target as last element: a fresh candidate is appended after a closed one. */
  function WithTarget(cands: seq<Candidate>): seq<Candidate>
    requires |cands| > 0
  {
    if Closed(cands[|cands| - 1]) then cands + [Unset] else cands
  }

  function Fill(c: Candidate, slot: Slot, page: nat, y: real): Candidate {
    if slot == BeginSlot then c.(beginPage := page, beginY := y) else c.(endPage := page, endY := y)
  }

  /** The list after a match: its target (the last candidate) with one slot set. */
  function Record(targets: seq<Candidate>, slot: Slot, page: nat, y: real): seq<Candidate>
    requires |targets| > 0
  {
    targets[|targets| - 1 := Fill(targets[|targets| - 1], slot, page, y)]
  }

  /**
   * The scan of one page's text from offset `from`, until neither pattern
   * matches. Candidates are only appended: all but the last one come out as
   * they went in.
   */
  function ScanText(cfg: SearchConfig, cands: seq<Candidate>, page: nat, tokens: seq<Token>,
                    text: string, from: nat): (r: Result<seq<Candidate>, DetectError>)
    requires |cands| > 0 && from <= |text|
    ensures r.Success? ==> |r.value| >= |cands| && r.value[..|cands| - 1] == cands[..|cands| - 1]
    decreases |text| - from
  {
    var b := cfg.beginPattern(text, from);
    var e := cfg.endPattern(text, from);
    if b.None? && e.None? then Success(cands)
    else
      var targets := WithTarget(cands);
      var choice := ChooseSlot(b, e, targets[|targets| - 1]);
      if choice.span.start >= |tokens| then Failure(TokenIndexOutOfRange(page, choice.span.start))
      else
        var y := AnchorY(cfg, choice.slot, tokens[choice.span.start]);
        var next := Record(targets, choice.slot, page, y);
        var r := ScanText(cfg, next, page, tokens, text, choice.span.end);
        assert r.Success? ==> r.value[..|cands| - 1] == r.value[..|next| - 1][..|cands| - 1];
        r
  }

  /**
   * The scan of pages `page`..|doc.pages|, carrying the candidate list from
   * page to page; here too all candidates but the last come out unchanged.
   */
  function ScanPages(cfg: SearchConfig, doc: Document, filter: Option<FilteredArea>,
                     cands: seq<Candidate>, page: nat): (r: Result<seq<Candidate>, DetectError>)
    requires |cands| > 0 && 1 <= page
    ensures r.Success? ==> |r.value| >= |cands| && r.value[..|cands| - 1] == cands[..|cands| - 1]
    decreases |doc.pages| + 1 - page
  {
    if page > |doc.pages| then Success(cands)
    else
      var tokens := PageTokens(doc, filter, page);
      match ScanText(cfg, cands, page, tokens, PageText(tokens), 0)
      case Failure(err) => Failure(err)
      case Success(next) =>
        var r := ScanPages(cfg, doc, filter, next, page + 1);
        assert r.Success? ==> r.value[..|cands| - 1] == r.value[..|next| - 1][..|cands| - 1];
        r
  }

  /** One round of the scan, as the loop of the detector takes it. */
  lemma ScanTextRound(cfg: SearchConfig, cands: seq<Candidate>, page: nat, tokens: seq<Token>,
                      text: string, from: nat, targets: seq<Candidate>, choice: Choice)
    requires |cands| > 0 && from <= |text|
    requires cfg.beginPattern(text, from).Some? || cfg.endPattern(text, from).Some?
    requires targets == WithTarget(cands)
    requires choice == ChooseSlot(cfg.beginPattern(text, from), cfg.endPattern(text, from), targets[|targets| - 1])
    ensures from < choice.span.end <= |text|
    ensures choice.span.start >= |tokens| ==>
      ScanText(cfg, cands, page, tokens, text, from) == Failure(TokenIndexOutOfRange(page, choice.span.start))
    ensures choice.span.start < |tokens| ==>
      ScanText(cfg, cands, page, tokens, text, from) ==
      ScanText(cfg, Record(targets, choice.slot, page, AnchorY(cfg, choice.slot, tokens[choice.span.start])),
               page, tokens, text, choice.span.end)
  {
  }

  /** The list without its last candidate when that one is not closed. */
  function Trim(cands: seq<Candidate>): seq<Candidate>
    requires |cands| > 0
  {
    if Closed(cands[|cands| - 1]) then cands else cands[..|cands| - 1]
  }

  /** The candidates that the detector hands to the area builder. */
  function DetectCandidates(cfg: SearchConfig, doc: Document, filter: Option<FilteredArea>)
    : Result<seq<Candidate>, DetectError>
  {
    match ScanPages(cfg, doc, filter, [Unset], 1)
    case Failure(err) => Failure(err)
    case Success(cands) => Success(Trim(cands))
  }

  /** A candidate the area builder accepts: closed, and on pages of the document. */
  predicate WellFormed(c: Candidate, pageCount: nat) {
    Closed(c) && c.endPage <= pageCount
  }

  /** No page of `c` that is set lies before page `p`. */
  predicate NotBefore(c: Candidate, p: nat) {
    (c.beginPage == INIT || p <= c.beginPage) && (c.endPage == INIT || p <= c.endPage)
  }

  /**
   * What holds of the candidate list after the scan has seen pages 1..page:
   * it is not empty; every candidate but the last is closed; no slot holds a
   * page after `page`; and no candidate has a page before the end page of an
   * earlier one.
   */
  ghost predicate TrackerInv(cs: seq<Candidate>, page: nat) {
    && |cs| > 0
    && (forall i :: 0 <= i < |cs| - 1 ==> Closed(cs[i]))
    && (forall i :: 0 <= i < |cs| ==> cs[i].beginPage <= page && cs[i].endPage <= page)
    && (forall i, j :: 0 <= i < j < |cs| ==> NotBefore(cs[j], cs[i].endPage))
  }

  /** One match keeps the invariant and leaves every candidate but the last untouched. */
  lemma RecordKeepsInvariant(cs: seq<Candidate>, slot: Slot, page: nat, y: real)
    requires 1 <= page && TrackerInv(cs, page)
    ensures var r := Record(WithTarget(cs), slot, page, y);
      TrackerInv(r, page) && |r| >= |cs| && r[..|cs| - 1] == cs[..|cs| - 1]
  {
  }

  /** Scanning one page keeps the invariant; candidates before the last stay as they were. */
  lemma {:induction false} ScanTextKeepsInvariant(cfg: SearchConfig, cs: seq<Candidate>, page: nat,
                                                  tokens: seq<Token>, text: string, from: nat)
    requires 1 <= page && from <= |text| && TrackerInv(cs, page)
    ensures ScanText(cfg, cs, page, tokens, text, from).Success? ==>
      TrackerInv(ScanText(cfg, cs, page, tokens, text, from).value, page)
    decreases |text| - from
  {
    var b := cfg.beginPattern(text, from);
    var e := cfg.endPattern(text, from);
    if b.Some? || e.Some? {
      var targets := WithTarget(cs);
      var choice := ChooseSlot(b, e, targets[|targets| - 1]);
      if choice.span.start < |tokens| {
        var y := AnchorY(cfg, choice.slot, tokens[choice.span.start]);
        var next := Record(targets, choice.slot, page, y);
        RecordKeepsInvariant(cs, choice.slot, page, y);
        ScanTextKeepsInvariant(cfg, next, page, tokens, text, choice.span.end);
      }
    }
  }

  /** Scanning the remaining pages keeps the invariant, up to the last page. */
  lemma {:induction false} ScanPagesKeepsInvariant(cfg: SearchConfig, doc: Document, filter: Option<FilteredArea>,
                                                   cs: seq<Candidate>, page: nat)
    requires 1 <= page <= |doc.pages| + 1 && TrackerInv(cs, page - 1)
    ensures ScanPages(cfg, doc, filter, cs, page).Success? ==>
      TrackerInv(ScanPages(cfg, doc, filter, cs, page).value, |doc.pages|)
    decreases |doc.pages| + 1 - page
  {
    if page <= |doc.pages| {
      var tokens := PageTokens(doc, filter, page);
      assert TrackerInv(cs, page);
      ScanTextKeepsInvariant(cfg, cs, page, tokens, PageText(tokens), 0);
      var scanned := ScanText(cfg, cs, page, tokens, PageText(tokens), 0);
      if scanned.Success? {
        ScanPagesKeepsInvariant(cfg, doc, filter, scanned.value, page + 1);
      }
    }
  }

  /**
   * Only well-formed candidates survive the trim, and they come in page
   * order: each one ends no later than the next one begins.
   */
  lemma DetectedCandidatesWellFormed(cfg: SearchConfig, doc: Document, filter: Option<FilteredArea>)
    ensures DetectCandidates(cfg, doc, filter).Success? ==>
      var cs := DetectCandidates(cfg, doc, filter).value;
      && (forall i :: 0 <= i < |cs| ==> WellFormed(cs[i], |doc.pages|))
      && (forall i, j :: 0 <= i < j < |cs| ==> cs[i].endPage <= cs[j].beginPage)
  {
    ScanPagesKeepsInvariant(cfg, doc, filter, [Unset], 1);
  }

  /** The pattern finds no match in the text of any page's search band. */
  ghost predicate NoMatchInDocument(p: Pattern, doc: Document, filter: Option<FilteredArea>) {
    forall page :: 1 <= page <= |doc.pages| ==> NoMatchIn(p, PageText(PageTokens(doc, filter, page)))
  }

  /**
   * The list is one candidate whose begin slot is unset when `beginUnmatched`
   * holds and whose end slot is unset when `endUnmatched` holds.
   */
  ghost predicate Lonely(cs: seq<Candidate>, beginUnmatched: bool, endUnmatched: bool) {
    && |cs| == 1
    && (beginUnmatched ==> cs[0].beginPage == INIT)
    && (endUnmatched ==> cs[0].endPage == INIT)
  }

  lemma {:induction false} ScanTextStaysLonely(cfg: SearchConfig, cs: seq<Candidate>, page: nat,
                                               tokens: seq<Token>, text: string, from: nat,
                                               beginUnmatched: bool, endUnmatched: bool)
    requires beginUnmatched || endUnmatched
    requires beginUnmatched ==> NoMatchIn(cfg.beginPattern, text)
    requires endUnmatched ==> NoMatchIn(cfg.endPattern, text)
    requires from <= |text| && Lonely(cs, beginUnmatched, endUnmatched)
    ensures ScanText(cfg, cs, page, tokens, text, from).Success? ==>
      Lonely(ScanText(cfg, cs, page, tokens, text, from).value, beginUnmatched, endUnmatched)
    decreases |text| - from
  {
    var b := cfg.beginPattern(text, from);
    var e := cfg.endPattern(text, from);
    if b.Some? || e.Some? {
      var targets := WithTarget(cs);
      assert targets == cs;
      var choice := ChooseSlot(b, e, cs[0]);
      if choice.span.start < |tokens| {
        var y := AnchorY(cfg, choice.slot, tokens[choice.span.start]);
        ScanTextStaysLonely(cfg, Record(targets, choice.slot, page, y), page, tokens, text, choice.span.end,
                            beginUnmatched, endUnmatched);
      }
    }
  }

  lemma {:induction false} ScanPagesStaysLonely(cfg: SearchConfig, doc: Document, filter: Option<FilteredArea>,
                                                cs: seq<Candidate>, page: nat,
                                                beginUnmatched: bool, endUnmatched: bool)
    requires beginUnmatched || endUnmatched
    requires beginUnmatched ==> NoMatchInDocument(cfg.beginPattern, doc, filter)
    requires endUnmatched ==> NoMatchInDocument(cfg.endPattern, doc, filter)
    requires 1 <= page && Lonely(cs, beginUnmatched, endUnmatched)
    ensures ScanPages(cfg, doc, filter, cs, page).Success? ==>
      Lonely(ScanPages(cfg, doc, filter, cs, page).value, beginUnmatched, endUnmatched)
    decreases |doc.pages| + 1 - page
  {
    if page <= |doc.pages| {
      var tokens := PageTokens(doc, filter, page);
      ScanTextStaysLonely(cfg, cs, page, tokens, PageText(tokens), 0, beginUnmatched, endUnmatched);
      var scanned := ScanText(cfg, cs, page, tokens, PageText(tokens), 0);
      if scanned.Success? {
        ScanPagesStaysLonely(cfg, doc, filter, scanned.value, page + 1, beginUnmatched, endUnmatched);
      }
    }
  }

  /**
   * When the begin pattern or the end pattern matches nowhere in the
   * document's search bands, no candidate survives: a begin without an end
   * (or an end without a begin) is dropped.
   */
  lemma UnmatchedPatternFindsNothing(cfg: SearchConfig, doc: Document, filter: Option<FilteredArea>)
    requires NoMatchInDocument(cfg.beginPattern, doc, filter) || NoMatchInDocument(cfg.endPattern, doc, filter)
    ensures DetectCandidates(cfg, doc, filter).Success? ==> DetectCandidates(cfg, doc, filter).value == []
  {
    ScanPagesStaysLonely(cfg, doc, filter, [Unset], 1,
                         NoMatchInDocument(cfg.beginPattern, doc, filter), NoMatchInDocument(cfg.endPattern, doc, filter));
  }

  /**
   * `Closed` compares pages and y coordinates, not text offsets, so an end
   * match found before the begin match on the same line still closes the
   * candidate. On a one-page document whose band holds "B" then "A" on one
   * line (y 10, height 2), with begin pattern "A" (its text included) and end
   * pattern "B" (excluded), the end slot is filled first and the begin slot
   * next, and the candidate runs from y 9 down to y 10.
   */
  lemma EndMatchBeforeBeginCloses()
    ensures DetectCandidates(SearchConfig(CharPattern('A'), true, CharPattern('B'), false),
                             Document([PageGeometry(600.0, 800.0, 100.0, 700.0)],
                                      (page: nat, top: int, height: int) => [Token("B", 10.0, 2.0), Token("A", 10.0, 2.0)]),
                             None)
            == Success([Candidate(1, 9.0, 1, 10.0)])
  {
    var cfg := SearchConfig(CharPattern('A'), true, CharPattern('B'), false);
    var doc := Document([PageGeometry(600.0, 800.0, 100.0, 700.0)],
                        (page: nat, top: int, height: int) => [Token("B", 10.0, 2.0), Token("A", 10.0, 2.0)]);
    var tokens := PageTokens(doc, None, 1);
    assert tokens == [Token("B", 10.0, 2.0), Token("A", 10.0, 2.0)];
    var text := PageText(tokens);
    assert tokens[..1] == [Token("B", 10.0, 2.0)] && tokens[..1][..0] == [];
    assert PageText(tokens[..1]) == "B";
    assert text == "BA";
    // First round: "B" at offset 0 comes before "A" at offset 1 and fills the end slot.
    assert text[0] == 'B' && text[1] == 'A';
    assert FindChar('A', text, 0) == FindChar('A', text, 1) == Some(Span(1, 2));
    assert cfg.beginPattern(text, 0) == Some(Span(1, 2));
    assert cfg.endPattern(text, 0) == Some(Span(0, 1));
    assert WithTarget([Unset]) == [Unset];
    assert AnchorY(cfg, EndSlot, tokens[0]) == 10.0;
    var endFirst := Candidate(INIT, 0.0, 1, 10.0);
    assert Record([Unset], EndSlot, 1, 10.0) == [endFirst];
    assert ScanText(cfg, [Unset], 1, tokens, text, 0) == ScanText(cfg, [endFirst], 1, tokens, text, 1);
    // Second round: only "A" is left; the unclosed candidate takes it as its begin.
    assert cfg.beginPattern(text, 1) == Some(Span(1, 2));
    assert cfg.endPattern(text, 1) == None;
    assert WithTarget([endFirst]) == [endFirst];
    assert AnchorY(cfg, BeginSlot, tokens[1]) == 9.0;
    var both := Candidate(1, 9.0, 1, 10.0);
    assert Record([endFirst], BeginSlot, 1, 9.0) == [both];
    assert ScanText(cfg, [endFirst], 1, tokens, text, 1) == ScanText(cfg, [both], 1, tokens, text, 2);
    assert cfg.beginPattern(text, 2) == None && cfg.endPattern(text, 2) == None;
    assert ScanPages(cfg, doc, None, [Unset], 1) == ScanPages(cfg, doc, None, [both], 2);
  }

  /** Begin pattern "A" and end pattern "B", neither text included. */
  const AThenB: SearchConfig := SearchConfig(CharPattern('A'), false, CharPattern('B'), false)

  /** The text of a page holding one element. */
  lemma OneTokenText(t: Token)
    ensures PageText([t]) == t.text
  {
    assert [t][..0] == [];
  }

  /** One page holding "A" (y 10, height 2), then "x", then "B" (y 30). */
  const OnePage: Document :=
    Document([PageGeometry(600.0, 800.0, 100.0, 700.0)],
             (page: nat, top: int, height: int) =>
               [Token("A", 10.0, 2.0), Token("x", 20.0, 2.0), Token("B", 30.0, 2.0)])

  /** The text of the single page of `OnePage`. */
  lemma OnePageText()
    ensures PageTokens(OnePage, None, 1) == [Token("A", 10.0, 2.0), Token("x", 20.0, 2.0), Token("B", 30.0, 2.0)]
    ensures PageText(PageTokens(OnePage, None, 1)) == "AxB"
  {
    var tokens := PageTokens(OnePage, None, 1);
    assert tokens[..2][..1] == [Token("A", 10.0, 2.0)] && tokens[..2][..1][..0] == [];
    assert PageText(tokens[..2][..1]) == "A";
    assert PageText(tokens[..2]) == "Ax";
  }

  /**
   * The ordinary case on one page: with begin pattern "A" and end pattern
   * "B", "A" fills the begin slot one line below it, "B" the end slot at its
   * own line, and the closed candidate survives the trim.
   */
  lemma BeginThenEndOnOnePage()
    ensures DetectCandidates(AThenB, OnePage, None) == Success([Candidate(1, 12.0, 1, 30.0)])
  {
    var cfg := AThenB;
    OnePageText();
    var tokens, text := PageTokens(OnePage, None, 1), "AxB";
    assert text[0] == 'A' && text[1] == 'x' && text[2] == 'B';
    // First round: "A" at offset 0 comes first and fills the begin slot.
    assert FindChar('B', text, 0) == FindChar('B', text, 1) == FindChar('B', text, 2) == Some(Span(2, 3));
    var choice1 := ChooseSlot(cfg.beginPattern(text, 0), cfg.endPattern(text, 0), Unset);
    assert choice1 == Choice(BeginSlot, Span(0, 1));
    ScanTextRound(cfg, [Unset], 1, tokens, text, 0, [Unset], choice1);
    var beginFirst := Candidate(1, 12.0, INIT, 0.0);
    assert Record([Unset], BeginSlot, 1, AnchorY(cfg, BeginSlot, tokens[0])) == [beginFirst];
    // Second round: only "B" is left; the open candidate takes it as its end.
    assert FindChar('A', text, 1) == FindChar('A', text, 2) == FindChar('A', text, 3) == None;
    var choice2 := ChooseSlot(cfg.beginPattern(text, 1), cfg.endPattern(text, 1), beginFirst);
    assert choice2 == Choice(EndSlot, Span(2, 3));
    ScanTextRound(cfg, [beginFirst], 1, tokens, text, 1, [beginFirst], choice2);
    var both := Candidate(1, 12.0, 1, 30.0);
    assert Record([beginFirst], EndSlot, 1, AnchorY(cfg, EndSlot, tokens[2])) == [both];
    assert cfg.beginPattern(text, 3) == None && cfg.endPattern(text, 3) == None;
    assert ScanText(cfg, [Unset], 1, tokens, text, 0) == Success([both]);
    assert ScanPages(cfg, OnePage, None, [Unset], 1) == ScanPages(cfg, OnePage, None, [both], 2);
  }

  /**
   * A three-page document: "A" (y 50, height 2) alone on page 1, "x" on
   * page 2 and "B" (y 40) on page 3.
   */
  const ThreePages: Document :=
    Document([PageGeometry(600.0, 800.0, 100.0, 700.0), PageGeometry(600.0, 800.0, 100.0, 700.0),
              PageGeometry(600.0, 800.0, 100.0, 700.0)],
             (page: nat, top: int, height: int) =>
               if page == 1 then [Token("A", 50.0, 2.0)]
               else if page == 2 then [Token("x", 50.0, 2.0)]
               else [Token("B", 40.0, 2.0)])

  /** Page 1 of `ThreePages`: "A" opens a candidate one line below it. */
  lemma ThreePagesFirstPage()
    ensures ScanPages(AThenB, ThreePages, None, [Unset], 1)
         == ScanPages(AThenB, ThreePages, None, [Candidate(1, 52.0, INIT, 0.0)], 2)
  {
    var cfg := AThenB;
    var tokens := PageTokens(ThreePages, None, 1);
    assert tokens == [Token("A", 50.0, 2.0)];
    OneTokenText(tokens[0]);
    assert FindChar('B', "A", 0) == FindChar('B', "A", 1) == None;
    var choice := ChooseSlot(cfg.beginPattern("A", 0), cfg.endPattern("A", 0), Unset);
    assert choice == Choice(BeginSlot, Span(0, 1));
    ScanTextRound(cfg, [Unset], 1, tokens, "A", 0, [Unset], choice);
    var beginFirst := Candidate(1, 52.0, INIT, 0.0);
    assert Record([Unset], BeginSlot, 1, AnchorY(cfg, BeginSlot, tokens[0])) == [beginFirst];
    assert FindChar('A', "A", 1) == None;
    assert ScanText(cfg, [Unset], 1, tokens, "A", 0) == Success([beginFirst]);
  }

  /** Page 2 of `ThreePages`: neither pattern matches "x", and the candidate stays open. */
  lemma ThreePagesSecondPage(c: Candidate)
    ensures ScanPages(AThenB, ThreePages, None, [c], 2) == ScanPages(AThenB, ThreePages, None, [c], 3)
  {
    var tokens := PageTokens(ThreePages, None, 2);
    assert tokens == [Token("x", 50.0, 2.0)];
    OneTokenText(tokens[0]);
    assert FindChar('A', "x", 0) == FindChar('A', "x", 1) == None;
    assert FindChar('B', "x", 0) == FindChar('B', "x", 1) == None;
    assert ScanText(AThenB, [c], 2, tokens, "x", 0) == Success([c]);
  }

  /** Page 3 of `ThreePages`: "B" fills the end slot of the open candidate. */
  lemma ThreePagesLastPage()
    ensures ScanPages(AThenB, ThreePages, None, [Candidate(1, 52.0, INIT, 0.0)], 3)
         == Success([Candidate(1, 52.0, 3, 40.0)])
  {
    var cfg := AThenB;
    var beginFirst := Candidate(1, 52.0, INIT, 0.0);
    var tokens := PageTokens(ThreePages, None, 3);
    assert tokens == [Token("B", 40.0, 2.0)];
    OneTokenText(tokens[0]);
    assert FindChar('A', "B", 0) == FindChar('A', "B", 1) == None;
    var choice := ChooseSlot(cfg.beginPattern("B", 0), cfg.endPattern("B", 0), beginFirst);
    assert choice == Choice(EndSlot, Span(0, 1));
    ScanTextRound(cfg, [beginFirst], 3, tokens, "B", 0, [beginFirst], choice);
    var both := Candidate(1, 52.0, 3, 40.0);
    assert Record([beginFirst], EndSlot, 3, AnchorY(cfg, EndSlot, tokens[0])) == [both];
    assert FindChar('B', "B", 1) == None;
    assert ScanText(cfg, [beginFirst], 3, tokens, "B", 0) == Success([both]);
  }

  /**
   * A begin match on page 1 and an end match on page 3 make one candidate
   * across the three pages: it starts one line below "A" on page 1 and ends
   * at the line of "B" on page 3, although "B" lies higher on its page than
   * "A" on its own.
   */
  lemma BeginThenEndAcrossPages()
    ensures DetectCandidates(AThenB, ThreePages, None) == Success([Candidate(1, 52.0, 3, 40.0)])
  {
    ThreePagesFirstPage();
    ThreePagesSecondPage(Candidate(1, 52.0, INIT, 0.0));
    ThreePagesLastPage();
  }

  /** Every page's search band holds one-character elements only. */
  ghost predicate GlyphPages(doc: Document, filter: Option<FilteredArea>) {
    forall page :: 1 <= page <= |doc.pages| ==> OneCharEach(PageTokens(doc, filter, page))
  }

  lemma {:induction false} ScanTextNeverFailsOnGlyphs(cfg: SearchConfig, cs: seq<Candidate>, page: nat,
                                                      tokens: seq<Token>, from: nat)
    requires |cs| > 0 && OneCharEach(tokens) && from <= |PageText(tokens)|
    ensures ScanText(cfg, cs, page, tokens, PageText(tokens), from).Success?
    decreases |PageText(tokens)| - from
  {
    var text := PageText(tokens);
    var b := cfg.beginPattern(text, from);
    var e := cfg.endPattern(text, from);
    if b.Some? || e.Some? {
      var targets := WithTarget(cs);
      var choice := ChooseSlot(b, e, targets[|targets| - 1]);
      OneCharTextLength(tokens);
      var y := AnchorY(cfg, choice.slot, tokens[choice.span.start]);
      ScanTextNeverFailsOnGlyphs(cfg, Record(targets, choice.slot, page, y), page, tokens, choice.span.end);
    }
  }

  lemma {:induction false} ScanPagesNeverFailsOnGlyphs(cfg: SearchConfig, doc: Document, filter: Option<FilteredArea>,
                                                       cs: seq<Candidate>, page: nat)
    requires GlyphPages(doc, filter) && |cs| > 0 && 1 <= page
    ensures ScanPages(cfg, doc, filter, cs, page).Success?
    decreases |doc.pages| + 1 - page
  {
    if page <= |doc.pages| {
      var tokens := PageTokens(doc, filter, page);
      ScanTextNeverFailsOnGlyphs(cfg, cs, page, tokens, 0);
      ScanPagesNeverFailsOnGlyphs(cfg, doc, filter, ScanText(cfg, cs, page, tokens, PageText(tokens), 0).value, page + 1);
    }
  }

  /**
   * The element lookup by character offset cannot go out of range when every
   * element is one character: the detection then always succeeds.
   */
  lemma GlyphPagesNeverFail(cfg: SearchConfig, doc: Document, filter: Option<FilteredArea>)
    requires GlyphPages(doc, filter)
    ensures DetectCandidates(cfg, doc, filter).Success?
  {
    ScanPagesNeverFailsOnGlyphs(cfg, doc, filter, [Unset], 1);
  }
}
