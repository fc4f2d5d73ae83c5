/**
 * The regular-expression engine, seen only through its find-from-offset
 * contract: a compiled pattern applied to a text and a start offset yields the
 * leftmost match at or after that offset, or nothing.
 */
module AnchorScanner {
  import opened Wrappers

  /** The character offsets of a match: the first matched character and one past the last. */
  datatype Span = Span(start: nat, end: nat)

  /**
   * A match found from offset `from` lies inside the text, starts no earlier
   * than `from`, and is not empty. (An empty match would make the detector
   * search from the same offset forever.)
   */
  ghost predicate FindsForward(p: (string, nat) -> Option<Span>) {
    forall text: string, from: nat ::
      p(text, from).Some? ==> from <= p(text, from).value.start < p(text, from).value.end <= |text|
  }

  /** A compiled pattern: Matcher.find(from) followed by start() and end(). */
  type Pattern = p: (string, nat) -> Option<Span> | FindsForward(p)
    witness (text: string, from: nat) => None

  /**
   * The finder of a one-character literal such as "A": the leftmost
   * occurrence of `c` at or after `from`, as a one-character match.
   */
  function FindChar(c: char, text: string, from: nat): (r: Option<Span>)
    ensures r.Some? ==> from <= r.value.start < |text| && r.value.end == r.value.start + 1 && text[r.value.start] == c
    ensures r.Some? ==> forall k :: from <= k < r.value.start ==> text[k] != c
    ensures r.None? ==> forall k :: from <= k < |text| ==> text[k] != c
    decreases |text| - from
  {
    if from >= |text| then None
    else if text[from] == c then Some(Span(from, from + 1))
    else FindChar(c, text, from + 1)
  }

  /** The compiled pattern of a one-character literal. */
  function CharPattern(c: char): Pattern {
    (text: string, from: nat) => FindChar(c, text, from)
  }

  /** The pattern finds no match in `text`, from whatever offset it searches. */
  ghost predicate NoMatchIn(p: Pattern, text: string) {
    forall from: nat :: p(text, from).None?
  }
}
