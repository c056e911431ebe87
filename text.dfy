/** Case-insensitive substring search, as the application uses it on a text
    column: `str.contains(query, case=False, na=False)`. Matching is literal
    (not a regular expression) and folds ASCII letters only. */
module Text {
  import opened Wrappers

  /** ASCII lower-casing of one character; every other character is left alone. */
  function LowerChar(c: char): char
  {
    if 'A' <= c <= 'Z' then (c as int + 32) as char else c
  }

  function Lower(s: string): string
  {
    seq(|s|, i requires 0 <= i < |s| => LowerChar(s[i]))
  }

  /** `needle` occurs in `hay` starting at position `i`. */
  predicate OccursAt(needle: string, hay: string, i: nat)
  {
    i + |needle| <= |hay| && hay[i..i + |needle|] == needle
  }

  /** Literal substring test, scanning `hay` from the left. */
  function Contains(hay: string, needle: string): bool
    decreases |hay|
  {
    if |needle| > |hay| then false
    else if hay[..|needle|] == needle then true
    else |hay| > 0 && Contains(hay[1..], needle)
  }

  /** A cell matches a query when it is present and, both lower-cased, the
      query is a substring of it; a missing cell never matches. */
  predicate ContainsIgnoreCase(cell: Option<string>, query: string)
    ensures ContainsIgnoreCase(cell, query) <==>
      cell.Some? && exists i: nat :: OccursAt(Lower(query), Lower(cell.value), i)
  {
    if cell.Some? then
      ContainsIff(Lower(cell.value), Lower(query));
      Contains(Lower(cell.value), Lower(query))
    else false
  }

  /** The search as one step of a filter chain applies it: an empty query
      is skipped (every row passes), any other query must match. */
  predicate SearchMatches(cell: Option<string>, query: string)
  {
    query == [] || ContainsIgnoreCase(cell, query)
  }

  /** Lower-casing leaves no upper-case ASCII letter and changes nothing when repeated. */
  lemma LowerIsIdempotent(s: string)
    ensures forall i :: 0 <= i < |s| ==> !('A' <= Lower(s)[i] <= 'Z')
    ensures Lower(Lower(s)) == Lower(s)
  {
  }

  /** `Contains` finds exactly the positions where the needle occurs. */
  lemma {:induction false} ContainsIff(hay: string, needle: string)
    ensures Contains(hay, needle) <==> exists i: nat :: OccursAt(needle, hay, i)
    decreases |hay|
  {
    if |needle| > |hay| {
    } else if hay[..|needle|] == needle {
      assert OccursAt(needle, hay, 0);
    } else {
      assert !OccursAt(needle, hay, 0);
      ContainsIff(hay[1..], needle);
      if exists j: nat :: OccursAt(needle, hay[1..], j) {
        var j: nat :| OccursAt(needle, hay[1..], j);
        assert hay[j + 1..j + 1 + |needle|] == hay[1..][j..j + |needle|];
        assert OccursAt(needle, hay, j + 1);
      }
      if exists i: nat :: OccursAt(needle, hay, i) {
        var i: nat :| OccursAt(needle, hay, i);
        assert i > 0;
        assert hay[1..][i - 1..i - 1 + |needle|] == hay[i..i + |needle|];
        assert OccursAt(needle, hay[1..], i - 1);
      }
    }
  }

  /** An exact-case occurrence is always a case-insensitive match. */
  lemma ExactOccurrenceMatches(hay: string, query: string, i: nat)
    requires OccursAt(query, hay, i)
    ensures ContainsIgnoreCase(Some(hay), query)
  {
    assert Lower(hay)[i..i + |query|] == Lower(query);
    assert OccursAt(Lower(query), Lower(hay), i);
    ContainsIff(Lower(hay), Lower(query));
  }

  /** Letter case, on either side, never changes the outcome of a match. */
  lemma MatchIgnoresCase(cell: string, query: string)
    ensures ContainsIgnoreCase(Some(cell), Lower(query)) == ContainsIgnoreCase(Some(cell), query)
    ensures ContainsIgnoreCase(Some(Lower(cell)), query) == ContainsIgnoreCase(Some(cell), query)
  {
    LowerIsIdempotent(query);
    LowerIsIdempotent(cell);
  }
}
