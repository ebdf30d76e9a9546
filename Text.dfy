/** The string operations used by the search filters: `toLowerCase` (on ASCII
    letters only), `trim` (as a blankness test) and `includes`. */
module Text {

  function LowerChar(c: char): (r: char)
    ensures 'A' <= c <= 'Z' ==> 'a' <= r <= 'z'
    ensures !('A' <= c <= 'Z') ==> r == c
    ensures !('A' <= r <= 'Z')
  {
    if 'A' <= c <= 'Z' then (c as int + 32) as char else c
  }

  /** `s.toLowerCase()`, restricted to the ASCII letters. */
  function Lower(s: string): (r: string)
    ensures |r| == |s|
    ensures forall i :: 0 <= i < |s| ==> r[i] == LowerChar(s[i])
  {
    seq(|s|, i requires 0 <= i < |s| => LowerChar(s[i]))
  }

  /** Lowering a lowered string changes nothing. */
  lemma LowerIdempotent(s: string)
    ensures Lower(Lower(s)) == Lower(s)
  {
  }

  /** The characters `String.prototype.trim` strips: ECMAScript WhiteSpace
      (tab, vertical tab, form feed, space, no-break space, byte order mark and
      the space separators) and LineTerminator (line feed, carriage return,
      line and paragraph separators). */
  predicate IsTrimmed(c: char) {
    c == '\t' || c == '\n' || c == '\U{000B}' || c == '\U{000C}' || c == '\r' || c == ' '
    || c == '\U{00A0}' || c == '\U{1680}' || ('\U{2000}' <= c <= '\U{200A}')
    || c == '\U{2028}' || c == '\U{2029}' || c == '\U{202F}' || c == '\U{205F}'
    || c == '\U{3000}' || c == '\U{FEFF}'
  }

  /** `!s.trim()`: the string is empty once its leading and trailing white
      space is removed, that is, it holds only white space. */
  predicate IsBlank(s: string) {
    forall i :: 0 <= i < |s| ==> IsTrimmed(s[i])
  }

  /** `needle` occurs in `hay` starting at position `k`. */
  predicate OccursAt(hay: string, needle: string, k: int) {
    0 <= k && k + |needle| <= |hay| && hay[k..k + |needle|] == needle
  }

  /** `hay.includes(needle)`, computed by scanning from the front. */
  function Includes(hay: string, needle: string): (r: bool)
    ensures r <==> exists k :: OccursAt(hay, needle, k)
    decreases |hay|
  {
    if |needle| <= |hay| && hay[..|needle|] == needle then
      assert OccursAt(hay, needle, 0);
      true
    else if |needle| > |hay| then
      assert forall k :: !OccursAt(hay, needle, k);
      false
    else
      var r := Includes(hay[1..], needle);
      assert forall k :: OccursAt(hay[1..], needle, k) <==> OccursAt(hay, needle, k + 1) by {
        forall k ensures OccursAt(hay[1..], needle, k) <==> OccursAt(hay, needle, k + 1) {
          if 0 <= k && k + |needle| <= |hay[1..]| {
            assert hay[1..][k..k + |needle|] == hay[k + 1..k + 1 + |needle|];
          }
        }
      }
      assert !OccursAt(hay, needle, 0);
      assert r ==> exists k :: OccursAt(hay, needle, k) by {
        if r {
          var k :| OccursAt(hay[1..], needle, k);
          assert OccursAt(hay, needle, k + 1);
        }
      }
      assert (exists k :: OccursAt(hay, needle, k)) ==> r by {
        if exists k :: OccursAt(hay, needle, k) {
          var k :| OccursAt(hay, needle, k);
          assert k != 0;
          assert OccursAt(hay[1..], needle, k - 1);
        }
      }
      r
  }

  /** Every string includes the empty string, which is why a query is checked
      for blankness before it is matched. */
  lemma IncludesEmpty(hay: string)
    ensures Includes(hay, "")
  {
    assert OccursAt(hay, "", 0);
  }

  /** Case-insensitive `includes`: both sides are lowered. */
  predicate MatchesIgnoringCase(title: string, query: string) {
    Includes(Lower(title), Lower(query))
  }

  /** Matching ignores the case of the query's letters. */
  lemma MatchIgnoresQueryCase(title: string, query: string)
    ensures MatchesIgnoringCase(title, query) == MatchesIgnoringCase(title, Lower(query))
  {
    LowerIdempotent(query);
  }
}
