/** The string operations the pages use to match a search box against a
    record: `toLowerCase`, `includes`, `trim` and `toUpperCase` on one
    character. Characters are treated as ASCII: only 'A'..'Z' and
    'a'..'z' change case. */
module Text {

  function LowerChar(c: char): (r: char)
    ensures 'A' <= c <= 'Z' ==> r as int == c as int + 32
    ensures !('A' <= c <= 'Z') ==> r == c
  {
    if 'A' <= c <= 'Z' then (c as int + 32) as char else c
  }

  function UpperChar(c: char): (r: char)
    ensures 'a' <= c <= 'z' ==> r as int == c as int - 32
    ensures !('a' <= c <= 'z') ==> r == c
  {
    if 'a' <= c <= 'z' then (c as int - 32) as char else c
  }

  /** `s.toLowerCase()`, character by character. */
  function Lower(s: string): (r: string)
    ensures |r| == |s|
    ensures forall i :: 0 <= i < |s| ==> r[i] == LowerChar(s[i])
  {
    seq(|s|, i requires 0 <= i < |s| => LowerChar(s[i]))
  }

  /** `q` occurs in `s` as the contiguous block starting at index `i`. */
  predicate OccursAt(s: string, q: string, i: int)
  {
    0 <= i && i + |q| <= |s| && s[i..i + |q|] == q
  }

  /** `s.includes(q)`. */
  predicate Includes(s: string, q: string)
  {
    exists i | 0 <= i <= |s| - |q| :: OccursAt(s, q, i)
  }

  /** The case-insensitive search test used on every page:
      `field.toLowerCase().includes(query.toLowerCase())`. */
  predicate Matches(field: string, query: string)
  {
    Includes(Lower(field), Lower(query))
  }

  /** An empty search box matches every field. */
  lemma EmptyQueryMatches(field: string)
    ensures Matches(field, "")
  {
    assert Lower("") == [];
    assert OccursAt(Lower(field), Lower(""), 0);
  }

  /** A field that already starts with the lower-cased query matches it. */
  lemma PrefixMatches(field: string, query: string)
    requires |query| <= |field| && Lower(field)[..|query|] == Lower(query)
    ensures Matches(field, query)
  {
    assert OccursAt(Lower(field), Lower(query), 0);
  }

  /** A character other than a letter survives lower-casing unchanged, so it
      occurs in `Lower(s)` only where it occurs in `s`. */
  lemma {:induction false} LowerKeepsNonLetter(s: string, c: char)
    requires !('A' <= c <= 'Z') && !('a' <= c <= 'z')
    ensures c in Lower(s) <==> c in s
  {
    if c in Lower(s) {
      var i :| 0 <= i < |s| && Lower(s)[i] == c;
      assert s[i] == c;
    }
    if c in s {
      var i :| 0 <= i < |s| && s[i] == c;
      assert Lower(s)[i] == c;
    }
  }

  /** A query holding a character the field lacks cannot match it. */
  lemma NoMatchWithoutChar(field: string, query: string, k: nat)
    requires k < |query|
    requires !('A' <= query[k] <= 'Z') && !('a' <= query[k] <= 'z')
    requires query[k] !in field
    ensures !Matches(field, query)
  {
    LowerKeepsNonLetter(field, query[k]);
  }

  /** What JavaScript's `String.prototype.trim` strips: the white-space
      characters (tab, vertical tab, form feed, space, no-break space, the
      byte-order mark and every other space separator) and the line
      terminators (line feed, carriage return, line and paragraph
      separators). */
  predicate IsSpace(c: char)
  {
    c == '\t' || c == '\n' || c == '\U{000B}' || c == '\U{000C}' || c == '\r' || c == ' '
    || c == '\U{00A0}' || c == '\U{1680}' || '\U{2000}' <= c <= '\U{200A}'
    || c == '\U{2028}' || c == '\U{2029}' || c == '\U{202F}' || c == '\U{205F}'
    || c == '\U{3000}' || c == '\U{FEFF}'
  }

  /** `!s.trim()`: nothing is left once surrounding whitespace is stripped. */
  predicate IsBlank(s: string)
  {
    forall i :: 0 <= i < |s| ==> IsSpace(s[i])
  }

  /** A draft of no-break or ideographic spaces is blank too; a letter
      anywhere makes it non-blank. */
  lemma UnicodeSpacesAreBlank(s: string)
    requires forall i :: 0 <= i < |s| ==> s[i] in {'\U{00A0}', '\U{3000}', '\U{FEFF}', ' '}
    ensures IsBlank(s)
    ensures IsBlank(s + "a") == false
  {
    assert (s + "a")[|s|] == 'a';
  }
}
