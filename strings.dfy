/** String helpers shared by the model: JavaScript's `String.prototype.includes`,
    which the page script uses both for the rel normalisation of external links
    and for the project tab filter, and the ASCII lower-casing by which HTML
    compares the value of a `target` attribute in a selector. */
module Strings {

  /** `needle` occurs in `hay` starting at offset `i`. */
  ghost predicate OccursAt(hay: string, needle: string, i: int)
  {
    0 <= i && i + |needle| <= |hay| && hay[i..i + |needle|] == needle
  }

  /** The reference meaning of a substring test: some offset holds an occurrence. */
  ghost predicate IsSubstring(needle: string, hay: string)
  {
    exists i :: OccursAt(hay, needle, i)
  }

  /** Occurrences in `hay[1..]` are the occurrences in `hay` past offset 0, shifted by one. */
  lemma ShiftOccurrences(hay: string, needle: string)
    requires |hay| > 0
    ensures forall j :: 0 <= j ==> (OccursAt(hay[1..], needle, j) <==> OccursAt(hay, needle, j + 1))
  {
    forall j | 0 <= j
      ensures OccursAt(hay[1..], needle, j) <==> OccursAt(hay, needle, j + 1)
    {
      if j + |needle| <= |hay[1..]| {
        assert hay[1..][j..j + |needle|] == hay[j + 1..j + 1 + |needle|];
      }
    }
  }

  /** `hay.includes(needle)`: true iff `needle` is a substring of `hay`
      (the empty needle is a substring of every string). */
  function Includes(hay: string, needle: string): (b: bool)
    ensures b <==> IsSubstring(needle, hay)
    decreases |hay|
  {
    if |needle| > |hay| then
      false
    else if hay[..|needle|] == needle then
      assert OccursAt(hay, needle, 0);
      true
    else
      ShiftOccurrences(hay, needle);
      assert !OccursAt(hay, needle, 0);
      assert IsSubstring(needle, hay[1..]) <==> IsSubstring(needle, hay) by {
        if IsSubstring(needle, hay) {
          var i :| OccursAt(hay, needle, i);
          assert OccursAt(hay[1..], needle, i - 1);
        }
        if IsSubstring(needle, hay[1..]) {
          var j :| OccursAt(hay[1..], needle, j);
          assert OccursAt(hay, needle, j + 1);
        }
      }
      Includes(hay[1..], needle)
  }

  /** Appending text never removes a substring that was already there. */
  lemma IncludesAppend(s: string, t: string, needle: string)
    requires Includes(s, needle)
    ensures Includes(s + t, needle)
  {
    var i :| OccursAt(s, needle, i);
    assert (s + t)[i..i + |needle|] == s[i..i + |needle|];
    assert OccursAt(s + t, needle, i);
  }

  /** A string always contains whatever was appended to it last. */
  lemma IncludesSuffix(s: string, t: string)
    ensures Includes(s + t, t)
  {
    assert (s + t)[|s|..|s| + |t|] == t;
    assert OccursAt(s + t, t, |s|);
  }

  /** A string that sits between any two others is included in their concatenation. */
  lemma IncludesInfix(a: string, needle: string, b: string)
    ensures Includes(a + needle + b, needle)
  {
    IncludesSuffix(a, needle);
    IncludesAppend(a + needle, b, needle);
  }

  /** ASCII lower-casing of one character: 'A'..'Z' map to 'a'..'z', every other
      character is kept. */
  function LowerChar(c: char): (d: char)
    ensures !('A' <= d <= 'Z')
    ensures !('A' <= c <= 'Z') ==> d == c
    ensures 'A' <= c <= 'Z' ==> d as int - c as int == 'a' as int - 'A' as int
  {
    if 'A' <= c <= 'Z' then (c as int - 'A' as int + 'a' as int) as char else c
  }

  /** ASCII lower-casing of a string, character by character. */
  function AsciiLower(s: string): (r: string)
    ensures |r| == |s|
    ensures forall i :: 0 <= i < |s| ==> r[i] == LowerChar(s[i])
  {
    seq(|s|, i requires 0 <= i < |s| => LowerChar(s[i]))
  }

  /** Lower-casing is idempotent, so a lower-case literal compares equal to its
      own lower-cased form. */
  lemma AsciiLowerIdempotent(s: string)
    ensures AsciiLower(AsciiLower(s)) == AsciiLower(s)
  {
  }
}
