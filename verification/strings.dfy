/** String helpers used by the crawler: `startsWith`, `includes` and
    `toLowerCase` on JavaScript strings, modelled as sequences of characters. */
module Strings {

  /** `s.startsWith(prefix)`. */
  predicate StartsWith(s: string, prefix: string)
  {
    |prefix| <= |s| && s[..|prefix|] == prefix
  }

  /** `w` occurs in `s` at position `i`. */
  predicate OccursAt(s: string, w: string, i: int)
  {
    0 <= i && i + |w| <= |s| && s[i..i + |w|] == w
  }

  /** `s.includes(w)`, computed by scanning the start positions of `s`. */
  function Includes(s: string, w: string): (r: bool)
    ensures r <==> exists i :: OccursAt(s, w, i)
    decreases |s|
  {
    if StartsWith(s, w) then
      assert OccursAt(s, w, 0);
      true
    else if |s| == 0 then
      false
    else
      var r := Includes(s[1..], w);
      forall i | 0 <= i ensures OccursAt(s, w, i + 1) <==> OccursAt(s[1..], w, i) {
        OccursShift(s, w, i);
      }
      assert forall i :: OccursAt(s, w, i) ==> i == 0 || OccursAt(s[1..], w, i - 1);
      assert !OccursAt(s, w, 0);
      r
  }

  /** Occurrences in `s` after position 0 are occurrences in its tail. */
  lemma OccursShift(s: string, w: string, i: nat)
    requires |s| > 0
    ensures OccursAt(s, w, i + 1) <==> OccursAt(s[1..], w, i)
  {
    if i + 1 + |w| <= |s| {
      assert s[i + 1..i + 1 + |w|] == s[1..][i..i + |w|];
    }
  }

  /** Every character of an occurrence of `w` is a character of `s`. */
  lemma {:induction false} IncludesCharIn(s: string, w: string, k: int)
    requires Includes(s, w)
    requires 0 <= k < |w|
    ensures w[k] in s
  {
    var i :| OccursAt(s, w, i);
    assert s[i..i + |w|][k] == s[i + k];
  }

  /** `toLowerCase` on one character. The model lowers the capitals A–Z,
      U+00C0–U+00DE except U+00D7, U+0391–U+03A9 except U+03A2, and
      U+0400–U+042F; every other character, the accented Greek capitals
      among them, is left unchanged, and Σ always becomes σ (no final
      sigma). */
  function LowerChar(c: char): char
  {
    if 'A' <= c <= 'Z' then (c as int + 32) as char
    else if '\U{00C0}' <= c <= '\U{00DE}' && c != '\U{00D7}' then (c as int + 32) as char
    else if '\U{0391}' <= c <= '\U{03A9}' && c != '\U{03A2}' then (c as int + 32) as char
    else if '\U{0410}' <= c <= '\U{042F}' then (c as int + 32) as char
    else if '\U{0400}' <= c <= '\U{040F}' then (c as int + 80) as char
    else c
  }

  /** `s.toLowerCase()`, character by character. */
  function ToLowerCase(s: string): (r: string)
    ensures |r| == |s|
    ensures forall i :: 0 <= i < |s| ==> r[i] == LowerChar(s[i])
  {
    seq(|s|, i requires 0 <= i < |s| => LowerChar(s[i]))
  }

  /** A character with no case: it lower-cases to itself and no other
      character lower-cases to it. */
  predicate Caseless(c: char)
  {
    forall d :: LowerChar(d) == c <==> d == c
  }

  /** Lower-casing never produces a Basic Latin capital letter. */
  lemma LowerIsNeverCapital(c: char)
    ensures !('A' <= LowerChar(c) <= 'Z')
  {
  }

  /** Every character beyond the Cyrillic block has no case in this model. */
  lemma CaselessAboveCyrillic(c: char)
    requires c > '\U{045F}'
    ensures Caseless(c)
  {
  }

  /** A word made of caseless characters occurs in the lower-cased text
      exactly when it occurs in the text itself. */
  lemma IncludesLowerCaseless(s: string, w: string)
    requires forall k :: 0 <= k < |w| ==> Caseless(w[k])
    ensures Includes(ToLowerCase(s), w) <==> Includes(s, w)
  {
    forall i ensures OccursAt(ToLowerCase(s), w, i) <==> OccursAt(s, w, i) {
      OccursLowerCaseless(s, w, i);
    }
  }

  lemma OccursLowerCaseless(s: string, w: string, i: int)
    requires forall k :: 0 <= k < |w| ==> Caseless(w[k])
    ensures OccursAt(ToLowerCase(s), w, i) <==> OccursAt(s, w, i)
  {
    if 0 <= i && i + |w| <= |s| {
      var l := ToLowerCase(s)[i..i + |w|];
      var t := s[i..i + |w|];
      assert forall k :: 0 <= k < |w| ==> l[k] == LowerChar(t[k]);
      assert forall k :: 0 <= k < |w| ==> (l[k] == w[k] <==> t[k] == w[k]);
      assert l == w <==> t == w;
    }
  }

  /** Lower-casing carries every occurrence of `w` in `s` to an occurrence of
      the lower-cased `w` at the same position. */
  lemma {:induction false} IncludesLowered(s: string, w: string)
    requires Includes(s, w)
    ensures Includes(ToLowerCase(s), ToLowerCase(w))
  {
    var i :| OccursAt(s, w, i);
    var l, lw := ToLowerCase(s), ToLowerCase(w);
    forall k | 0 <= k < |w| ensures l[i..i + |w|][k] == lw[k] {
      assert s[i..i + |w|][k] == s[i + k];
    }
    assert OccursAt(l, lw, i);
  }

  /** An occurrence in the tail of `s` is an occurrence in `s`. */
  lemma IncludesTail(s: string, w: string)
    requires |s| > 0 && Includes(s[1..], w)
    ensures Includes(s, w)
  {
    var i :| OccursAt(s[1..], w, i);
    assert s[1..][i..i + |w|] == s[i + 1..i + 1 + |w|];
    assert OccursAt(s, w, i + 1);
  }

  /** A single differing character rules out an occurrence at `i`. */
  lemma Mismatch(s: string, w: string, i: int, k: int)
    requires 0 <= k < |w| && 0 <= i + k < |s|
    requires s[i + k] != w[k]
    ensures !OccursAt(s, w, i)
  {
  }

  /** A word whose first character is missing from `s` does not occur in it. */
  lemma MissingFirstChar(s: string, w: string)
    requires |w| > 0 && w[0] !in s
    ensures !Includes(s, w)
  {
    if Includes(s, w) {
      IncludesCharIn(s, w, 0);
    }
  }
}
