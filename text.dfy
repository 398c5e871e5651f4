/**
  The JavaScript string operations the components and the middleware rely on:
  `startsWith`, `includes`, `toLowerCase` and `trim`. Strings are sequences of
  Unicode code points, modelled as `seq<char>`; JavaScript counts UTF-16 code
  units instead, which differs only for characters outside the Basic
  Multilingual Plane.
 */
module Text {

  /** `s.startsWith(prefix)`. */
  predicate StartsWith(s: string, prefix: string) {
    |prefix| <= |s| && s[..|prefix|] == prefix
  }

  /** `s.includes(sub)`: `sub` is a prefix of some suffix of `s`. */
  predicate Contains(s: string, sub: string)
    decreases |s|
  {
    StartsWith(s, sub) || (|s| > 0 && Contains(s[1..], sub))
  }

  /** `sub` occurs in `s` as the slice starting at offset `i`. */
  predicate OccursAt(s: string, sub: string, i: int) {
    0 <= i <= |s| - |sub| && s[i..i + |sub|] == sub
  }

  /** `includes` holds exactly when `sub` occurs as a contiguous slice at some offset. */
  lemma {:induction false} ContainsIffOccurs(s: string, sub: string)
    ensures Contains(s, sub) <==> exists i :: OccursAt(s, sub, i)
    decreases |s|
  {
    if |s| > 0 {
      ContainsIffOccurs(s[1..], sub);
      if StartsWith(s, sub) {
        assert OccursAt(s, sub, 0);
      }
      if Contains(s[1..], sub) {
        var i :| OccursAt(s[1..], sub, i);
        assert s[i + 1..i + 1 + |sub|] == s[1..][i..i + |sub|];
        assert OccursAt(s, sub, i + 1);
      }
      if exists i :: OccursAt(s, sub, i) {
        var i :| OccursAt(s, sub, i);
        if i == 0 {
          assert StartsWith(s, sub);
        } else {
          assert s[1..][i - 1..i - 1 + |sub|] == s[i..i + |sub|];
          assert OccursAt(s[1..], sub, i - 1);
        }
      }
    } else {
      if StartsWith(s, sub) {
        assert OccursAt(s, sub, 0);
      }
      if exists i :: OccursAt(s, sub, i) {
        var i :| OccursAt(s, sub, i);
        assert StartsWith(s, sub);
      }
    }
  }

  /** Every string includes the empty string. */
  lemma ContainsEmpty(s: string)
    ensures Contains(s, "")
  {
    assert StartsWith(s, "");
  }

  /** `toLowerCase` on one code point: ASCII capitals map to small letters, everything else is kept. */
  function LowerChar(c: char): (r: char)
    ensures 'A' <= c <= 'Z' ==> r as int == c as int + 32
    ensures !('A' <= c <= 'Z') ==> r == c
  {
    if 'A' <= c <= 'Z' then (c as int - 'A' as int + 'a' as int) as char else c
  }

  /** `s.toLowerCase()`, restricted to ASCII case mapping. */
  function Lower(s: string): (r: string)
    ensures |r| == |s|
    ensures forall i :: 0 <= i < |s| ==> r[i] == LowerChar(s[i])
  {
    seq(|s|, i requires 0 <= i < |s| => LowerChar(s[i]))
  }

  /** Lower-casing leaves no ASCII capital behind, so doing it twice is the same as once. */
  lemma LowerIdempotent(s: string)
    ensures forall i :: 0 <= i < |s| ==> !('A' <= Lower(s)[i] <= 'Z')
    ensures Lower(Lower(s)) == Lower(s)
  {
  }

  /**
    The tables' case-insensitive search test: the lower-cased text (a title or
    a name) includes the lower-cased term.
   */
  predicate MatchesSearch(text: string, term: string) {
    Contains(Lower(text), Lower(term))
  }

  /** The search ignores case on both sides: lower-casing text or term first changes nothing. */
  lemma SearchIgnoresCase(text: string, term: string)
    ensures MatchesSearch(text, term) <==> MatchesSearch(Lower(text), Lower(term))
  {
    LowerIdempotent(text);
    LowerIdempotent(term);
  }

  /**
    The characters `String.prototype.trim` removes: ECMAScript's WhiteSpace
    (tab, vertical tab, form feed, space, no-break space, byte-order mark and
    the other Unicode space separators) and LineTerminator code points.
   */
  predicate IsWhitespace(c: char) {
    c == '\t' || c == '\n' || c == '\r' || c == ' ' ||
    c == '\U{0B}' || c == '\U{0C}' || c == '\U{A0}' || c == '\U{FEFF}' ||
    c == '\U{1680}' || ('\U{2000}' <= c <= '\U{200A}') ||
    c == '\U{2028}' || c == '\U{2029}' || c == '\U{202F}' || c == '\U{205F}' || c == '\U{3000}'
  }

  /** Every code point of `s` is whitespace. */
  predicate AllWhitespace(s: string) {
    forall i :: 0 <= i < |s| ==> IsWhitespace(s[i])
  }

  function TrimStart(s: string): string {
    if |s| > 0 && IsWhitespace(s[0]) then TrimStart(s[1..]) else s
  }

  function TrimEnd(s: string): string {
    if |s| > 0 && IsWhitespace(s[|s| - 1]) then TrimEnd(s[..|s| - 1]) else s
  }

  /** `s.trim()`: whitespace removed from both ends. */
  function Trim(s: string): string {
    TrimEnd(TrimStart(s))
  }

  lemma {:induction false} TrimStartEmpty(s: string)
    ensures TrimStart(s) == [] <==> AllWhitespace(s)
  {
    if |s| > 0 && IsWhitespace(s[0]) {
      TrimStartEmpty(s[1..]);
      assert AllWhitespace(s) <==> AllWhitespace(s[1..]) by {
        if AllWhitespace(s[1..]) {
          forall i | 0 <= i < |s| ensures IsWhitespace(s[i]) {
            if i > 0 { assert s[i] == s[1..][i - 1]; }
          }
        }
      }
    }
  }

  lemma {:induction false} TrimEndEmpty(s: string)
    ensures TrimEnd(s) == [] <==> AllWhitespace(s)
  {
    if |s| > 0 && IsWhitespace(s[|s| - 1]) {
      var init := s[..|s| - 1];
      TrimEndEmpty(init);
      assert AllWhitespace(s) <==> AllWhitespace(init) by {
        if AllWhitespace(init) {
          forall i | 0 <= i < |s| ensures IsWhitespace(s[i]) {
            if i < |s| - 1 { assert s[i] == init[i]; }
          }
        }
      }
    }
  }

  lemma {:induction false} TrimStartKeepsSuffix(s: string)
    ensures AllWhitespace(s) ==> AllWhitespace(TrimStart(s))
    ensures !AllWhitespace(s) ==> !AllWhitespace(TrimStart(s))
  {
    if |s| > 0 && IsWhitespace(s[0]) {
      TrimStartKeepsSuffix(s[1..]);
      if !AllWhitespace(s) {
        var i :| 0 <= i < |s| && !IsWhitespace(s[i]);
        assert s[1..][i - 1] == s[i];
      }
    }
  }

  /** `s` holds a code point that is not whitespace. */
  predicate HasContent(s: string) {
    exists i :: 0 <= i < |s| && !IsWhitespace(s[i])
  }

  /** `s.trim()` is truthy (non-empty) exactly when `s` holds a code point that is not whitespace. */
  lemma TrimNonEmptyIff(s: string)
    ensures Trim(s) != [] <==> HasContent(s)
  {
    TrimStartKeepsSuffix(s);
    TrimStartEmpty(s);
    TrimEndEmpty(TrimStart(s));
  }
}
