/**
 * The two QString operations the core relies on: `trimmed()` (whitespace removed at both ends)
 * and the case folding a case-insensitive filter applies before matching.
 */
module QStrings {

  /**
   * QChar::isSpace: the ASCII controls tab to carriage return (U+0009..U+000D), U+0085,
   * and every character of the Unicode separator categories Zs, Zl and Zp.
   */
  predicate IsSpace(c: char) {
    c == ' ' || ('\U{9}' <= c <= '\U{D}') || c == '\U{85}' || c == '\U{A0}' || c == '\U{1680}'
    || ('\U{2000}' <= c <= '\U{200A}') || c == '\U{2028}' || c == '\U{2029}' || c == '\U{202F}'
    || c == '\U{205F}' || c == '\U{3000}'
  }

  predicate AllSpace(s: string) {
    forall k :: 0 <= k < |s| ==> IsSpace(s[k])
  }

  /** Number of whitespace characters at the start of `s`. */
  function LeadingSpaces(s: string): (n: nat)
    ensures n <= |s| && forall k :: 0 <= k < n ==> IsSpace(s[k])
    ensures n < |s| ==> !IsSpace(s[n])
  {
    if s == [] || !IsSpace(s[0]) then 0
    else
      1 + LeadingSpaces(s[1..])
  }

  /** Number of whitespace characters at the end of `s`. */
  function TrailingSpaces(s: string): (n: nat)
    ensures n <= |s| && forall k :: |s| - n <= k < |s| ==> IsSpace(s[k])
    ensures n < |s| ==> !IsSpace(s[|s| - 1 - n])
  {
    if s == [] || !IsSpace(s[|s| - 1]) then 0
    else
      1 + TrailingSpaces(s[..|s| - 1])
  }

  /** QString::trimmed: `s` without its leading and trailing whitespace. */
  function Trimmed(s: string): (r: string)
    ensures |r| <= |s|
  {
    var t := s[LeadingSpaces(s)..];
    t[..|t| - TrailingSpaces(t)]
  }

  /**
   * What trimming keeps: the slice of `s` between its leading and its trailing whitespace,
   * empty exactly when `s` is all whitespace, and otherwise starting and ending with a
   * non-space character.
   */
  lemma TrimmedIsInnerSlice(s: string)
    ensures var r := Trimmed(s);
            && (r == [] <==> AllSpace(s))
            && (r != [] ==> !IsSpace(r[0]) && !IsSpace(r[|r| - 1]))
            && exists i :: 0 <= i <= |s| - |r| && s[i..i + |r|] == r
                           && AllSpace(s[..i]) && AllSpace(s[i + |r|..])
  {
    var i := LeadingSpaces(s);
    var r := Trimmed(s);
    TrimmedSlice(s);
    assert AllSpace(s[..i]) by {
      forall k | 0 <= k < i ensures IsSpace(s[..i][k]) {
        assert s[..i][k] == s[k];
      }
    }
    var j := i + |r|;
    assert AllSpace(s[j..]) by {
      forall k | 0 <= k < |s| - j ensures IsSpace(s[j..][k]) {
        assert s[j..][k] == s[j + k];
      }
    }
    if r != [] {
      TrimmedEnds(s);
    }
  }

  /** The trimmed text sits right after the leading whitespace, and only whitespace surrounds it. */
  lemma TrimmedSlice(s: string)
    ensures var i, r := LeadingSpaces(s), Trimmed(s);
            && i + |r| <= |s| && s[i..i + |r|] == r
            && (forall k :: 0 <= k < i ==> IsSpace(s[k]))
            && (forall k :: i + |r| <= k < |s| ==> IsSpace(s[k]))
  {
    TrimmedFollowsLeadingSpaces(s);
    SpacesFollowTrimmed(s);
  }

  /** The trimmed text is the slice of `s` that starts right after the leading whitespace. */
  lemma TrimmedFollowsLeadingSpaces(s: string)
    ensures var i, r := LeadingSpaces(s), Trimmed(s); i + |r| <= |s| && s[i..i + |r|] == r
  {
    var i := LeadingSpaces(s);
    var t := s[i..];
    var r := t[..|t| - TrailingSpaces(t)];
    assert r == Trimmed(s);
    forall k | 0 <= k < |r| ensures s[i..i + |r|][k] == r[k] {
      assert r[k] == t[k];
    }
  }

  /** Everything after the trimmed text is whitespace. */
  lemma SpacesFollowTrimmed(s: string)
    ensures var i, r := LeadingSpaces(s), Trimmed(s); forall k :: i + |r| <= k < |s| ==> IsSpace(s[k])
  {
    var i := LeadingSpaces(s);
    var t := s[i..];
    var r := t[..|t| - TrailingSpaces(t)];
    assert r == Trimmed(s);
    forall k | i + |r| <= k < |s| ensures IsSpace(s[k]) {
      assert s[k] == t[k - i];
    }
  }

  /** A non-empty trimmed text starts and ends with a non-space character. */
  lemma TrimmedEnds(s: string)
    requires Trimmed(s) != []
    ensures var r := Trimmed(s); !IsSpace(r[0]) && !IsSpace(r[|r| - 1])
  {
    var i := LeadingSpaces(s);
    var t := s[i..];
    var m := TrailingSpaces(t);
    var r := t[..|t| - m];
    assert r[0] == s[i];
    assert r[|r| - 1] == t[|t| - 1 - m];
  }

  /**
   * Length of the text in UTF-16 code units, as `QString::size()` counts it: one unit per
   * character up to U+FFFF, a surrogate pair (two units) per character above it.
   */
  function Utf16Length(s: string): (n: nat)
    ensures |s| <= n <= 2 * |s|
    ensures n == |s| <==> forall k :: 0 <= k < |s| ==> s[k] as int <= 0xFFFF
  {
    if s == [] then 0
    else
      assert forall k :: 1 <= k < |s| ==> s[1..][k - 1] == s[k];
      (if s[0] as int <= 0xFFFF then 1 else 2) + Utf16Length(s[1..])
  }


  /** Case folding of one character: ASCII upper-case letters to lower case, everything else kept. */
  function FoldChar(c: char): (d: char)
    ensures !('A' <= d <= 'Z')
    ensures !('A' <= c <= 'Z') ==> d == c
    ensures 'A' <= c <= 'Z' ==> d as int == c as int + 32
  {
    if 'A' <= c <= 'Z' then (c as int + 32) as char else c
  }

  /** Case folding of a text, character by character. */
  function FoldCase(s: string): (r: string)
    ensures |r| == |s|
    ensures forall k :: 0 <= k < |s| ==> r[k] == FoldChar(s[k])
  {
    if s == [] then [] else [FoldChar(s[0])] + FoldCase(s[1..])
  }

  /** Folding a folded text changes nothing. */
  lemma {:induction false} FoldCaseIdempotent(s: string)
    ensures FoldCase(FoldCase(s)) == FoldCase(s)
  {
    if s != [] {
      FoldCaseIdempotent(s[1..]);
      assert FoldCase(s)[1..] == FoldCase(s[1..]);
    }
  }
}
