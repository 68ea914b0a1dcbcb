/**
 * Character classes and the string rules the console script applies to a
 * card title: the `[\d\s.-]` numbering class, `String.prototype.trim` and an
 * ASCII `toLowerCase`.
 */
module Text {

  /** JavaScript's WhiteSpace and LineTerminator characters: the set matched
      by the regular-expression class `\s` and removed by `trim`. */
  predicate IsWhitespace(c: char) {
    c == '\t' || c == '\n' || c == '\U{000B}' || c == '\U{000C}' || c == '\r'
    || c == ' ' || c == '\U{00A0}' || c == '\U{1680}'
    || ('\U{2000}' <= c <= '\U{200A}')
    || c == '\U{2028}' || c == '\U{2029}' || c == '\U{202F}' || c == '\U{205F}'
    || c == '\U{3000}' || c == '\U{FEFF}'
  }

  /** `\d` without the `u` flag: the ASCII digits only. */
  predicate IsDigit(c: char) {
    '0' <= c <= '9'
  }

  /** The class `[\d\s.-]`: a character that may belong to an old numbering prefix. */
  predicate IsNumberingChar(c: char) {
    IsDigit(c) || IsWhitespace(c) || c == '.' || c == '-'
  }

  /** The first position at or after `i` that does not hold a numbering
      character: where a greedy `[\d\s.-]+` started at `i` stops. */
  function SkipNumbering(s: string, i: nat): (j: nat)
    requires i <= |s|
    ensures i <= j <= |s|
    ensures forall k :: i <= k < j ==> IsNumberingChar(s[k])
    ensures j == |s| || !IsNumberingChar(s[j])
    decreases |s| - i
  {
    if i < |s| && IsNumberingChar(s[i]) then SkipNumbering(s, i + 1) else i
  }

  /** The stop position of `SkipNumbering` is the only one with its properties. */
  lemma {:induction false} SkipNumberingUnique(s: string, i: nat, j: nat)
    requires i <= j <= |s|
    requires forall k :: i <= k < j ==> IsNumberingChar(s[k])
    requires j == |s| || !IsNumberingChar(s[j])
    ensures SkipNumbering(s, i) == j
    decreases |s| - i
  {
    if i < j {
      SkipNumberingUnique(s, i + 1, j);
    }
  }

  /** `s.replace(/^[\d\s.-]+/, '')`: removes the longest leading run of
      numbering characters (the pattern is anchored and greedy). */
  function StripNumbering(s: string): string {
    s[SkipNumbering(s, 0)..]
  }

  /** The first position at or after `i` that does not hold whitespace. */
  function SkipWhitespace(s: string, i: nat): (j: nat)
    requires i <= |s|
    ensures i <= j <= |s|
    ensures forall k :: i <= k < j ==> IsWhitespace(s[k])
    ensures j == |s| || !IsWhitespace(s[j])
    decreases |s| - i
  {
    if i < |s| && IsWhitespace(s[i]) then SkipWhitespace(s, i + 1) else i
  }

  /** The start of the run of whitespace that ends at position `j`. */
  function WhitespaceTail(s: string, j: nat): (i: nat)
    requires j <= |s|
    ensures i <= j
    ensures forall k :: i <= k < j ==> IsWhitespace(s[k])
    ensures i == 0 || !IsWhitespace(s[i - 1])
  {
    if j > 0 && IsWhitespace(s[j - 1]) then WhitespaceTail(s, j - 1) else j
  }

  /** `String.prototype.trimStart`. */
  function TrimStart(s: string): string {
    s[SkipWhitespace(s, 0)..]
  }

  /** `String.prototype.trimEnd`. */
  function TrimEnd(s: string): string {
    s[..WhitespaceTail(s, |s|)]
  }

  /** `String.prototype.trim`. */
  function Trim(s: string): string {
    TrimEnd(TrimStart(s))
  }

  /** A trimmed string neither starts nor ends with whitespace. */
  lemma TrimmedEnds(s: string)
    ensures Trim(s) == [] || (!IsWhitespace(Trim(s)[0]) && !IsWhitespace(Trim(s)[|Trim(s)| - 1]))
  {
    var u := TrimStart(s);
    if Trim(s) != [] {
      assert Trim(s)[0] == u[0];
    }
  }

  /** A string that neither starts nor ends with whitespace is its own trim. */
  lemma TrimOfTrimmed(t: string)
    requires t == [] || (!IsWhitespace(t[0]) && !IsWhitespace(t[|t| - 1]))
    ensures Trim(t) == t
  {
    assert TrimStart(t) == t;
  }

  /** The cleaned title: the numbering prefix removed, then trimmed. */
  function Clean(s: string): string {
    Trim(StripNumbering(s))
  }

  /** A title with its numbering prefix stripped is trimmed at its end only. */
  lemma CleanIsTrimEnd(s: string)
    ensures Clean(s) == TrimEnd(StripNumbering(s))
  {
    var t := StripNumbering(s);
    assert t == [] || t[0] == s[SkipNumbering(s, 0)];
    assert TrimStart(t) == t;
  }

  /** A cleaned title does not start with a digit, whitespace, `.` or `-`,
      and does not end with whitespace. */
  lemma CleanShape(s: string)
    ensures Clean(s) == [] || (!IsNumberingChar(Clean(s)[0]) && !IsWhitespace(Clean(s)[|Clean(s)| - 1]))
  {
    var t := StripNumbering(s);
    CleanIsTrimEnd(s);
    assert t == [] || t[0] == s[SkipNumbering(s, 0)];
    assert Clean(s) == [] || Clean(s)[0] == t[0];
  }

  /** Cleaning keeps the contiguous piece of the title that starts right after
      the numbering prefix; everything after that piece is whitespace. */
  lemma CleanIsInfix(s: string)
    ensures var a := SkipNumbering(s, 0);
      && a + |Clean(s)| <= |s|
      && Clean(s) == s[a..a + |Clean(s)|]
      && (forall i :: a + |Clean(s)| <= i < |s| ==> IsWhitespace(s[i]))
  {
    var a, t := SkipNumbering(s, 0), StripNumbering(s);
    CleanIsTrimEnd(s);
    var b := WhitespaceTail(t, |t|);
    assert Clean(s) == s[a..a + b];
    forall i | a + b <= i < |s|
      ensures IsWhitespace(s[i])
    {
      assert s[i] == t[i - a];
    }
  }

  /** A title cleans to the empty string exactly when every one of its
      characters is a digit, whitespace, `.` or `-`. */
  lemma CleanEmptyIff(s: string)
    ensures Clean(s) == [] <==> forall i :: 0 <= i < |s| ==> IsNumberingChar(s[i])
  {
    var a, t := SkipNumbering(s, 0), StripNumbering(s);
    CleanIsTrimEnd(s);
    if a < |s| {
      assert t[0] == s[a];
      assert WhitespaceTail(t, |t|) > 0;
    }
  }

  /** A string that is already clean is its own cleaning. */
  lemma CleanOfCleanShaped(r: string)
    requires r == [] || (!IsNumberingChar(r[0]) && !IsWhitespace(r[|r| - 1]))
    ensures StripNumbering(r) == r && Clean(r) == r
  {
    assert SkipNumbering(r, 0) == 0;
    TrimOfTrimmed(r);
  }

  /** Cleaning is idempotent. */
  lemma CleanIdempotent(s: string)
    ensures Clean(Clean(s)) == Clean(s)
  {
    CleanShape(s);
    CleanOfCleanShaped(Clean(s));
  }

  /** Stripping is unaffected by a prefix made only of numbering characters. */
  lemma StripNumberingAfterPrefix(p: string, s: string)
    requires forall i :: 0 <= i < |p| ==> IsNumberingChar(p[i])
    ensures StripNumbering(p + s) == StripNumbering(s)
  {
    var ps, j := p + s, |p| + SkipNumbering(s, 0);
    forall k | 0 <= k < j
      ensures IsNumberingChar(ps[k])
    {
      if k >= |p| {
        assert ps[k] == s[k - |p|];
      }
    }
    assert j == |ps| || ps[j] == s[j - |p|];
    SkipNumberingUnique(ps, 0, j);
    assert ps[j..] == s[j - |p|..];
  }

  /** ASCII `toLowerCase` of one character. */
  function LowerChar(c: char): char {
    if 'A' <= c <= 'Z' then (c as int + 32) as char else c
  }

  /** ASCII `String.prototype.toLowerCase`. */
  function ToLower(s: string): string {
    seq(|s|, i requires 0 <= i < |s| => LowerChar(s[i]))
  }

  /** Lower-casing twice is lower-casing once. */
  lemma ToLowerIdempotent(s: string)
    ensures ToLower(ToLower(s)) == ToLower(s)
  {
    assert forall i :: 0 <= i < |s| ==> LowerChar(LowerChar(s[i])) == LowerChar(s[i]);
  }

  /** Lower-casing leaves whitespace in place and creates none. */
  lemma LowerKeepsWhitespace(c: char)
    ensures IsWhitespace(LowerChar(c)) <==> IsWhitespace(c)
  {
  }
}
