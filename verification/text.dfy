/** String predicates of the two backend languages: prefix and suffix tests,
    ASCII digits and case, and the whitespace classes of Java's
    `Character.isWhitespace` and .NET's `char.IsWhiteSpace`. */
module Text {

  predicate StartsWith(s: string, prefix: string) {
    |prefix| <= |s| && s[..|prefix|] == prefix
  }

  predicate EndsWith(s: string, suffix: string) {
    |suffix| <= |s| && s[|s| - |suffix|..] == suffix
  }

  predicate IsAsciiDigit(c: char) {
    '0' <= c <= '9'
  }

  predicate AllAsciiDigits(s: string) {
    forall i | 0 <= i < |s| :: IsAsciiDigit(s[i])
  }

  /** Upper-cases the ASCII letters a-z and leaves every other character alone. */
  function AsciiUpper(c: char): (u: char)
    ensures 'a' <= c <= 'z' ==> 'A' <= u <= 'Z' && u as int == c as int - 32
    ensures !('a' <= c <= 'z') ==> u == c
  {
    if 'a' <= c <= 'z' then (c as int - 32) as char else c
  }

  function ToUpperAscii(s: string): (r: string)
    ensures |r| == |s|
    ensures forall i | 0 <= i < |s| :: r[i] == AsciiUpper(s[i])
  {
    seq(|s|, i requires 0 <= i < |s| => AsciiUpper(s[i]))
  }

  function ToLowerAscii(s: string): (r: string)
    ensures |r| == |s|
    ensures forall i | 0 <= i < |s| :: 'A' <= s[i] <= 'Z' ==> r[i] as int == s[i] as int + 32
    ensures forall i | 0 <= i < |s| :: !('A' <= s[i] <= 'Z') ==> r[i] == s[i]
  {
    seq(|s|, i requires 0 <= i < |s| => if 'A' <= s[i] <= 'Z' then (s[i] as int + 32) as char else s[i])
  }

  predicate IsAsciiLetter(c: char) {
    'A' <= c <= 'Z' || 'a' <= c <= 'z'
  }

  /** Lower-casing commutes with taking a prefix. */
  lemma ToLowerAsciiPrefix(s: string, k: nat)
    requires k <= |s|
    ensures ToLowerAscii(s[..k]) == ToLowerAscii(s)[..k]
  {
  }

  /** Ordinal comparison that ignores the case of ASCII letters. */
  predicate EqualsIgnoreAsciiCase(a: string, b: string) {
    ToUpperAscii(a) == ToUpperAscii(b)
  }

  /** Java's `Character.isWhitespace`: the Unicode space, line and paragraph
      separators except the non-breaking ones (U+00A0, U+2007, U+202F), plus
      U+0009..U+000D and U+001C..U+001F. */
  predicate IsJavaWhitespace(c: char) {
    || '\t' <= c <= '\r'
    || '\U{1C}' <= c <= '\U{1F}'
    || c == ' '
    || c == '\U{1680}'
    || ('\U{2000}' <= c <= '\U{200A}' && c != '\U{2007}')
    || c == '\U{2028}' || c == '\U{2029}'
    || c == '\U{205F}' || c == '\U{3000}'
  }

  /** Java's `String.isBlank`: empty, or white space only. */
  predicate IsJavaBlank(s: string) {
    forall i | 0 <= i < |s| :: IsJavaWhitespace(s[i])
  }

  /** .NET's `char.IsWhiteSpace`: the Unicode space, line and paragraph
      separators, plus U+0009..U+000D and U+0085. */
  predicate IsDotNetWhitespace(c: char) {
    || '\t' <= c <= '\r'
    || c == ' ' || c == '\U{85}' || c == '\U{A0}'
    || c == '\U{1680}'
    || '\U{2000}' <= c <= '\U{200A}'
    || c == '\U{2028}' || c == '\U{2029}'
    || c == '\U{202F}' || c == '\U{205F}' || c == '\U{3000}'
  }

  /** .NET's `string.IsNullOrWhiteSpace` on a present string. */
  predicate IsDotNetBlank(s: string) {
    forall i | 0 <= i < |s| :: IsDotNetWhitespace(s[i])
  }
}
