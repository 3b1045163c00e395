/** The JavaScript built-ins the frontend logic leans on: string `trim`,
    UTF-16 `length`, `encodeURIComponent`, and number values. */
module Js {
  import opened Seqs

  /** A JavaScript number as the model sees it: NaN or a finite value.
      Infinities and negative zero are not distinguished. */
  datatype JsNumber = NaN | Num(value: real)

  /** JavaScript truthiness of a number: NaN and 0 are falsy. */
  predicate NumberIsTruthy(n: JsNumber) {
    n.Num? && n.value != 0.0
  }

  /** The characters `String.prototype.trim` strips: WhiteSpace and
      LineTerminator of the ECMAScript grammar. */
  predicate IsJsWhitespace(c: char) {
    || '\t' <= c <= '\r'
    || c == ' ' || c == '\U{A0}' || c == '\U{1680}'
    || '\U{2000}' <= c <= '\U{200A}'
    || c == '\U{2028}' || c == '\U{2029}' || c == '\U{202F}'
    || c == '\U{205F}' || c == '\U{3000}' || c == '\U{FEFF}'
  }

  predicate IsJsBlank(s: string) {
    forall i | 0 <= i < |s| :: IsJsWhitespace(s[i])
  }

  /** `s` with its leading white space removed. */
  function TrimStart(s: string): (r: string)
    ensures |r| <= |s| && r == s[|s| - |r|..]
    ensures IsJsBlank(s[..|s| - |r|])
    ensures r == [] || !IsJsWhitespace(r[0])
  {
    if |s| > 0 && IsJsWhitespace(s[0]) then
      var r := TrimStart(s[1..]);
      assert s[..|s| - |r|] == [s[0]] + s[1..][..|s[1..]| - |r|];
      r
    else s
  }

  /** `s` with its trailing white space removed. */
  function TrimEnd(s: string): (r: string)
    ensures |r| <= |s| && r == s[..|r|]
    ensures IsJsBlank(s[|r|..])
    ensures r == [] || !IsJsWhitespace(r[|r| - 1])
  {
    if |s| > 0 && IsJsWhitespace(s[|s| - 1]) then
      var r := TrimEnd(s[..|s| - 1]);
      assert s[|r|..] == s[..|s| - 1][|r|..] + [s[|s| - 1]];
      r
    else s
  }

  /** `String.prototype.trim`. */
  function Trim(s: string): (r: string)
    ensures r == [] || (!IsJsWhitespace(r[0]) && !IsJsWhitespace(r[|r| - 1]))
    ensures r == [] <==> IsJsBlank(s)
    ensures |r| <= |s|
  {
    var front := TrimStart(s);
    var r := TrimEnd(front);
    assert r != [] ==> r[0] == front[0];
    assert IsJsBlank(s) ==> IsJsBlank(front);
    assert r == [] ==> IsJsBlank(s) by {
      if r == [] {
        assert s == s[..|s| - |front|] + front;
        assert front == front[|r|..];
      }
    }
    r
  }

  /** Trimming undoes white-space padding of any text that has no white space
      at either end. */
  lemma TrimUndoesPadding(before: string, text: string, after: string)
    requires IsJsBlank(before) && IsJsBlank(after)
    requires text == [] || (!IsJsWhitespace(text[0]) && !IsJsWhitespace(text[|text| - 1]))
    ensures Trim(before + text + after) == text
  {
    var s := before + text + after;
    if text == [] {
      assert IsJsBlank(s) by {
        forall i | 0 <= i < |s| ensures IsJsWhitespace(s[i]) {
          if i < |before| { assert s[i] == before[i]; } else { assert s[i] == after[i - |before|]; }
        }
      }
    } else {
      TrimStartDropsBlankPrefix(before, text + after);
      assert s == before + (text + after);
      TrimEndDropsBlankSuffix(text, after);
    }
  }

  lemma {:induction false} TrimStartDropsBlankPrefix(before: string, rest: string)
    requires IsJsBlank(before)
    requires rest != [] && !IsJsWhitespace(rest[0])
    ensures TrimStart(before + rest) == rest
  {
    if before != [] {
      assert (before + rest)[1..] == before[1..] + rest;
      TrimStartDropsBlankPrefix(before[1..], rest);
    } else {
      assert before + rest == rest;
    }
  }

  lemma {:induction false} TrimEndDropsBlankSuffix(rest: string, after: string)
    requires IsJsBlank(after)
    requires rest != [] && !IsJsWhitespace(rest[|rest| - 1])
    ensures TrimEnd(rest + after) == rest
  {
    if after != [] {
      var s := rest + after;
      assert s[..|s| - 1] == rest + after[..|after| - 1];
      TrimEndDropsBlankSuffix(rest, after[..|after| - 1]);
    } else {
      assert rest + after == rest;
    }
  }

  /** Trimming twice is trimming once. */
  lemma TrimIdempotent(s: string)
    ensures Trim(Trim(s)) == Trim(s)
  {
    var t := Trim(s);
    TrimUndoesPadding([], t, []);
    assert [] + t + [] == t;
  }

  /** A character outside the Basic Multilingual Plane: a surrogate pair in UTF-16. */
  predicate IsAstral(c: char) {
    c as int > 0xFFFF
  }

  /** The UTF-16 code units of `s`: JavaScript's `length`. Characters outside
      the Basic Multilingual Plane take two. */
  function Utf16Length(s: string): (n: nat)
    ensures n == |s| + Count(IsAstral, s)
    ensures |s| <= n <= 2 * |s|
    ensures (forall i | 0 <= i < |s| :: s[i] as int <= 0xFFFF) ==> n == |s|
  {
    if |s| == 0 then 0
    else (if s[0] as int > 0xFFFF then 2 else 1) + Utf16Length(s[1..])
  }

  /** The length of a concatenation is the sum of the lengths. */
  lemma Utf16LengthAppend(a: string, b: string)
    ensures Utf16Length(a + b) == Utf16Length(a) + Utf16Length(b)
  {
    CountAppend(IsAstral, a, b);
  }

  /* ---------- encodeURIComponent ---------- */

  /** The characters `encodeURIComponent` leaves as they are. */
  predicate IsUriUnreserved(c: char) {
    || 'A' <= c <= 'Z' || 'a' <= c <= 'z' || '0' <= c <= '9'
    || c == '-' || c == '_' || c == '.' || c == '!' || c == '~'
    || c == '*' || c == '\'' || c == '(' || c == ')'
  }

  predicate IsUpperHexDigit(c: char) {
    '0' <= c <= '9' || 'A' <= c <= 'F'
  }

  /** A character that can appear in the output of `encodeURIComponent`. */
  predicate IsUriSafe(c: char) {
    IsUriUnreserved(c) || c == '%' || IsUpperHexDigit(c)
  }

  function HexDigit(d: int): (c: char)
    requires 0 <= d < 16
    ensures IsUpperHexDigit(c)
  {
    if d < 10 then ('0' as int + d) as char else ('A' as int + d - 10) as char
  }

  /** The value of an upper-case hex digit. */
  function HexValue(c: char): int {
    if '0' <= c <= '9' then c as int - '0' as int else c as int - 'A' as int + 10
  }

  lemma HexRoundTrip(d: int)
    requires 0 <= d < 16
    ensures HexValue(HexDigit(d)) == d
  {
  }

  /** The UTF-8 encoding of a Unicode scalar value. */
  function Utf8(cp: int): (bytes: seq<int>)
    requires 0 <= cp <= 0x10FFFF
    ensures 1 <= |bytes| <= 4
    ensures forall i | 0 <= i < |bytes| :: 0 <= bytes[i] < 256
  {
    if cp < 0x80 then [cp]
    else if cp < 0x800 then [0xC0 + cp / 64, 0x80 + cp % 64]
    else if cp < 0x10000 then [0xE0 + cp / 4096, 0x80 + (cp / 64) % 64, 0x80 + cp % 64]
    else [0xF0 + cp / 262144, 0x80 + (cp / 4096) % 64, 0x80 + (cp / 64) % 64, 0x80 + cp % 64]
  }

  /** The length of a UTF-8 sequence, read from its lead byte. */
  function LeadLength(lead: int): int {
    if lead < 0x80 then 1 else if lead < 0xE0 then 2 else if lead < 0xF0 then 3 else 4
  }

  /** The code point a UTF-8 sequence of one to four bytes spells. */
  function Utf8Value(bytes: seq<int>): int {
    if |bytes| == 1 then bytes[0]
    else if |bytes| == 2 then (bytes[0] - 0xC0) * 64 + (bytes[1] - 0x80)
    else if |bytes| == 3 then (bytes[0] - 0xE0) * 4096 + (bytes[1] - 0x80) * 64 + (bytes[2] - 0x80)
    else if |bytes| == 4 then
      (bytes[0] - 0xF0) * 262144 + (bytes[1] - 0x80) * 4096 + (bytes[2] - 0x80) * 64 + (bytes[3] - 0x80)
    else 0
  }

  /** The lead byte says how long the sequence is, and the bytes spell the
      code point back: UTF-8 is prefix-free and injective. */
  lemma Utf8RoundTrip(cp: int)
    requires 0 <= cp <= 0x10FFFF
    ensures |Utf8(cp)| == LeadLength(Utf8(cp)[0])
    ensures Utf8Value(Utf8(cp)) == cp
  {
    var q1, r0 := cp / 64, cp % 64;
    assert cp == q1 * 64 + r0;
    var q2, r1 := q1 / 64, q1 % 64;
    assert q1 == q2 * 64 + r1;
    var q3, r2 := q2 / 64, q2 % 64;
    assert q2 == q3 * 64 + r2;
    assert cp / 4096 == q2;
    assert cp / 262144 == q3;
    assert (cp / 4096) % 64 == r2;
  }

  function PercentEncode(bytes: seq<int>): (r: string)
    requires forall i | 0 <= i < |bytes| :: 0 <= bytes[i] < 256
    ensures |r| == 3 * |bytes|
    ensures forall i | 0 <= i < |r| :: r[i] == '%' || IsUpperHexDigit(r[i])
    ensures |bytes| > 0 ==> r[0] == '%'
  {
    if |bytes| == 0 then []
    else ['%', HexDigit(bytes[0] / 16), HexDigit(bytes[0] % 16)] + PercentEncode(bytes[1..])
  }

  /** The byte a `%XX` triple starting at `3 * i` spells. */
  function TripleByte(r: string, i: nat): int
    requires 3 * i + 2 < |r|
  {
    HexValue(r[3 * i + 1]) * 16 + HexValue(r[3 * i + 2])
  }

  /** Each triple spells its byte back. */
  lemma {:induction false} PercentEncodeBytes(bytes: seq<int>)
    requires forall i | 0 <= i < |bytes| :: 0 <= bytes[i] < 256
    ensures forall i | 0 <= i < |bytes| :: TripleByte(PercentEncode(bytes), i) == bytes[i]
  {
    if |bytes| > 0 {
      var r := PercentEncode(bytes);
      HexRoundTrip(bytes[0] / 16);
      HexRoundTrip(bytes[0] % 16);
      PercentEncodeBytes(bytes[1..]);
      forall i | 1 <= i < |bytes|
        ensures TripleByte(r, i) == bytes[i]
      {
        assert r[3 * i + 1] == PercentEncode(bytes[1..])[3 * (i - 1) + 1];
        assert r[3 * i + 2] == PercentEncode(bytes[1..])[3 * (i - 1) + 2];
      }
    }
  }

  function EncodeChar(c: char): (r: string)
    ensures |r| >= 1
    ensures forall i | 0 <= i < |r| :: IsUriSafe(r[i])
  {
    if IsUriUnreserved(c) then [c] else PercentEncode(Utf8(c as int))
  }

  /** An encoding starts with its unreserved character, or with '%'. */
  lemma EncodingStartsWith(c: char, rest: string)
    ensures (EncodeChar(c) + rest)[0] == if IsUriUnreserved(c) then c else '%'
  {
  }

  /** Different characters encode differently, and the first three output
      characters fix how long an encoding is: no encoding is a proper
      prefix of another. */
  lemma EncodeCharsApart(c1: char, c2: char, rest1: string, rest2: string)
    requires EncodeChar(c1) + rest1 == EncodeChar(c2) + rest2
    ensures c1 == c2 && rest1 == rest2
  {
    var w := EncodeChar(c1) + rest1;
    var e1, e2 := EncodeChar(c1), EncodeChar(c2);
    if IsUriUnreserved(c1) && IsUriUnreserved(c2) {
      assert w[0] == c1 && w[0] == c2;
      assert rest1 == w[1..] == rest2;
    } else if IsUriUnreserved(c1) || IsUriUnreserved(c2) {
      EncodingStartsWith(c1, rest1);
      EncodingStartsWith(c2, rest2);
      assert false;
    } else {
      var b1, b2 := Utf8(c1 as int), Utf8(c2 as int);
      Utf8RoundTrip(c1 as int);
      Utf8RoundTrip(c2 as int);
      PercentEncodeBytes(b1);
      PercentEncodeBytes(b2);
      assert TripleByte(e1, 0) == TripleByte(w, 0) == TripleByte(e2, 0);
      assert |e1| == |e2|;
      assert e1 == w[..|e1|] == e2;
      assert b1 == b2 by {
        forall i | 0 <= i < |b1|
          ensures b1[i] == b2[i]
        {
          assert TripleByte(e1, i) == TripleByte(e2, i);
        }
      }
      assert c1 as int == Utf8Value(b1) == c2 as int;
      assert rest1 == w[|e1|..] == rest2;
    }
  }

  /** `encodeURIComponent`. */
  function EncodeUriComponent(s: string): (r: string)
    ensures forall i | 0 <= i < |r| :: IsUriSafe(r[i])
    ensures (forall i | 0 <= i < |s| :: IsUriUnreserved(s[i])) ==> r == s
    ensures |s| <= |r|
  {
    if |s| == 0 then []
    else EncodeChar(s[0]) + EncodeUriComponent(s[1..])
  }

  /** Different strings encode differently: the encoding loses nothing. */
  lemma {:induction false} EncodeUriComponentInjective(s1: string, s2: string)
    ensures EncodeUriComponent(s1) == EncodeUriComponent(s2) ==> s1 == s2
  {
    if EncodeUriComponent(s1) == EncodeUriComponent(s2) && |s1| > 0 && |s2| > 0 {
      EncodeCharsApart(s1[0], s2[0], EncodeUriComponent(s1[1..]), EncodeUriComponent(s2[1..]));
      EncodeUriComponentInjective(s1[1..], s2[1..]);
      assert s1 == [s1[0]] + s1[1..];
      assert s2 == [s2[0]] + s2[1..];
    }
  }
}
