/**
 * The two Unicode-aware built-ins of the pipeline:
 *  - the case and accent fold at the head of `slugify`
 *    (`toLowerCase()`, `normalize("NFD")`, `replace(/[̀-ͯ]/g, "")`),
 *    written out for ASCII, the Latin-1 Supplement and the combining
 *    diacritical marks;
 *  - `encodeURIComponent` (UTF-8 percent-encoding, section 2.1 of RFC 3986).
 */
module JsUnicode {

  /* ---------------------------------------------------------------------- */
  /* Case and accent fold                                                   */
  /* ---------------------------------------------------------------------- */

  /**
   * One character lower-cased, decomposed and stripped of combining marks:
   * `A`-`Z` become `a`-`z`, an accented Latin-1 letter becomes its base letter,
   * a combining diacritical mark (U+0300 to U+036F) disappears, and a Latin-1
   * letter without a decomposition is only lower-cased.
   */
  function FoldChar(c: char): (r: string)
    ensures |r| <= 1
    ensures 'a' <= c <= 'z' || '0' <= c <= '9' ==> r == [c]
  {
    var n := c as int;
    if 'A' <= c <= 'Z' then [(n + 32) as char]
    else if 0x300 <= n <= 0x36F then []
    else if 0xC0 <= n <= 0xFF then [LatinOneBase(if n <= 0xDE && n != 0xD7 then n + 32 else n)]
    else [c]
  }

  /** The base letter of a lower-case Latin-1 letter (code point `m`, U+00DF to U+00FF). */
  function LatinOneBase(m: int): char
    requires 0xC0 <= m <= 0xFF
  {
    if 0xE0 <= m <= 0xE5 then 'a'
    else if m == 0xE7 then 'c'
    else if 0xE8 <= m <= 0xEB then 'e'
    else if 0xEC <= m <= 0xEF then 'i'
    else if m == 0xF1 then 'n'
    else if 0xF2 <= m <= 0xF6 then 'o'
    else if 0xF9 <= m <= 0xFC then 'u'
    else if m == 0xFD || m == 0xFF then 'y'
    else m as char
  }

  /** `text.toLowerCase().normalize("NFD").replace(/[̀-ͯ]/g, "")` */
  function Fold(s: string): (r: string)
    ensures |r| <= |s|
  {
    if s == [] then [] else FoldChar(s[0]) + Fold(s[1..])
  }

  /* ---------------------------------------------------------------------- */
  /* encodeURIComponent                                                      */
  /* ---------------------------------------------------------------------- */

  /** The characters `encodeURIComponent` leaves alone. */
  predicate IsUriUnreserved(c: char) {
    || 'A' <= c <= 'Z' || 'a' <= c <= 'z' || '0' <= c <= '9'
    || c == '-' || c == '_' || c == '.' || c == '!' || c == '~'
    || c == '*' || c == '\'' || c == '(' || c == ')'
  }

  predicate IsUpperHexDigit(c: char) {
    '0' <= c <= '9' || 'A' <= c <= 'F'
  }

  /** The UTF-8 encoding of one Unicode scalar value. */
  function Utf8(c: char): (bytes: seq<int>)
    ensures 1 <= |bytes| <= 4
    ensures forall i :: 0 <= i < |bytes| ==> 0 <= bytes[i] < 256
  {
    var n := c as int;
    if n < 0x80 then [n]
    else if n < 0x800 then [0xC0 + n / 0x40, 0x80 + n % 0x40]
    else if n < 0x10000 then [0xE0 + n / 0x1000, 0x80 + (n / 0x40) % 0x40, 0x80 + n % 0x40]
    else [0xF0 + n / 0x40000, 0x80 + (n / 0x1000) % 0x40, 0x80 + (n / 0x40) % 0x40, 0x80 + n % 0x40]
  }

  function HexDigit(d: int): (c: char)
    requires 0 <= d < 16
    ensures IsUpperHexDigit(c)
  {
    if d < 10 then ('0' as int + d) as char else ('A' as int + d - 10) as char
  }

  /** `%XY` for every byte, with upper-case hex digits. */
  function PercentBytes(bytes: seq<int>): (r: string)
    requires forall i :: 0 <= i < |bytes| ==> 0 <= bytes[i] < 256
    ensures |r| == 3 * |bytes|
    ensures forall i :: 0 <= i < |r| ==> r[i] == '%' || IsUpperHexDigit(r[i])
  {
    if bytes == [] then []
    else ['%', HexDigit(bytes[0] / 16), HexDigit(bytes[0] % 16)] + PercentBytes(bytes[1..])
  }

  /** One character of `encodeURIComponent`: kept when unreserved, else its UTF-8 bytes percent-encoded. */
  function EncodeChar(c: char): string {
    if IsUriUnreserved(c) then [c] else PercentBytes(Utf8(c))
  }

  /**
   * `encodeURIComponent(s)`: unreserved characters are kept, every other
   * character is replaced by the percent-encoding of its UTF-8 bytes. The
   * result is URL-safe, and it equals the input exactly when every input
   * character is unreserved (an encoded character always grows).
   */
  function EncodeURIComponent(s: string): (r: string)
    ensures forall i :: 0 <= i < |r| ==> IsUriUnreserved(r[i]) || r[i] == '%' || IsUpperHexDigit(r[i])
    ensures |r| >= |s|
    ensures (r == s) <==> (forall i :: 0 <= i < |s| ==> IsUriUnreserved(s[i]))
  {
    if s == [] then []
    else
      var head := EncodeChar(s[0]);
      var rest := EncodeURIComponent(s[1..]);
      assert (forall i :: 0 <= i < |s| ==> IsUriUnreserved(s[i])) <==>
        IsUriUnreserved(s[0]) && (forall i :: 0 <= i < |s[1..]| ==> IsUriUnreserved(s[1..][i]));
      assert head + rest == s ==> |head| == 1;
      head + rest
  }

  /* ---------------------------------------------------------------------- */
  /* encodeURIComponent is injective                                        */
  /* ---------------------------------------------------------------------- */

  /** The code point a well-formed UTF-8 sequence of one to four bytes stands for. */
  function Utf8Value(bytes: seq<int>): int
    requires 1 <= |bytes| <= 4
  {
    if |bytes| == 1 then bytes[0]
    else if |bytes| == 2 then (bytes[0] - 0xC0) * 0x40 + (bytes[1] - 0x80)
    else if |bytes| == 3 then (bytes[0] - 0xE0) * 0x1000 + (bytes[1] - 0x80) * 0x40 + (bytes[2] - 0x80)
    else (bytes[0] - 0xF0) * 0x40000 + (bytes[1] - 0x80) * 0x1000 + (bytes[2] - 0x80) * 0x40 + (bytes[3] - 0x80)
  }

  /** The length of a UTF-8 sequence, read off its lead byte. */
  function Utf8Length(lead: int): int {
    if lead < 0x80 then 1 else if lead < 0xE0 then 2 else if lead < 0xF0 then 3 else 4
  }

  /** UTF-8 decodes back to the code point, and the lead byte gives the sequence length. */
  lemma Utf8Decodes(c: char)
    ensures Utf8Value(Utf8(c)) == c as int
    ensures Utf8Length(Utf8(c)[0]) == |Utf8(c)|
  {
    var n := c as int;
    if 0x10000 <= n {
      assert n / 0x1000 == 0x40 * (n / 0x40000) + (n / 0x1000) % 0x40;
      assert n / 0x40 == 0x40 * (n / 0x1000) + (n / 0x40) % 0x40;
    } else if 0x800 <= n {
      assert n / 0x40 == 0x40 * (n / 0x1000) + (n / 0x40) % 0x40;
    }
  }

  lemma Utf8Injective(c: char, d: char)
    requires Utf8(c) == Utf8(d)
    ensures c == d
  {
    Utf8Decodes(c);
    Utf8Decodes(d);
  }

  /** The `i`-th percent triple holds the `i`-th byte. */
  lemma {:induction false} PercentBytesAt(bytes: seq<int>, i: int)
    requires forall k :: 0 <= k < |bytes| ==> 0 <= bytes[k] < 256
    requires 0 <= i < |bytes|
    ensures var r := PercentBytes(bytes);
      r[3 * i] == '%' && r[3 * i + 1] == HexDigit(bytes[i] / 16) && r[3 * i + 2] == HexDigit(bytes[i] % 16)
  {
    if i > 0 {
      PercentBytesAt(bytes[1..], i - 1);
    }
  }

  lemma HexDigitInjective(d: int, e: int)
    requires 0 <= d < 16 && 0 <= e < 16
    requires HexDigit(d) == HexDigit(e)
    ensures d == e
  {
  }

  /** Two byte strings whose percent-encodings agree on the triples of the first `k` bytes agree on those bytes. */
  lemma PercentBytesPrefix(b: seq<int>, e: seq<int>, x: string, y: string, k: int)
    requires forall i :: 0 <= i < |b| ==> 0 <= b[i] < 256
    requires forall i :: 0 <= i < |e| ==> 0 <= e[i] < 256
    requires PercentBytes(b) + x == PercentBytes(e) + y
    requires 0 <= k <= |b| && k <= |e|
    ensures b[..k] == e[..k]
  {
    var sb, se := PercentBytes(b), PercentBytes(e);
    forall i | 0 <= i < k
      ensures b[i] == e[i]
    {
      PercentBytesAt(b, i);
      PercentBytesAt(e, i);
      assert (sb + x)[3 * i + 1] == sb[3 * i + 1] && (se + y)[3 * i + 1] == se[3 * i + 1];
      assert (sb + x)[3 * i + 2] == sb[3 * i + 2] && (se + y)[3 * i + 2] == se[3 * i + 2];
      HexDigitInjective(b[i] / 16, e[i] / 16);
      HexDigitInjective(b[i] % 16, e[i] % 16);
    }
  }

  /**
   * The encoding of one character is never a proper prefix of another's:
   * where two encoded texts agree, their first characters are the same.
   */
  lemma EncodeCharPrefix(c: char, d: char, x: string, y: string)
    requires EncodeChar(c) + x == EncodeChar(d) + y
    ensures c == d && x == y
  {
    var ec, ed := EncodeChar(c), EncodeChar(d);
    assert (ec + x)[0] == ec[0] && (ed + y)[0] == ed[0];
    if !IsUriUnreserved(c) && !IsUriUnreserved(d) {
      EncodedBytesPrefix(c, d, x, y);
    } else if !IsUriUnreserved(c) {
      PercentBytesAt(Utf8(c), 0);
    } else if !IsUriUnreserved(d) {
      PercentBytesAt(Utf8(d), 0);
    }
    assert ec == ed;
    assert x == (ec + x)[|ec|..];
    assert y == (ed + y)[|ed|..];
  }

  /** Where the percent-encodings of two characters' UTF-8 bytes agree, the characters are the same. */
  lemma EncodedBytesPrefix(c: char, d: char, x: string, y: string)
    requires PercentBytes(Utf8(c)) + x == PercentBytes(Utf8(d)) + y
    ensures c == d
  {
    var b, e := Utf8(c), Utf8(d);
    assert |b| == |e| by {
      PercentBytesPrefix(b, e, x, y, 1);
      assert b[0] == b[..1][0] && e[0] == e[..1][0];
      Utf8Decodes(c);
      Utf8Decodes(d);
    }
    PercentBytesPrefix(b, e, x, y, |b|);
    assert b == b[..|b|] && e == e[..|e|];
    Utf8Injective(c, d);
  }

  /** Distinct texts have distinct encodings. */
  lemma {:induction false} EncodeURIComponentInjective(s: string, t: string)
    requires EncodeURIComponent(s) == EncodeURIComponent(t)
    ensures s == t
  {
    if s != [] && t != [] {
      EncodeCharPrefix(s[0], t[0], EncodeURIComponent(s[1..]), EncodeURIComponent(t[1..]));
      EncodeURIComponentInjective(s[1..], t[1..]);
      assert s == [s[0]] + s[1..] && t == [t[0]] + t[1..];
    }
  }
}
