/**
 * `encodeURIComponent` as ECMA-262 defines it (URI Handling Functions, section
 * 19.2.6): characters of the unreserved set are kept, every other code point is
 * written as the percent-escaped octets of its UTF-8 encoding, with upper-case
 * hexadecimal digits. A Dafny `char` is a Unicode scalar value, so the lone
 * surrogates for which the standard throws a URIError cannot occur.
 */
module UriEncoding {
  import opened Wrappers

  /** uriAlpha, DecimalDigit and uriMark: what `encodeURIComponent` leaves unescaped. */
  predicate IsUnreserved(c: char) {
    ('A' <= c <= 'Z') || ('a' <= c <= 'z') || ('0' <= c <= '9')
    || c in {'-', '_', '.', '!', '~', '*', '\'', '(', ')'}
  }

  /** One upper-case hexadecimal digit. */
  function HexDigit(n: nat): (c: char)
    requires n < 16
    ensures IsUnreserved(c) && c != '%'
  {
    "0123456789ABCDEF"[n]
  }

  /** The UTF-8 octets of one Unicode scalar value (RFC 3629, section 3). */
  function Utf8(c: char): (octets: seq<nat>)
    ensures 1 <= |octets| <= 4
    ensures forall k :: 0 <= k < |octets| ==> octets[k] < 256
    ensures (c as int < 0x80) <==> octets == [c as int]
  {
    var cp := c as int;
    if cp < 0x80 then [cp]
    else if cp < 0x800 then [0xC0 + cp / 64, 0x80 + cp % 64]
    else if cp < 0x10000 then [0xE0 + cp / 4096, 0x80 + (cp / 64) % 64, 0x80 + cp % 64]
    else [0xF0 + cp / 262144, 0x80 + (cp / 4096) % 64, 0x80 + (cp / 64) % 64, 0x80 + cp % 64]
  }

  /** `%XY` for every octet. */
  function PercentEscape(octets: seq<nat>): (r: string)
    requires forall k :: 0 <= k < |octets| ==> octets[k] < 256
    ensures |r| == 3 * |octets|
    ensures octets != [] ==> r[0] == '%'
  {
    if octets == [] then ""
    else ['%', HexDigit(octets[0] / 16), HexDigit(octets[0] % 16)] + PercentEscape(octets[1..])
  }

  /** The characters of an escaped text: unreserved ones and `%`. */
  predicate IsEscapedText(r: string) {
    forall k :: 0 <= k < |r| ==> IsUnreserved(r[k]) || r[k] == '%'
  }

  /** Joining escaped texts gives an escaped text. */
  lemma EscapedConcat(a: string, b: string)
    requires IsEscapedText(a) && IsEscapedText(b)
    ensures IsEscapedText(a + b)
  {
    assert forall k :: |a| <= k < |a + b| ==> (a + b)[k] == b[k - |a|];
  }

  /** Escaping octets writes only `%` and hexadecimal digits. */
  lemma {:induction false} PercentEscapeAlphabet(octets: seq<nat>)
    requires forall k :: 0 <= k < |octets| ==> octets[k] < 256
    ensures IsEscapedText(PercentEscape(octets))
    decreases |octets|
  {
    if octets != [] {
      PercentEscapeAlphabet(octets[1..]);
      EscapedConcat(['%', HexDigit(octets[0] / 16), HexDigit(octets[0] % 16)], PercentEscape(octets[1..]));
    }
  }

  /** The encoding of one character. */
  function EncodeChar(c: char): (r: string)
    ensures IsUnreserved(c) ==> r == [c]
    ensures !IsUnreserved(c) ==> 3 <= |r| <= 12 && r[0] == '%'
  {
    if IsUnreserved(c) then [c] else PercentEscape(Utf8(c))
  }

  /** `encodeURIComponent(s)`. */
  function EncodeComponent(s: string): (r: string)
    ensures |r| >= |s|
  {
    if s == [] then "" else EncodeChar(s[0]) + EncodeComponent(s[1..])
  }

  /** The encoding holds only unreserved characters and `%`. */
  lemma {:induction false} EncodeAlphabet(s: string)
    ensures IsEscapedText(EncodeComponent(s))
    decreases |s|
  {
    if s != [] {
      EncodeAlphabet(s[1..]);
      if !IsUnreserved(s[0]) {
        PercentEscapeAlphabet(Utf8(s[0]));
      }
      EscapedConcat(EncodeChar(s[0]), EncodeComponent(s[1..]));
    }
  }

  /** Value of an upper-case hexadecimal digit. */
  function HexValue(c: char): (r: Option<nat>)
    ensures r.Some? ==> r.value < 16
    ensures forall n :: 0 <= n < 16 ==> (c == HexDigit(n) <==> r == Some(n))
  {
    if '0' <= c <= '9' then Some(c as int - '0' as int)
    else if 'A' <= c <= 'F' then Some(c as int - 'A' as int + 10)
    else None
  }

  /**
   * `decodeURIComponent` for text whose escapes stand for single ASCII octets:
   * `%XY` becomes the character with code 16X + Y, everything else is kept.
   */
  function DecodeAscii(e: string): string {
    if e == [] then ""
    else if e[0] == '%' && |e| >= 3 && HexValue(e[1]).Some? && HexValue(e[2]).Some? then
      [(16 * HexValue(e[1]).value + HexValue(e[2]).value) as char] + DecodeAscii(e[3..])
    else [e[0]] + DecodeAscii(e[1..])
  }

  /** Every character of `s` is ASCII. */
  predicate IsAscii(s: string) {
    forall k :: 0 <= k < |s| ==> s[k] as int < 0x80
  }

  /** An escaped ASCII character is a single `%XY`. */
  lemma EncodeAsciiEscaped(c: char)
    requires c as int < 0x80 && !IsUnreserved(c)
    ensures EncodeChar(c) == ['%', HexDigit(c as int / 16), HexDigit(c as int % 16)]
  {
    assert Utf8(c) == [c as int];
  }

  /** Decoding undoes the encoding of one ASCII character, whatever follows it. */
  lemma DecodeEncodeChar(c: char, rest: string)
    requires c as int < 0x80
    ensures DecodeAscii(EncodeChar(c) + rest) == [c] + DecodeAscii(rest)
  {
    var e := EncodeChar(c) + rest;
    if IsUnreserved(c) {
      assert e == [c] + rest;
      assert e[1..] == rest;
    } else {
      EncodeAsciiEscaped(c);
      DecodeEscape(c as int, rest);
    }
  }

  /** `%XY` for an octet below 0x80 decodes to the character with that code. */
  lemma DecodeEscape(n: nat, rest: string)
    requires n < 0x80
    ensures DecodeAscii(['%', HexDigit(n / 16), HexDigit(n % 16)] + rest) == [n as char] + DecodeAscii(rest)
  {
    var e := ['%', HexDigit(n / 16), HexDigit(n % 16)] + rest;
    assert e[3..] == rest;
    assert HexValue(e[1]) == Some(n / 16);
    assert HexValue(e[2]) == Some(n % 16);
    assert 16 * (n / 16) + n % 16 == n;
  }

  /** Decoding undoes the encoding of ASCII text. */
  lemma {:induction false} DecodeEncodeAscii(s: string)
    requires IsAscii(s)
    ensures DecodeAscii(EncodeComponent(s)) == s
  {
    if s != [] {
      assert IsAscii(s[1..]) by {
        forall k | 0 <= k < |s[1..]| ensures s[1..][k] as int < 0x80 {
          assert s[1..][k] == s[k + 1];
        }
      }
      DecodeEncodeAscii(s[1..]);
      DecodeEncodeChar(s[0], EncodeComponent(s[1..]));
      assert [s[0]] + s[1..] == s;
    }
  }

  /** Encoding works character by character, so it distributes over concatenation. */
  lemma {:induction false} EncodeConcat(a: string, b: string)
    ensures EncodeComponent(a + b) == EncodeComponent(a) + EncodeComponent(b)
  {
    if a == [] {
      assert a + b == b;
    } else {
      assert (a + b)[0] == a[0];
      assert (a + b)[1..] == a[1..] + b;
      EncodeConcat(a[1..], b);
    }
  }

  /** Text made of unreserved characters only is its own encoding. */
  lemma {:induction false} EncodeUnreserved(s: string)
    requires forall k :: 0 <= k < |s| ==> IsUnreserved(s[k])
    ensures EncodeComponent(s) == s
  {
    if s != [] {
      EncodeUnreserved(s[1..]);
      assert [s[0]] + s[1..] == s;
    }
  }

  /** `s` with every space written as `%20`. */
  function SpacesEscaped(s: string): string {
    if s == [] then "" else (if s[0] == ' ' then "%20" else [s[0]]) + SpacesEscaped(s[1..])
  }

  /**
   * Text made of unreserved characters and spaces is encoded by escaping the
   * spaces alone: "hello world", for one, becomes `hello%20world`.
   */
  lemma {:induction false} EncodeSpacedText(s: string)
    requires forall k :: 0 <= k < |s| ==> IsUnreserved(s[k]) || s[k] == ' '
    ensures EncodeComponent(s) == SpacesEscaped(s)
  {
    if s != [] {
      assert forall k :: 0 <= k < |s[1..]| ==> s[1..][k] == s[k + 1];
      EncodeSpacedText(s[1..]);
      if s[0] == ' ' {
        assert Utf8(' ') == [0x20];
        assert EncodeChar(' ') == "%20";
      }
    }
  }
}
