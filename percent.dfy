/** Percent-decoding of record values (section 2.1 of RFC 3986), as
    `urllib.parse.unquote` applies it to the ASCII range, and the matching
    encoder used to state the round trip. */
module Percent {
  import opened Strings

  predicate IsHexDigit(c: char)
  {
    ('0' <= c <= '9') || ('a' <= c <= 'f') || ('A' <= c <= 'F')
  }

  function HexValue(c: char): (v: nat)
    requires IsHexDigit(c)
    ensures v < 16
  {
    if '0' <= c <= '9' then (c as int - '0' as int) as nat
    else if 'a' <= c <= 'f' then (c as int - 'a' as int + 10) as nat
    else (c as int - 'A' as int + 10) as nat
  }

  /** Upper-case hexadecimal digit, as percent-encoders conventionally emit. */
  function HexDigit(v: nat): (c: char)
    requires v < 16
    ensures IsHexDigit(c) && HexValue(c) == v
  {
    if v < 10 then (48 + v) as char else (55 + v) as char
  }

  /** `%XY` at the front of `s` that decodes to an ASCII character. */
  predicate EscapeAt(s: string)
  {
    |s| >= 3 && s[0] == '%' && IsHexDigit(s[1]) && IsHexDigit(s[2]) && HexValue(s[1]) < 8
  }

  /** `urllib.parse.unquote(s)`: every `%XY` with two hexadecimal digits naming
      an ASCII code is replaced by that character; any other `%` stays as it is. */
  function Unquote(s: string): (r: string)
    ensures |r| <= |s|
    ensures '%' !in s ==> r == s
    decreases |s|
  {
    if s == [] then []
    else if EscapeAt(s) then [(16 * HexValue(s[1]) + HexValue(s[2])) as char] + Unquote(s[3..])
    else [s[0]] + Unquote(s[1..])
  }

  /** The characters RFC 3986 calls unreserved; everything else in the ASCII
      range is escaped by `Quote`. */
  predicate Unreserved(c: char)
  {
    ('A' <= c <= 'Z') || ('a' <= c <= 'z') || ('0' <= c <= '9') || c == '-' || c == '.' || c == '_' || c == '~'
  }

  /** One character percent-encoded: ASCII characters other than the unreserved
      ones become `%XY`; the rest are kept. */
  function QuoteChar(c: char): (r: string)
  {
    if c as int < 128 && !Unreserved(c) then ['%', HexDigit(c as int / 16), HexDigit(c as int % 16)]
    else [c]
  }

  /** Percent-encoding in the manner of `urllib.parse.quote(s, safe='')`,
      restricted to the ASCII range. */
  function Quote(s: string): (r: string)
    ensures '&' !in r && '=' !in r
    ensures forall k :: 0 <= k < |r| && IsSpace(r[k]) ==> r[k] as int >= 128
    ensures forall k :: 0 <= k < |r| && r[k] as int >= 128 ==> r[k] in s
  {
    if s == [] then [] else QuoteChar(s[0]) + Quote(s[1..])
  }

  /** Decoding undoes one encoded character whatever follows it. */
  lemma {:induction false} UnquoteQuoteChar(c: char, rest: string)
    ensures Unquote(QuoteChar(c) + rest) == [c] + Unquote(rest)
  {
    var q := QuoteChar(c) + rest;
    if c as int < 128 && !Unreserved(c) {
      assert EscapeAt(q);
      assert q[3..] == rest;
    } else {
      assert q[1..] == rest;
    }
  }

  /** The encoding of a non-empty text: its first character's, then the
      rest's. */
  lemma {:induction false} QuoteCons(s: string)
    requires s != []
    ensures Quote(s) == QuoteChar(s[0]) + Quote(s[1..])
  {
  }

  lemma {:induction false} HeadTail(s: string)
    requires s != []
    ensures [s[0]] + s[1..] == s
  {
  }

  /** Decoding an encoded value gives the value back. */
  lemma {:induction false} UnquoteQuote(s: string)
    ensures Unquote(Quote(s)) == s
    decreases |s|
  {
    if s != [] {
      var q := Quote(s[1..]);
      QuoteCons(s);
      UnquoteQuoteChar(s[0], q);
      UnquoteQuote(s[1..]);
      HeadTail(s);
    }
  }
}
