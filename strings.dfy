/** Python `str` behaviour that the rest of the model relies on: whitespace as
    `str.isspace` sees it, `strip`, `split` on one separator character (and its
    inverse, joining), `split(sep, 1)`, `startswith`, code-point ordering of
    strings, and `str()` of an integer. */
module Strings {

  datatype Option<+T> = None | Some(value: T)

  /** The characters Python's `str.isspace` (and so `strip()` and `float()`)
      treats as whitespace. */
  predicate IsSpace(c: char)
  {
    || ('\U{0009}' <= c <= '\U{000D}')
    || ('\U{001C}' <= c <= '\U{001F}')
    || c == ' '
    || c == '\U{0085}'
    || c == '\U{00A0}'
    || c == '\U{1680}'
    || ('\U{2000}' <= c <= '\U{200A}')
    || c == '\U{2028}'
    || c == '\U{2029}'
    || c == '\U{202F}'
    || c == '\U{205F}'
    || c == '\U{3000}'
  }

  predicate IsDigit(c: char)
  {
    '0' <= c <= '9'
  }

  /** Number of leading whitespace characters. */
  function LeadingSpaces(s: string): (n: nat)
    ensures n <= |s|
    ensures forall k :: 0 <= k < n ==> IsSpace(s[k])
    ensures n < |s| ==> !IsSpace(s[n])
  {
    if s == [] || !IsSpace(s[0]) then 0 else 1 + LeadingSpaces(s[1..])
  }

  /** Number of trailing whitespace characters. */
  function TrailingSpaces(s: string): (n: nat)
    ensures n <= |s|
    ensures forall k :: |s| - n <= k < |s| ==> IsSpace(s[k])
    ensures n < |s| ==> !IsSpace(s[|s| - 1 - n])
  {
    if s == [] || !IsSpace(s[|s| - 1]) then 0 else 1 + TrailingSpaces(s[..|s| - 1])
  }

  /** `s.strip()`: the text between the leading and the trailing whitespace. */
  function Strip(s: string): (r: string)
    ensures |r| <= |s|
    ensures r != [] ==> !IsSpace(r[0]) && !IsSpace(r[|r| - 1])
    ensures r == [] ==> forall k :: 0 <= k < |s| ==> IsSpace(s[k])
  {
    var lead := LeadingSpaces(s);
    if lead == |s| then []
    else
      var trail := TrailingSpaces(s);
      assert lead + trail < |s|;
      s[lead..|s| - trail]
  }

  /** Stripping twice is stripping once. */
  lemma {:induction false} StripIdempotent(s: string)
    ensures Strip(Strip(s)) == Strip(s)
  {
    var r := Strip(s);
    if r != [] {
      assert LeadingSpaces(r) == 0;
      assert TrailingSpaces(r) == 0;
      assert r[0..|r| - 0] == r;
    }
  }

  /** A text with no whitespace at either end is left alone by `strip()`. */
  lemma {:induction false} StripUntrimmed(s: string)
    requires s != [] ==> !IsSpace(s[0]) && !IsSpace(s[|s| - 1])
    ensures Strip(s) == s
  {
    if s != [] {
      assert LeadingSpaces(s) == 0;
      assert TrailingSpaces(s) == 0;
      assert s[0..|s| - 0] == s;
    }
  }

  /** `LeadingSpaces` is the one count its contract describes. */
  lemma {:induction false} LeadingSpacesUnique(s: string, n: nat)
    requires n <= |s| && (forall k :: 0 <= k < n ==> IsSpace(s[k])) && (n < |s| ==> !IsSpace(s[n]))
    ensures LeadingSpaces(s) == n
  {
  }

  /** `TrailingSpaces` is the one count its contract describes. */
  lemma {:induction false} TrailingSpacesUnique(s: string, n: nat)
    requires n <= |s| && (forall k :: |s| - n <= k < |s| ==> IsSpace(s[k])) && (n < |s| ==> !IsSpace(s[|s| - 1 - n]))
    ensures TrailingSpaces(s) == n
  {
  }

  /** Dropping a leading space leaves the trailing count alone, unless the
      text is all whitespace. */
  lemma {:induction false} TrailingOfTail(s: string)
    requires s != [] && IsSpace(s[0])
    ensures LeadingSpaces(s) < |s| ==> TrailingSpaces(s[1..]) == TrailingSpaces(s)
  {
    var t, trail := s[1..], TrailingSpaces(s);
    if LeadingSpaces(s) < |s| {
      assert trail < |s| - 1;
      assert forall k :: |t| - trail <= k < |t| ==> t[k] == s[k + 1];
      TrailingSpacesUnique(t, trail);
    }
  }

  /** Dropping a trailing space leaves the leading count alone, unless the
      text is all whitespace. */
  lemma {:induction false} LeadingOfInit(s: string)
    requires s != [] && IsSpace(s[|s| - 1])
    ensures LeadingSpaces(s) < |s| ==> LeadingSpaces(s[..|s| - 1]) == LeadingSpaces(s)
    ensures LeadingSpaces(s) == |s| ==> LeadingSpaces(s[..|s| - 1]) == |s| - 1
  {
    var t, lead := s[..|s| - 1], LeadingSpaces(s);
    if lead < |s| {
      assert lead < |s| - 1;
      LeadingSpacesUnique(t, lead);
    } else {
      LeadingSpacesUnique(t, |t|);
    }
  }

  /** `strip()` in terms of the two counts. */
  lemma {:induction false} StripByCounts(s: string, lead: nat, trail: nat)
    requires lead == LeadingSpaces(s) && trail == TrailingSpaces(s)
    ensures lead == |s| ==> Strip(s) == []
    ensures lead < |s| ==> lead + trail <= |s| && Strip(s) == s[lead..|s| - trail]
  {
    if lead < |s| {
      assert !IsSpace(s[lead]);
      assert lead + trail < |s|;
    }
  }

  /** A slice of the tail is the slice one further on. */
  lemma {:induction false} SliceOfTail(s: string, i: nat, j: nat)
    requires 1 <= i <= j <= |s|
    ensures s[1..][i - 1..j - 1] == s[i..j]
  {
  }

  /** Dropping a leading space shortens the leading run by one. */
  lemma {:induction false} LeadingOfTail(s: string)
    requires s != [] && IsSpace(s[0])
    ensures LeadingSpaces(s[1..]) == LeadingSpaces(s) - 1
  {
  }

  /** Dropping a leading space from a text that is not all whitespace
      drops it from the part before the kept text. */
  lemma {:induction false} StripDropsLeadingSpacePartly(s: string, t: string, lead: nat, trail: nat)
    requires s != [] && IsSpace(s[0]) && t == s[1..]
    requires lead == LeadingSpaces(s) < |s| && trail == TrailingSpaces(s)
    ensures Strip(t) == Strip(s)
  {
    LeadingOfTail(s);
    TrailingOfTail(s);
    StripByCounts(s, lead, trail);
    StripByCounts(t, lead - 1, trail);
    SliceOfTail(s, lead, |s| - trail);
  }

  /** A text of whitespace only strips to nothing, with or without its first
      character. */
  lemma {:induction false} StripAllSpace(s: string)
    requires s != [] && LeadingSpaces(s) == |s|
    ensures Strip(s[1..]) == [] && Strip(s) == []
  {
    assert IsSpace(s[0]);
    assert LeadingSpaces(s[1..]) == |s| - 1;
  }

  /** A leading space is removed by `strip()` anyway. */
  lemma {:induction false} StripDropsLeadingSpace(s: string)
    requires s != [] && IsSpace(s[0])
    ensures Strip(s[1..]) == Strip(s)
  {
    if LeadingSpaces(s) < |s| {
      StripDropsLeadingSpacePartly(s, s[1..], LeadingSpaces(s), TrailingSpaces(s));
    } else {
      StripAllSpace(s);
    }
  }

  /** A trailing space is removed by `strip()` anyway. */
  lemma {:induction false} StripDropsTrailingSpace(s: string)
    requires s != [] && IsSpace(s[|s| - 1])
    ensures Strip(s[..|s| - 1]) == Strip(s)
  {
    var t := s[..|s| - 1];
    var lead, trail := LeadingSpaces(s), TrailingSpaces(s);
    assert TrailingSpaces(t) == trail - 1;
    LeadingOfInit(s);
    if lead < |s| {
      assert t[lead..|t| - (trail - 1)] == s[lead..|s| - trail] by {
        assert lead + trail < |s|;
      }
    }
  }

  /** Index of the first occurrence of `c` at or after `from`; `|s|` when there is none. */
  function IndexFrom(s: string, c: char, from: nat): (i: nat)
    requires from <= |s|
    ensures from <= i <= |s|
    ensures i < |s| ==> s[i] == c
    ensures forall k :: from <= k < i ==> s[k] != c
    decreases |s| - from
  {
    if from == |s| || s[from] == c then from else IndexFrom(s, c, from + 1)
  }

  /** `s.split(sep)` for a one-character separator: never empty, one piece more
      than there are separators. */
  function Split(s: string, sep: char): (pieces: seq<string>)
    ensures |pieces| >= 1
    ensures forall p :: p in pieces ==> sep !in p
    decreases |s|
  {
    var i := IndexFrom(s, sep, 0);
    if i == |s| then [s] else [s[..i]] + Split(s[i + 1..], sep)
  }

  /** `sep.join(pieces)`. */
  function Join(pieces: seq<string>, sep: char): string
    requires |pieces| >= 1
  {
    if |pieces| == 1 then pieces[0] else pieces[0] + [sep] + Join(pieces[1..], sep)
  }

  /** Every character of a join is the separator or a character of a piece. */
  lemma {:induction false} JoinChars(pieces: seq<string>, sep: char, k: nat)
    requires |pieces| >= 1
    requires k < |Join(pieces, sep)|
    ensures Join(pieces, sep)[k] == sep || exists p :: p in pieces && Join(pieces, sep)[k] in p
    decreases |pieces|
  {
    var p := pieces[0];
    assert p in pieces;
    if |pieces| > 1 {
      var rest := Join(pieces[1..], sep);
      assert Join(pieces, sep) == p + [sep] + rest;
      if k > |p| {
        assert Join(pieces, sep)[k] == rest[k - |p| - 1];
        JoinChars(pieces[1..], sep, k - |p| - 1);
        forall q | q in pieces[1..] ensures q in pieces { }
      } else if k < |p| {
        assert Join(pieces, sep)[k] == p[k];
      }
    }
  }

  /** Joining the pieces of a split gives back the original text. */
  lemma {:induction false} JoinSplit(s: string, sep: char)
    ensures Join(Split(s, sep), sep) == s
    decreases |s|
  {
    var i := IndexFrom(s, sep, 0);
    if i < |s| {
      JoinSplit(s[i + 1..], sep);
      assert s == s[..i] + [sep] + s[i + 1..];
    }
  }

  /** Splitting a join of separator-free pieces gives back the pieces. */
  lemma {:induction false} SplitJoin(pieces: seq<string>, sep: char)
    requires |pieces| >= 1
    requires forall p :: p in pieces ==> sep !in p
    ensures Split(Join(pieces, sep), sep) == pieces
    decreases |pieces|
  {
    var s := Join(pieces, sep);
    var p := pieces[0];
    assert p in pieces;
    if |pieces| == 1 {
      assert IndexFrom(s, sep, 0) == |s|;
    } else {
      var rest := Join(pieces[1..], sep);
      assert s == p + [sep] + rest;
      assert s[|p|] == sep;
      assert forall k :: 0 <= k < |p| ==> s[k] == p[k];
      assert IndexFrom(s, sep, 0) == |p|;
      assert s[..|p|] == p;
      assert s[|p| + 1..] == rest;
      assert forall q :: q in pieces[1..] ==> q in pieces;
      SplitJoin(pieces[1..], sep);
      assert pieces == [p] + pieces[1..];
    }
  }

  /** `s.split(sep, 1)` reduced to whether it yields two parts: the text before
      the first separator and everything after it. */
  function SplitOnce(s: string, sep: char): (kv: Option<(string, string)>)
    ensures kv.None? <==> sep !in s
    ensures kv.Some? ==> sep !in kv.value.0 && s == kv.value.0 + [sep] + kv.value.1
  {
    var i := IndexFrom(s, sep, 0);
    if i == |s| then None
    else
      assert s == s[..i] + [sep] + s[i + 1..];
      Some((s[..i], s[i + 1..]))
  }

  /** Splitting once at the first separator recovers the two sides when the
      left side has no separator. */
  lemma {:induction false} SplitOnceAt(a: string, b: string, sep: char)
    requires sep !in a
    ensures SplitOnce(a + [sep] + b, sep) == Some((a, b))
  {
    var s := a + [sep] + b;
    assert s[|a|] == sep;
    assert forall k :: 0 <= k < |a| ==> s[k] == a[k];
    assert IndexFrom(s, sep, 0) == |a|;
    assert s[..|a|] == a;
    assert s[|a| + 1..] == b;
  }

  /** `s.startswith(p)`. */
  predicate StartsWith(s: string, p: string)
  {
    |p| <= |s| && s[..|p|] == p
  }

  /** `s[i:].startswith(p)`. */
  predicate StartsWithAt(s: string, i: nat, p: string)
  {
    i + |p| <= |s| && s[i..i + |p|] == p
  }

  /** Python's `a < b` on strings: code-point lexicographic order. */
  predicate LexLess(a: string, b: string)
    decreases |a|
  {
    if a == [] then b != []
    else if b == [] then false
    else if a[0] != b[0] then a[0] < b[0]
    else LexLess(a[1..], b[1..])
  }

  /** `a <= b` on strings. */
  predicate LexLe(a: string, b: string)
  {
    !LexLess(b, a)
  }

  /** Python's string order is a strict total order. */
  lemma {:induction false} LexLessTrichotomy(a: string, b: string)
    ensures LexLess(a, b) || a == b || LexLess(b, a)
    ensures !(LexLess(a, b) && LexLess(b, a))
    decreases |a|
  {
    if a != [] && b != [] && a[0] == b[0] {
      LexLessTrichotomy(a[1..], b[1..]);
      if a[1..] == b[1..] {
        assert a == [a[0]] + a[1..] && b == [b[0]] + b[1..];
      }
    }
  }

  lemma {:induction false} LexLessTransitive(a: string, b: string, c: string)
    requires LexLess(a, b) && LexLess(b, c)
    ensures LexLess(a, c)
    decreases |a|
  {
    if a != [] && b != [] && c != [] && a[0] == b[0] && b[0] == c[0] {
      LexLessTransitive(a[1..], b[1..], c[1..]);
    }
  }

  /** The decimal digit for 0..9. */
  function DigitChar(d: nat): (c: char)
    requires d < 10
    ensures IsDigit(c)
  {
    (48 + d) as char
  }

  function DigitValue(c: char): (d: nat)
    requires IsDigit(c)
    ensures d < 10 && DigitChar(d) == c
  {
    (c as int - 48) as nat
  }

  /** Decimal digits of a natural number, most significant first, no leading zeros. */
  function NatDigits(n: nat): (s: string)
    ensures s != [] && forall k :: 0 <= k < |s| ==> IsDigit(s[k])
    decreases n
  {
    if n < 10 then [DigitChar(n)] else NatDigits(n / 10) + [DigitChar(n % 10)]
  }

  /** The value of a run of decimal digits. */
  function DigitsValue(s: string): (v: nat)
    requires forall k :: 0 <= k < |s| ==> IsDigit(s[k])
    decreases |s|
  {
    if s == [] then 0 else 10 * DigitsValue(s[..|s| - 1]) + DigitValue(s[|s| - 1])
  }

  /** Reading the digits back gives the number. */
  lemma {:induction false} DigitsValueOfNat(n: nat)
    ensures DigitsValue(NatDigits(n)) == n
    decreases n
  {
    var s := NatDigits(n);
    if n >= 10 {
      DigitsValueOfNat(n / 10);
      assert s[..|s| - 1] == NatDigits(n / 10);
    }
  }

  /** `str(n)` for an integer. */
  function IntToString(n: int): (s: string)
    ensures s != []
    ensures (n < 0) <==> s[0] == '-'
  {
    if n < 0 then "-" + NatDigits(-n) else NatDigits(n)
  }
}
