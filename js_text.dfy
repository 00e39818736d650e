/** The JavaScript string operations the page logic relies on:
    `String.prototype.trim`, `toLowerCase`, `includes`, and `String(n)` for an
    integer `n`. */
module JsText {

  /** The code points `trim` removes: ECMAScript's WhiteSpace (tab, vertical
      tab, form feed, the byte order mark and every space separator) and its
      LineTerminator (line feed, carriage return, line and paragraph
      separators). */
  predicate IsTrimmable(c: char) {
    c == '\t' || c == '\n' || c == '\U{000B}' || c == '\U{000C}' || c == '\r'
    || c == ' ' || c == '\U{00A0}' || c == '\U{1680}'
    || ('\U{2000}' <= c <= '\U{200A}')
    || c == '\U{2028}' || c == '\U{2029}' || c == '\U{202F}' || c == '\U{205F}'
    || c == '\U{3000}' || c == '\U{FEFF}'
  }

  /** Drops the leading trimmable code points. */
  function TrimStart(s: string): (r: string)
    ensures |r| <= |s| && r == s[|s| - |r|..]
    ensures forall i :: 0 <= i < |s| - |r| ==> IsTrimmable(s[i])
    ensures r == [] || !IsTrimmable(r[0])
  {
    if |s| > 0 && IsTrimmable(s[0]) then TrimStart(s[1..]) else s
  }

  /** Drops the trailing trimmable code points. */
  function TrimEnd(s: string): (r: string)
    ensures |r| <= |s| && r == s[..|r|]
    ensures forall i :: |r| <= i < |s| ==> IsTrimmable(s[i])
    ensures r == [] || !IsTrimmable(r[|r| - 1])
  {
    if |s| > 0 && IsTrimmable(s[|s| - 1]) then TrimEnd(s[..|s| - 1]) else s
  }

  /** `s.trim()`: neither end of the result is trimmable. */
  function Trim(s: string): (r: string)
    ensures |r| <= |s|
    ensures r == [] || (!IsTrimmable(r[0]) && !IsTrimmable(r[|r| - 1]))
  {
    TrimEnd(TrimStart(s))
  }

  /** A prefix `r` of the suffix `t == s[start..]` is the slice of `s` from
      `start`, and what follows it in `t` follows it in `s`. */
  lemma PrefixOfSuffix(s: string, start: nat, t: string, r: string)
    requires start <= |s| && t == s[start..]
    requires |r| <= |t| && r == t[..|r|]
    requires forall i :: |r| <= i < |t| ==> IsTrimmable(t[i])
    ensures start + |r| <= |s| && r == s[start..start + |r|]
    ensures forall i :: start + |r| <= i < |s| ==> IsTrimmable(s[i])
  {
    forall i | start + |r| <= i < |s| ensures IsTrimmable(s[i]) {
      assert s[i] == t[i - start];
    }
  }

  /** `trim` keeps a contiguous slice of its input, and removes exactly the
      trimmable code points around it. */
  lemma TrimIsSlice(s: string) returns (start: nat)
    ensures start + |Trim(s)| <= |s| && Trim(s) == s[start..start + |Trim(s)|]
    ensures forall i :: 0 <= i < start ==> IsTrimmable(s[i])
    ensures forall i :: start + |Trim(s)| <= i < |s| ==> IsTrimmable(s[i])
    ensures Trim(s) == [] || (!IsTrimmable(Trim(s)[0]) && !IsTrimmable(Trim(s)[|Trim(s)| - 1]))
  {
    var t := TrimStart(s);
    start := |s| - |t|;
    PrefixOfSuffix(s, start, t, TrimEnd(t));
  }

  /** A string trims to nothing exactly when every code point in it is
      trimmable. */
  lemma TrimEmptyIff(s: string)
    ensures Trim(s) == [] <==> forall i :: 0 <= i < |s| ==> IsTrimmable(s[i])
  {
    var start := TrimIsSlice(s);
  }

  /** A string that neither starts nor ends with a trimmable code point is
      left as it is by `trim`; in particular trimming twice is trimming once. */
  lemma TrimKeepsTrimmed(s: string)
    requires s == [] || (!IsTrimmable(s[0]) && !IsTrimmable(s[|s| - 1]))
    ensures Trim(s) == s
  {
    assert TrimStart(s) == s;
  }

  /** `toLowerCase` on one code point, for the Basic Latin and the basic
      Cyrillic capitals (U+0041-U+005A, U+0410-U+042F, U+0400-U+040F); every
      other code point is left as it is. */
  function LowerChar(c: char): (l: char)
    ensures !('A' <= l <= 'Z') && !('\U{0400}' <= l <= '\U{042F}')
    ensures l == c || 'A' <= c <= 'Z' || '\U{0400}' <= c <= '\U{042F}'
  {
    if 'A' <= c <= 'Z' then (c as int + 32) as char
    else if '\U{0410}' <= c <= '\U{042F}' then (c as int + 32) as char
    else if '\U{0400}' <= c <= '\U{040F}' then (c as int + 80) as char
    else c
  }

  /** `s.toLowerCase()`, code point by code point. */
  function Lower(s: string): (r: string)
    ensures |r| == |s|
    ensures forall i :: 0 <= i < |s| ==> r[i] == LowerChar(s[i])
  {
    if s == [] then [] else [LowerChar(s[0])] + Lower(s[1..])
  }

  /** Lower-casing twice is lower-casing once. */
  lemma LowerIdempotent(s: string)
    ensures Lower(Lower(s)) == Lower(s)
  {
    assert forall i :: 0 <= i < |s| ==> Lower(Lower(s))[i] == LowerChar(LowerChar(s[i]));
  }

  /** Lower-casing leaves the code points `trim` removes untouched. */
  lemma LowerKeepsTrimmable(s: string)
    requires forall i :: 0 <= i < |s| ==> IsTrimmable(s[i])
    ensures Lower(s) == s
  {
  }

  /** `s.includes(q)`: `q` occurs in `s` at some position. */
  predicate Includes(s: string, q: string) {
    exists k :: 0 <= k <= |s| && q <= s[k..]
  }

  /** Every string includes the empty string. */
  lemma IncludesEmpty(s: string)
    ensures Includes(s, [])
  {
    assert [] <= s[0..];
  }

  /** The empty string includes only the empty string. */
  lemma EmptyIncludesOnlyEmpty(q: string)
    ensures Includes([], q) <==> q == []
  {
    if q == [] {
      IncludesEmpty([]);
    }
  }

  function DigitChar(d: nat): char
    requires d < 10
  {
    "0123456789"[d]
  }

  /** The decimal numeral of `n`, as `String(n)` writes a non-negative
      integer. */
  function NatToDecimal(n: nat): (r: string)
    ensures |r| >= 1
    ensures forall i :: 0 <= i < |r| ==> '0' <= r[i] <= '9'
    ensures r[0] == '0' <==> n == 0
    ensures |r| == 1 || r[0] != '0'
  {
    if n < 10 then [DigitChar(n)] else NatToDecimal(n / 10) + [DigitChar(n % 10)]
  }

  /** The number a string of decimal digits denotes. */
  function DecimalValue(s: string): nat
    requires forall i :: 0 <= i < |s| ==> '0' <= s[i] <= '9'
  {
    if s == [] then 0
    else DecimalValue(s[..|s| - 1]) * 10 + (s[|s| - 1] as int - '0' as int)
  }

  /** The numeral written for `n` reads back as `n`. */
  lemma {:induction false} DecimalRoundTrip(n: nat)
    ensures DecimalValue(NatToDecimal(n)) == n
  {
    var r := NatToDecimal(n);
    if n >= 10 {
      DecimalRoundTrip(n / 10);
      assert r[..|r| - 1] == NatToDecimal(n / 10);
    }
  }
}
