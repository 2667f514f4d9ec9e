/** The string operations the route handlers apply to request fields:
    JavaScript's `String.prototype.trim`, the `text?.trim() || null` idiom for
    optional text columns, decimal rendering and `padStart`. */
module Text {
  import opened Common

  /** The characters `trim` strips: ECMAScript WhiteSpace (tab, vertical tab,
      form feed, space, no-break space, byte-order mark and the Unicode space
      separators) and LineTerminator (line feed, carriage return, line and
      paragraph separators). */
  predicate IsSpace(c: char) {
    || c == '\t' || c == '\n' || c == '\U{000B}' || c == '\U{000C}' || c == '\r'
    || c == ' ' || c == '\U{00A0}' || c == '\U{1680}'
    || ('\U{2000}' <= c <= '\U{200A}')
    || c == '\U{2028}' || c == '\U{2029}' || c == '\U{202F}' || c == '\U{205F}'
    || c == '\U{3000}' || c == '\U{FEFF}'
  }

  predicate AllSpace(s: string) {
    forall i :: 0 <= i < |s| ==> IsSpace(s[i])
  }

  /** Neither end of `s` is a space character. */
  predicate Unpadded(s: string) {
    s == [] || (!IsSpace(s[0]) && !IsSpace(s[|s| - 1]))
  }

  /** `s` with its leading spaces removed: a suffix of `s`, preceded only by
      spaces and not starting with one. */
  function TrimStart(s: string): (r: string)
    ensures |r| <= |s| && r == s[|s| - |r|..]
    ensures forall i :: 0 <= i < |s| - |r| ==> IsSpace(s[i])
    ensures r == [] || !IsSpace(r[0])
  {
    if |s| > 0 && IsSpace(s[0]) then TrimStart(s[1..]) else s
  }

  /** `s` with its trailing spaces removed: a prefix of `s`, followed only by
      spaces and not ending with one. */
  function TrimEnd(s: string): (r: string)
    ensures |r| <= |s| && r == s[..|r|]
    ensures forall i :: |r| <= i < |s| ==> IsSpace(s[i])
    ensures r == [] || !IsSpace(r[|r| - 1])
  {
    if |s| > 0 && IsSpace(s[|s| - 1]) then TrimEnd(s[..|s| - 1]) else s
  }

  /** JavaScript's `s.trim()`: the slice of `s` left after TrimStart drops
      its leading spaces and TrimEnd its trailing ones. */
  function Trim(s: string): (r: string)
    ensures Unpadded(r) && |r| <= |s|
  {
    TrimEnd(TrimStart(s))
  }

  /** `trim` yields the empty string exactly when `s` is all spaces. */
  lemma TrimEmptyIffAllSpace(s: string)
    ensures Trim(s) == [] <==> AllSpace(s)
  {
  }

  /** Trimming a string with no space at either end changes nothing. */
  lemma {:induction false} TrimUnpadded(s: string)
    requires Unpadded(s)
    ensures Trim(s) == s
  {
  }

  /** `trim` is idempotent. */
  lemma TrimIdempotent(s: string)
    ensures Trim(Trim(s)) == Trim(s)
  {
    TrimUnpadded(Trim(s));
  }

  /** The column value written for an optional text field, `text?.trim() || null`:
      absent when the field is absent or trims to the empty string, otherwise the
      trimmed text, which is non-empty and unpadded. */
  function OptionalText(text: Option<string>): (r: Option<string>)
    ensures r.None? <==> text.None? || Trim(text.value) == []
    ensures r.Some? ==> r.value == Trim(text.value) && r.value != [] && Unpadded(r.value)
  {
    if text.None? then None
    else
      var t := Trim(text.value);
      if t == [] then None else Some(t)
  }

  /** An optional text field is stored as absent exactly when it is absent or
      made only of spaces. */
  lemma OptionalTextAbsentIffBlank(text: Option<string>)
    ensures OptionalText(text).None? <==> text.None? || AllSpace(text.value)
  {
    if text.Some? {
      TrimEmptyIffAllSpace(text.value);
    }
  }

  /** Writing back an optional text value that was read from a column stores
      the same value again. */
  lemma OptionalTextIdempotent(text: Option<string>)
    ensures OptionalText(OptionalText(text)) == OptionalText(text)
  {
    if OptionalText(text).Some? {
      TrimIdempotent(text.value);
    }
  }

  /** JavaScript's `s.padStart(width, fill)` for a one-character `fill`. */
  function PadStart(s: string, width: nat, fill: char): (r: string)
    ensures |r| == if |s| < width then width else |s|
    ensures r[|r| - |s|..] == s
    ensures forall i :: 0 <= i < |r| - |s| ==> r[i] == fill
  {
    if |s| < width then seq(width - |s|, _ => fill) + s else s
  }

  predicate IsDigit(c: char) {
    '0' <= c <= '9'
  }

  function DigitChar(d: nat): (c: char)
    requires d < 10
    ensures IsDigit(c) && c as int == '0' as int + d
  {
    ('0' as int + d) as char
  }

  function DigitValue(c: char): (d: nat)
    requires IsDigit(c)
    ensures d < 10 && DigitChar(d) == c
  {
    (c as int - '0' as int) as nat
  }

  /** A digit character reads back as the digit it was made from. */
  lemma DigitRoundTrip(d: nat)
    requires d < 10
    ensures DigitValue(DigitChar(d)) == d
  {
  }

  /** `String(n)` for a natural number: its canonical decimal rendering, with
      no leading zero except for 0 itself. */
  function DecimalText(n: nat): (r: string)
    ensures 1 <= |r| && forall i :: 0 <= i < |r| ==> IsDigit(r[i])
    ensures n < 10 <==> |r| == 1
    ensures |r| > 1 ==> r[0] != '0'
    ensures r == "0" <==> n == 0
  {
    if n < 10 then [DigitChar(n)] else DecimalText(n / 10) + [DigitChar(n % 10)]
  }

  /** The number a string of decimal digits denotes (leading zeros allowed). */
  function DecimalValue(s: string): (n: nat)
    requires forall i :: 0 <= i < |s| ==> IsDigit(s[i])
  {
    if s == [] then 0 else DecimalValue(s[..|s| - 1]) * 10 + DigitValue(s[|s| - 1])
  }

  /** Reading back a rendered number gives the number. */
  lemma {:induction false} DecimalRoundTrip(n: nat)
    ensures DecimalValue(DecimalText(n)) == n
  {
    if n >= 10 {
      var s := DecimalText(n);
      assert s[..|s| - 1] == DecimalText(n / 10);
      DecimalRoundTrip(n / 10);
    }
  }
}
