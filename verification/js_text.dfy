/** The JavaScript string primitives the application relies on:
    `String.prototype.trim`, `String.prototype.padStart` with a one-character
    filler, and `String(n)` for an integer `n`. */
module JsText {

  /** A character `String.prototype.trim` removes: the WhiteSpace and
      LineTerminator code points of ECMAScript (section 12.2 and 12.3 of
      ECMA-262), with the Unicode "Zs" category written out. */
  const JsWhitespace: set<char> := {
    '\t', '\U{000B}', '\U{000C}', ' ', '\U{00A0}', '\U{FEFF}', '\U{1680}',
    '\U{2000}', '\U{2001}', '\U{2002}', '\U{2003}', '\U{2004}', '\U{2005}',
    '\U{2006}', '\U{2007}', '\U{2008}', '\U{2009}', '\U{200A}',
    '\U{202F}', '\U{205F}', '\U{3000}',
    '\n', '\r', '\U{2028}', '\U{2029}'
  }

  predicate IsJsWhitespace(c: char) {
    c in JsWhitespace
  }

  predicate AllWhitespace(s: string) {
    forall k :: 0 <= k < |s| ==> IsJsWhitespace(s[k])
  }

  /** The first index at or after `i` whose character is not whitespace,
      or `|s|` when there is none. */
  function SkipWhitespace(s: string, i: nat): (j: nat)
    requires i <= |s|
    ensures i <= j <= |s|
    ensures forall k :: i <= k < j ==> IsJsWhitespace(s[k])
    ensures j < |s| ==> !IsJsWhitespace(s[j])
    decreases |s| - i
  {
    if i < |s| && IsJsWhitespace(s[i]) then SkipWhitespace(s, i + 1) else i
  }

  /** The index just past the last character before `j` that is not
      whitespace, or 0 when there is none. */
  function BackWhitespace(s: string, j: nat): (i: nat)
    requires j <= |s|
    ensures i <= j
    ensures forall k :: i <= k < j ==> IsJsWhitespace(s[k])
    ensures i > 0 ==> !IsJsWhitespace(s[i - 1])
  {
    if j > 0 && IsJsWhitespace(s[j - 1]) then BackWhitespace(s, j - 1) else j
  }

  /** `s.trim()`: the result is a slice of `s` that neither starts nor ends
      with whitespace, and it is empty exactly when `s` is all whitespace. */
  function Trim(s: string): (r: string)
    ensures |r| <= |s|
    ensures r == [] || (!IsJsWhitespace(r[0]) && !IsJsWhitespace(r[|r| - 1]))
    ensures r == [] <==> AllWhitespace(s)
  {
    var a, b := SkipWhitespace(s, 0), BackWhitespace(s, |s|);
    if a < b then s[a..b] else []
  }

  /** The text without its leading whitespace (`trimStart`), by peeling one
      character at a time. */
  function TrimStart(s: string): string {
    if |s| > 0 && IsJsWhitespace(s[0]) then TrimStart(s[1..]) else s
  }

  /** The text without its trailing whitespace (`trimEnd`), by peeling one
      character at a time. */
  function TrimEnd(s: string): string {
    if |s| > 0 && IsJsWhitespace(s[|s| - 1]) then TrimEnd(s[..|s| - 1]) else s
  }

  /** Where the scan from the left stops is determined by the text: the first
      non-whitespace position at or after `i`. */
  lemma SkipStopsAt(s: string, i: nat, j: nat)
    requires i <= j <= |s|
    requires forall k :: i <= k < j ==> IsJsWhitespace(s[k])
    requires j < |s| ==> !IsJsWhitespace(s[j])
    ensures SkipWhitespace(s, i) == j
  {
  }

  /** Where the scan from the right stops is determined by the text. */
  lemma BackStopsAt(s: string, j: nat, i: nat)
    requires i <= j <= |s|
    requires forall k :: i <= k < j ==> IsJsWhitespace(s[k])
    requires i > 0 ==> !IsJsWhitespace(s[i - 1])
    ensures BackWhitespace(s, j) == i
  {
  }

  /** Peeling from the left gives the text from the first non-whitespace
      character on. */
  lemma {:induction false} TrimStartIsSkip(s: string)
    ensures TrimStart(s) == s[SkipWhitespace(s, 0)..]
  {
    if |s| > 0 && IsJsWhitespace(s[0]) {
      TrimStartIsSkip(s[1..]);
      var t := s[1..];
      SkipStopsAt(s, 0, SkipWhitespace(t, 0) + 1);
      assert s[SkipWhitespace(t, 0) + 1..] == t[SkipWhitespace(t, 0)..];
    }
  }

  /** Peeling from the right gives the text up to the last non-whitespace
      character. */
  lemma {:induction false} TrimEndIsBack(s: string)
    ensures TrimEnd(s) == s[..BackWhitespace(s, |s|)]
  {
    if |s| > 0 && IsJsWhitespace(s[|s| - 1]) {
      var t := s[..|s| - 1];
      TrimEndIsBack(t);
      BackStopsAt(s, |s|, BackWhitespace(t, |t|));
      assert s[..BackWhitespace(t, |t|)] == t[..BackWhitespace(t, |t|)];
    }
  }

  /** `trim` strips both ends: it is `trimEnd` after `trimStart`. */
  lemma TrimIsBothEnds(s: string)
    ensures Trim(s) == TrimEnd(TrimStart(s))
  {
    TrimStartIsSkip(s);
    TrimEndIsBack(s[SkipWhitespace(s, 0)..]);
    TrimIsBackOfSkipped(s);
  }

  /** The same in terms of the two scans: scanning back over the text that
      the left scan leaves ends where `Trim` ends. */
  lemma TrimIsBackOfSkipped(s: string)
    ensures var t := s[SkipWhitespace(s, 0)..];
      Trim(s) == t[..BackWhitespace(t, |t|)]
  {
    var a, b := SkipWhitespace(s, 0), BackWhitespace(s, |s|);
    var t := s[a..];
    if a < b {
      forall k | b - a <= k < |t| ensures IsJsWhitespace(t[k]) {
        assert t[k] == s[k + a];
      }
      assert t[b - a - 1] == s[b - 1];
      BackStopsAt(t, |t|, b - a);
      assert t[..b - a] == s[a..b];
    } else {
      assert a == |s|;
      assert t == [];
    }
  }

  /** Trimming is determined by the non-whitespace core: surrounding `core`
      with any whitespace leaves `core` after `Trim`. */
  lemma TrimOfPadded(lead: string, core: string, trail: string)
    requires AllWhitespace(lead) && AllWhitespace(trail)
    requires core == [] || (!IsJsWhitespace(core[0]) && !IsJsWhitespace(core[|core| - 1]))
    ensures Trim(lead + core + trail) == core
  {
    var s := lead + core + trail;
    var m := |lead| + |core|;
    if core == [] {
      assert AllWhitespace(s) by {
        forall k | 0 <= k < |s| ensures IsJsWhitespace(s[k]) {
          if k < |lead| { assert s[k] == lead[k]; } else { assert s[k] == trail[k - |lead|]; }
        }
      }
    } else {
      forall k | 0 <= k < |lead| ensures IsJsWhitespace(s[k]) {
        assert s[k] == lead[k];
      }
      assert s[|lead|] == core[0];
      SkipStopsAt(s, 0, |lead|);
      forall k | m <= k < |s| ensures IsJsWhitespace(s[k]) {
        assert s[k] == trail[k - m];
      }
      assert s[m - 1] == core[|core| - 1];
      BackStopsAt(s, |s|, m);
      assert s[|lead|..m] == core;
    }
  }

  /** Trimming twice is trimming once. */
  lemma TrimIdempotent(s: string)
    ensures Trim(Trim(s)) == Trim(s)
  {
    var r := Trim(s);
    TrimOfPadded([], r, []);
    assert [] + r + [] == r;
  }

  /** `c` repeated `n` times. */
  function Repeat(c: char, n: nat): (r: string)
    ensures |r| == n
    ensures forall k :: 0 <= k < n ==> r[k] == c
  {
    if n == 0 then [] else [c] + Repeat(c, n - 1)
  }

  /** `s.padStart(width, fill)` for a one-character filler: `s` keeps its
      place at the end, and the filler makes up the missing length in front. */
  function PadStart(s: string, width: nat, fill: char): (r: string)
    ensures |r| == if |s| < width then width else |s|
    ensures r[|r| - |s|..] == s
    ensures forall k :: 0 <= k < |r| - |s| ==> r[k] == fill
  {
    if |s| < width then Repeat(fill, width - |s|) + s else s
  }

  predicate IsAsciiDigit(c: char) {
    '0' <= c <= '9'
  }

  predicate AllDigits(s: string) {
    forall k :: 0 <= k < |s| ==> IsAsciiDigit(s[k])
  }

  function DigitChar(d: nat): (c: char)
    requires d < 10
    ensures IsAsciiDigit(c) && DigitValue(c) == d
  {
    (('0' as int) + d) as char
  }

  function DigitValue(c: char): nat
    requires IsAsciiDigit(c)
  {
    (c as int) - ('0' as int)
  }

  /** The value of a string of decimal digits, most significant first
      (leading zeros allowed, the empty string reads as 0). */
  function DigitsValue(s: string): nat
    requires AllDigits(s)
  {
    if s == [] then 0 else 10 * DigitsValue(s[..|s| - 1]) + DigitValue(s[|s| - 1])
  }

  /** `String(n)` for a natural number `n`: its decimal digits with no
      leading zero. */
  function NatDecimal(n: nat): (r: string)
    ensures |r| >= 1 && AllDigits(r)
    ensures |r| > 1 ==> r[0] != '0'
    ensures n < 10 <==> |r| == 1
  {
    if n < 10 then [DigitChar(n)] else NatDecimal(n / 10) + [DigitChar(n % 10)]
  }

  /** `String(n)` for an integer `n`: a minus sign in front of the digits of
      a negative number. */
  function IntDecimal(n: int): (r: string)
    ensures n >= 0 ==> AllDigits(r)
    ensures n < 0 ==> |r| >= 2 && r[0] == '-' && AllDigits(r[1..])
  {
    if n < 0 then "-" + NatDecimal(-n) else NatDecimal(n)
  }

  /** Reading back the decimal digits gives the number. */
  lemma {:induction false} NatDecimalRoundTrip(n: nat)
    ensures DigitsValue(NatDecimal(n)) == n
  {
    if n >= 10 {
      var r := NatDecimal(n);
      assert r[..|r| - 1] == NatDecimal(n / 10);
      NatDecimalRoundTrip(n / 10);
    }
  }

  /** Leading zeros do not change the value of a digit string. */
  lemma {:induction false} LeadingZerosValue(z: nat, s: string)
    requires AllDigits(s)
    ensures AllDigits(Repeat('0', z) + s)
    ensures DigitsValue(Repeat('0', z) + s) == DigitsValue(s)
  {
    var t := Repeat('0', z) + s;
    assert AllDigits(t) by {
      forall k | 0 <= k < |t| ensures IsAsciiDigit(t[k]) {
        if k >= z { assert t[k] == s[k - z]; }
      }
    }
    if s == [] {
      assert t == Repeat('0', z);
      if z > 0 {
        assert t[..|t| - 1] == Repeat('0', z - 1) + [];
        LeadingZerosValue(z - 1, []);
      }
    } else {
      assert t[..|t| - 1] == Repeat('0', z) + s[..|s| - 1];
      LeadingZerosValue(z, s[..|s| - 1]);
    }
  }

  /** Splitting a digit string: the head counts in units of 10^|tail|. */
  lemma {:induction false} DigitsValueSplit(head: string, tail: string)
    requires AllDigits(head) && AllDigits(tail)
    ensures AllDigits(head + tail)
    ensures DigitsValue(head + tail) == DigitsValue(head) * Pow10(|tail|) + DigitsValue(tail)
  {
    DigitsConcat(head, tail);
    if tail == [] {
      assert head + tail == head;
    } else {
      var t := head + tail;
      var init := tail[..|tail| - 1];
      assert t[..|t| - 1] == head + init;
      assert t[|t| - 1] == tail[|tail| - 1];
      DigitsValueSplit(head, init);
      ShiftDigit(DigitsValue(head), Pow10(|init|), DigitsValue(init), DigitValue(tail[|tail| - 1]));
    }
  }

  lemma DigitsConcat(head: string, tail: string)
    requires AllDigits(head) && AllDigits(tail)
    ensures AllDigits(head + tail)
  {
    var t := head + tail;
    forall k | 0 <= k < |t| ensures IsAsciiDigit(t[k]) {
      if k >= |head| { assert t[k] == tail[k - |head|]; }
    }
  }

  lemma ShiftDigit(h: nat, p: nat, v: nat, d: nat)
    ensures 10 * (h * p + v) + d == h * (10 * p) + (10 * v + d)
  {
  }

  function Pow10(k: nat): (r: nat)
    ensures r >= 1
  {
    if k == 0 then 1 else 10 * Pow10(k - 1)
  }
}
