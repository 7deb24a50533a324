/** The label of an hourly chip:
    `String(h.time).padStart(4, '0').replace(/(\d{2})$/, ':$1')`. */
module TimeCode {
  import opened Wrappers
  import opened JsText
  import opened JsValue

  /** The text ends in two ASCII digits, which is where `(\d{2})$` matches
      (without the `m` flag, `$` is the end of the input only). */
  predicate EndsInTwoDigits(p: string) {
    |p| >= 2 && IsAsciiDigit(p[|p| - 2]) && IsAsciiDigit(p[|p| - 1])
  }

  /** The padding and the replacement applied to a string. */
  function FormatTime(s: string): (r: string)
    ensures EndsInTwoDigits(PadStart(s, 4, '0')) ==>
              && |r| == |PadStart(s, 4, '0')| + 1 && r[|r| - 3] == ':'
              && DropColon(r) == PadStart(s, 4, '0')
    ensures !EndsInTwoDigits(PadStart(s, 4, '0')) ==> r == PadStart(s, 4, '0')
  {
    var p := PadStart(s, 4, '0');
    if EndsInTwoDigits(p) then p[..|p| - 2] + ":" + p[|p| - 2..] else p
  }

  /** `String(h.time)`, where `None` is an absent property, which `String`
      renders as "undefined". */
  function TimeText(time: Option<Json>): string {
    match time
    case None => "undefined"
    case Some(v) => ToJsString(v)
  }

  /** The label of a chip whose `time` property is `time`: the text padded to
      four characters with zeros, with a colon put before the last two
      characters when both are digits, and left as padded otherwise. */
  function HourLabel(time: Option<Json>): (r: string)
    ensures var p := PadStart(TimeText(time), 4, '0');
      && (EndsInTwoDigits(p) ==> |r| == |p| + 1 && r[|r| - 3] == ':' && DropColon(r) == p)
      && (!EndsInTwoDigits(p) ==> r == p)
  {
    FormatTime(TimeText(time))
  }

  /** `r` with the character three from the end removed. */
  function DropColon(r: string): string
    requires |r| >= 3
  {
    r[..|r| - 3] + r[|r| - 2..]
  }

  /** For a non-negative code: the label is one longer than the padded
      decimal text, carries the colon before the last two characters, and
      deleting the colon gives back the padded text. */
  lemma {:induction false} CodeLabelShape(n: nat)
    ensures var digits := IntDecimal(n);
      var r := HourLabel(Some(Num(n)));
      && |r| == (if |digits| < 4 then 4 else |digits|) + 1
      && r[|r| - 3] == ':'
      && DropColon(r) == PadStart(digits, 4, '0')
  {
    var digits := IntDecimal(n);
    var p := PadStart(digits, 4, '0');
    PaddedDigits(digits);
    var r := FormatTime(digits);
    assert r == p[..|p| - 2] + ":" + p[|p| - 2..];
    assert DropColon(r) == p;
  }

  /** Padding a digit string with zeros keeps it a digit string of the same value. */
  lemma PaddedDigits(s: string)
    requires AllDigits(s)
    ensures AllDigits(PadStart(s, 4, '0'))
    ensures DigitsValue(PadStart(s, 4, '0')) == DigitsValue(s)
  {
    if |s| < 4 {
      LeadingZerosValue(4 - |s|, s);
    }
  }

  /** A code below 10000 reads as a clock time: the label is `HH:MM`, with
      `HH` the hundreds of the code and `MM` its last two decimal digits. */
  lemma {:induction false} CodeLabelIsClock(n: nat)
    requires n < 10000
    ensures var r := HourLabel(Some(Num(n)));
      && |r| == 5 && r[2] == ':'
      && AllDigits(r[..2]) && AllDigits(r[3..])
      && DigitsValue(r[..2]) == n / 100
      && DigitsValue(r[3..]) == n % 100
  {
    var digits := IntDecimal(n);
    NatDecimalRoundTrip(n);
    assert |digits| <= 4 by {
      if |digits| > 4 {
        FourDigitsBound(digits);
      }
    }
    CodeLabelShape(n);
    PaddedDigits(digits);
    var p := PadStart(digits, 4, '0');
    var r := HourLabel(Some(Num(n)));
    assert r[..2] == p[..2] && r[3..] == p[2..];
    FourDigitsSplit(p);
  }

  /** The first two of four digits count the hundreds, the last two the rest. */
  lemma FourDigitsSplit(p: string)
    requires |p| == 4 && AllDigits(p)
    ensures AllDigits(p[..2]) && AllDigits(p[2..])
    ensures DigitsValue(p[..2]) == DigitsValue(p) / 100
    ensures DigitsValue(p[2..]) == DigitsValue(p) % 100
  {
    DigitsValueSplit(p[..2], p[2..]);
    assert p[..2] + p[2..] == p;
    var hi, lo := DigitsValue(p[..2]), DigitsValue(p[2..]);
    assert Pow10(2) == 100;
    assert lo < 100 by {
      DigitsBound(p[2..]);
    }
    DivModUnique(DigitsValue(p), hi, lo);
  }

  lemma DivModUnique(n: nat, hi: nat, lo: nat)
    requires n == hi * 100 + lo && lo < 100
    ensures n / 100 == hi && n % 100 == lo
  {
  }

  /** A digit string with no leading zero and more than four digits is at least 10000. */
  lemma FourDigitsBound(s: string)
    requires AllDigits(s) && |s| > 4 && s[0] != '0'
    ensures DigitsValue(s) >= 10000
  {
    LeadingDigitBound(s);
    Pow10Grows(|s| - 1);
  }

  lemma {:induction false} LeadingDigitBound(s: string)
    requires AllDigits(s) && |s| >= 1 && s[0] != '0'
    ensures DigitsValue(s) >= Pow10(|s| - 1)
  {
    if |s| > 1 {
      LeadingDigitBound(s[..|s| - 1]);
    }
  }

  lemma {:induction false} Pow10Grows(k: nat)
    requires k >= 4
    ensures Pow10(k) >= 10000
  {
    if k > 4 {
      Pow10Grows(k - 1);
    }
  }

  /** A digit string's value is below ten to the power of its length. */
  lemma {:induction false} DigitsBound(s: string)
    requires AllDigits(s)
    ensures DigitsValue(s) < Pow10(|s|)
  {
    if s != [] {
      DigitsBound(s[..|s| - 1]);
    }
  }

  /** Formatting a four-digit text puts the colon in the middle. */
  lemma FourDigitText(s: string)
    requires |s| == 4 && AllDigits(s)
    ensures FormatTime(s) == s[..2] + ":" + s[2..]
  {
  }

  /** A code whose padded decimal text is four digits reads as that text
      with a colon in the middle. */
  lemma ClockLabel(n: int, p: string)
    requires |p| == 4 && AllDigits(p)
    ensures PadStart(IntDecimal(n), 4, '0') == p ==> HourLabel(Some(Num(n))) == p[..2] + ":" + p[2..]
  {
    FourDigitText(p);
  }

  lemma NineHundred()
    ensures HourLabel(Some(Num(900))) == "09:00"
  {
    assert NatDecimal(9) == "9";
    assert NatDecimal(90) == "90";
    assert NatDecimal(900) == "900";
    assert PadStart("900", 4, '0') == "0900" by { assert Repeat('0', 1) == "0"; }
    ClockLabel(900, "0900");
  }

  lemma Midnight()
    ensures HourLabel(Some(Num(0))) == "00:00"
  {
    assert IntDecimal(0) == "0";
    assert PadStart("0", 4, '0') == "0000" by { assert Repeat('0', 3) == "000"; }
    ClockLabel(0, "0000");
  }

  lemma TwentyThreeThirty()
    ensures HourLabel(Some(Num(2330))) == "23:30"
  {
    assert NatDecimal(2) == "2";
    assert NatDecimal(23) == "23";
    assert NatDecimal(233) == "233";
    assert NatDecimal(2330) == "2330";
    ClockLabel(2330, "2330");
  }

  /** A negative code is padded but not split: "-5" becomes "00-5", since
      the text does not end in two digits. */
  lemma NegativeCodeIsNotSplit()
    ensures HourLabel(Some(Num(-5))) == "00-5"
  {
    assert NatDecimal(5) == "5";
    assert PadStart("-5", 4, '0') == "00-5";
  }

  /** A chip without a `time` shows "undefined" unchanged. */
  lemma MissingTimeLabel()
    ensures HourLabel(None) == "undefined"
  {
  }
}
