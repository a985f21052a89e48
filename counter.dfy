/**
 * The loop counter's on-screen text: the count in decimal, left-padded
 * with '0' to at least two characters, as `toString().padStart(2, "0")`
 * produces it.
 */
module CounterDisplay {

  /** Width the counter text is padded to. */
  const CounterWidth: nat := 2

  predicate IsDigit(c: char)
  {
    '0' <= c <= '9'
  }

  predicate AllDigits(s: string)
  {
    forall i :: 0 <= i < |s| ==> IsDigit(s[i])
  }

  function DigitValue(c: char): (d: nat)
    requires IsDigit(c)
    ensures d < 10
  {
    c as int - '0' as int
  }

  function DigitChar(d: nat): (c: char)
    requires d < 10
    ensures IsDigit(c) && DigitValue(c) == d
  {
    ('0' as int + d) as char
  }

  /** The number a string of decimal digits denotes, most significant digit first. */
  function DecimalValue(s: string): nat
    requires AllDigits(s)
  {
    if s == [] then 0 else DecimalValue(s[..|s| - 1]) * 10 + DigitValue(s[|s| - 1])
  }

  /**
   * The decimal numeral of `n`: digits only, no leading zero except for
   * zero itself, and reading it back gives `n`.
   */
  function DecimalText(n: nat): (s: string)
    ensures 1 <= |s| && AllDigits(s)
    ensures DecimalValue(s) == n
    ensures s[0] == '0' ==> n == 0
    ensures n < 10 <==> |s| == 1
    ensures n < 100 ==> |s| <= 2
  {
    if n < 10 then
      [DigitChar(n)]
    else
      var prefix := DecimalText(n / 10);
      var s := prefix + [DigitChar(n % 10)];
      assert s[..|s| - 1] == prefix;
      s
  }

  /** `padStart`: prefix `fill` until the string is at least `width` long. */
  function PadStart(s: string, width: nat, fill: char): (r: string)
    ensures |r| == if |s| < width then width else |s|
    ensures r[|r| - |s|..] == s
    ensures forall i :: 0 <= i < |r| - |s| ==> r[i] == fill
  {
    if |s| < width then seq(width - |s|, _ => fill) + s else s
  }

  /** A leading '0' does not change a numeral's value. */
  lemma {:induction false} LeadingZeroValue(s: string)
    requires AllDigits(s)
    ensures AllDigits(['0'] + s) && DecimalValue(['0'] + s) == DecimalValue(s)
    decreases |s|
  {
    var z := ['0'] + s;
    if s != [] {
      assert z[..|z| - 1] == ['0'] + s[..|s| - 1];
      LeadingZeroValue(s[..|s| - 1]);
    } else {
      assert z[..|z| - 1] == [];
    }
  }

  /** Any run of leading '0's does not change a numeral's value. */
  lemma {:induction false} LeadingZerosValue(k: nat, s: string)
    requires AllDigits(s)
    ensures AllDigits(seq(k, _ => '0') + s)
    ensures DecimalValue(seq(k, _ => '0') + s) == DecimalValue(s)
  {
    if k > 0 {
      LeadingZerosValue(k - 1, s);
      var rest := seq(k - 1, _ => '0') + s;
      assert seq(k, _ => '0') + s == ['0'] + rest;
      LeadingZeroValue(rest);
    } else {
      assert seq(k, _ => '0') + s == s;
    }
  }

  /** The counter text for `count`, as the counter element shows it. */
  function CounterText(count: nat): string
  {
    PadStart(DecimalText(count), CounterWidth, '0')
  }

  /**
   * The counter text has at least two digits, exactly two below 100, and
   * reads back as the count it shows.
   */
  lemma CounterTextReadsBack(count: nat)
    ensures CounterWidth <= |CounterText(count)| && AllDigits(CounterText(count))
    ensures count < 100 ==> |CounterText(count)| == CounterWidth
    ensures DecimalValue(CounterText(count)) == count
  {
    var digits := DecimalText(count);
    if |digits| < CounterWidth {
      LeadingZerosValue(CounterWidth - |digits|, digits);
    }
  }

  /** The reset text "00" is exactly the counter text of zero. */
  lemma ResetTextIsCounterText()
    ensures CounterText(0) == "00"
  {
  }

  /** Different counts never show the same text. */
  lemma CounterTextInjective(a: nat, b: nat)
    requires CounterText(a) == CounterText(b)
    ensures a == b
  {
    CounterTextReadsBack(a);
    CounterTextReadsBack(b);
  }
}
