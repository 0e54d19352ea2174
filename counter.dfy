/** The warning-number counter: a JavaScript number read from storage with
    parseInt, incremented with ++, written back with toString and shown with
    padStart(4, '0'). */
module Counter {
  import opened Wrappers
  import opened Text

  /** The counter's JavaScript value. parseInt of text with no leading digits
      gives NaN, which ++ and toString carry along. */
  datatype WarningNumber = Num(n: int) | NaN

  /** Number.prototype.toString in base 10. */
  function NumberToString(x: WarningNumber): string {
    match x
    case NaN => "NaN"
    case Num(n) => if n < 0 then "-" + DecimalDigits(-n) else DecimalDigits(n)
  }

  /** parseInt(s, 10): skip leading whitespace, read an optional sign, then
      the longest run of decimal digits; no digits at all gives NaN. */
  function ParseInt(s: string): WarningNumber {
    ParseSigned(TrimStart(s))
  }

  /** parseInt after the leading whitespace: an optional sign, then digits. */
  function ParseSigned(t: string): WarningNumber {
    if |t| > 0 && t[0] == '-' then Negate(ParseDigitRun(t[1..]))
    else if |t| > 0 && t[0] == '+' then ParseDigitRun(t[1..])
    else ParseDigitRun(t)
  }

  /** The value of the leading digit run, NaN when there is none. */
  function ParseDigitRun(body: string): WarningNumber {
    var ds := LeadingDigits(body);
    if ds == "" then NaN else Num(DigitsValue(ds))
  }

  function Negate(x: WarningNumber): WarningNumber {
    match x
    case NaN => NaN
    case Num(n) => Num(-n)
  }

  /** getNextWarningNumber: an absent or empty storage slot starts the
      counter at 1; anything else is parsed. */
  function GetNextWarningNumber(saved: Option<string>): (r: WarningNumber)
    ensures saved == None || saved == Some("") ==> r == Num(1)
    ensures saved.Some? && saved.value != "" ==> r == ParseInt(saved.value)
  {
    if saved == None || saved.value == "" then Num(1) else ParseInt(saved.value)
  }

  /** The ++ operator: one more, NaN stays NaN. */
  function Increment(x: WarningNumber): (r: WarningNumber)
    ensures x.Num? ==> r == Num(x.n + 1)
    ensures x.NaN? ==> r.NaN?
  {
    match x
    case NaN => NaN
    case Num(n) => Num(n + 1)
  }

  /** formatWarningNumber: the decimal notation left-padded with '0' to four
      characters. */
  function FormatWarningNumber(x: WarningNumber): string {
    PadStart(NumberToString(x), 4, '0')
  }

  /** A value written back by incrementWarningNumber is read back unchanged
      by getNextWarningNumber: the counter survives a reload. */
  lemma {:induction false} CounterSurvivesReload(x: WarningNumber)
    ensures GetNextWarningNumber(Some(NumberToString(x))) == x
  {
    match x
    case NaN =>
      assert LeadingDigits("NaN") == "";
    case Num(n) =>
      var m: nat := if n < 0 then -n else n;
      var ds := DecimalDigits(m);
      DigitsValueOfDecimal(m);
      if n < 0 {
        ParseNegativeDigits(ds);
      } else {
        ParseDigits(ds);
      }
  }

  /** parseInt of a non-empty digit string is its value. */
  lemma {:induction false} ParseDigits(ds: string)
    requires |ds| >= 1 && forall i :: 0 <= i < |ds| ==> IsDigit(ds[i])
    ensures ParseInt(ds) == Num(DigitsValue(ds))
  {
    StartsUntrimmed(ds);
    DigitRunValue(ds);
    assert ParseInt(ds) == ParseDigitRun(ds);
  }

  /** parseInt of a minus sign followed by a non-empty digit string. */
  lemma {:induction false} ParseNegativeDigits(ds: string)
    requires |ds| >= 1 && forall i :: 0 <= i < |ds| ==> IsDigit(ds[i])
    ensures ParseInt("-" + ds) == Num(-(DigitsValue(ds) as int))
  {
    var s := "-" + ds;
    StartsUntrimmed(s);
    assert s[1..] == ds;
    DigitRunValue(ds);
    assert ParseSigned(s) == Negate(ParseDigitRun(ds));
  }

  lemma {:induction false} StartsUntrimmed(s: string)
    requires |s| >= 1 && !IsWhitespace(s[0])
    ensures TrimStart(s) == s
  {
  }

  lemma {:induction false} DigitRunValue(ds: string)
    requires |ds| >= 1 && forall i :: 0 <= i < |ds| ==> IsDigit(ds[i])
    ensures ParseDigitRun(ds) == Num(DigitsValue(ds))
  {
    LeadingDigitsOfDigits(ds);
  }

  lemma {:induction false} LeadingDigitsOfDigits(ds: string)
    requires forall i :: 0 <= i < |ds| ==> IsDigit(ds[i])
    ensures LeadingDigits(ds) == ds
  {
    if |ds| > 0 {
      LeadingDigitsOfDigits(ds[1..]);
      assert [ds[0]] + ds[1..] == ds;
    }
  }

  /** For a non-negative counter, the formatted number is a run of '0's
      followed by the decimal digits, max(4, digit count) characters long. */
  lemma FormatWarningNumberShape(n: nat)
    ensures var r := FormatWarningNumber(Num(n));
            var ds := DecimalDigits(n);
            && |r| == (if |ds| < 4 then 4 else |ds|)
            && r == Repeat('0', |r| - |ds|) + ds
  {
  }

  /** Parsing a formatted number gives the number back: the padding is only
      leading zeros. */
  lemma FormatWarningNumberParses(n: nat)
    ensures ParseInt(FormatWarningNumber(Num(n))) == Num(n)
  {
    var ds := DecimalDigits(n);
    var r := FormatWarningNumber(Num(n));
    var k := |r| - |ds|;
    assert r == Repeat('0', k) + ds;
    DigitsValueLeadingZeros(k, ds);
    DigitsValueOfDecimal(n);
    ParseDigits(r);
  }
}
