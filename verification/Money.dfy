/** Printing and parsing of amounts with at most two decimals: dollar amounts and percents. */
module Money {
  import opened Wrappers
  import opened Decimal
  import opened Text

  /** The position of the first `c`, or the length. */
  function IndexOf(s: string, c: char): (i: nat)
    ensures i <= |s| && (i < |s| ==> s[i] == c) && forall j :: 0 <= j < i ==> s[j] != c
  {
    if s == "" || s[0] == c then 0 else 1 + IndexOf(s[1..], c)
  }

  /** Matches `\d+(\.\d{1,2})?` and reads it, in hundredths. */
  function ParseHundredths(s: string): Option<nat> {
    var dot := IndexOf(s, '.');
    ParseSplit(s[..dot], s[dot..])
  }

  /** `fraction` is empty or starts with the dot. */
  function ParseSplit(whole: string, fraction: string): Option<nat> {
    if whole == "" || !AllDigits(whole) then None
    else if fraction == "" then Some(100 * Value(whole))
    else if !AllDigits(fraction[1..]) then None
    else if |fraction| == 2 then Some(100 * Value(whole) + 10 * Value(fraction[1..]))
    else if |fraction| == 3 then Some(100 * Value(whole) + Value(fraction[1..]))
    else None
  }

  function WithoutCommas(s: string): string {
    if s == "" then "" else (if s[0] == ',' then "" else [s[0]]) + WithoutCommas(s[1..])
  }

  /** `parseDollarsToCents`: -1 for anything that is not a plain amount. */
  function ParseDollarsToCents(value: string): (cents: int)
    ensures cents >= -1
  {
    var trimmed := Trim(value);
    var amount := WithoutCommas(if trimmed != "" && trimmed[0] == '$' then trimmed[1..] else trimmed);
    var parsed := ParseHundredths(amount);
    if parsed.None? then -1 else parsed.value
  }

  /** `(n / 100).toFixed(2)`. */
  function PrintFixed(n: int): string {
    if n < 0 then "-" + PrintFixedNat(-n) else PrintFixedNat(n)
  }

  function PrintFixedNat(n: nat): string {
    Print(n / 100) + "." + Pad2(n % 100)
  }

  /** `String(n / 100)`: no trailing zeros. */
  function PrintShort(n: int): string {
    if n < 0 then "-" + PrintShortNat(-n) else PrintShortNat(n)
  }

  function PrintShortNat(n: nat): string {
    if n % 100 == 0 then Print(n / 100)
    else if n % 10 == 0 then Print(n / 100) + "." + [DigitChar(n / 10 % 10)]
    else PrintFixedNat(n)
  }

  /** Digits and dots only: nothing that trimming or comma removal would touch. */
  predicate IsPlain(s: string) {
    s != "" && forall i :: 0 <= i < |s| ==> IsDigit(s[i]) || s[i] == '.'
  }

  lemma {:induction false} PlainHasNoCommas(s: string)
    requires forall i :: 0 <= i < |s| ==> IsDigit(s[i]) || s[i] == '.'
    ensures WithoutCommas(s) == s
  {
    if s != "" {
      assert IsDigit(s[0]) || s[0] == '.';
      PlainHasNoCommas(s[1..]);
    }
  }

  lemma {:induction false} IndexOfConcat(a: string, b: string, c: char)
    requires forall i :: 0 <= i < |a| ==> a[i] != c
    ensures IndexOf(a + b, c) == |a| + IndexOf(b, c)
  {
    if a == "" {
      assert a + b == b;
    } else {
      assert (a + b)[1..] == a[1..] + b;
      IndexOfConcat(a[1..], b, c);
    }
  }

  /** Reading back `whole.fraction`. */
  lemma ParseParts(whole: string, digits: string)
    requires whole != "" && AllDigits(whole) && AllDigits(digits) && 1 <= |digits| <= 2
    ensures ParseHundredths(whole + "." + digits)
         == Some(100 * Value(whole) + (if |digits| == 1 then 10 * Value(digits) else Value(digits)))
  {
    hide ParseHundredths, Value, AllDigits;
    var fraction := "." + digits;
    assert fraction[1..] == digits;
    assert whole + "." + digits == whole + fraction;
    SplitAtDot(whole, fraction);
  }

  lemma SplitAtDot(whole: string, fraction: string)
    requires AllDigits(whole) && (fraction == "" || fraction[0] == '.')
    ensures ParseHundredths(whole + fraction) == ParseSplit(whole, fraction)
  {
    hide ParseSplit;
    IndexOfConcat(whole, fraction, '.');
    assert (whole + fraction)[..|whole|] == whole && (whole + fraction)[|whole|..] == fraction;
  }

  lemma ParseWhole(whole: string)
    requires whole != "" && AllDigits(whole)
    ensures ParseHundredths(whole) == Some(100 * Value(whole))
  {
    assert whole == whole + "";
    SplitAtDot(whole, "");
  }

  /** Printing an amount with two decimals and reading it back gives the amount. */
  lemma FixedRoundTrip(n: nat)
    ensures IsPlain(PrintFixedNat(n)) && ParseHundredths(PrintFixedNat(n)) == Some(n)
  {
    hide ParseHundredths, Value, Print, Pad2;
    ValueOfPrint(n / 100);
    ValueOfPad2(n % 100);
    ParseParts(Print(n / 100), Pad2(n % 100));
  }

  /** Printing a percent without trailing zeros and reading it back gives the percent. */
  lemma ShortRoundTrip(n: nat)
    ensures IsPlain(PrintShortNat(n)) && ParseHundredths(PrintShortNat(n)) == Some(n)
  {
    hide ParseHundredths, Value, Print, PrintFixedNat;
    ValueOfPrint(n / 100);
    if n % 100 == 0 {
      ParseWhole(Print(n / 100));
    } else if n % 10 == 0 {
      OneDigit(n / 10 % 10);
      ParseParts(Print(n / 100), [DigitChar(n / 10 % 10)]);
    } else {
      FixedRoundTrip(n);
    }
  }

  lemma OneDigit(d: nat)
    requires d < 10
    ensures Value([DigitChar(d)]) == d
  {
    assert [DigitChar(d)][..0] == "";
  }

  lemma PlainIsUntrimmed(s: string)
    requires IsPlain(s)
    ensures Trim(s) == s
  {
    assert IsDigit(s[0]) || s[0] == '.';
    assert IsDigit(s[|s| - 1]) || s[|s| - 1] == '.';
    TrimKeepsUnspaced(s);
  }

  /** A printed cents amount is parsed back to the same cents; a negative one is refused. */
  lemma CentsRoundTrip(n: int)
    ensures ParseDollarsToCents(PrintFixed(n)) == if n >= 0 then n else -1
    ensures Trim(PrintFixed(n)) == PrintFixed(n) != ""
  {
    var body := PrintFixedNat(if n < 0 then -n else n);
    FixedRoundTrip(if n < 0 then -n else n);
    hide PrintFixedNat, ParseHundredths, Trim, WithoutCommas;
    if n < 0 {
      NegativeIsRefused(body);
    } else {
      PlainIsUntrimmed(body);
      PlainHasNoCommas(body);
    }
  }

  lemma NegativeIsRefused(body: string)
    requires IsPlain(body)
    ensures Trim("-" + body) == "-" + body && ParseDollarsToCents("-" + body) == -1
    ensures ParseHundredths("-" + body).None?
  {
    var s := "-" + body;
    assert s[|s| - 1] == body[|body| - 1];
    assert IsDigit(body[|body| - 1]) || body[|body| - 1] == '.';
    TrimKeepsUnspaced(s);
    assert s[1..] == body;
    PlainHasNoCommas(body);
    assert WithoutCommas(s) == s;
    assert ParseHundredths(s).None? by {
      if IndexOf(s, '.') > 0 { assert s[..IndexOf(s, '.')][0] == '-'; }
    }
  }
}
