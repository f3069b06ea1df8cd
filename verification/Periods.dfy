/** Billing periods: the "YYYY-MM" strings the scheduler keys its run records by. */
module Periods {
  import opened Decimal
  import opened Text

  /** Months counted from year 0; every month whose predecessor also has a four-digit year. */
  type Month = m: int | 12001 <= m < 120000 witness 24312

  predicate FourDigitYear(m: int) {
    12000 <= m < 120000
  }

  /** What `strftime("%Y-%m")` prints in month `m`. */
  function PeriodOf(m: int): (p: string)
    requires FourDigitYear(m)
  {
    Print(m / 12) + "-" + Pad2(m % 12 + 1)
  }

  predicate IsPeriod(p: string) {
    && |p| == 7 && p[4] == '-'
    && AllDigits(p[..4]) && AllDigits(p[5..])
    && Value(p[..4]) > 0 && 1 <= Value(p[5..]) <= 12
  }

  /** Splits the period at its dash, reads both numbers and prints the month before. */
  function PreviousPeriod(period: string): string
    requires IsPeriod(period)
  {
    var year, month := Value(period[..4]), Value(period[5..]);
    if month == 1 then Print(year - 1) + "-12" else Print(year) + "-" + Pad2(month - 1)
  }

  lemma PeriodParts(m: int)
    requires FourDigitYear(m)
    ensures |PeriodOf(m)| == 7 && PeriodOf(m)[4] == '-'
    ensures PeriodOf(m)[..4] == Print(m / 12) && PeriodOf(m)[5..] == Pad2(m % 12 + 1)
    ensures Value(PeriodOf(m)[..4]) == m / 12 && Value(PeriodOf(m)[5..]) == m % 12 + 1
    ensures IsPeriod(PeriodOf(m))
  {
    FourDigits(m / 12);
    var p := PeriodOf(m);
    assert p[..4] == Print(m / 12);
    assert p[5..] == Pad2(m % 12 + 1);
    ValueOfPrint(m / 12);
    ValueOfPad2(m % 12 + 1);
  }

  /** `_previous_period` inverts "the next month" on every four-digit year. */
  lemma PreviousPeriodIsPriorMonth(m: Month)
    ensures IsPeriod(PeriodOf(m)) && PreviousPeriod(PeriodOf(m)) == PeriodOf(m - 1)
  {
    PeriodParts(m);
    if m % 12 == 0 {
      assert (m - 1) / 12 == m / 12 - 1 && (m - 1) % 12 == 11;
      assert Pad2(12) == "12";
    } else {
      assert (m - 1) / 12 == m / 12 && (m - 1) % 12 == m % 12 - 1;
    }
  }

  lemma PeriodInjective(a: int, b: int)
    requires FourDigitYear(a) && FourDigitYear(b)
    requires PeriodOf(a) == PeriodOf(b)
    ensures a == b
  {
    PeriodParts(a);
    PeriodParts(b);
  }

  lemma {:induction false} LessConcat(a: string, x: string, b: string, y: string)
    requires |a| == |b|
    ensures StringLess(a + x, b + y) <==> StringLess(a, b) || (a == b && StringLess(x, y))
  {
    if a == "" {
      assert a + x == x && b + y == y;
    } else {
      assert (a + x)[1..] == a[1..] + x && (b + y)[1..] == b[1..] + y;
      LessConcat(a[1..], x, b[1..], y);
      assert a == [a[0]] + a[1..] && b == [b[0]] + b[1..];
    }
  }

  lemma {:induction false} LessIsNumericOrder(a: string, b: string)
    requires |a| == |b| && AllDigits(a) && AllDigits(b)
    ensures StringLess(a, b) <==> Value(a) < Value(b)
    ensures Value(a) == Value(b) ==> a == b
  {
    if a != "" {
      var n := |a| - 1;
      LessIsNumericOrder(a[..n], b[..n]);
      assert a == a[..n] + [a[n]] && b == b[..n] + [b[n]];
      LessConcat(a[..n], [a[n]], b[..n], [b[n]]);
    }
  }

  /** "YYYY-MM" strings sort in month order. */
  lemma PeriodOrderIsMonthOrder(a: int, b: int)
    requires FourDigitYear(a) && FourDigitYear(b)
    ensures StringLess(PeriodOf(a), PeriodOf(b)) <==> a < b
  {
    PeriodParts(a);
    PeriodParts(b);
    var (ya, yb) := (Print(a / 12), Print(b / 12));
    var (ta, tb) := (Pad2(a % 12 + 1), Pad2(b % 12 + 1));
    assert PeriodOf(a) == ya + ("-" + ta) && PeriodOf(b) == yb + ("-" + tb);
    LessConcat(ya, "-" + ta, yb, "-" + tb);
    LessConcat("-", ta, "-", tb);
    LessIsNumericOrder(ya, yb);
    LessIsNumericOrder(ta, tb);
  }

  /** The claim needs its four-digit years: January 1000 sorts before the month before it. */
  lemma PeriodOrderBreaksBelowYear1000()
    ensures IsPeriod(PeriodOf(12000))
    ensures StringLess(PeriodOf(12000), PreviousPeriod(PeriodOf(12000)))
  {
    PeriodParts(12000);
    assert Print(1000)[0] == '1' by {
      assert Print(10) == [DigitChar(1)] + [DigitChar(0)];
      assert Print(100) == Print(10) + [DigitChar(0)];
    }
    assert Print(999)[0] == '9' by {
      assert Print(99) == [DigitChar(9)] + [DigitChar(9)];
    }
  }
}
