/** Day lists of the billing rules form: printed with ", " between them, parsed, de-duplicated and sorted. */
module DayLists {
  import opened Wrappers
  import opened Decimal
  import opened Text
  import opened Reordering

  function PrintInt(n: int): string {
    if n < 0 then "-" + Print(-n) else Print(n)
  }

  /** `values.join(", ")`. */
  function Join(days: seq<int>): string {
    if days == [] then "" else if |days| == 1 then PrintInt(days[0]) else PrintInt(days[0]) + ", " + Join(days[1..])
  }

  predicate IsSeparator(c: char) {
    c == ',' || IsSpace(c)
  }

  /** The length of the separator-free prefix. */
  function TokenLength(s: string): (n: nat)
    ensures n <= |s|
  {
    if s == "" || IsSeparator(s[0]) then 0 else 1 + TokenLength(s[1..])
  }

  /** `split(/[,\s]+/).filter(Boolean)`: the maximal separator-free pieces. */
  function Tokens(s: string): seq<string>
    decreases |s|
  {
    if s == "" then []
    else if IsSeparator(s[0]) then Tokens(s[1..])
    else [s[..TokenLength(s)]] + Tokens(s[TokenLength(s)..])
  }

  function InsertDay(day: int, sorted: seq<int>): seq<int> {
    if sorted == [] || day < sorted[0] then [day] + sorted else [sorted[0]] + InsertDay(day, sorted[1..])
  }

  function SortDays(days: seq<int>): seq<int> {
    if days == [] then [] else InsertDay(days[|days| - 1], SortDays(days[..|days| - 1]))
  }

  /** The distinct numbers of the tokens in order of appearance, or nothing when a token is not all digits. */
  function DistinctDays(tokens: seq<string>): Option<seq<int>> {
    if tokens == [] then Some([]) else
    var (before, last) := (DistinctDays(tokens[..|tokens| - 1]), tokens[|tokens| - 1]);
    if before.None? || last == "" || !AllDigits(last) then None
    else if Value(last) in before.value then before
    else Some(before.value + [Value(last)])
  }

  /** `inputToDays`: blank is the empty list. */
  function DaysOf(raw: string): Option<seq<int>> {
    var days := DistinctDays(Tokens(Trim(raw)));
    if days.None? then None else Some(SortDays(days.value))
  }

  predicate Increasing(days: seq<int>) {
    forall i, j :: 0 <= i < j < |days| ==> days[i] < days[j]
  }

  predicate NonNegative(days: seq<int>) {
    forall i :: 0 <= i < |days| ==> days[i] >= 0
  }

  // ----- the source's mutable form -----

  method SplitTokens(s: string) returns (parts: seq<string>)
    ensures parts == Tokens(s)
  {
    parts := [];
    var i := 0;
    while i < |s|
      invariant 0 <= i <= |s|
      invariant Tokens(s) == parts + Tokens(s[i..])
    {
      var n := TokenLength(s[i..]);
      if IsSeparator(s[i]) {
        assert s[i..][1..] == s[i + 1..];
        i := i + 1;
      } else {
        assert s[i..][n..] == s[i + n..];
        parts := parts + [s[i..][..n]];
        i := i + n;
      }
    }
  }

  method InputToDays(raw: string) returns (days: Option<seq<int>>)
    ensures days == DaysOf(raw)
  {
    var trimmed := Trim(raw);
    if trimmed == "" {
      return Some([]);
    }
    var parts := SplitTokens(trimmed);
    var found: seq<int> := [];
    for i := 0 to |parts|
      invariant DistinctDays(parts[..i]) == Some(found)
    {
      assert parts[..i + 1][..i] == parts[..i];
      if parts[i] == "" || !AllDigits(parts[i]) {
        RefusedStaysRefused(parts, i + 1, |parts|);
        assert parts[..|parts|] == parts;
        return None;
      }
      var day := Value(parts[i]);
      if day !in found {
        found := found + [day];
      }
    }
    assert parts[..|parts|] == parts;
    days := Some(SortDays(found));
  }

  lemma {:induction false} RefusedStaysRefused(tokens: seq<string>, i: nat, n: nat)
    requires i <= n <= |tokens| && DistinctDays(tokens[..i]).None?
    ensures DistinctDays(tokens[..n]).None?
    decreases n
  {
    if i < n {
      assert tokens[..n][..n - 1] == tokens[..n - 1];
      RefusedStaysRefused(tokens, i, n - 1);
    }
  }

  // ----- sorting and round trip -----

  lemma {:induction false} InsertedDay(day: int, sorted: seq<int>)
    requires Increasing(sorted) && day !in sorted
    ensures Increasing(InsertDay(day, sorted))
    ensures forall d :: d in InsertDay(day, sorted) <==> d == day || d in sorted
  {
    if sorted != [] && day >= sorted[0] {
      InsertedDay(day, sorted[1..]);
      assert sorted == [sorted[0]] + sorted[1..];
      var tail := InsertDay(day, sorted[1..]);
      forall i | 0 <= i < |tail|
        ensures sorted[0] < tail[i]
      {
        assert tail[i] in tail && sorted[0] in sorted;
      }
    }
  }

  lemma {:induction false} SortedDays(days: seq<int>)
    requires NoDuplicates(days)
    ensures Increasing(SortDays(days)) && forall d :: d in SortDays(days) <==> d in days
  {
    if days != [] {
      var n := |days| - 1;
      assert days == days[..n] + [days[n]];
      SortedDays(days[..n]);
      assert days[n] !in days[..n];
      InsertedDay(days[n], SortDays(days[..n]));
    }
  }

  lemma {:induction false} DistinctDaysAreDistinct(tokens: seq<string>)
    requires DistinctDays(tokens).Some?
    ensures NoDuplicates(DistinctDays(tokens).value) && NonNegative(DistinctDays(tokens).value)
  {
    if tokens != [] {
      DistinctDaysAreDistinct(tokens[..|tokens| - 1]);
    }
  }

  /** Whatever is typed, an accepted list is strictly increasing and has no negative day. */
  lemma AcceptedDaysAreIncreasing(raw: string)
    requires DaysOf(raw).Some?
    ensures Increasing(DaysOf(raw).value) && NonNegative(DaysOf(raw).value)
  {
    var tokens := Tokens(Trim(raw));
    DistinctDaysAreDistinct(tokens);
    SortedDays(DistinctDays(tokens).value);
    var days := SortDays(DistinctDays(tokens).value);
    assert forall i :: 0 <= i < |days| ==> days[i] in days;
  }

  lemma {:induction false} SortingSortedIsIdentity(days: seq<int>)
    requires Increasing(days)
    ensures SortDays(days) == days
  {
    if days != [] {
      var n := |days| - 1;
      SortingSortedIsIdentity(days[..n]);
      AppendLargest(days[n], days[..n]);
      assert days == days[..n] + [days[n]];
    }
  }

  lemma {:induction false} AppendLargest(day: int, sorted: seq<int>)
    requires forall i :: 0 <= i < |sorted| ==> sorted[i] < day
    ensures InsertDay(day, sorted) == sorted + [day]
  {
    if sorted != [] {
      assert sorted == [sorted[0]] + sorted[1..];
      AppendLargest(day, sorted[1..]);
    }
  }

  lemma {:induction false} TokenLengthOf(t: string, rest: string)
    requires AllDigits(t) && (rest == "" || IsSeparator(rest[0]))
    ensures TokenLength(t + rest) == |t|
  {
    if t == "" {
      assert t + rest == rest;
    } else {
      assert (t + rest)[1..] == t[1..] + rest;
      TokenLengthOf(t[1..], rest);
    }
  }

  lemma TokensOf(t: string, rest: string)
    requires t != "" && AllDigits(t) && (rest == "" || IsSeparator(rest[0]))
    ensures Tokens(t + rest) == [t] + Tokens(rest)
  {
    TokenLengthOf(t, rest);
    assert (t + rest)[..|t|] == t && (t + rest)[|t|..] == rest;
  }

  lemma {:induction false} JoinedTokens(days: seq<int>)
    requires NonNegative(days)
    ensures |Tokens(Join(days))| == |days|
    ensures forall i :: 0 <= i < |days| ==> Tokens(Join(days))[i] == Print(days[i])
  {
    hide Tokens, Print;
    if |days| == 1 {
      TokensOf(Print(days[0]), "");
      NoTokens("");
      assert Print(days[0]) + "" == Print(days[0]);
    } else if days != [] {
      var rest := Join(days[1..]);
      JoinedTokens(days[1..]);
      assert Join(days) == Print(days[0]) + (", " + rest);
      TokensOf(Print(days[0]), ", " + rest);
      NoTokens(rest);
    } else {
      NoTokens("");
    }
  }

  lemma NoTokens(rest: string)
    ensures Tokens("") == [] && Tokens(", " + rest) == Tokens(rest)
  {
    assert (", " + rest)[1..] == " " + rest && (" " + rest)[1..] == rest;
  }

  lemma {:induction false} TokensGiveDays(tokens: seq<string>, days: seq<int>)
    requires |tokens| == |days| && Increasing(days)
    requires forall i :: 0 <= i < |days| ==> days[i] >= 0 && tokens[i] == Print(days[i])
    ensures DistinctDays(tokens) == Some(days)
  {
    if days != [] {
      var n := |days| - 1;
      TokensGiveDays(tokens[..n], days[..n]);
      ValueOfPrint(days[n]);
      assert days == days[..n] + [days[n]];
    }
  }

  lemma {:induction false} JoinIsUntrimmed(days: seq<int>)
    requires days != []
    ensures Join(days) != "" && !IsSpace(Join(days)[0]) && !IsSpace(Join(days)[|Join(days)| - 1])
  {
    PrintIntIsUntrimmed(days[0]);
    if |days| > 1 {
      JoinIsUntrimmed(days[1..]);
    }
  }

  lemma PrintIntIsUntrimmed(n: int)
    ensures PrintInt(n) != "" && !IsSpace(PrintInt(n)[0]) && !IsSpace(PrintInt(n)[|PrintInt(n)| - 1])
  {
    var s := Print(if n < 0 then -n else n);
    assert IsDigit(s[0]) && IsDigit(s[|s| - 1]);
  }

  /**
   * Printing a stored day list and reading it back gives the same list exactly when it is strictly increasing and
   * has no negative day.
   */
  lemma DayListRoundTripIff(days: seq<int>)
    ensures DaysOf(Join(days)) == Some(days) <==> Increasing(days) && NonNegative(days)
  {
    if DaysOf(Join(days)) == Some(days) {
      AcceptedDaysAreIncreasing(Join(days));
    }
    if Increasing(days) && NonNegative(days) {
      if days != [] {
        JoinIsUntrimmed(days);
      }
      TrimKeepsUnspaced(Join(days));
      JoinedTokens(days);
      TokensGiveDays(Tokens(Join(days)), days);
      SortingSortedIsIdentity(days);
    }
  }
}
