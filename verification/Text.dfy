/** Trimming and case folding of ASCII text, in JavaScript's and in Python's terms, and the order of strings. */
module Text {
  import opened Reordering

  /** White space to JavaScript, and to Python's `int`. */
  predicate IsSpace(c: char) {
    c == ' ' || c == '\t' || c == '\n' || c == '\r' || c == '\U{0b}' || c == '\U{0c}'
  }

  /** White space to Python's `strip`, which takes off the four separator characters as well. */
  predicate IsStripped(c: char) {
    IsSpace(c) || '\U{1c}' <= c <= '\U{1f}'
  }

  function Without(isSpace: char -> bool, s: string): (t: string)
    ensures t != "" ==> !isSpace(t[0]) && !isSpace(t[|t| - 1])
    ensures |t| <= |s|
  {
    if s == "" then ""
    else if isSpace(s[0]) then Without(isSpace, s[1..])
    else if isSpace(s[|s| - 1]) then Without(isSpace, s[..|s| - 1])
    else s
  }

  /** JavaScript's `trim`; the leading and trailing space `int` puts up with. */
  function Trim(s: string): (t: string)
    ensures t != "" ==> !IsSpace(t[0]) && !IsSpace(t[|t| - 1])
    ensures |t| <= |s|
  {
    Without(IsSpace, s)
  }

  /** Python's `strip`. */
  function Strip(s: string): (t: string)
    ensures t != "" ==> !IsStripped(t[0]) && !IsStripped(t[|t| - 1])
    ensures |t| <= |s|
  {
    Without(IsStripped, s)
  }

  function Lower(s: string): (t: string)
    ensures |t| == |s|
  {
    if s == "" then "" else
    [if 'A' <= s[0] <= 'Z' then (s[0] as int - 'A' as int + 'a' as int) as char else s[0]] + Lower(s[1..])
  }

  lemma TrimKeepsUnspaced(s: string)
    requires s == "" || (!IsSpace(s[0]) && !IsSpace(s[|s| - 1]))
    ensures Trim(s) == s
  {
  }

  /** Lexicographic order, the order of string comparison. */
  predicate StringLess(a: string, b: string) {
    if b == "" then false
    else if a == "" then true
    else a[0] < b[0] || (a[0] == b[0] && StringLess(a[1..], b[1..]))
  }

  predicate StringLeq(a: string, b: string) {
    a == b || StringLess(a, b)
  }

  lemma {:induction false} StringsCompare(a: string, b: string)
    ensures StringLess(a, b) || a == b || StringLess(b, a)
    ensures !(StringLess(a, b) && StringLess(b, a)) && !StringLess(a, a)
  {
    if a != "" {
      StringsCompare(a[1..], a[1..]);
      if b != "" {
        StringsCompare(a[1..], b[1..]);
        assert a == [a[0]] + a[1..] && b == [b[0]] + b[1..];
      }
    }
  }

  lemma {:induction false} StringLessIsTransitive(a: string, b: string, c: string)
    requires StringLess(a, b) && StringLess(b, c)
    ensures StringLess(a, c)
  {
    if a != "" && a[0] == b[0] == c[0] {
      StringLessIsTransitive(a[1..], b[1..], c[1..]);
    }
  }

  lemma StringOrderIsTotal()
    ensures TotalOrder(StringLeq)
  {
    forall a, b
      ensures StringLeq(a, b) || StringLeq(b, a)
      ensures StringLeq(a, b) && StringLeq(b, a) ==> a == b
    {
      StringsCompare(a, b);
    }
    forall a, b, c | StringLeq(a, b) && StringLeq(b, c)
      ensures StringLeq(a, c)
    {
      if a != b && b != c {
        StringLessIsTransitive(a, b, c);
      }
    }
  }
}
