/** Decimal numerals as the source prints and parses them. */
module Decimal {
  import opened Outcomes

  predicate IsDigit(c: char) {
    '0' <= c <= '9'
  }

  predicate AllDigits(s: string) {
    forall i | 0 <= i < |s| :: IsDigit(s[i])
  }

  function DigitChar(d: nat): (c: char)
    requires d < 10
    ensures IsDigit(c) && DigitValue(c) == d
  {
    '0' + d as char
  }

  function DigitValue(c: char): (d: nat)
    requires IsDigit(c)
    ensures d < 10
  {
    c as int - '0' as int
  }

  function Value(s: string): nat
    requires AllDigits(s)
  {
    if s == "" then 0 else 10 * Value(s[..|s| - 1]) + DigitValue(s[|s| - 1])
  }

  /** `format!("{n}")`. */
  function Print(n: nat): (s: string)
    ensures s != "" && AllDigits(s)
  {
    if n < 10 then [DigitChar(n)] else Print(n / 10) + [DigitChar(n % 10)]
  }

  /** `str::parse` for an unsigned type with the given maximum; one leading plus sign is accepted. */
  function ParseUnsigned(s: string, max: nat): Option<nat> {
    var digits := if s != "" && s[0] == '+' then s[1..] else s;
    if digits == "" || !AllDigits(digits) || Value(digits) > max then None else Some(Value(digits))
  }

  lemma {:induction false} PrintValue(n: nat)
    ensures Value(Print(n)) == n
  {
    if n >= 10 {
      PrintValue(n / 10);
      assert Print(n)[..|Print(n)| - 1] == Print(n / 10);
    } else {
      assert Print(n)[..0] == "";
    }
  }

  /** Parsing what was printed gives the number back whenever the type can hold it. */
  lemma ParsePrinted(n: nat, max: nat)
    ensures ParseUnsigned(Print(n), max) == if n <= max then Some(n) else None
  {
    PrintValue(n);
  }

  lemma PrintInjective(m: nat, n: nat)
    requires Print(m) == Print(n)
    ensures m == n
  {
    PrintValue(m);
    PrintValue(n);
  }

  /** A text parses if and only if it is digits, with or without one plus sign before them, of a value the type holds. */
  lemma ParsesExactly(s: string, max: nat, n: nat)
    ensures ParseUnsigned(s, max) == Some(n) <==>
              n <= max && exists digits :: (s == digits || s == "+" + digits) && digits != "" && AllDigits(digits) && Value(digits) == n
  {
    if ParseUnsigned(s, max) == Some(n) {
      var digits := if s[0] == '+' then s[1..] else s;
      assert s == digits || s == "+" + digits;
    }
    if digits :| n <= max && (s == digits || s == "+" + digits) && digits != "" && AllDigits(digits) && Value(digits) == n {
      assert IsDigit(digits[0]);
      assert s != digits ==> s[1..] == digits;
    }
  }

  /** The value of digits: each further one counts ten times what is before it. */
  lemma ValueIsPositional(s: string, c: char)
    requires AllDigits(s) && IsDigit(c)
    ensures AllDigits(s + [c]) && Value(s + [c]) == 10 * Value(s) + (c as int - '0' as int) && Value("") == 0
  {
    assert (s + [c])[..|s|] == s;
  }

  /** First position from `i` that holds no digit. */
  function DigitsEnd(s: string, i: nat): (e: nat)
    requires i <= |s|
    ensures i <= e <= |s| && AllDigits(s[i..e]) && (e < |s| ==> !IsDigit(s[e]))
    decreases |s| - i
  {
    if i < |s| && IsDigit(s[i]) then
      var e := DigitsEnd(s, i + 1);
      assert s[i..e] == [s[i]] + s[i + 1..e];
      e
    else i
  }

  lemma {:induction false} DigitsEndAt(s: string, i: nat, e: nat)
    requires i <= e <= |s| && AllDigits(s[i..e]) && (e < |s| ==> !IsDigit(s[e]))
    ensures DigitsEnd(s, i) == e
    decreases e - i
  {
    if i < e {
      assert s[i] == s[i..e][0];
      assert s[i + 1..e] == s[i..e][1..];
      DigitsEndAt(s, i + 1, e);
    }
  }
}
