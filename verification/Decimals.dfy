/** Decimal strings: str(n), int(text), and the pattern that leaves one spelling per number. */
module Decimals {
  import opened Text

  function DigitChar(d: nat): char
    requires d < 10
  {
    ('0' as int + d) as char
  }

  function DigitValue(c: char): nat
    requires IsDigit(c)
  {
    c as int - '0' as int
  }

  function Print(n: nat): string {
    if n < 10 then [DigitChar(n)] else Print(n / 10) + [DigitChar(n % 10)]
  }

  predicate AllDigits(s: string) {
    forall i :: 0 <= i < |s| ==> IsDigit(s[i])
  }

  /** No sign, no fraction, and no leading zero unless the value is zero. */
  predicate IsDecimal(s: string) {
    s != [] && AllDigits(s) && (s[0] == '0' ==> |s| == 1)
  }

  function Value(s: string): nat
    requires AllDigits(s)
  {
    if s == [] then 0 else 10 * Value(s[..|s| - 1]) + DigitValue(s[|s| - 1])
  }

  lemma {:induction false} PrintIsDecimal(n: nat)
    ensures IsDecimal(Print(n)) && Value(Print(n)) == n
    ensures Print(n)[0] == '0' ==> n == 0
  {
    if n >= 10 {
      PrintIsDecimal(n / 10);
      assert Print(n)[..|Print(n)| - 1] == Print(n / 10);
    }
  }

  /** Each decimal string is the printing of its value, so no two of them spell one number. */
  lemma {:induction false} PrintOfValue(s: string)
    requires IsDecimal(s)
    ensures Print(Value(s)) == s
    ensures |s| > 1 ==> Value(s) >= 10
  {
    var init, last := s[..|s| - 1], s[|s| - 1];
    if |s| > 1 {
      assert init[0] == s[0];
      PrintOfValue(init);
      assert Value(s) == 10 * Value(init) + DigitValue(last);
      if |init| == 1 {
        assert Value(init) == 10 * Value([]) + DigitValue(init[0]);
      }
      assert Value(init) >= 1;
      assert Value(s) / 10 == Value(init) && Value(s) % 10 == DigitValue(last);
      assert s == init + [last];
    } else {
      assert s == [last] && init == [];
    }
  }

  lemma ValueInjective(a: string, b: string)
    requires IsDecimal(a) && IsDecimal(b) && Value(a) == Value(b)
    ensures a == b
  {
    PrintOfValue(a);
    PrintOfValue(b);
  }

  lemma PrintInjective(m: nat, n: nat)
    requires Print(m) == Print(n)
    ensures m == n
  {
    PrintIsDecimal(m);
    PrintIsDecimal(n);
  }
}
