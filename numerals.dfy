/**
 * Decimal text of a counter, as JavaScript's template literals print a
 * non-negative integer: the names `t1`, `a0`, `if_body3` are a fixed prefix
 * followed by such a numeral.
 */
module Numerals {
  predicate IsDigit(c: char)
  {
    '0' <= c <= '9'
  }

  function DigitChar(d: nat): (c: char)
    requires d < 10
    ensures IsDigit(c)
  {
    ['0', '1', '2', '3', '4', '5', '6', '7', '8', '9'][d]
  }

  /** `${n}`: the shortest decimal numeral of `n`. */
  function Decimal(n: nat): (s: string)
    ensures s != [] && forall i :: 0 <= i < |s| ==> IsDigit(s[i])
  {
    if n < 10 then [DigitChar(n)]
    else Decimal(n / 10) + [DigitChar(n % 10)]
  }

  lemma DigitCharInjective(a: nat, b: nat)
    requires a < 10 && b < 10 && DigitChar(a) == DigitChar(b)
    ensures a == b
  {
  }

  /** Distinct numbers print differently. */
  lemma {:induction false} DecimalInjective(a: nat, b: nat)
    requires Decimal(a) == Decimal(b)
    ensures a == b
    decreases a
  {
    var s := Decimal(a);
    if a < 10 && b < 10 {
      DigitCharInjective(a, b);
    } else if a < 10 || b < 10 {
      // one numeral has a single digit, the other at least two
      assert false;
    } else {
      assert s[|s| - 1] == DigitChar(a % 10) == DigitChar(b % 10);
      DigitCharInjective(a % 10, b % 10);
      assert s[..|s| - 1] == Decimal(a / 10) == Decimal(b / 10);
      DecimalInjective(a / 10, b / 10);
    }
  }

  /** Text with no digit in it. */
  predicate DigitFree(s: string)
  {
    forall i :: 0 <= i < |s| ==> !IsDigit(s[i])
  }

  /**
   * A digit-free prefix followed by a numeral can be split back into the two:
   * different (prefix, number) pairs give different text.
   */
  lemma PrefixedDecimalInjective(p1: string, n1: nat, p2: string, n2: nat)
    requires DigitFree(p1) && DigitFree(p2)
    requires p1 + Decimal(n1) == p2 + Decimal(n2)
    ensures p1 == p2 && n1 == n2
  {
    var s := p1 + Decimal(n1);
    FirstDigitAfterPrefix(p1, n1);
    FirstDigitAfterPrefix(p2, n2);
    if |p1| != |p2| {
      // the first digit of the text would also be a character of the longer prefix
      assert false;
    }
    assert p1 == s[..|p1|] == p2;
    assert Decimal(n1) == s[|p1|..] == Decimal(n2);
    DecimalInjective(n1, n2);
  }

  /** In a digit-free prefix followed by a numeral, the first digit sits right after the prefix. */
  lemma FirstDigitAfterPrefix(p: string, n: nat)
    requires DigitFree(p)
    ensures IsDigit((p + Decimal(n))[|p|])
    ensures forall i :: 0 <= i < |p| ==> !IsDigit((p + Decimal(n))[i])
  {
  }
}
