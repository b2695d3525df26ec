// Decimal text of natural numbers: strconv.Itoa and its reading back.
module Decimal {
  import opened Wrappers

  predicate IsDigit(c: char) {
    '0' <= c <= '9'
  }

  // One or more digits.
  predicate AllDigits(s: string) {
    s != "" && forall i :: 0 <= i < |s| ==> IsDigit(s[i])
  }

  function DigitChar(d: nat): char
    requires d < 10
  {
    '0' + d as char
  }

  function DigitValue(c: char): nat
    requires IsDigit(c)
  {
    (c - '0') as nat
  }

  function Itoa(n: nat): string {
    if n < 10 then [DigitChar(n)] else Itoa(n / 10) + [DigitChar(n % 10)]
  }

  // One or more digits, leading zeros included.
  function ParseDigits(s: string): Option<nat> {
    if s == "" || !IsDigit(s[|s| - 1]) then None
    else if |s| == 1 then Some(DigitValue(s[0]))
    else match ParseDigits(s[..|s| - 1])
         case None => None
         case Some(v) => Some(10 * v + DigitValue(s[|s| - 1]))
  }

  lemma {:induction false} ParseItoa(n: nat)
    ensures ParseDigits(Itoa(n)) == Some(n)
  {
    if n >= 10 {
      ParseItoa(n / 10);
      assert Itoa(n)[..|Itoa(n)| - 1] == Itoa(n / 10);
    }
  }

  lemma {:induction false} ItoaIsDigits(n: nat)
    ensures AllDigits(Itoa(n))
  {
    if n >= 10 {
      ItoaIsDigits(n / 10);
    }
  }

  // Digits without a leading zero are the decimal text of their value.
  lemma {:induction false} ItoaOfDigits(s: string)
    requires AllDigits(s) && s[0] != '0'
    ensures ParseDigits(s).Some? && ParseDigits(s).value > 0 && Itoa(ParseDigits(s).value) == s
  {
    ParseAccepts(s);
    if |s| > 1 {
      var front := s[..|s| - 1];
      ItoaOfDigits(front);
      var v, d := ParseDigits(front).value, DigitValue(s[|s| - 1]);
      assert ParseDigits(s).value == 10 * v + d && (10 * v + d) / 10 == v && (10 * v + d) % 10 == d;
      assert s == front + [s[|s| - 1]];
    }
  }

  lemma {:induction false} NoLeadingZero(n: nat)
    requires n > 0
    ensures Itoa(n)[0] != '0'
  {
    if n >= 10 {
      NoLeadingZero(n / 10);
    }
  }

  lemma {:induction false} ParseAccepts(s: string)
    ensures ParseDigits(s).Some? <==> AllDigits(s)
  {
    if |s| > 1 {
      ParseAccepts(s[..|s| - 1]);
    }
  }
}
