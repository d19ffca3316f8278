/// Decimal spelling of integers, as `std::to_string` writes them into labels,
/// register names, offsets and data cells.
module Decimal {

  predicate IsDigit(c: char) {
    '0' <= c <= '9'
  }

  predicate AllDigits(s: string) {
    forall i :: 0 <= i < |s| ==> IsDigit(s[i])
  }

  /// A string with no decimal digit in it, such as the label prefixes.
  predicate DigitFree(s: string) {
    forall i :: 0 <= i < |s| ==> !IsDigit(s[i])
  }

  function DigitChar(d: nat): char
    requires d < 10
  {
    (48 + d) as char
  }

  function DigitValue(c: char): nat
    requires IsDigit(c)
  {
    c as int - 48
  }

  /// The decimal spelling of a natural number, most significant digit first,
  /// without leading zeros.
  function NatToString(n: nat): (s: string)
    decreases n
  {
    if n < 10 then [DigitChar(n)] else NatToString(n / 10) + [DigitChar(n % 10)]
  }

  /// The reference reading of a digit string: the number it spells.
  function ParseNat(s: string): nat
    requires AllDigits(s)
  {
    if s == [] then 0 else ParseNat(s[..|s| - 1]) * 10 + DigitValue(s[|s| - 1])
  }

  /// `std::to_string` on a (32-bit) `int`: a minus sign before negative values.
  function IntToString(i: int): (s: string)
  {
    if i < 0 then "-" + NatToString(-i) else NatToString(i)
  }

  lemma {:induction false} NatToStringDigits(n: nat)
    ensures |NatToString(n)| > 0 && AllDigits(NatToString(n))
    decreases n
  {
    if n >= 10 {
      NatToStringDigits(n / 10);
    }
  }

  /// Reading back what `NatToString` wrote gives the number again.
  lemma {:induction false} ParseNatToString(n: nat)
    ensures AllDigits(NatToString(n))
    ensures ParseNat(NatToString(n)) == n
    decreases n
  {
    NatToStringDigits(n);
    if n >= 10 {
      ParseNatToString(n / 10);
      var s := NatToString(n);
      assert s[..|s| - 1] == NatToString(n / 10);
    }
  }

  /// Distinct numbers have distinct decimal spellings.
  lemma NatToStringInjective(m: nat, n: nat)
    ensures NatToString(m) == NatToString(n) ==> m == n
  {
    ParseNatToString(m);
    ParseNatToString(n);
  }

  /// The position of the last character that is not a digit, or -1.
  function LastNonDigit(s: string): int
  {
    if s == [] then -1
    else if !IsDigit(s[|s| - 1]) then |s| - 1
    else LastNonDigit(s[..|s| - 1])
  }

  lemma {:induction false} LastNonDigitOfLabel(p: string, d: string)
    requires DigitFree(p) && AllDigits(d)
    ensures LastNonDigit(p + d) == |p| - 1
    decreases |d|
  {
    if d == [] {
      assert p + d == p;
    } else {
      var d' := d[..|d| - 1];
      assert (p + d)[..|p + d| - 1] == p + d';
      LastNonDigitOfLabel(p, d');
    }
  }

  /// A digit-free prefix followed by a decimal number splits back uniquely:
  /// if two such strings are equal, so are their prefixes and their numbers.
  lemma LabelSplit(p: string, m: nat, q: string, n: nat)
    requires DigitFree(p) && DigitFree(q)
    requires p + NatToString(m) == q + NatToString(n)
    ensures p == q && m == n
  {
    var s := p + NatToString(m);
    NatToStringDigits(m);
    NatToStringDigits(n);
    LastNonDigitOfLabel(p, NatToString(m));
    LastNonDigitOfLabel(q, NatToString(n));
    assert p == s[..|p|] == q;
    assert NatToString(m) == s[|p|..] == NatToString(n);
    NatToStringInjective(m, n);
  }
}
