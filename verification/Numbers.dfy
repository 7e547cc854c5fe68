/** Printed numbers: hexadecimal ids, decimal counts and amounts, and their greedy reading. What is printed has
    lower-case digits and no leading zero; what is read may have either, and a run of digits ends at the first
    character that is none. */
module Numbers {

  predicate IsSpace(c: char) {
    c == ' ' || c == '\t' || c == '\n' || c == '\r' || c as int == 11 || c as int == 12
  }

  function DigitChar(d: nat): char
    requires d < 16
  {
    "0123456789abcdef"[d]
  }

  /** The value of a digit character, upper or lower case; 16 for anything else. */
  function DigitValue(c: char): nat {
    if '0' <= c <= '9' then c as int - '0' as int
    else if 'a' <= c <= 'f' then c as int - 'a' as int + 10
    else if 'A' <= c <= 'F' then c as int - 'A' as int + 10
    else 16
  }

  predicate IsDigit(c: char, base: nat) { DigitValue(c) < base }

  /** How many leading characters are digits. */
  function Run(s: string, base: nat): nat { if s == [] || !IsDigit(s[0], base) then 0 else 1 + Run(s[1..], base) }

  function NumberOf(s: string, base: nat): nat {
    if s == [] then 0 else NumberOf(s[..|s| - 1], base) * base + DigitValue(s[|s| - 1])
  }

  function Print(n: nat, base: nat): string
    requires 2 <= base <= 16
  {
    if n < base then [DigitChar(n)] else Print(n / base, base) + [DigitChar(n % base)]
  }

  function PrintInt(v: int): string { if v < 0 then ['-'] + Print(-v, 10) else Print(v, 10) }

  lemma DigitRoundTrip(d: nat)
    requires d < 16
    ensures DigitValue(DigitChar(d)) == d
  {
    var digits := "0123456789abcdef";
    assert digits[..] == ['0', '1', '2', '3', '4', '5', '6', '7', '8', '9', 'a', 'b', 'c', 'd', 'e', 'f'];
  }

  lemma {:induction false} PrintIsDigits(n: nat, base: nat)
    requires 2 <= base <= 16
    ensures Print(n, base) != []
    ensures forall i | 0 <= i < |Print(n, base)| :: IsDigit(Print(n, base)[i], base)
  {
    if n < base {
      DigitRoundTrip(n);
    } else {
      PrintIsDigits(n / base, base);
      DigitRoundTrip(n % base);
    }
  }

  predicate IsLowerHex(s: string) { forall c | c in s :: '0' <= c <= '9' || 'a' <= c <= 'f' }

  /** A printed number has lower-case digits and no leading zero. */
  lemma {:induction false} PrintIsCanonical(n: nat, base: nat)
    requires 2 <= base <= 16
    ensures IsLowerHex(Print(n, base))
    ensures Print(n, base) != [] && (Print(n, base)[0] == '0' <==> n == 0)
  {
    if n < base {
      DigitIsLower(n);
    } else {
      PrintIsCanonical(n / base, base);
      assert n / base != 0 by { Divide(n, base); }
      MoreDigits(Print(n / base, base), n % base);
    }
  }

  lemma MoreDigits(s: string, d: nat)
    requires s != [] && IsLowerHex(s) && d < 16
    ensures IsLowerHex(s + [DigitChar(d)]) && (s + [DigitChar(d)])[0] == s[0]
  {
    DigitIsLower(d);
  }

  lemma DigitIsLower(d: nat)
    requires d < 16
    ensures if d < 10 then DigitChar(d) as int == '0' as int + d else DigitChar(d) as int == 'a' as int + d - 10
  {
    var digits := "0123456789abcdef";
    assert digits[..] == ['0', '1', '2', '3', '4', '5', '6', '7', '8', '9', 'a', 'b', 'c', 'd', 'e', 'f'];
  }

  function Power(base: nat, k: nat): nat { if k == 0 then 1 else base * Power(base, k - 1) }

  /** A number below base^k has at most k digits. */
  lemma {:induction false} PrintIsShort(n: nat, base: nat, k: nat)
    requires 2 <= base <= 16 && 0 < k && n < Power(base, k)
    ensures |Print(n, base)| <= k
    decreases k
  {
    if n >= base {
      assert k > 1 by { assert Power(base, 1) == base * Power(base, 0); }
      QuotientIsBelow(n, base, Power(base, k - 1));
      PrintIsShort(n / base, base, k - 1);
    }
  }

  lemma QuotientIsBelow(n: nat, base: nat, p: nat)
    requires base > 0 && n < base * p
    ensures n / base < p
  {}

  lemma Divide(n: nat, base: nat)
    requires base > 0
    ensures n == n / base * base + n % base
  {}

  lemma OneDigit(n: nat, base: nat)
    requires n < base <= 16
    ensures NumberOf([DigitChar(n)], base) == n
  {
    DigitRoundTrip(n);
    NumberOfAppend([], DigitChar(n), base);
    assert [] + [DigitChar(n)] == [DigitChar(n)];
  }

  /** A printed number reads back as itself. */
  lemma {:induction false} PrintRoundTrip(n: nat, base: nat)
    requires 2 <= base <= 16
    ensures NumberOf(Print(n, base), base) == n
  {
    if n < base {
      OneDigit(n, base);
    } else {
      var q, d := n / base, n % base;
      PrintRoundTrip(q, base);
      Divide(n, base);
      AppendDigit(Print(q, base), q, d, base, n);
    }
  }

  lemma AppendDigit(s: string, q: nat, d: nat, base: nat, n: nat)
    requires NumberOf(s, base) == q && d < 16 && n == q * base + d
    ensures NumberOf(s + [DigitChar(d)], base) == n
  {
    DigitRoundTrip(d);
    NumberOfAppend(s, DigitChar(d), base);
  }

  lemma NumberOfAppend(s: string, c: char, base: nat)
    ensures NumberOf(s + [c], base) == NumberOf(s, base) * base + DigitValue(c)
  {
    assert (s + [c])[..|s + [c]| - 1] == s;
  }

  /** Reading is greedy: a digit run stops only at a non-digit. */
  lemma {:induction false} RunStops(s: string, t: string, base: nat)
    requires forall i | 0 <= i < |s| :: IsDigit(s[i], base)
    requires t == [] || !IsDigit(t[0], base)
    ensures Run(s + t, base) == |s|
  {
    if s == [] {
      assert s + t == t;
    } else {
      assert (s + t)[0] == s[0] && (s + t)[1..] == s[1..] + t;
      RunStops(s[1..], t, base);
    }
  }

  lemma {:induction false} RunIsDigits(s: string, base: nat)
    ensures Run(s, base) <= |s|
    ensures forall i | 0 <= i < Run(s, base) :: IsDigit(s[i], base)
    ensures Run(s, base) < |s| ==> !IsDigit(s[Run(s, base)], base)
  {
    if s != [] && IsDigit(s[0], base) {
      RunIsDigits(s[1..], base);
      forall i | 0 <= i < Run(s, base) ensures IsDigit(s[i], base) {
        if i > 0 {
          assert s[i] == s[1..][i - 1];
        }
      }
    }
  }
}
