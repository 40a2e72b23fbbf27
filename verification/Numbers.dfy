/** Decimal and hexadecimal notation, printed and read back. */
module Numbers {

  function Digit(d: nat): char
    requires d < 16
  {
    if d < 10 then '0' + d as char else 'a' + (d - 10) as char
  }

  /** The value of a digit in either case, or 16 for any other character. */
  function DigitValue(c: char): (d: nat)
    ensures d <= 16
  {
    if '0' <= c <= '9' then (c - '0') as nat
    else if 'a' <= c <= 'f' then (c - 'a') as nat + 10
    else if 'A' <= c <= 'F' then (c - 'A') as nat + 10
    else 16
  }

  lemma DigitReadsBack(d: nat)
    requires d < 16
    ensures DigitValue(Digit(d)) == d
  {
  }

  /** The notation in a base up to 16, without leading zeros. */
  function Notation(n: nat, base: nat): (s: string)
    requires 2 <= base <= 16
    ensures s != ""
  {
    if n < base then [Digit(n)] else Notation(n / base, base) + [Digit(n % base)]
  }

  /** The number a run of digits denotes. */
  function Value(s: string, base: nat): nat {
    if s == "" then 0 else Value(s[..|s| - 1], base) * base + DigitValue(s[|s| - 1])
  }

  predicate Digits(s: string, base: nat) { forall i :: 0 <= i < |s| ==> DigitValue(s[i]) < base }

  lemma {:induction false} NotationReadsBack(n: nat, base: nat)
    requires 2 <= base <= 16
    ensures Digits(Notation(n, base), base) && Value(Notation(n, base), base) == n
  {
    hide Digit, DigitValue, Value, Digits;
    if n < base {
      DigitReadsBack(n);
      ValuePush("", Digit(n), base);
      NoDigits(base);
      assert "" + [Digit(n)] == [Digit(n)];
    } else {
      NotationReadsBack(n / base, base);
      DigitReadsBack(n % base);
      ValuePush(Notation(n / base, base), Digit(n % base), base);
      QuotientAndRemainder(n, base);
    }
  }

  lemma QuotientAndRemainder(n: nat, base: nat)
    requires base > 0
    ensures (n / base) * base + n % base == n
  {
  }

  lemma NoDigits(base: nat)
    ensures Value("", base) == 0 && Digits("", base)
  {
  }

  lemma ValuePush(s: string, c: char, base: nat)
    ensures Value(s + [c], base) == Value(s, base) * base + DigitValue(c)
    ensures Digits(s, base) && DigitValue(c) < base ==> Digits(s + [c], base)
  {
    assert (s + [c])[..|s|] == s;
  }

  function Decimal(n: int): string {
    if n < 0 then "-" + Notation(-n, 10) else Notation(n, 10)
  }

  lemma DecimalIsInjective(m: nat, n: nat)
    requires Decimal(m) == Decimal(n)
    ensures m == n
  {
    NotationReadsBack(m, 10);
    NotationReadsBack(n, 10);
  }
}
