/** Numbers as text. */
module Text {

  function Digit(d: nat): char
    requires d < 16
  {
    "0123456789abcdef"[d]
  }

  /** Digits of n in a base, most significant first, at least one. */
  function Digits(n: nat, base: nat): string
    requires 2 <= base <= 16
    decreases n
  {
    if n < base then [Digit(n)] else Digits(n / base, base) + [Digit(n % base)]
  }

  /** The same letter of the alphabet a to z, one in upper and one in lower case or both alike, or the same character. */
  predicate SameLetter(c: char, d: char)
  {
    c == d || ('a' <= c <= 'z' && c as int - 'a' as int == d as int - 'A' as int)
    || ('a' <= d <= 'z' && d as int - 'a' as int == c as int - 'A' as int)
  }

  /** Texts that differ at most in letter case. */
  predicate SameLetters(a: string, b: string)
  {
    |a| == |b| && forall i :: 0 <= i < |a| ==> SameLetter(a[i], b[i])
  }

  // ----- numbers read back -----

  predicate HexDigit(c: char)
  {
    '0' <= c <= '9' || 'a' <= c <= 'f'
  }

  function Worth(c: char): nat
    requires HexDigit(c)
  {
    if c <= '9' then c as int - '0' as int else c as int - 'a' as int + 10
  }

  predicate HexText(text: string)
  {
    forall i :: 0 <= i < |text| ==> HexDigit(text[i])
  }

  /** A text read as a number in a base. */
  function ValueOf(text: string, base: nat): nat
    requires HexText(text)
  {
    if text == "" then 0 else ValueOf(text[..|text| - 1], base) * base + Worth(text[|text| - 1])
  }

  lemma DigitWorth(d: nat)
    requires d < 16
    ensures HexDigit(Digit(d)) && Worth(Digit(d)) == d
  {
  }

  lemma ValueAppend(text: string, c: char, base: nat, q: nat, d: nat, n: nat)
    requires HexText(text) && HexDigit(c) && ValueOf(text, base) == q && Worth(c) == d && n == q * base + d
    ensures HexText(text + [c]) && ValueOf(text + [c], base) == n
  {
    assert (text + [c])[..|text|] == text;
  }

  lemma DigitsStep(n: nat, base: nat)
    requires 2 <= base <= 16 && base <= n
    ensures Digits(n, base) == Digits(n / base, base) + [Digit(n % base)]
  {
  }

  lemma QuotientRemainder(n: nat, base: nat)
    requires base > 0
    ensures n == n / base * base + n % base
  {
  }

  lemma QuotientSmaller(n: nat, base: nat)
    requires 2 <= base <= n
    ensures 0 < n / base < n
  {
  }

  /** What it means that a text is a number in a base. */
  predicate Spells(text: string, base: nat, n: nat)
  {
    text != "" && HexText(text) && ValueOf(text, base) == n && (n > 0 ==> text[0] != '0')
  }

  lemma OneDigit(n: nat, base: nat)
    requires n < base <= 16
    ensures Spells([Digit(n)], base, n)
  {
    DigitWorth(n);
    ValueAppend("", Digit(n), base, 0, n, n);
    assert "" + [Digit(n)] == [Digit(n)];
  }

  lemma OneMoreDigit(text: string, base: nat, q: nat, d: nat, n: nat)
    requires Spells(text, base, q) && q > 0 && d < 16 && n == q * base + d
    ensures Spells(text + [Digit(d)], base, n)
  {
    DigitWorth(d);
    ValueAppend(text, Digit(d), base, q, d, n);
  }

  /** The digits of a number read back as that number and begin with a zero only for zero itself. */
  lemma {:induction false} DigitsValue(n: nat, base: nat)
    requires 2 <= base <= 16
    ensures Spells(Digits(n, base), base, n)
    decreases n
  {
    if n < base {
      OneDigit(n, base);
    } else {
      QuotientRemainder(n, base);
      QuotientSmaller(n, base);
      DigitsStep(n, base);
      DigitsValue(n / base, base);
      OneMoreDigit(Digits(n / base, base), base, n / base, n % base, n);
    }
  }
}
