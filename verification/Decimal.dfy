/** Decimal numerals, as `strconv.Itoa` and `strconv.Atoi` write and read them. */
module Decimal {

  const MAX_INT := 0x7fff_ffff_ffff_ffff
  const MIN_INT := -0x8000_0000_0000_0000

  function Digits(n: nat): (s: string)
    ensures s != ""
  {
    if n < 10 then [(48 + n) as char] else Digits(n / 10) + [(48 + n % 10) as char]
  }

  function Itoa(n: int): string {
    if n < 0 then "-" + Digits(-n) else Digits(n)
  }

  predicate IsDigit(c: char) { '0' <= c <= '9' }

  predicate AllDigits(s: string) { s == "" || (AllDigits(s[..|s| - 1]) && IsDigit(s[|s| - 1])) }

  function Value(s: string): nat
    requires AllDigits(s)
  {
    if s == "" then 0 else 10 * Value(s[..|s| - 1]) + (s[|s| - 1] as int - 48)
  }

  function Saturated(n: int): int {
    if n > MAX_INT then MAX_INT else if n < MIN_INT then MIN_INT else n
  }

  /** The number read from s with the error ignored: 0 for what is no number, and the
      nearest 64-bit integer for one that is out of range. */
  function Atoi(s: string): int {
    var signed := s != "" && s[0] in ['+', '-'];
    var body := if signed then s[1..] else s;
    if body == "" || !AllDigits(body) then 0
    else
      var magnitude: int := Value(body);
      Saturated(if signed && s[0] == '-' then -magnitude else magnitude)
  }

  lemma {:induction false} DigitsReadBack(n: nat)
    ensures AllDigits(Digits(n)) && Value(Digits(n)) == n
    ensures IsDigit(Digits(n)[0])
  {
    if n >= 10 {
      DigitsReadBack(n / 10);
      assert Digits(n)[..|Digits(n)| - 1] == Digits(n / 10);
    }
  }

  /** Every 64-bit integer is read back as it was written. */
  lemma {:induction false} AtoiReadsItoa(n: int)
    requires MIN_INT <= n <= MAX_INT
    ensures Atoi(Itoa(n)) == n
  {
    DigitsReadBack(if n < 0 then -n else n);
    if n < 0 { assert Itoa(n)[1..] == Digits(-n); }
  }

  lemma {:induction false} AtoiIsBounded(s: string)
    ensures MIN_INT <= Atoi(s) <= MAX_INT
  {}

  /** s is decimal digits and nothing else. */
  predicate IsNumeral(s: string) { s != "" && forall i :: 0 <= i < |s| ==> s[i] in "0123456789" }

  lemma {:induction false} AllDigitsMeaning(s: string)
    ensures AllDigits(s) <==> forall i :: 0 <= i < |s| ==> s[i] in "0123456789"
  {
    if s != "" {
      AllDigitsMeaning(s[..|s| - 1]);
      DigitIs(s[|s| - 1]);
      assert forall i :: 0 <= i < |s| - 1 ==> s[..|s| - 1][i] == s[i];
    }
  }

  lemma DigitIs(c: char)
    ensures IsDigit(c) <==> c in "0123456789"
  {
    if IsDigit(c) { assert "0123456789"[c as int - 48] == c; }
  }

  /** The 64-bit integer nearest to n. */
  predicate IsNearest(r: int, n: int) {
    && MIN_INT <= r <= MAX_INT
    && (n > MAX_INT ==> r == MAX_INT) && (n < MIN_INT ==> r == MIN_INT) && (MIN_INT <= n <= MAX_INT ==> r == n)
  }

  /** A numeral with or without a sign is read for what it says; anything else as zero. */
  lemma {:induction false} AtoiMeaning(s: string)
    ensures IsNumeral(s) ==> AllDigits(s) && IsNearest(Atoi(s), Value(s))
    ensures s != "" && s[0] == '+' && IsNumeral(s[1..]) ==> AllDigits(s[1..]) && IsNearest(Atoi(s), Value(s[1..]))
    ensures s != "" && s[0] == '-' && IsNumeral(s[1..]) ==> AllDigits(s[1..]) && IsNearest(Atoi(s), 0 - Value(s[1..]))
    ensures !IsNumeral(s) && !(s != "" && s[0] in ['+', '-'] && IsNumeral(s[1..])) ==> Atoi(s) == 0
  {
    AllDigitsMeaning(s);
    if s != "" { AllDigitsMeaning(s[1..]); }
  }

  lemma {:induction false} DigitsInjective(a: nat, b: nat)
    requires Digits(a) == Digits(b)
    ensures a == b
  {
    DigitsReadBack(a);
    DigitsReadBack(b);
  }
}
