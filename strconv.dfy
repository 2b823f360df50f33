/** The two conversions of Go's `strconv` package that the codec uses.

    Integers are unbounded here, so `Atoi` has no out-of-range error and `Itoa`
    is only ever asked for the non-negative identifiers the encoders emit. */
module Strconv {
  import opened Wrappers

  predicate IsDigit(c: char) {
    '0' <= c <= '9'
  }

  predicate AllDigits(s: string) {
    forall i :: 0 <= i < |s| ==> IsDigit(s[i])
  }

  /** The digits `Itoa` produces for a positive number: no sign, no leading zero. */
  predicate CanonicalPositive(s: string) {
    s != [] && AllDigits(s) && s[0] != '0'
  }

  /** The value of a run of decimal digits, most significant digit first. */
  function DigitsValue(s: string): nat
    requires AllDigits(s)
  {
    if s == [] then 0 else 10 * DigitsValue(s[..|s| - 1]) + (s[|s| - 1] as int - '0' as int)
  }

  function DigitChar(d: nat): (c: char)
    requires d < 10
    ensures IsDigit(c) && c as int - '0' as int == d
  {
    ('0' as int + d) as char
  }

  /** strconv.Itoa on a non-negative number: its shortest decimal spelling. */
  function Itoa(n: nat): (s: string)
    ensures s != [] && AllDigits(s)
    ensures DigitsValue(s) == n
    ensures n > 0 ==> CanonicalPositive(s)
  {
    if n < 10 then [DigitChar(n)]
    else
      var init := Itoa(n / 10);
      var s := init + [DigitChar(n % 10)];
      assert s[..|s| - 1] == init;
      s
  }

  /** strconv.Atoi: an optional '+' or '-' followed by one or more decimal digits;
      leading zeros are accepted. Anything else is a syntax error naming the input. */
  function Atoi(s: string): (r: Result<int>)
    ensures r.Ok? <==> s != [] && (AllDigits(s) || (|s| >= 2 && (s[0] == '+' || s[0] == '-') && AllDigits(s[1..])))
    ensures s != [] && AllDigits(s) ==> r == Ok(DigitsValue(s))
    ensures r.Ok? && s[0] == '+' ==> r.value == DigitsValue(s[1..])
    ensures r.Ok? && s[0] == '-' ==> r.value == 0 - DigitsValue(s[1..])
    ensures r.Err? ==> r.error == SyntaxError("Atoi", s)
  {
    if s != [] && (s[0] == '+' || s[0] == '-') then
      var digits := s[1..];
      if digits != [] && AllDigits(digits) then
        Ok(if s[0] == '-' then 0 - DigitsValue(digits) else DigitsValue(digits))
      else
        Err(SyntaxError("Atoi", s))
    else if s != [] && AllDigits(s) then
      Ok(DigitsValue(s))
    else
      Err(SyntaxError("Atoi", s))
  }

  /** Atoi reads back what Itoa writes, and also accepts an explicit sign. */
  lemma AtoiItoa(n: nat)
    ensures Atoi(Itoa(n)) == Ok(n)
    ensures Atoi("+" + Itoa(n)) == Ok(n)
    ensures Atoi("-" + Itoa(n)) == Ok(0 - n)
  {
  }

  lemma {:induction false} CanonicalPositiveValue(s: string)
    requires CanonicalPositive(s)
    ensures DigitsValue(s) > 0
  {
    if |s| > 1 {
      CanonicalPositiveValue(s[..|s| - 1]);
    }
  }

  /** Conversely, a canonical positive spelling is exactly what Itoa writes for its value. */
  lemma {:induction false} ItoaDigitsValue(s: string)
    requires CanonicalPositive(s)
    ensures Itoa(DigitsValue(s)) == s
  {
    if |s| > 1 {
      var init := s[..|s| - 1];
      CanonicalPositiveValue(init);
      ItoaDigitsValue(init);
      assert s == init + [s[|s| - 1]];
    }
  }

  /** Atoi is not the inverse of Itoa on every input: leading zeros and a '+' sign
      are read but never written. */
  lemma AtoiNonCanonical()
    ensures Atoi("007") == Ok(7) && Itoa(7) == "7"
    ensures Atoi("+7") == Ok(7)
    ensures Atoi("").Err? && Atoi("+").Err? && Atoi("7a").Err?
  {
    assert "00"[..1] == "0" && "007"[..2] == "00";
    assert DigitsValue("00") == 0;
    assert "+7"[1..] == "7";
    assert "+"[1..] == "";
    assert !IsDigit("7a"[1]);
  }
}
