/** Kotlin's `String.toLong()` (that is, `java.lang.Long.parseLong(s, 10)`),
    which turns the text of a `say` message into a delay, and its inverse
    `Long.toString()`. */
module LongParsing {
  import opened Jvm

  predicate IsDigit(c: char) {
    '0' <= c <= '9'
  }

  predicate AllDigits(s: string) {
    forall i | 0 <= i < |s| :: IsDigit(s[i])
  }

  function DigitValue(c: char): nat
    requires IsDigit(c)
  {
    (c as int - '0' as int) as nat
  }

  function DigitChar(d: nat): (c: char)
    requires d < 10
    ensures IsDigit(c) && DigitValue(c) == d
  {
    ('0' as int + d) as char
  }

  /** The value of a string of decimal digits, most significant first. */
  function DigitsValue(s: string): nat
    requires AllDigits(s)
  {
    if s == [] then 0 else 10 * DigitsValue(s[..|s| - 1]) + DigitValue(s[|s| - 1])
  }

  /** `s.toLong()`: an optional `-` or `+`, then at least one digit, and the
      value must fit in a Long; anything else is a NumberFormatException,
      written `None` here. */
  function ParseLong(s: string): (r: Option<int>)
    ensures r.Some? ==> InLong(r.value)
    ensures r.Some? ==> |s| > 0 && AllDigits(if s[0] == '-' || s[0] == '+' then s[1..] else s)
  {
    if |s| == 0 then None
    else
      var digits := if s[0] == '-' || s[0] == '+' then s[1..] else s;
      if |digits| == 0 || !AllDigits(digits) then None
      else
        var magnitude: int := DigitsValue(digits);
        var v := if s[0] == '-' then -magnitude else magnitude;
        if InLong(v) then Some(v) else None
  }

  /** Decimal digits of a natural number, without leading zeros. */
  function DecimalString(n: nat): string
  {
    if n < 10 then [DigitChar(n)] else DecimalString(n / 10) + [DigitChar(n % 10)]
  }

  /** `Long.toString()`: the decimal form of `n`, with a `-` when negative. */
  function Show(n: int): string
  {
    if n < 0 then "-" + DecimalString(-n) else DecimalString(n)
  }

  lemma {:induction false} DecimalStringValue(n: nat)
    ensures |DecimalString(n)| > 0 && AllDigits(DecimalString(n))
    ensures DigitsValue(DecimalString(n)) == n
  {
    if n >= 10 {
      DecimalStringValue(n / 10);
      var s := DecimalString(n);
      assert s[..|s| - 1] == DecimalString(n / 10);
    }
  }

  /** Parsing the printed form of a number gives the number back exactly when
      it is a Long, and fails (NumberFormatException) otherwise. */
  lemma ParseShowRoundTrip(n: int)
    ensures ParseLong(Show(n)) == if InLong(n) then Some(n) else None
  {
    if n < 0 {
      DecimalStringValue(-n);
      assert Show(n)[1..] == DecimalString(-n);
    } else {
      DecimalStringValue(n);
    }
  }

  /** A character that is neither a digit nor a leading sign makes `toLong` fail. */
  lemma ParseRejectsNonDigit(s: string, i: nat)
    requires i < |s| && !IsDigit(s[i])
    requires i > 0 || (s[0] != '-' && s[0] != '+')
    ensures ParseLong(s) == None
  {
    if i > 0 && (s[0] == '-' || s[0] == '+') {
      assert !IsDigit(s[1..][i - 1]);
    }
  }
}
