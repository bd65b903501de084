/** Integers as Swift prints them and as `Int(_:)` reads them. */
module Numerals {
  import opened Wrappers

  const INT_LIMIT: int := 0x8000_0000_0000_0000

  /** A natural number in decimal, as string interpolation prints it. */
  function Decimal(n: nat): string {
    if n < 10 then [('0' as int + n) as char] else Decimal(n / 10) + [('0' as int + n % 10) as char]
  }

  predicate IsDigit(c: char) {
    '0' <= c <= '9'
  }

  predicate AllDigits(s: string) {
    forall c :: c in s ==> IsDigit(c)
  }

  function Value(digits: string): nat
    requires AllDigits(digits)
  {
    if digits == "" then 0
    else
      var last := digits[|digits| - 1];
      assert IsDigit(last);
      10 * Value(digits[..|digits| - 1]) + (last as int - '0' as int)
  }

  /** `Int(_:)`: an optional sign, then decimal digits, within 64 bits. */
  function ParseInt(s: string): Option<int> {
    var negative := s != "" && s[0] == '-';
    var digits := if s != "" && (s[0] == '-' || s[0] == '+') then s[1..] else s;
    if digits == "" || !AllDigits(digits) then None
    else
      var value: int := if negative then -(Value(digits) as int) else Value(digits);
      if -INT_LIMIT <= value < INT_LIMIT then Some(value) else None
  }

  function PrintInt(i: int): string {
    if i < 0 then "-" + Decimal(-i) else Decimal(i)
  }

  lemma {:induction false} DecimalIsDigits(n: nat)
    ensures Decimal(n) != "" && AllDigits(Decimal(n)) && Value(Decimal(n)) == n
  {
    if n >= 10 {
      DecimalIsDigits(n / 10);
    } else {
      assert Value(Decimal(n)[..0]) == 0;
    }
  }

  /** Every integer of 64 bits is read back as printed. */
  lemma ParsePrint(i: int)
    requires -INT_LIMIT <= i < INT_LIMIT
    ensures ParseInt(PrintInt(i)) == Some(i)
  {
    DecimalIsDigits(if i < 0 then -i else i);
    if i < 0 {
      assert PrintInt(i)[1..] == Decimal(-i);
    } else {
      assert IsDigit(Decimal(i)[0]);
    }
  }

  /** Some digits, behind a sign or not. */
  ghost predicate Signed(s: string, digits: string, negative: bool) {
    && digits != "" && AllDigits(digits)
    && if negative then s == "-" + digits else s == digits || s == "+" + digits
  }

  /** What is read, and that nothing else is. */
  lemma ParseIntExactly(s: string, i: int)
    ensures ParseInt(s) == Some(i) <==>
      && -0x8000_0000_0000_0000 <= i < 0x8000_0000_0000_0000
      && exists digits, negative ::
           Signed(s, digits, negative) && i == if negative then -(Value(digits) as int) else Value(digits)
  {
    if ParseInt(s) == Some(i) {
      var negative := s[0] == '-';
      var digits := if s[0] == '-' || s[0] == '+' then s[1..] else s;
      assert s == [s[0]] + s[1..];
      assert Signed(s, digits, negative);
    }
    forall digits, negative | Signed(s, digits, negative) ensures
      var value: int := if negative then -(Value(digits) as int) else Value(digits);
      ParseInt(s) == if -INT_LIMIT <= value < INT_LIMIT then Some(value) else None
    {
      assert IsDigit(digits[0]);
      assert s == digits || s[1..] == digits;
    }
  }

  lemma NoDigit(c: char, n: nat)
    requires !IsDigit(c)
    ensures c !in Decimal(n)
  {
    DecimalIsDigits(n);
  }
}
