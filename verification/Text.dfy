// The C library's number parsing and printing, as far as target strings and
// registry properties use it. Strings have no NUL in them.
module Text {
  import opened Base

  predicate IsDigit(c: char) {
    '0' <= c <= '9'
  }

  predicate AllDigits(s: string) {
    s != "" && forall i :: 0 <= i < |s| ==> IsDigit(s[i])
  }

  // pwf_str_is_all_digits
  method IsAllDigits(s: string) returns (r: bool)
    ensures r == AllDigits(s)
  {
    if s == "" {
      return false;
    }
    for i := 0 to |s|
      invariant forall k :: 0 <= k < i ==> IsDigit(s[k])
    {
      if !IsDigit(s[i]) {
        return false;
      }
    }
    return true;
  }

  function DigitValue(c: char): (v: nat)
    requires IsDigit(c)
    ensures v < 10
  {
    c as int - '0' as int
  }

  function DigitChar(v: nat): (c: char)
    requires v < 10
    ensures IsDigit(c) && DigitValue(c) == v
  {
    ('0' as int + v) as char
  }

  function LeadingDigits(s: string): (d: string)
    ensures forall i :: 0 <= i < |d| ==> IsDigit(d[i])
    ensures (forall i :: 0 <= i < |s| ==> IsDigit(s[i])) ==> d == s
  {
    if s == "" || !IsDigit(s[0]) then "" else [s[0]] + LeadingDigits(s[1..])
  }

  function Value(digits: string): nat
    requires forall i :: 0 <= i < |digits| ==> IsDigit(digits[i])
  {
    if digits == "" then 0
    else
      var n := |digits| - 1;
      Value(digits[..n]) * 10 + DigitValue(digits[n])
  }

  predicate IsSpace(c: char) {
    c == ' ' || '\t' <= c <= '\r'
  }

  function SkipSpaces(s: string): string {
    if s != "" && IsSpace(s[0]) then SkipSpaces(s[1..]) else s
  }

  // strtoull in base 10: a value out of range saturates, a minus sign negates
  // modulo 2^64, and what follows the digits is ignored.
  function StrToULL(s: string): (v: nat)
    ensures v < WORD
  {
    var t := SkipSpaces(s);
    var signed := t != "" && (t[0] == '-' || t[0] == '+');
    var v := Value(LeadingDigits(if signed then t[1..] else t));
    if v >= WORD then WORD - 1
    else if signed && t[0] == '-' && v > 0 then WORD - v
    else v
  }

  // (uint32_t)strtoul, with a 64-bit unsigned long.
  function StrToU32(s: string): (v: nat)
    ensures v < 0x1_0000_0000
  {
    StrToULL(s) % 0x1_0000_0000
  }

  // snprintf of "%llu"
  function Decimal(n: nat): (s: string) {
    if n < 10 then [DigitChar(n)] else Decimal(n / 10) + [DigitChar(n % 10)]
  }

  lemma {:induction false} DecimalValue(n: nat)
    ensures AllDigits(Decimal(n)) && Value(Decimal(n)) == n
  {
    if n < 10 {
      assert Decimal(n)[..0] == "";
    } else {
      DecimalValue(n / 10);
      var s := Decimal(n);
      assert s[..|s| - 1] == Decimal(n / 10);
    }
  }

  // Printing and parsing are inverse on the whole range.
  lemma DecimalRoundTrip(n: nat)
    requires n < WORD
    ensures AllDigits(Decimal(n)) && StrToULL(Decimal(n)) == n
  {
    DecimalValue(n);
    assert SkipSpaces(Decimal(n)) == Decimal(n);
  }

  function Pow10(k: nat): (p: nat)
    ensures p > 0
  {
    if k == 0 then 1 else 10 * Pow10(k - 1)
  }

  lemma {:induction false} DecimalLength(n: nat, k: nat)
    requires k > 0 && n < Pow10(k)
    ensures |Decimal(n)| <= k
  {
    if n >= 10 {
      assert Pow10(1) == 10 * Pow10(0);
      DecimalLength(n / 10, k - 1);
    }
  }

  // The 32 bytes set aside for a printed serial always hold it.
  lemma SerialFits(n: nat)
    requires n < WORD
    ensures |Decimal(n)| < 32
  {
    Twenty();
    DecimalLength(n, 20);
  }

  lemma Twenty()
    ensures Pow10(20) >= WORD
  {
    assert Pow10(4) == 10_000;
    assert Pow10(8) == 10_000 * Pow10(4);
    assert Pow10(12) == 10_000 * Pow10(8);
    assert Pow10(16) == 10_000 * Pow10(12);
    assert Pow10(20) == 10_000 * Pow10(16);
  }

  // A string of blanks, a sign or none, digits and something else parses as the
  // digits' value: negated modulo 2^64 after a minus sign, and the greatest
  // value when it has none in range.
  lemma ParsesExactly(blanks: string, sign: string, digits: string, rest: string)
    requires forall i :: 0 <= i < |blanks| ==> IsSpace(blanks[i])
    requires sign == "" || sign == "+" || sign == "-"
    requires AllDigits(digits) && (rest != "" ==> !IsDigit(rest[0]))
    ensures StrToULL(blanks + (sign + (digits + rest)))
         == if Value(digits) >= WORD then WORD - 1
            else if sign == "-" && Value(digits) > 0 then WORD - Value(digits) else Value(digits)
  {
    var number := sign + (digits + rest);
    BlanksSkipped(blanks, number);
    LeadingDigitsOf(digits, rest);
    if sign != "" {
      assert number[0] == sign[0] && number[1..] == digits + rest;
    } else {
      assert number == digits + rest;
    }
  }

  lemma {:induction false} BlanksSkipped(blanks: string, s: string)
    requires forall i :: 0 <= i < |blanks| ==> IsSpace(blanks[i])
    requires s != "" && !IsSpace(s[0])
    ensures SkipSpaces(blanks + s) == s
  {
    if blanks != "" {
      BlanksSkipped(blanks[1..], s);
      assert (blanks + s)[1..] == blanks[1..] + s;
    } else {
      assert blanks + s == s;
    }
  }

  lemma {:induction false} LeadingDigitsOf(digits: string, rest: string)
    requires forall i :: 0 <= i < |digits| ==> IsDigit(digits[i])
    requires rest != "" ==> !IsDigit(rest[0])
    ensures LeadingDigits(digits + rest) == digits
  {
    if digits != "" {
      LeadingDigitsOf(digits[1..], rest);
      assert (digits + rest)[1..] == digits[1..] + rest;
      assert [digits[0]] + digits[1..] == digits;
    } else {
      assert digits + rest == rest;
    }
  }

  // Nothing but digits makes a number.
  lemma ParsesNothing(blanks: string, rest: string)
    requires forall i :: 0 <= i < |blanks| ==> IsSpace(blanks[i])
    requires rest != "" ==> !IsDigit(rest[0]) && !IsSpace(rest[0]) && rest[0] != '+' && rest[0] != '-'
    ensures StrToULL(blanks + rest) == 0
  {
    if rest != "" {
      BlanksSkipped(blanks, rest);
    } else {
      OnlyBlanks(blanks);
      assert blanks + rest == blanks;
    }
  }

  lemma {:induction false} OnlyBlanks(blanks: string)
    requires forall i :: 0 <= i < |blanks| ==> IsSpace(blanks[i])
    ensures SkipSpaces(blanks) == ""
  {
    if blanks != "" {
      OnlyBlanks(blanks[1..]);
    }
  }
}
