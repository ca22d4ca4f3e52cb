/** Numbers as text: std::to_string one way, std::stoi and std::stoull the other. */
module Decimal {
  import opened Sequences
  import opened Wrappers

  datatype ConversionError = InvalidArgument | OutOfRange

  predicate IsDigit(c: char) { '0' <= c <= '9' }

  /** isspace in the C locale. */
  predicate IsSpace(c: char) { c == ' ' || 9 <= c as int <= 13 }

  function NatText(n: nat): string {
    (if n < 10 then "" else NatText(n / 10)) + [('0' as int + n % 10) as char]
  }

  function IntText(n: int): string { if n < 0 then "-" + NatText(-n) else NatText(n) }

  predicate AllDigits(s: string) { forall i :: 0 <= i < |s| ==> IsDigit(s[i]) }

  function NatValue(digits: string): nat
    requires AllDigits(digits)
  {
    if digits == "" then 0
    else 10 * NatValue(digits[..|digits| - 1]) + (digits[|digits| - 1] as int - '0' as int)
  }

  function LeadingDigits(s: string): (n: nat)
    ensures n <= |s| && AllDigits(s[..n])
  {
    if s == "" || !IsDigit(s[0]) then 0 else 1 + LeadingDigits(s[1..])
  }

  function SkipSpace(s: string): string {
    if s == "" || !IsSpace(s[0]) then s else SkipSpace(s[1..])
  }

  /** What strtol and strtoull see: the sign and the magnitude of the number the text starts with. */
  function Magnitude(s: string): Option<(bool, nat)> {
    var t := SkipSpace(s);
    var signed := t != "" && (t[0] == '-' || t[0] == '+');
    var digits := if signed then t[1..] else t;
    var n := LeadingDigits(digits);
    if n == 0 then None else Some((signed && t[0] == '-', NatValue(digits[..n])))
  }

  function Signed(negative: bool, magnitude: int): int { if negative then -magnitude else magnitude }

  function Stoi(s: string): Result<int, ConversionError> {
    match Magnitude(s)
    case None => Err(InvalidArgument)
    case Some((negative, m)) =>
      var v := Signed(negative, m);
      if -0x8000_0000 <= v < 0x8000_0000 then Ok(v) else Err(OutOfRange)
  }

  const TWO_TO_THE_64: nat := 0x1_0000_0000_0000_0000

  /** A minus sign is accepted and wraps around. */
  function Stoull(s: string): Result<nat, ConversionError> {
    match Magnitude(s)
    case None => Err(InvalidArgument)
    case Some((negative, m)) =>
      if m >= TWO_TO_THE_64 then Err(OutOfRange)
      else Ok(if negative && m > 0 then TWO_TO_THE_64 - m else m)
  }

  lemma {:induction false} NatTextHasValue(n: nat)
    ensures NatText(n) != "" && AllDigits(NatText(n)) && NatValue(NatText(n)) == n
    decreases n
  {
    if n >= 10 {
      NatTextHasValue(n / 10);
      assert NatText(n)[..|NatText(n)| - 1] == NatText(n / 10);
    }
  }

  lemma {:induction false} LeadingDigitsOf(digits: string, rest: string)
    requires AllDigits(digits) && (rest == "" || !IsDigit(rest[0]))
    ensures LeadingDigits(digits + rest) == |digits|
    decreases |digits|
  {
    if digits == "" {
      assert digits + rest == rest;
    } else {
      assert (digits + rest)[1..] == digits[1..] + rest;
      LeadingDigitsOf(digits[1..], rest);
    }
  }

  lemma SignIsRead(digits: string)
    requires LeadingDigits(digits) > 0
    ensures Magnitude(digits) == Some((false, NatValue(digits[..LeadingDigits(digits)])))
    ensures Magnitude("-" + digits) == Some((true, NatValue(digits[..LeadingDigits(digits)])))
  {
    assert IsDigit(digits[0]) && SkipSpace(digits) == digits;
    var t := "-" + digits;
    assert t[0] == '-' && t[1..] == digits && SkipSpace(t) == t;
  }

  lemma DigitsAreRead(m: nat, rest: string)
    requires rest == "" || !IsDigit(rest[0])
    ensures var digits := NatText(m) + rest;
            && LeadingDigits(digits) > 0
            && NatValue(digits[..LeadingDigits(digits)]) == m
  {
    NatTextHasValue(m);
    LeadingDigitsOf(NatText(m), rest);
    assert (NatText(m) + rest)[..|NatText(m)|] == NatText(m);
  }

  /** Reading back a printed number that is followed by anything but a digit. */
  lemma MagnitudeOfText(n: int, rest: string)
    requires rest == "" || !IsDigit(rest[0])
    ensures Magnitude(IntText(n) + rest) == Some((n < 0, if n < 0 then -n else n))
  {
    var m: nat := if n < 0 then -n else n;
    DigitsAreRead(m, rest);
    SignIsRead(NatText(m) + rest);
    if n < 0 { Regroup("-", NatText(m), rest); }
  }

  lemma StoiInvertsText(n: int, rest: string)
    requires rest == "" || !IsDigit(rest[0])
    ensures Stoi(IntText(n) + rest) == if -0x8000_0000 <= n < 0x8000_0000 then Ok(n) else Err(OutOfRange)
  {
    MagnitudeOfText(n, rest);
  }

  lemma StoullInvertsText(n: nat)
    ensures Stoull(NatText(n)) == if n < TWO_TO_THE_64 then Ok(n) else Err(OutOfRange)
  {
    MagnitudeOfText(n, "");
    assert IntText(n) + "" == NatText(n);
  }

  /** Printed numbers hold digits and at most a minus sign, so no separator of any of the formats. */
  lemma NoSpecialInText(n: int, c: char)
    requires !IsDigit(c) && c != '-'
    ensures c !in IntText(n) && IntText(n) != ""
  {
    NatTextHasValue(if n < 0 then -n else n);
  }

  /** A negative number is accepted for an unsigned one and wraps around. */
  lemma StoullWraps(n: int)
    requires 0 < n < TWO_TO_THE_64
    ensures Stoull(IntText(-n)) == Ok(TWO_TO_THE_64 - n)
  {
    MagnitudeOfText(-n, "");
    assert IntText(-n) + "" == IntText(-n);
  }

  /** Blanks and a plus sign in front of the digits change nothing. */
  lemma BlankAndPlusAreSkipped(digits: string)
    requires LeadingDigits(digits) > 0
    ensures Stoi(" +" + digits) == Stoi(digits) && Stoull(" +" + digits) == Stoull(digits)
  {
    var t := "+" + digits;
    assert " +" + digits == " " + t && (" " + t)[1..] == t && t[1..] == digits;
    assert IsDigit(digits[0]) && SkipSpace(digits) == digits && SkipSpace(t) == t;
  }

  /** Text that starts with a letter is no number. */
  lemma LettersAreNoNumber(s: string)
    requires s == "" || (!IsDigit(s[0]) && !IsSpace(s[0]) && s[0] != '-' && s[0] != '+')
    ensures Stoi(s) == Err(InvalidArgument) && Stoull(s) == Err(InvalidArgument)
  {
    assert SkipSpace(s) == s && LeadingDigits(s) == 0;
  }
}
