/** Decimal printing and reading of integers (std::to_string and std::stoi). */
module Decimal {
  import opened Common
  import opened Text

  predicate IsDigit(c: char)
  {
    '0' <= c <= '9'
  }

  function Digit(d: nat): (c: char)
    requires d < 10
    ensures IsDigit(c) && DigitValue(c) == d
  {
    ('0' as int + d) as char
  }

  function DigitValue(c: char): nat
    requires IsDigit(c)
  {
    c as int - '0' as int
  }

  predicate AllDigits(s: string)
  {
    forall i :: 0 <= i < |s| ==> IsDigit(s[i])
  }

  function NatToString(n: nat): (s: string)
    ensures s != "" && AllDigits(s)
  {
    if n < 10 then [Digit(n)] else NatToString(n / 10) + [Digit(n % 10)]
  }

  function IntToString(n: int): string
  {
    if n < 0 then "-" + NatToString(-n) else NatToString(n)
  }

  function ParseNat(s: string): nat
    requires AllDigits(s)
  {
    if s == "" then 0 else 10 * ParseNat(s[..|s| - 1]) + DigitValue(s[|s| - 1])
  }

  predicate IsInt(s: string)
  {
    s != "" && AllDigits(if s[0] == '-' then s[1..] else s)
  }

  function ParseInt(s: string): int
    requires IsInt(s)
  {
    if s[0] == '-' then 0 - ParseNat(s[1..]) else ParseNat(s)
  }

  lemma {:induction false} NatRoundTrip(n: nat)
    ensures ParseNat(NatToString(n)) == n
  {
    if n >= 10 {
      NatRoundTrip(n / 10);
      var s := NatToString(n);
      assert s[..|s| - 1] == NatToString(n / 10);
    } else {
      assert NatToString(n)[..0] == "";
    }
  }

  /** Reading back what was printed; printing is therefore injective. */
  lemma IntRoundTrip(n: int)
    ensures IsInt(IntToString(n)) && ParseInt(IntToString(n)) == n
  {
    if n < 0 {
      NatRoundTrip(-n);
      assert IntToString(n)[1..] == NatToString(-n);
    } else {
      NatRoundTrip(n);
      assert IsDigit(NatToString(n)[0]);
    }
  }

  lemma {:induction false} NoLeadingZero(n: nat)
    ensures if n == 0 then NatToString(n) == "0" else NatToString(n)[0] != '0'
  {
    if n >= 10 { NoLeadingZero(n / 10); }
  }

  /** A minus sign for negative numbers alone, digits alone after it, and no zero in front of another digit. */
  lemma PrintedIsCanonical(n: int)
    ensures n == 0 ==> IntToString(n) == "0"
    ensures n > 0 ==> AllDigits(IntToString(n)) && |IntToString(n)| > 0 && IntToString(n)[0] != '0'
    ensures n < 0 ==> IntToString(n) == "-" + IntToString(-n)
  {
    if n >= 0 { NoLeadingZero(n); }
  }

  function Pow10(k: nat): nat
  {
    if k == 0 then 1 else 10 * Pow10(k - 1)
  }

  lemma {:induction false} NatLength(n: nat, k: nat)
    requires k > 0 && n < Pow10(k)
    ensures |NatToString(n)| <= k
  {
    if n >= 10 {
      assert k > 1 by { assert Pow10(1) == 10 * Pow10(0); }
      NatLength(n / 10, k - 1);
    }
  }

  // ----------------------------------------------------------------- std::stoi

  /** Vertical tab and form feed are white space to std::stoi too. */
  predicate IsSpace(c: char)
  {
    IsBlank(c) || c as int == 11 || c as int == 12
  }

  /** The first position from i on that holds no white space, or no digit. */
  function SpaceEnd(s: string, i: nat): (n: nat)
    requires i <= |s|
    ensures i <= n <= |s|
    decreases |s| - i
  {
    if i < |s| && IsSpace(s[i]) then SpaceEnd(s, i + 1) else i
  }

  function DigitsEnd(s: string, i: nat): (n: nat)
    requires i <= |s|
    ensures i <= n <= |s| && forall k :: i <= k < n ==> IsDigit(s[k])
    decreases |s| - i
  {
    if i < |s| && IsDigit(s[i]) then DigitsEnd(s, i + 1) else i
  }

  function SkipSpace(s: string): string
  {
    s[SpaceEnd(s, 0)..]
  }

  function LeadingDigits(s: string): (r: string)
    ensures AllDigits(r)
  {
    s[..DigitsEnd(s, 0)]
  }

  function WithoutSign(s: string): string
  {
    if s != "" && (s[0] == '-' || s[0] == '+') then s[1..] else s
  }

  function SignedValue(negative: bool, digits: string): Option<int>
    requires AllDigits(digits)
  {
    var value := if negative then 0 - ParseNat(digits) else ParseNat(digits);
    if digits == "" || !Int32(value) then None else Some(value)
  }

  /** std::stoi: what follows the digits is ignored; None is a thrown exception. */
  function StoI(text: string): Option<int>
  {
    var s := SkipSpace(text);
    SignedValue(s != "" && s[0] == '-', LeadingDigits(WithoutSign(s)))
  }

  /** Digits end at the first character that is none. */
  lemma DigitsLead(s: string, rest: string)
    requires AllDigits(s) && (rest == "" || !IsDigit(rest[0]))
    ensures LeadingDigits(s + rest) == s
  {
    DigitsEndAt(s + rest, 0, |s|);
  }

  lemma {:induction false} DigitsEndAt(t: string, i: nat, n: nat)
    requires i <= n <= |t| && (forall k :: i <= k < n ==> IsDigit(t[k])) && (n == |t| || !IsDigit(t[n]))
    ensures DigitsEnd(t, i) == n
    decreases n - i
  {
    if i < n { DigitsEndAt(t, i + 1, n); }
  }

  /** What a printed number can hold. */
  lemma IntIsPlain(n: int)
    ensures var s := IntToString(n);
      && s != "" && IsDigit(s[|s| - 1])
      && forall i :: 0 <= i < |s| ==> s[i] == '-' || IsDigit(s[i])
  {
  }

  function InRange(n: int): Option<int>
  {
    if Int32(n) then Some(n) else None
  }

  lemma StoIOfDigits(digits: string, rest: string)
    requires digits != "" && AllDigits(digits) && (rest == "" || !IsDigit(rest[0]))
    ensures StoI(digits + rest) == InRange(ParseNat(digits))
  {
    DigitParts(digits, rest);
    DigitsLead(digits, rest);
  }

  lemma DigitParts(digits: string, rest: string)
    requires digits != "" && AllDigits(digits)
    ensures var s := digits + rest; SkipSpace(s) == s && WithoutSign(s) == s && s[0] != '-'
  {
    assert IsDigit(digits[0]) && (digits + rest)[0] == digits[0];
  }

  lemma StoIOfMinus(digits: string, rest: string)
    requires digits != "" && AllDigits(digits) && (rest == "" || !IsDigit(rest[0]))
    ensures StoI("-" + digits + rest) == InRange(0 - ParseNat(digits))
  {
    MinusParts(digits + rest);
    DigitsLead(digits, rest);
    Associative("-", digits, rest);
    StoIOfParts("-" + (digits + rest), digits);
  }

  lemma StoIOfParts(s: string, digits: string)
    requires s != "" && SkipSpace(s) == s && LeadingDigits(WithoutSign(s)) == digits
    requires digits != "" && AllDigits(digits)
    ensures StoI(s) == InRange(if s[0] == '-' then 0 - ParseNat(digits) else ParseNat(digits))
  {
  }

  lemma MinusParts(s: string)
    ensures SkipSpace("-" + s) == "-" + s && WithoutSign("-" + s) == s && ("-" + s)[0] == '-'
  {
  }

  /**
   * std::stoi reads the number that std::to_string prints, whatever follows its
   * digits, exactly when it has 32 bits; otherwise it throws.
   */
  lemma StoIOfPrinted(n: int, rest: string)
    requires rest == "" || !IsDigit(rest[0])
    ensures StoI(IntToString(n) + rest) == if -0x8000_0000 <= n < 0x8000_0000 then Some(n) else None
  {
    if n < 0 {
      NatRoundTrip(-n);
      StoIOfMinus(NatToString(-n), rest);
    } else {
      NatRoundTrip(n);
      StoIOfDigits(NatToString(n), rest);
    }
  }

  lemma StoIRoundTrip(n: int)
    requires Int32(n)
    ensures StoI(IntToString(n)) == Some(n)
  {
    StoIOfPrinted(n, "");
    assert IntToString(n) + "" == IntToString(n);
  }

  lemma {:induction false} SpaceEndAt(t: string, i: nat, n: nat)
    requires i <= n <= |t| && (forall k :: i <= k < n ==> IsSpace(t[k])) && (n == |t| || !IsSpace(t[n]))
    ensures SpaceEnd(t, i) == n
    decreases n - i
  {
    if i < n { SpaceEndAt(t, i + 1, n); }
  }

  /** White space is code 9 to 13 and the blank. */
  lemma SpaceIsSkipped(space: string, s: string)
    requires forall k :: 0 <= k < |space| ==> 9 <= space[k] as int <= 13 || space[k] as int == 32
    requires s != "" && (IsDigit(s[0]) || s[0] == '-' || s[0] == '+')
    ensures StoI(space + s) == StoI(s)
  {
    SpaceEndAt(space + s, 0, |space|);
    assert (space + s)[|space|..] == s;
    assert SkipSpace(s) == s;
  }

  lemma StoIOfPlus(digits: string, rest: string)
    requires digits != "" && AllDigits(digits) && (rest == "" || !IsDigit(rest[0]))
    ensures StoI("+" + (digits + rest)) == InRange(ParseNat(digits))
  {
    var s := "+" + (digits + rest);
    assert WithoutSign(s) == digits + rest && SkipSpace(s) == s;
    DigitsLead(digits, rest);
    StoIOfParts(s, digits);
  }

  /** White space and a plus sign before the number change nothing. */
  lemma StoIOfSpaced(space: string, plus: bool, n: int, rest: string)
    requires forall k :: 0 <= k < |space| ==> 9 <= space[k] as int <= 13 || space[k] as int == 32
    requires (rest == "" || !IsDigit(rest[0])) && (plus ==> n >= 0)
    ensures StoI(space + ((if plus then "+" else "") + (IntToString(n) + rest)))
      == if -0x8000_0000 <= n < 0x8000_0000 then Some(n) else None
  {
    var s := IntToString(n) + rest;
    IntIsPlain(n);
    if plus {
      NatRoundTrip(n);
      StoIOfPlus(NatToString(n), rest);
      SpaceIsSkipped(space, "+" + s);
    } else {
      StoIOfPrinted(n, rest);
      assert "" + s == s;
      SpaceIsSkipped(space, s);
    }
  }

  /** Without a digit std::stoi throws. */
  lemma StoIWithoutDigit(text: string)
    requires forall i :: 0 <= i < |text| ==> !IsDigit(text[i])
    ensures StoI(text) == None
  {
    var s := SkipSpace(text);
    var u := WithoutSign(s);
    if u != "" { assert !IsDigit(u[0]); }
  }
}
