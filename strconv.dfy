/** The part of Go's `strconv` the year check relies on: `Atoi` reads an
    optional sign followed by one or more decimal digits and fails when the
    value does not fit in an `int` (64 bits). `Itoa` writes a number back. */
module Strconv {
  import opened Base

  predicate IsDigit(c: char) { '0' <= c <= '9' }

  predicate AllDigits(s: string) {
    forall i :: 0 <= i < |s| ==> IsDigit(s[i])
  }

  /** The value of a string of decimal digits, most significant first. */
  function DecimalValue(s: string): (n: nat)
    requires AllDigits(s)
    ensures s == [] ==> n == 0
  {
    if s == [] then 0
    else DecimalValue(s[..|s| - 1]) * 10 + (s[|s| - 1] as int - '0' as int)
  }

  function Atoi(s: string): (r: Option<int>)
    ensures r.Some? ==> MinInt64 <= r.value <= MaxInt64
    ensures r.Some? ==> s != "" && (IsDigit(s[0]) || s[0] == '+' || s[0] == '-')
    ensures s == "" ==> r == None
  {
    var signed := |s| > 0 && (s[0] == '+' || s[0] == '-');
    var body := if signed then s[1..] else s;
    if body == "" || !AllDigits(body) then None
    else
      var magnitude: int := DecimalValue(body);
      var v := if signed && s[0] == '-' then -magnitude else magnitude;
      if MinInt64 <= v <= MaxInt64 then Some(v) else None
  }

  function DigitChar(d: int): (c: char)
    requires 0 <= d < 10
    ensures IsDigit(c) && c as int - '0' as int == d
  {
    ('0' as int + d) as char
  }

  /** The decimal digits of a natural number, without sign or leading zeros. */
  function NatString(n: nat): (s: string)
    ensures s != [] && AllDigits(s)
  {
    if n < 10 then [DigitChar(n)] else NatString(n / 10) + [DigitChar(n % 10)]
  }

  /** `strconv.Itoa`. */
  function Itoa(n: int): (s: string)
  {
    if n < 0 then "-" + NatString(-n) else NatString(n)
  }

  lemma {:induction false} NatStringValue(n: nat)
    ensures DecimalValue(NatString(n)) == n
  {
    if n >= 10 {
      var s := NatString(n);
      NatStringValue(n / 10);
      assert s[..|s| - 1] == NatString(n / 10);
    }
  }

  /** Every 64-bit integer survives writing and reading back. */
  lemma AtoiItoa(n: int)
    requires MinInt64 <= n <= MaxInt64
    ensures Atoi(Itoa(n)) == Some(n)
  {
    var s := Itoa(n);
    if n < 0 {
      NatStringValue(-n);
      assert s[1..] == NatString(-n);
    } else {
      NatStringValue(n);
      assert IsDigit(s[0]);
    }
  }

  /** Any string holding a character that is neither a digit nor a leading
      sign is not a number to `Atoi`. */
  lemma AtoiRejectsNonDigit(s: string, i: nat)
    requires i < |s| && !IsDigit(s[i])
    requires i > 0 || (s[0] != '+' && s[0] != '-')
    ensures Atoi(s) == None
  {
  }

  /** An optional sign followed by one or more digits is read as the signed
      decimal value of the digits, when that value fits in 64 bits. */
  lemma AtoiReadsSignedDigits(sign: string, digits: string)
    requires sign == "" || sign == "+" || sign == "-"
    requires digits != "" && AllDigits(digits)
    ensures var v := if sign == "-" then 0 - DecimalValue(digits) else DecimalValue(digits);
            Atoi(sign + digits) == if MinInt64 <= v <= MaxInt64 then Some(v) else None
  {
    if sign != "" {
      assert (sign + digits)[0] == sign[0];
      assert (sign + digits)[1..] == digits;
    } else {
      assert sign + digits == digits;
    }
  }

  /** The converse: whatever `Atoi` accepts is an optional sign followed by
      one or more digits, and its value is theirs. With `AtoiReadsSignedDigits`
      this pins down exactly which strings are numbers and what they are worth. */
  lemma AtoiAcceptsOnlySignedDigits(s: string)
    requires Atoi(s).Some?
    ensures var k := if s[0] == '+' || s[0] == '-' then 1 else 0;
            && s[k..] != "" && AllDigits(s[k..])
            && Atoi(s).value == if s[0] == '-' then 0 - DecimalValue(s[k..]) else DecimalValue(s[k..])
  {
    if s[0] != '+' && s[0] != '-' {
      assert s[0..] == s;
    }
  }

  /** A leading zero adds nothing to a digit string's value. */
  lemma {:induction false} LeadingZeroIgnored(s: string)
    requires AllDigits(s)
    ensures AllDigits("0" + s) && DecimalValue("0" + s) == DecimalValue(s)
  {
    if s != [] {
      var t := "0" + s;
      LeadingZeroIgnored(s[..|s| - 1]);
      assert t[..|t| - 1] == "0" + s[..|s| - 1];
    }
  }

  /** `Itoa` inverts `Atoi` only from one side: a leading plus sign or
      leading zeros are accepted, so distinct strings read as the same number. */
  lemma AtoiIsNotInjective()
    ensures Atoi("+5") == Some(5) && Atoi("05") == Some(5) && Atoi("5") == Some(5)
    ensures Atoi("-0") == Some(0) && Itoa(0) == "0"
  {
    assert DecimalValue("05") == DecimalValue("0") * 10 + 5 by {
      assert "05"[..1] == "0";
    }
    assert "+5"[1..] == "5";
    assert "-0"[1..] == "0";
  }
}
