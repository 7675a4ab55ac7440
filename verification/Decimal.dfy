/** Unsigned decimal numbers the way strconv reads and prints them. */
module Decimal {
  import opened Journals

  predicate IsDigit(c: char) {
    '0' <= c <= '9'
  }

  predicate Digits(s: string) {
    s != "" && forall i :: 0 <= i < |s| ==> IsDigit(s[i])
  }

  function DigitValue(c: char): (d: nat)
    requires IsDigit(c)
    ensures d < 10
  {
    c as int - '0' as int
  }

  function DigitChar(d: nat): (c: char)
    requires d < 10
    ensures IsDigit(c) && DigitValue(c) == d
  {
    ('0' as int + d) as char
  }

  function ValueOf(s: string): nat
    requires forall i :: 0 <= i < |s| ==> IsDigit(s[i])
    decreases |s|
  {
    if s == "" then 0 else ValueOf(s[..|s| - 1]) * 10 + DigitValue(s[|s| - 1])
  }

  function Format(n: nat): (s: string)
    ensures Digits(s) && (n > 0 ==> s[0] != '0')
  {
    if n < 10 then [DigitChar(n)] else Format(n / 10) + [DigitChar(n % 10)]
  }

  lemma {:induction false} ValueOfFormat(n: nat)
    ensures ValueOf(Format(n)) == n
  {
    var s := Format(n);
    if n < 10 {
      assert s[..0] == "";
    } else {
      assert s[..|s| - 1] == Format(n / 10);
      ValueOfFormat(n / 10);
    }
  }

  /** A string of digits without a leading zero is the one its value prints as. */
  lemma {:induction false} FormatOfValue(s: string)
    requires Digits(s) && (|s| > 1 ==> s[0] != '0')
    ensures Format(ValueOf(s)) == s
    decreases |s|
  {
    var prefix := s[..|s| - 1];
    assert s == prefix + [s[|s| - 1]];
    if |s| == 1 {
      assert prefix == "";
    } else {
      FormatOfValue(prefix);
      LeadingDigitCounts(prefix);
    }
  }

  lemma {:induction false} LeadingDigitCounts(s: string)
    requires Digits(s) && s[0] != '0'
    ensures ValueOf(s) > 0
    decreases |s|
  {
    if |s| > 1 {
      LeadingDigitCounts(s[..|s| - 1]);
    }
  }

  lemma {:induction false} PrefixIsSmaller(s: string, i: nat)
    requires i <= |s| && forall k :: 0 <= k < |s| ==> IsDigit(s[k])
    ensures ValueOf(s[..i]) <= ValueOf(s)
    decreases |s| - i
  {
    if i == |s| {
      assert s[..i] == s;
    } else {
      assert s[..i + 1][..i] == s[..i];
      PrefixIsSmaller(s, i + 1);
    }
  }

  /** ParseUint in base ten with an upper bound: no sign, no space, no empty input. */
  method ParseUint(s: string, maximum: nat) returns (value: Option<nat>)
    ensures value == if Digits(s) && ValueOf(s) <= maximum then Some(ValueOf(s)) else None
  {
    if s == "" { return None; }
    var n, i := 0, 0;
    while i < |s|
      invariant i <= |s| && n <= maximum
      invariant forall k :: 0 <= k < i ==> IsDigit(s[k])
      invariant n == ValueOf(s[..i])
    {
      if !IsDigit(s[i]) { return None; }
      assert s[..i + 1][..i] == s[..i];
      n := n * 10 + DigitValue(s[i]);
      i := i + 1;
      if n > maximum {
        if Digits(s) { PrefixIsSmaller(s, i); }
        return None;
      }
    }
    assert s[..i] == s;
    value := Some(n);
  }

  /** FormatUint, from the last digit to the first. */
  method FormatUint(n: nat) returns (s: string)
    ensures s == Format(n)
  {
    var rest := n;
    s := "";
    while rest >= 10
      invariant Format(n) == Format(rest) + s
    {
      s := [DigitChar(rest % 10)] + s;
      rest := rest / 10;
    }
    s := [DigitChar(rest)] + s;
  }

  // ---- signed numbers

  const LIMIT_63: int := 0x8000_0000_0000_0000

  function FormatInt(n: int): string {
    if n < 0 then "-" + Format(0 - n) else Format(n)
  }

  /** ParseInt in base ten for 64 bits: one optional sign, then digits. */
  function ParsedInt(s: string): Option<int> {
    if s == "" then None
    else
      var digits := if s[0] == '-' || s[0] == '+' then s[1..] else s;
      if !Digits(digits) then None
      else
        var value: int := if s[0] == '-' then 0 - ValueOf(digits) else ValueOf(digits);
        if 0 - LIMIT_63 <= value < LIMIT_63 then Some(value) else None
  }

  lemma ParsedFormatInt(n: int)
    requires 0 - LIMIT_63 <= n < LIMIT_63
    ensures ParsedInt(FormatInt(n)) == Some(n)
  {
    var s := FormatInt(n);
    if n < 0 {
      ValueOfFormat(0 - n);
      assert s[1..] == Format(0 - n);
    } else {
      ValueOfFormat(n);
      assert IsDigit(s[0]);
    }
  }

  /** A text stands for a 64-bit number exactly as its digits, or as they follow one sign. */
  lemma ParsedIntExactly(s: string, n: int)
    ensures ParsedInt(s) == Some(n) <==>
              && -0x8000_0000_0000_0000 <= n <= 0x7FFF_FFFF_FFFF_FFFF
              && exists digits ::
                   Digits(digits) && ((s == digits && ValueOf(digits) == n) || (s == "+" + digits && ValueOf(digits) == n)
                                      || (s == "-" + digits && ValueOf(digits) == -n))
  {
    if ParsedInt(s) == Some(n) {
      var digits := if s[0] == '-' || s[0] == '+' then s[1..] else s;
      assert s == digits || s == "+" + digits || s == "-" + digits;
      assert Digits(digits);
    }
    if digits :| Digits(digits) && (s == digits || s == "+" + digits || s == "-" + digits) {
      assert IsDigit(digits[0]);
      assert s != digits ==> s[1..] == digits;
    }
    forall digits | Digits(digits) ensures ("+" + digits)[1..] == digits && ("-" + digits)[1..] == digits && IsDigit(digits[0]) {}
  }

  method ParseInt(s: string) returns (value: Option<int>)
    ensures value == ParsedInt(s)
  {
    if s == "" { return None; }
    var negative := s[0] == '-';
    var digits := if negative || s[0] == '+' then s[1..] else s;
    var magnitude := ParseUint(digits, 0x8000_0000_0000_0000);
    if magnitude.None? { return None; }
    if negative { return Some(0 - magnitude.value); }
    if magnitude.value >= LIMIT_63 { return None; }
    value := Some(magnitude.value);
  }
}
