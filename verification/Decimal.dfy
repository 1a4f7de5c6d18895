/** Unsigned decimal numbers as Go writes (`%d`) and reads (`strconv.ParseUint`) them. */
module Decimal {
  import opened Wrappers

  const MAX_UINT64 := 0xffff_ffff_ffff_ffff

  predicate IsDigit(c: char) {
    '0' <= c <= '9'
  }

  function DigitOf(n: nat): (c: char)
    requires n < 10
    ensures IsDigit(c)
  {
    "0123456789"[n]
  }

  function ValueOf(c: char): nat
    requires IsDigit(c)
  {
    c as int - '0' as int
  }

  function Format(n: nat): string {
    if n < 10 then [DigitOf(n)] else Format(n / 10) + [DigitOf(n % 10)]
  }

  predicate AllDigits(s: string) {
    forall c <- s :: IsDigit(c)
  }

  function Digits(s: string): nat
    requires AllDigits(s)
  {
    if s == "" then 0 else Digits(s[..|s| - 1]) * 10 + ValueOf(s[|s| - 1])
  }

  /** strconv.ParseUint(s, 10, 64): digits only, at least one, within 64 bits. */
  function ParseUint(s: string): Option<nat> {
    if s != "" && AllDigits(s) && Digits(s) <= MAX_UINT64 then Some(Digits(s)) else None
  }

  lemma {:induction false} FormatDigits(n: nat)
    ensures Format(n) != "" && AllDigits(Format(n)) && Digits(Format(n)) == n
  {
    if n >= 10 {
      FormatDigits(n / 10);
      var s := Format(n / 10) + [DigitOf(n % 10)];
      assert s[..|s| - 1] == Format(n / 10);
    } else {
      assert [DigitOf(n)][..0] == "";
    }
  }

  /** Reading a written number gives it back. */
  lemma ParseFormat(n: nat)
    requires n <= MAX_UINT64
    ensures ParseUint(Format(n)) == Some(n)
  {
    FormatDigits(n);
  }

  function Zeros(n: nat): (s: string)
    ensures |s| == n && forall c <- s :: c == '0'
  {
    seq(n, _ => '0')
  }

  lemma {:induction false} ZerosInFront(z: nat, s: string)
    requires AllDigits(s)
    ensures AllDigits(Zeros(z) + s) && Digits(Zeros(z) + s) == Digits(s)
    decreases z + |s|
  {
    var t := Zeros(z) + s;
    if s != "" {
      ZerosInFront(z, s[..|s| - 1]);
      assert t[..|t| - 1] == Zeros(z) + s[..|s| - 1];
    } else if z > 0 {
      ZerosInFront(z - 1, "");
      assert t[..|t| - 1] == Zeros(z - 1) + "";
    }
  }

  lemma DigitBack(c: char)
    requires IsDigit(c)
    ensures ValueOf(c) < 10 && DigitOf(ValueOf(c)) == c
  {
  }

  lemma {:induction false} DigitsBack(s: string) returns (z: nat)
    requires s != "" && AllDigits(s)
    ensures s == Zeros(z) + Format(Digits(s))
  {
    var p, c := s[..|s| - 1], s[|s| - 1];
    DigitBack(c);
    assert s == p + [c];
    if p == "" {
      z := 0;
    } else {
      var y := DigitsBack(p);
      if Digits(p) == 0 {
        z := y + 1;
        assert Format(0) == "0" && p == Zeros(z);
      } else {
        z := y;
        assert Digits(s) / 10 == Digits(p) && Digits(s) % 10 == ValueOf(c);
      }
    }
  }

  /** A text is read as `n` exactly if it is `n` in decimal, possibly after zeros, and `n` fits 64 bits. */
  lemma ParseUintIff(s: string, n: nat)
    ensures ParseUint(s) == Some(n) <==> n <= 0xffff_ffff_ffff_ffff && exists z :: s == Zeros(z) + Format(n)
  {
    if ParseUint(s) == Some(n) {
      var z := DigitsBack(s);
    }
    if z: nat :| s == Zeros(z) + Format(n) {
      FormatDigits(n);
      ZerosInFront(z, Format(n));
    }
  }

  function LeadingDigits(s: string): nat {
    if s != "" && IsDigit(s[0]) then 1 + LeadingDigits(s[1..]) else 0
  }

  lemma {:induction false} LeadingDigitsEnd(digits: string, c: char, rest: string)
    requires AllDigits(digits) && !IsDigit(c)
    ensures LeadingDigits(digits + [c] + rest) == |digits|
    decreases |digits|
  {
    var s := digits + [c] + rest;
    if digits == "" {
      assert s[0] == c;
    } else {
      assert s[0] == digits[0] && s[1..] == digits[1..] + [c] + rest;
      LeadingDigitsEnd(digits[1..], c, rest);
    }
  }

  /** A number, a character that is no digit, and any text: the parts can be told apart. */
  lemma PrefixedNumber(m: nat, n: nat, c: char, s: string, t: string)
    requires !IsDigit(c) && Format(m) + [c] + s == Format(n) + [c] + t
    ensures m == n && s == t
  {
    var a, b := Format(m), Format(n);
    FormatDigits(m);
    FormatDigits(n);
    LeadingDigitsEnd(a, c, s);
    LeadingDigitsEnd(b, c, t);
    assert (a + [c] + s)[..|a|] == a && (b + [c] + t)[..|b|] == b;
    assert (a + [c] + s)[|a| + 1..] == s && (b + [c] + t)[|b| + 1..] == t;
  }
}
