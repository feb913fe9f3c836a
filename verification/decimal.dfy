/**
 Decimal numbers as `strconv.Itoa` writes and `strconv.Atoi` reads them; `int` has 64 bits.
 */
module Decimal {
  import opened Wrappers

  const MIN_INT := -0x8000_0000_0000_0000
  const MAX_INT := 0x7fff_ffff_ffff_ffff

  type Int = n: int | MIN_INT <= n <= MAX_INT

  predicate IsDigit(c: char) { '0' <= c <= '9' }

  predicate AllDigits(s: string) {
    forall i :: 0 <= i < |s| ==> IsDigit(s[i])
  }

  function DigitOf(n: nat): (c: char)
    requires n < 10
    ensures IsDigit(c) && c as int - '0' as int == n
  {
    ('0' as int + n) as char
  }

  function Digits(n: nat): (s: string)
    ensures s != "" && AllDigits(s)
  {
    if n < 10 then [DigitOf(n)] else Digits(n / 10) + [DigitOf(n % 10)]
  }

  function ValueOf(s: string): nat
    requires AllDigits(s)
  {
    if s == "" then 0 else 10 * ValueOf(s[..|s| - 1]) + (s[|s| - 1] as int - '0' as int)
  }

  function Itoa(n: int): string {
    if n < 0 then "-" + Digits(-n) else Digits(n)
  }

  function Printed(ns: seq<Int>): (texts: seq<string>)
    ensures |texts| == |ns|
  {
    seq(|ns|, i requires 0 <= i < |ns| => Itoa(ns[i]))
  }

  /** An optional sign, at least one digit, nothing else, and a value that fits. */
  function Atoi(s: string): (r: Option<Int>) {
    var signed := s != "" && (s[0] == '-' || s[0] == '+');
    var digits := if signed then s[1..] else s;
    if digits == "" || !AllDigits(digits) then None
    else
      var v: int := ValueOf(digits);
      var n := if signed && s[0] == '-' then -v else v;
      if MIN_INT <= n <= MAX_INT then Some(n) else None
  }

  predicate IsNumberOrEmpty(s: string) { s == "" || Atoi(s).Some? }

  lemma {:induction false} ValueOfDigits(n: nat)
    ensures ValueOf(Digits(n)) == n
  {
    if n >= 10 {
      ValueOfDigits(n / 10);
      assert Digits(n)[..|Digits(n)| - 1] == Digits(n / 10);
    } else {
      assert Digits(n)[..0] == "";
    }
  }

  function Zeros(n: nat): (s: string)
    ensures |s| == n && forall i :: 0 <= i < n ==> s[i] == '0'
  {
    seq(n, _ => '0')
  }

  lemma {:induction false} DigitsAreUnique(s: string)
    requires s != "" && AllDigits(s)
    ensures exists k: nat :: s == Zeros(k) + Digits(ValueOf(s))
    decreases |s|
  {
    var front, last := s[..|s| - 1], s[|s| - 1];
    assert s == front + [last];
    if front == "" {
      OneDigit(s);
    } else {
      DigitsAreUnique(front);
      var k: nat :| front == Zeros(k) + Digits(ValueOf(front));
      OneDigitMore(front, k, last);
    }
  }

  lemma {:induction false} OneDigit(s: string)
    requires |s| == 1 && IsDigit(s[0])
    ensures s == Zeros(0) + Digits(ValueOf(s))
  {
    assert ValueOf(s[..0]) == 0;
    assert s == [DigitOf(s[0] as int - '0' as int)];
  }

  lemma {:induction false} OneDigitMore(front: string, k: nat, last: char)
    requires AllDigits(front) && IsDigit(last) && front == Zeros(k) + Digits(ValueOf(front))
    ensures AllDigits(front + [last])
    ensures exists k: nat :: front + [last] == Zeros(k) + Digits(ValueOf(front + [last]))
  {
    var s, d := front + [last], last as int - '0' as int;
    assert s[..|s| - 1] == front && ValueOf(s) == 10 * ValueOf(front) + d;
    assert Digits(d) == [last];
    if ValueOf(front) == 0 {
      assert Digits(0) == ['0'];
      assert s == Zeros(k + 1) + Digits(d);
    } else {
      assert Digits(ValueOf(s)) == Digits(ValueOf(front)) + [last];
      assert s == Zeros(k) + Digits(ValueOf(s));
    }
  }

  lemma {:induction false} ZerosCountNothing(k: nat, s: string)
    requires AllDigits(s)
    ensures AllDigits(Zeros(k) + s) && ValueOf(Zeros(k) + s) == ValueOf(s)
    decreases |s|, k
  {
    var t := Zeros(k) + s;
    if s != "" {
      assert t[..|t| - 1] == Zeros(k) + s[..|s| - 1];
      ZerosCountNothing(k, s[..|s| - 1]);
    } else if k > 0 {
      assert t[..|t| - 1] == Zeros(k - 1) + "";
      ZerosCountNothing(k - 1, "");
    } else {
      assert t == "";
    }
  }

  lemma {:induction false} UnsignedIff(digits: string, m: nat)
    ensures digits != "" && AllDigits(digits) && ValueOf(digits) == m
       <==> exists k: nat :: digits == Zeros(k) + Digits(m)
  {
    if digits != "" && AllDigits(digits) {
      DigitsAreUnique(digits);
    }
    if k: nat :| digits == Zeros(k) + Digits(m) {
      ZerosCountNothing(k, Digits(m));
      ValueOfDigits(m);
    }
  }

  function Abs(n: int): nat { if n < 0 then -n else n }

  /** The digits of a number behind zeros, and a sign: a minus for one that is not positive, a plus or
      none for one that is not negative. */
  predicate ReadsAs(s: string, sign: string, k: nat, n: int) {
    && s == sign + (Zeros(k) + Digits(Abs(n)))
    && IsSignOf(sign, n)
  }

  predicate IsSignOf(sign: string, n: int) {
    (sign == "-" && n <= 0) || (sign == "+" && n >= 0) || (sign == "" && n >= 0)
  }

  lemma {:induction false} SignOff(s: string)
    ensures s != "" && (s[0] == '-' || s[0] == '+') ==> s == [s[0]] + s[1..]
    ensures forall sign, digits :: s == sign + digits && |sign| == 1 ==> s[0] == sign[0] && s[1..] == digits
  {
  }

  /** Which texts are read as a number. */
  lemma {:induction false} AtoiIff(s: string, n: Int)
    ensures Atoi(s) == Some(n) <==> exists sign, k: nat :: ReadsAs(s, sign, k, n)
  {
    SignOff(s);
    if Atoi(s) == Some(n) {
      var sign := if s[0] == '-' || s[0] == '+' then [s[0]] else "";
      var digits := s[|sign|..];
      UnsignedIff(digits, Abs(n));
      var k: nat :| digits == Zeros(k) + Digits(Abs(n));
      assert ReadsAs(s, sign, k, n);
    }
    if sign, k: nat :| ReadsAs(s, sign, k, n) {
      var digits := Zeros(k) + Digits(Abs(n));
      UnsignedIff(digits, Abs(n));
      ReadBack(s, sign, digits, n);
    }
  }

  lemma {:induction false} ReadBack(s: string, sign: string, digits: string, n: Int)
    requires s == sign + digits && digits != "" && AllDigits(digits) && ValueOf(digits) == Abs(n)
    requires IsSignOf(sign, n)
    ensures Atoi(s) == Some(n)
  {
    SignOff(s);
    if sign == "" {
      assert s == digits && IsDigit(s[0]);
    } else {
      assert s[1..] == digits;
    }
  }

  lemma AtoiItoa(n: Int)
    ensures Atoi(Itoa(n)) == Some(n)
  {
    if n < 0 {
      var m: int := n;
      ValueOfDigits(-m);
      assert Itoa(n)[1..] == Digits(-m);
    } else {
      ValueOfDigits(n);
      assert IsDigit(Digits(n)[0]);
    }
  }

  /** A printed number contains digits, and a sign in front if it is negative. */
  lemma ItoaChars(n: int)
    ensures Itoa(n) != ""
    ensures forall i :: 0 <= i < |Itoa(n)| ==> IsDigit(Itoa(n)[i]) || (i == 0 && n < 0 && Itoa(n)[i] == '-')
    ensures n < 0 <==> Itoa(n)[0] == '-'
  {
    if n >= 0 {
      assert IsDigit(Digits(n)[0]);
    }
  }

  /** A number contains nothing but digits and its sign. */
  lemma AtoiChars(s: string, c: char)
    requires Atoi(s).Some? && !IsDigit(c) && c != '-' && c != '+'
    ensures c !in s
  {
    if s[0] == '-' || s[0] == '+' {
      assert s == [s[0]] + s[1..];
    }
  }

  lemma ItoaInjective(a: int, b: int)
    requires Itoa(a) == Itoa(b)
    ensures a == b
  {
    ItoaChars(a);
    ItoaChars(b);
    if a < 0 {
      ValueOfDigits(-a);
      ValueOfDigits(-b);
      assert Itoa(a)[1..] == Digits(-a) && Itoa(b)[1..] == Digits(-b);
    } else {
      ValueOfDigits(a);
      ValueOfDigits(b);
    }
  }
}
