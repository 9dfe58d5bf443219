/** Zero-padded numbers as text, and how such texts compare. */
module Numerals {
  import opened Sorting

  function Digit(d: nat): char
    requires d < 10
  {
    ['0', '1', '2', '3', '4', '5', '6', '7', '8', '9'][d]
  }

  function Digits(n: nat): string {
    if n < 10 then [Digit(n)] else Digits(n / 10) + [Digit(n % 10)]
  }

  function Zeros(n: int): string
    decreases n
  {
    if n <= 0 then "" else Zeros(n - 1) + "0"
  }

  /** `{n:04d}` */
  function Padded(n: nat): string {
    Zeros(4 - |Digits(n)|) + Digits(n)
  }

  // ----- reading a number back -----

  function DigitValue(c: char): nat {
    if '0' <= c <= '9' then c as int - '0' as int else 0
  }

  function Value(s: string): nat {
    if s == "" then 0 else 10 * Value(s[..|s| - 1]) + DigitValue(s[|s| - 1])
  }

  lemma ValueSnoc(s: string, c: char)
    ensures Value(s + [c]) == 10 * Value(s) + DigitValue(c)
  {
    assert (s + [c])[..|s|] == s;
  }

  lemma ValueOfDigit(d: nat)
    requires d < 10
    ensures DigitValue(Digit(d)) == d && Value([Digit(d)]) == d
  {
    hide Digit;
    DigitsInOrder();
    ValueSnoc("", Digit(d));
    assert "" + [Digit(d)] == [Digit(d)];
  }

  lemma DigitsInOrder()
    ensures forall d: nat :: d < 10 ==> Digit(d) == ('0' as int + d) as char
  {
  }

  lemma {:induction false} ValueOfDigits(n: nat)
    ensures Value(Digits(n)) == n
  {
    hide Digit, Value;
    ValueOfDigit(n % 10);
    if n >= 10 {
      ValueOfDigits(n / 10);
      ValueSnoc(Digits(n / 10), Digit(n % 10));
    }
  }

  lemma {:induction false} ValueOfZeros(n: int)
    ensures Value(Zeros(n)) == 0
    decreases n
  {
    if n > 0 {
      ValueOfZeros(n - 1);
      ValueSnoc(Zeros(n - 1), '0');
    }
  }

  lemma {:induction false} ValueBehindZeros(n: int, s: string)
    ensures Value(Zeros(n) + s) == Value(s)
    decreases |s|
  {
    hide Zeros;
    ValueOfZeros(n);
    if s == "" {
      assert Zeros(n) + s == Zeros(n);
    } else {
      var front := s[..|s| - 1];
      ValueBehindZeros(n, front);
      assert Zeros(n) + s == (Zeros(n) + front) + [s[|s| - 1]];
      ValueSnoc(Zeros(n) + front, s[|s| - 1]);
    }
  }

  /** Different numbers have different texts, however many digits they need. */
  lemma PaddedInjective(i: nat, j: nat)
    requires Padded(i) == Padded(j)
    ensures i == j
  {
    hide Digits, Zeros, Value;
    ValueOfDigits(i);
    ValueOfDigits(j);
    ValueBehindZeros(4 - |Digits(i)|, Digits(i));
    ValueBehindZeros(4 - |Digits(j)|, Digits(j));
  }

  // ----- order -----

  lemma {:induction false} LexPrefix(p: string, a: string, b: string)
    ensures LexLess(p + a, p + b) == LexLess(a, b)
  {
    if p == "" {
      assert p + a == a && p + b == b;
    } else {
      assert (p + a)[1..] == p[1..] + a && (p + b)[1..] == p[1..] + b;
      LexPrefix(p[1..], a, b);
    }
  }

  lemma TwoDigits(n: nat)
    requires 10 <= n < 100
    ensures Digits(n) == [Digit(n / 10), Digit(n % 10)]
  {
  }

  lemma ThreeDigits(n: nat)
    requires 100 <= n < 1000
    ensures Digits(n) == [Digit(n / 100), Digit(n / 10 % 10), Digit(n % 10)]
  {
    hide Digit;
    TwoDigits(n / 10);
    assert n / 10 / 10 == n / 100;
  }

  lemma FourDigits(n: nat)
    requires 1000 <= n < 10000
    ensures Digits(n) == [Digit(n / 1000), Digit(n / 100 % 10), Digit(n / 10 % 10), Digit(n % 10)]
  {
    hide Digit;
    ThreeDigits(n / 10);
    assert n / 10 / 100 == n / 1000 && n / 10 / 10 == n / 100;
  }

  /** Below 10000 the padded number is its four digits. */
  lemma PaddedDigits(n: nat)
    requires n < 10000
    ensures Padded(n) == [Digit(n / 1000), Digit(n / 100 % 10), Digit(n / 10 % 10), Digit(n % 10)]
  {
    hide Digits, Digit;
    ZeroTexts();
    if n < 10 {
      OneDigit(n);
      assert n / 1000 == 0 && n / 100 == 0 && n / 10 == 0 && n % 10 == n;
    } else if n < 100 {
      TwoDigits(n);
      assert n / 1000 == 0 && n / 100 == 0 && n / 10 % 10 == n / 10;
    } else if n < 1000 {
      ThreeDigits(n);
      assert n / 1000 == 0 && n / 100 % 10 == n / 100;
    } else {
      FourDigits(n);
    }
  }

  lemma PaddedTenThousand()
    ensures Padded(10000) == "10000"
  {
    hide Digit;
    FourDigits(1000);
    DigitsInOrder();
    assert Digits(10000) == Digits(1000) + [Digit(0)];
    assert Zeros(-1) == "";
  }

  lemma ZeroTexts()
    ensures Zeros(0) == "" && Zeros(1) == "0" && Zeros(2) == "00" && Zeros(3) == "000" && Digit(0) == '0'
  {
  }

  lemma OneDigit(n: nat)
    requires n < 10
    ensures Digits(n) == [Digit(n)]
  {
  }

  lemma DigitOrder(a: nat, b: nat)
    requires a < 10 && b < 10
    ensures (Digit(a) < Digit(b)) == (a < b)
  {
  }

  lemma {:induction false} LexAt(a: string, b: string, k: nat, tail: string)
    requires k < |a| && k < |b| && a[..k] == b[..k] && a[k] < b[k]
    ensures LexLess(a + tail, b + tail)
  {
    hide LexLess;
    assert a + tail == a[..k] + (a[k..] + tail) && b + tail == b[..k] + (b[k..] + tail);
    LexPrefix(a[..k], a[k..] + tail, b[k..] + tail);
    LexHead(a[k..] + tail, b[k..] + tail);
  }

  lemma LexHead(a: string, b: string)
    requires a != "" && b != "" && a[0] < b[0]
    ensures LexLess(a, b)
  {
  }

  /** Four-digit numbers compare as texts the way they compare as numbers. */
  lemma FourDigitOrder(i: nat, j: nat, tail: string)
    requires i < j < 10000
    ensures LexLess(Padded(i) + tail, Padded(j) + tail)
  {
    hide Padded, Digit, LexLess;
    PaddedDigits(i);
    PaddedDigits(j);
    DigitOrder(i / 1000, j / 1000);
    DigitOrder(i / 100 % 10, j / 100 % 10);
    DigitOrder(i / 10 % 10, j / 10 % 10);
    DigitOrder(i % 10, j % 10);
    var k := FirstDifference(i, j);
    LexAt(Padded(i), Padded(j), k, tail);
  }

  lemma Quotients(n: nat)
    ensures n / 100 == 10 * (n / 1000) + n / 100 % 10
    ensures n / 10 == 10 * (n / 100) + n / 10 % 10
    ensures n == 10 * (n / 10) + n % 10
  {
    TenTimes(n, 10);
    TenTimes(n, 100);
  }

  /** Dividing by k and then by ten is dividing by ten times k. */
  lemma TenTimes(n: nat, k: nat)
    requires k == 10 || k == 100
    ensures n / k / 10 == n / (10 * k)
  {
  }

  /** The first digit in which i and j differ; j's is larger. */
  lemma FirstDifference(i: nat, j: nat) returns (k: nat)
    requires i < j < 10000
    ensures k < 4
    ensures k > 0 ==> i / 1000 == j / 1000
    ensures k > 1 ==> i / 100 % 10 == j / 100 % 10
    ensures k > 2 ==> i / 10 % 10 == j / 10 % 10
    ensures k == 0 ==> i / 1000 < j / 1000
    ensures k == 1 ==> i / 100 % 10 < j / 100 % 10
    ensures k == 2 ==> i / 10 % 10 < j / 10 % 10
    ensures k == 3 ==> i % 10 < j % 10
  {
    Quotients(i);
    Quotients(j);
    if i / 1000 < j / 1000 {
      k := 0;
    } else if i / 100 < j / 100 {
      k := 1;
    } else if i / 10 < j / 10 {
      k := 2;
    } else {
      k := 3;
    }
  }

  // ----- five digits: `{n:05d}` -----

  function Five(n: nat): string
    requires n < 100000
  {
    [Digit(n / 10000)] + Padded(n % 10000)
  }

  lemma FiveShape(n: nat)
    requires n < 100000
    ensures |Five(n)| == 5 && forall i :: 0 <= i < 5 ==> '0' <= Five(n)[i] <= '9'
  {
    hide Digit, Digits, Zeros, Padded;
    PaddedDigits(n % 10000);
    DigitRange();
  }

  lemma DigitRange()
    ensures forall d: nat :: d < 10 ==> '0' <= Digit(d) <= '9'
  {
  }

  /** Five-digit numbers compare as texts the way they compare as numbers. */
  lemma FiveDigitOrder(i: nat, j: nat, tail: string)
    requires i < j < 100000
    ensures LexLess(Five(i) + tail, Five(j) + tail)
  {
    hide Digit, Padded, LexLess;
    var x, y := Padded(i % 10000) + tail, Padded(j % 10000) + tail;
    DigitOrder(i / 10000, j / 10000);
    assert Five(i) + tail == [Digit(i / 10000)] + x && Five(j) + tail == [Digit(j / 10000)] + y;
    if i / 10000 == j / 10000 {
      FourDigitOrder(i % 10000, j % 10000, tail);
      LexPrefix([Digit(i / 10000)], x, y);
    } else {
      LexHead([Digit(i / 10000)] + x, [Digit(j / 10000)] + y);
    }
  }
}
