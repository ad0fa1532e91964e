/** Decimal numbers as text, and back. */
module Text {

  function Digit(d: nat): char
    requires d < 10
  {
    "0123456789"[d]
  }

  function DigitValue(c: char): nat {
    if '0' <= c <= '9' then (c - '0') as nat else 0
  }

  /** A non-negative number in decimal, without leading zeros. */
  function Digits(n: nat): (s: string)
    ensures |s| >= 1
    ensures forall c :: c in s ==> '0' <= c <= '9'
  {
    if n < 10 then [Digit(n)] else Digits(n / 10) + [Digit(n % 10)]
  }

  function Value(s: string): nat {
    if s == "" then 0 else 10 * Value(s[..|s| - 1]) + DigitValue(s[|s| - 1])
  }

  /** A signed number as a stream prints it. */
  function Decimal(n: int): string {
    if n < 0 then "-" + Digits(-n) else Digits(n)
  }

  lemma DigitRoundTrip(d: nat)
    requires d < 10
    ensures DigitValue(Digit(d)) == d
  {
    assert Digit(d) == "0123456789"[d];
  }

  /** Reading the digits gives the number back. */
  lemma {:induction false} ValueOfDigits(n: nat)
    ensures Value(Digits(n)) == n
  {
    DigitRoundTrip(n % 10);
    if n >= 10 {
      ValueOfDigits(n / 10);
      assert Digits(n)[..|Digits(n)| - 1] == Digits(n / 10);
    } else {
      assert Digits(n)[..0] == "";
    }
  }

  /** Zeros in front do not change the value. */
  lemma {:induction false} ValueOfPadded(zeros: nat, s: string)
    ensures Value(seq(zeros, i => '0') + s) == Value(s)
    decreases zeros + |s|
  {
    var p := seq(zeros, i => '0');
    if s == "" {
      assert p + s == p;
      if zeros > 0 {
        assert p[..zeros - 1] == seq(zeros - 1, i => '0') + "";
        ValueOfPadded(zeros - 1, "");
      }
    } else {
      assert (p + s)[..zeros + |s| - 1] == p + s[..|s| - 1];
      ValueOfPadded(zeros, s[..|s| - 1]);
    }
  }
}
