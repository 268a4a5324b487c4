/** Decimal numerals, and reading them back. */
module Numerals {

  function Digit(d: nat): char
    requires d < 10
  {
    "0123456789"[d]
  }

  predicate IsDigit(c: char) {
    '0' <= c <= '9'
  }

  function DigitValue(c: char): nat
    requires IsDigit(c)
  {
    (c as int) - ('0' as int)
  }

  /** A number as its shortest decimal numeral. */
  function Decimal(n: nat): (r: string)
    ensures |r| > 0
  {
    if n < 10 then [Digit(n)] else Decimal(n / 10) + [Digit(n % 10)]
  }

  predicate AllDigits(s: string) {
    forall i :: 0 <= i < |s| ==> IsDigit(s[i])
  }

  /** The number a string of digits stands for. */
  function Read(s: string): nat
    requires AllDigits(s)
  {
    if s == "" then 0
    else
      var front := s[..|s| - 1];
      assert forall i :: 0 <= i < |front| ==> front[i] == s[i];
      10 * Read(front) + DigitValue(s[|s| - 1])
  }

  lemma {:induction false} ReadDecimal(n: nat)
    ensures AllDigits(Decimal(n)) && Read(Decimal(n)) == n
    decreases n
  {
    if n >= 10 {
      ReadDecimal(n / 10);
      assert Decimal(n)[..|Decimal(n)| - 1] == Decimal(n / 10);
    }
  }

  /** Zeros in front do not change the number. */
  function Zeros(k: nat): (r: string)
    ensures |r| == k
  {
    if k == 0 then "" else "0" + Zeros(k - 1)
  }

  lemma {:induction false} ReadPadded(k: nat, s: string)
    requires AllDigits(s)
    ensures AllDigits(Zeros(k) + s) && Read(Zeros(k) + s) == Read(s)
    decreases |s|, k
  {
    ZerosAreDigits(k);
    if s == "" {
      assert Zeros(k) + s == Zeros(k);
      if k > 0 {
        ReadPadded(k - 1, "");
        assert Zeros(k - 1) + "" == Zeros(k - 1);
        ZerosSnoc(k);
        assert Zeros(k)[..k - 1] == Zeros(k - 1);
      }
    } else {
      var front := s[..|s| - 1];
      assert forall i :: 0 <= i < |front| ==> front[i] == s[i];
      ReadPadded(k, front);
      assert (Zeros(k) + s)[..k + |s| - 1] == Zeros(k) + front;
    }
  }

  lemma {:induction false} ZerosAreDigits(k: nat)
    ensures AllDigits(Zeros(k))
  {
    if k > 0 { ZerosAreDigits(k - 1); }
  }

  lemma {:induction false} ZerosSnoc(k: nat)
    requires k > 0
    ensures Zeros(k) == Zeros(k - 1) + "0"
  {
    if k > 1 { ZerosSnoc(k - 1); }
  }

  function Pow10(k: nat): nat {
    if k == 0 then 1 else 10 * Pow10(k - 1)
  }

  /** A number below a power of ten has at most that many digits, and the other way round. */
  lemma {:induction false} DecimalLength(n: nat, k: nat)
    requires k > 0
    ensures |Decimal(n)| <= k <==> n < Pow10(k)
    decreases n
  {
    if n >= 10 && k > 1 {
      DecimalLength(n / 10, k - 1);
      assert n / 10 < Pow10(k - 1) <==> n < 10 * Pow10(k - 1);
    } else if n < 10 {
      AtLeastTen(k);
    } else {
      assert Pow10(1) == 10;
    }
  }

  lemma {:induction false} AtLeastTen(k: nat)
    requires k > 0
    ensures Pow10(k) >= 10
  {
    if k > 1 { AtLeastTen(k - 1); }
  }

  /** `f"{n:0{width}d}"`: at least `width` characters, filled up with zeros in front. */
  function Padded(n: nat, width: nat): (r: string)
    ensures |r| >= width
  {
    if |Decimal(n)| >= width then Decimal(n) else Zeros(width - |Decimal(n)|) + Decimal(n)
  }

  lemma {:induction false} ReadsPadded(n: nat, width: nat)
    ensures AllDigits(Padded(n, width)) && Read(Padded(n, width)) == n
  {
    hide Read, AllDigits, Zeros;
    ReadDecimal(n);
    if |Decimal(n)| < width { ReadPadded(width - |Decimal(n)|, Decimal(n)); }
  }

  /** The numeral has exactly the width when the number fits in it, and overflows it otherwise. */
  lemma {:induction false} PaddedWidth(n: nat, width: nat)
    requires width > 0
    ensures |Padded(n, width)| == width <==> n < Pow10(width)
  {
    DecimalLength(n, width);
  }
}
