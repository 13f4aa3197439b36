/** Whole numbers as decimal text. */
module Decimals {
  import opened Arithmetic

  predicate IsDigit(c: char) { '0' <= c <= '9' }

  predicate AllDigits(s: string) { forall i :: 0 <= i < |s| ==> IsDigit(s[i]) }

  predicate DigitRun(s: string, width: nat) { |s| == width && AllDigits(s) }

  function DigitChar(d: int): char
    requires 0 <= d <= 9
  {
    '0' + d as char
  }

  function DigitValue(c: char): nat
    requires IsDigit(c)
  {
    (c - '0') as nat
  }

  /** `String(n)` of a whole number. */
  function Decimal(n: nat): string {
    if n < 10 then [DigitChar(n)] else Decimal(n / 10) + [DigitChar(n % 10)]
  }

  function Zeros(n: nat): string { seq(n, _ => '0') }

  /** `String(n).padStart(width, '0')`. */
  function Pad(n: int, width: nat): string {
    var s := if n < 0 then "-" + Decimal(-n) else Decimal(n);
    if |s| < width then Zeros(width - |s|) + s else s
  }

  /** `Number(s)` of a run of digits. */
  function Number(s: string): nat
    requires AllDigits(s)
  {
    if s == "" then 0 else 10 * Number(s[..|s| - 1]) + DigitValue(s[|s| - 1])
  }

  function Pow10(n: nat): nat { if n == 0 then 1 else 10 * Pow10(n - 1) }

  /** The last `width` digits of `n`. */
  function Digits(n: nat, width: nat): string {
    if width == 0 then "" else Digits(n / 10, width - 1) + [DigitChar(n % 10)]
  }

  lemma {:induction false} ZeroDigits(width: nat)
    ensures Digits(0, width) == Zeros(width)
  {
    if width > 0 {
      ZeroDigits(width - 1);
    }
  }

  lemma {:induction false} PadIsDigits(n: nat, width: nat)
    requires 0 < width && n < Pow10(width)
    ensures Pad(n, width) == Digits(n, width)
  {
    if n < 10 {
      ZeroDigits(width - 1);
      assert Digits(n / 10, width - 1) == Zeros(width - 1);
    } else {
      assert width > 1 by {
        assert Pow10(1) == 10;
      }
      PadIsDigits(n / 10, width - 1);
    }
  }

  lemma {:induction false} DigitsBack(n: nat, width: nat)
    requires n < Pow10(width)
    ensures |Digits(n, width)| == width && AllDigits(Digits(n, width)) && Number(Digits(n, width)) == n
  {
    if width > 0 {
      DigitsBack(n / 10, width - 1);
      var s := Digits(n, width);
      assert s[..|s| - 1] == Digits(n / 10, width - 1);
    }
  }

  lemma {:induction false} NumberBack(s: string)
    requires AllDigits(s)
    ensures Number(s) < Pow10(|s|) && Digits(Number(s), |s|) == s
  {
    if s != "" {
      NumberBack(s[..|s| - 1]);
      var n, d := Number(s[..|s| - 1]), DigitValue(s[|s| - 1]);
      assert Number(s) == 10 * n + d && Number(s) / 10 == n && Number(s) % 10 == d;
      assert s == s[..|s| - 1] + [s[|s| - 1]];
    }
  }

  /** A number padded to a width it fits reads back; too wide or negative, it is not that many digits. */
  lemma PadReads(n: int, width: nat)
    requires 0 < width
    ensures var s := Pad(n, width);
            if 0 <= n < Pow10(width) then |s| == width && AllDigits(s) && Number(s) == n
            else !(|s| == width && AllDigits(s))
  {
    if 0 <= n < Pow10(width) {
      PadIsDigits(n, width);
      DigitsBack(n, width);
    } else if n < 0 {
      var s := "-" + Decimal(-n);
      assert s[0] == '-' && Pad(n, width)[|Pad(n, width)| - |s|] == '-';
    } else {
      DecimalLength(n, width);
    }
  }

  lemma {:induction false} DecimalLength(n: nat, width: nat)
    requires 0 < width && Pow10(width) <= n
    ensures |Decimal(n)| > width
  {
    assert 10 <= Pow10(width) by { PowerPositive(width - 1); }
    if width > 1 {
      DecimalLength(n / 10, width - 1);
    }
  }

  lemma {:induction false} PowerPositive(n: nat)
    ensures Pow10(n) >= 1
  {
    if n > 0 {
      PowerPositive(n - 1);
    }
  }

  lemma PadOfNumber(s: string)
    requires s != "" && AllDigits(s)
    ensures Pad(Number(s), |s|) == s && 0 <= Number(s) < Pow10(|s|)
  {
    NumberBack(s);
    PadIsDigits(Number(s), |s|);
  }

  /** `<` on text. */
  predicate TextLess(a: string, b: string) {
    b != "" && (a == "" || a[0] < b[0] || (a[0] == b[0] && TextLess(a[1..], b[1..])))
  }

  lemma {:induction false} NumberSplit(a: string, b: string)
    requires AllDigits(a) && AllDigits(b)
    ensures AllDigits(a + b) && Number(a + b) == Number(a) * Pow10(|b|) + Number(b)
  {
    if b == "" {
      assert a + b == a;
    } else {
      var s, front := a + b, b[..|b| - 1];
      assert s[..|s| - 1] == a + front && s[|s| - 1] == b[|b| - 1];
      NumberSplit(a, front);
      NumberHasLast(s);
      NumberHasLast(b);
      TenTimes(Number(a), Pow10(|front|));
      SplitsOneMore(Number(s), Number(a), Pow10(|front|), Pow10(|b|), Number(front), DigitValue(b[|b| - 1]));
    }
  }

  lemma SplitsOneMore(n: nat, a: nat, p: nat, q: nat, front: nat, d: nat)
    requires n == 10 * (a * p + front) + d && q == 10 * p
    ensures n == a * q + (10 * front + d)
  {
    TenTimes(a, p);
  }

  lemma TenTimes(a: nat, p: nat)
    ensures a * (10 * p) == 10 * (a * p)
  {
  }

  lemma NumberHead(s: string)
    requires s != "" && AllDigits(s)
    ensures Number(s) == DigitValue(s[0]) * Pow10(|s| - 1) + Number(s[1..]) && Number(s[1..]) < Pow10(|s| - 1)
  {
    var head := [s[0]];
    assert s == head + s[1..];
    NumberSplit(head, s[1..]);
    NumberBack(s[1..]);
    assert head[..0] == "" && Number(head) == DigitValue(s[0]);
  }

  /** Digit runs of one length compare as text the way their numbers compare. */
  lemma {:induction false} TextOrderIsNumberOrder(a: string, b: string)
    requires |a| == |b| && AllDigits(a) && AllDigits(b)
    ensures TextLess(a, b) <==> Number(a) < Number(b)
  {
    if a != "" {
      TextOrderIsNumberOrder(a[1..], b[1..]);
      NumberHead(a);
      NumberHead(b);
      HeadDecides(DigitValue(a[0]), DigitValue(b[0]), Number(a[1..]), Number(b[1..]), Pow10(|a| - 1));
    }
  }

  lemma HeadDecides(h: nat, k: nat, x: nat, y: nat, p: nat)
    requires x < p && y < p
    ensures h * p + x < k * p + y <==> h < k || (h == k && x < y)
  {
    if h < k {
      StepsApart(h, k, p);
    } else if k < h {
      StepsApart(k, h, p);
    }
  }

  lemma StepsApart(h: nat, k: nat, p: nat)
    requires h < k
    ensures h * p + p <= k * p
  {
    assert k * p == (h + 1) * p + (k - h - 1) * p;
    assert (k - h - 1) * p >= 0;
  }

  /** One spelling per number: no digit but a lone zero starts with zero. */
  predicate IsNumeral(s: string) { s != "" && AllDigits(s) && (s[0] == '0' ==> s == "0") }

  lemma {:induction false} DecimalReads(n: nat)
    ensures IsNumeral(Decimal(n)) && Number(Decimal(n)) == n && (n > 0 ==> Decimal(n)[0] != '0')
  {
    if n >= 10 {
      DecimalReads(n / 10);
      assert Decimal(n)[..|Decimal(n)| - 1] == Decimal(n / 10);
    } else {
      assert Decimal(n)[..0] == "";
    }
  }

  lemma {:induction false} NumeralIsDecimal(s: string)
    requires IsNumeral(s)
    ensures Decimal(Number(s)) == s && (s != "0" ==> Number(s) > 0)
  {
    if |s| == 1 {
      OneDigit(s);
    } else {
      var front := s[..|s| - 1];
      NumeralFront(s);
      NumeralIsDecimal(front);
      NumberHasLast(s);
      DecimalOfTwo(Number(s), Number(front), DigitValue(s[|s| - 1]));
    }
  }

  lemma NumeralFront(s: string)
    requires IsNumeral(s) && |s| > 1
    ensures var front, last := s[..|s| - 1], s[|s| - 1];
            IsNumeral(front) && front != "0" && IsDigit(last) && s == front + [DigitChar(DigitValue(last))]
  {
    assert s[..|s| - 1][0] == s[0];
  }

  lemma OneDigit(s: string)
    requires |s| == 1 && AllDigits(s)
    ensures Decimal(Number(s)) == s && (s != "0" ==> Number(s) > 0)
  {
    NumberHasLast(s);
    assert s[..0] == "" && Number(s) == DigitValue(s[0]);
  }

  lemma NumberHasLast(s: string)
    requires AllDigits(s) && s != ""
    ensures var front, d := s[..|s| - 1], DigitValue(s[|s| - 1]);
            AllDigits(front) && 0 <= d < 10 && Number(s) == 10 * Number(front) + d
  {
  }

  /** A number of more than one digit is its tenths and then its last digit. */
  lemma DecimalOfTwo(n: nat, m: nat, d: nat)
    requires m > 0 && d < 10 && n == 10 * m + d
    ensures Decimal(n) == Decimal(m) + [DigitChar(d)] && n > 0
  {
    QuotientIs(n, 10, m);
  }
}
