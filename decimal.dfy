/**
  Decimal digit strings: their numeric value, and the zero-padded formatting
  that `strftime` applies to the fields of a date (`%Y`, `%m`, `%d`, `%H`,
  `%M`, `%S`).
*/
module Decimal {
  import opened Text

  function Pow10(n: nat): (r: nat)
    ensures r >= 1
  {
    if n == 0 then 1 else 10 * Pow10(n - 1)
  }

  function DigitChar(d: nat): (c: char)
    requires d < 10
    ensures IsDigit(c)
  {
    ('0' as int + d) as char
  }

  function DigitValue(c: char): nat
    requires IsDigit(c)
  {
    c as int - '0' as int
  }

  /** The number a string of decimal digits denotes, most significant digit first. */
  function Value(s: string): nat
    requires AllDigits(s)
  {
    if s == [] then 0 else 10 * Value(s[..|s| - 1]) + DigitValue(s[|s| - 1])
  }

  /** `n` written in exactly `width` decimal digits, zero-padded on the left. */
  function Pad(n: nat, width: nat): (r: string)
    ensures |r| == width && AllDigits(r)
  {
    if width == 0 then [] else
      var r := Pad(n / 10, width - 1) + [DigitChar(n % 10)];
      assert forall i :: 0 <= i < width - 1 ==> r[i] == Pad(n / 10, width - 1)[i];
      r
  }

  lemma DivTenBound(n: nat, p: nat)
    requires n < 10 * p
    ensures n / 10 < p
  {
  }

  /** Reading back a padded number gives the number, when it fits in the width. */
  lemma {:induction false} PadValue(n: nat, width: nat)
    requires n < Pow10(width)
    ensures Value(Pad(n, width)) == n
  {
    if width > 0 {
      var r := Pad(n, width);
      assert r[..width - 1] == Pad(n / 10, width - 1);
      assert DigitValue(r[width - 1]) == n % 10;
      DivTenBound(n, Pow10(width - 1));
      PadValue(n / 10, width - 1);
      assert Value(r) == 10 * (n / 10) + n % 10;
    }
  }

  lemma ConcatStep(va: int, p: int, vb: int, d: int)
    ensures 10 * (va * p + vb) + d == va * (10 * p) + (10 * vb + d)
  {
  }

  lemma MulStep(x: int, p: int)
    ensures (x + 1) * p == x * p + p
  {
  }

  lemma MulMonotone(x: nat, y: nat, p: nat)
    requires x <= y
    ensures x * p <= y * p
  {
    assert y * p == x * p + (y - x) * p;
  }

  /** The value of a concatenation: the left part shifted by the width of the right part. */
  lemma {:induction false} ValueConcat(a: string, b: string)
    requires AllDigits(a) && AllDigits(b)
    ensures AllDigits(a + b)
    ensures Value(a + b) == Value(a) * Pow10(|b|) + Value(b)
  {
    AllDigitsConcat(a, b);
    if b != [] {
      var b' := b[..|b| - 1];
      assert (a + b)[..|a + b| - 1] == a + b';
      assert (a + b)[|a + b| - 1] == b[|b| - 1];
      ValueConcat(a, b');
      assert b[..|b| - 1] == b';
      var d := DigitValue(b[|b| - 1]);
      var va, p', vb' := Value(a), Pow10(|b'|), Value(b');
      calc {
        Value(a + b);
        10 * Value(a + b') + d;
        10 * (va * p' + vb') + d;
        { ConcatStep(va, p', vb', d); }
        va * (10 * p') + (10 * vb' + d);
        va * Pow10(|b|) + (10 * vb' + d);
        va * Pow10(|b|) + Value(b);
      }
    } else {
      assert a + b == a;
    }
  }

  lemma {:induction false} ValueBound(s: string)
    requires AllDigits(s)
    ensures Value(s) < Pow10(|s|)
  {
    if s != [] {
      ValueBound(s[..|s| - 1]);
    }
  }

  /** Splitting off the leading digit. */
  lemma ValueHead(s: string)
    requires AllDigits(s) && s != []
    ensures AllDigits(s[1..])
    ensures Value(s) == DigitValue(s[0]) * Pow10(|s| - 1) + Value(s[1..])
  {
    var h, t := [s[0]], s[1..];
    assert s == h + t;
    assert AllDigits(h) && AllDigits(t);
    ValueConcat(h, t);
    assert h[..|h| - 1] == [];
    assert Value(h) == DigitValue(s[0]);
  }

  /**
    For digit strings of one width, Python's string order is numeric order;
    this is why taking the greatest of fixed-width `YYYYMMDD` tokens as
    strings gives the latest date.
  */
  lemma {:induction false} LexOrderIsNumericOrder(a: string, b: string)
    requires |a| == |b| && AllDigits(a) && AllDigits(b)
    ensures LexLe(a, b) <==> Value(a) <= Value(b)
  {
    if a != [] {
      ValueHead(a);
      ValueHead(b);
      var p := Pow10(|a| - 1);
      var da, db := DigitValue(a[0]), DigitValue(b[0]);
      if a[0] == b[0] {
        LexOrderIsNumericOrder(a[1..], b[1..]);
      } else if a[0] < b[0] {
        ValueBound(a[1..]);
        MulStep(da, p);
        MulMonotone(da + 1, db, p);
      } else {
        ValueBound(b[1..]);
        MulStep(db, p);
        MulMonotone(db + 1, da, p);
      }
    }
  }
}
