/**
 * The report timestamp: `datetime.now().strftime("%Y%m%d_%H%M%S")` (app.py),
 * with the clock reading taken as a parameter.
 */
module Timestamp {

  /** A wall-clock reading at second resolution. */
  datatype DateTime = DateTime(year: nat, month: nat, day: nat, hour: nat, minute: nat, second: nat)

  /** The readings a `datetime` holds, restricted to four-digit years. */
  predicate Valid(d: DateTime)
  {
    && 1000 <= d.year <= 9999
    && 1 <= d.month <= 12 && 1 <= d.day <= 31
    && d.hour < 24 && d.minute < 60 && d.second < 60
  }

  function Pow10(w: nat): nat
  {
    if w == 0 then 1 else 10 * Pow10(w - 1)
  }

  function DigitChar(n: nat): char
    requires n < 10
  {
    ('0' as int + n) as char
  }

  predicate IsDigit(c: char)
  {
    '0' <= c <= '9'
  }

  /** `n` written in decimal with exactly `width` digits, zero-padded on the left (`%02d`, `%04d`). */
  function Digits(n: nat, width: nat): (s: seq<char>)
    ensures |s| == width
    ensures forall i :: 0 <= i < |s| ==> IsDigit(s[i])
  {
    if width == 0 then [] else Digits(n / 10, width - 1) + [DigitChar(n % 10)]
  }

  /** The number a string of decimal digits denotes, most significant digit first. */
  function DecimalValue(s: string): nat
    requires forall i :: 0 <= i < |s| ==> IsDigit(s[i])
  {
    if s == [] then 0
    else
      var last := s[|s| - 1];
      assert IsDigit(last);
      10 * DecimalValue(s[..|s| - 1]) + (last as int - '0' as int)
  }

  /** The fixed-width digits spell `n` in decimal, most significant digit first. */
  lemma {:induction false} DigitsValue(n: nat, width: nat)
    requires n < Pow10(width)
    ensures DecimalValue(Digits(n, width)) == n
  {
    var s := Digits(n, width);
    if width > 0 {
      assert s[..width - 1] == Digits(n / 10, width - 1);
      assert s[width - 1] == DigitChar(n % 10);
      DigitsValue(n / 10, width - 1);
    }
  }

  /** Fixed-width decimal is one-to-one on the numbers that fit in the width. */
  lemma {:induction false} DigitsInjective(a: nat, b: nat, width: nat)
    requires a < Pow10(width) && b < Pow10(width)
    requires Digits(a, width) == Digits(b, width)
    ensures a == b
  {
    if width > 0 {
      var da, db := Digits(a, width), Digits(b, width);
      assert da[width - 1] == DigitChar(a % 10) && db[width - 1] == DigitChar(b % 10);
      assert a % 10 == b % 10;
      assert da[..width - 1] == Digits(a / 10, width - 1);
      assert db[..width - 1] == Digits(b / 10, width - 1);
      DigitsInjective(a / 10, b / 10, width - 1);
    }
  }

  /** The `YYYYMMDD_HHMMSS` text of a reading. */
  function Stamp(d: DateTime): string
  {
    Digits(d.year, 4) + Digits(d.month, 2) + Digits(d.day, 2) + "_"
      + Digits(d.hour, 2) + Digits(d.minute, 2) + Digits(d.second, 2)
  }

  /** A stamp is fifteen characters: digits, with an underscore between date and time. */
  lemma StampShape(d: DateTime)
    ensures |Stamp(d)| == 15
    ensures Stamp(d)[8] == '_'
    ensures forall i :: 0 <= i < 15 && i != 8 ==> IsDigit(Stamp(d)[i])
  {
  }

  /** Two readings give the same stamp exactly when they fall in the same second. */
  lemma StampInjective(d1: DateTime, d2: DateTime)
    requires Valid(d1) && Valid(d2)
    ensures Stamp(d1) == Stamp(d2) <==> d1 == d2
  {
    if Stamp(d1) == Stamp(d2) {
      var s1, s2 := Stamp(d1), Stamp(d2);
      assert s1[0..4] == Digits(d1.year, 4) && s2[0..4] == Digits(d2.year, 4);
      assert s1[4..6] == Digits(d1.month, 2) && s2[4..6] == Digits(d2.month, 2);
      assert s1[6..8] == Digits(d1.day, 2) && s2[6..8] == Digits(d2.day, 2);
      assert s1[9..11] == Digits(d1.hour, 2) && s2[9..11] == Digits(d2.hour, 2);
      assert s1[11..13] == Digits(d1.minute, 2) && s2[11..13] == Digits(d2.minute, 2);
      assert s1[13..15] == Digits(d1.second, 2) && s2[13..15] == Digits(d2.second, 2);
      assert Pow10(2) == 100 && Pow10(4) == 10000 by {
        assert Pow10(1) == 10;
        assert Pow10(3) == 1000;
      }
      DigitsInjective(d1.year, d2.year, 4);
      DigitsInjective(d1.month, d2.month, 2);
      DigitsInjective(d1.day, d2.day, 2);
      DigitsInjective(d1.hour, d2.hour, 2);
      DigitsInjective(d1.minute, d2.minute, 2);
      DigitsInjective(d1.second, d2.second, 2);
    }
  }
}
