/** The floating-point response code of voltha/extensions/IGMP.py (section 4.1.1 of RFC 3376). */
module Igmp {

  /** `x << n` */
  function Shl(x: nat, n: nat): nat {
    if n == 0 then x else 2 * Shl(x, n - 1)
  }

  /** `(mant | 0x10) << (exp + 3)` for codes from 128 up; smaller codes stand for themselves. */
  function DecodeFloat(code: nat): nat {
    if code < 128 then code
    else Shl(code % 16 + 16, (code / 16) % 8 + 3)
  }

  /** The shifting loop: halve until at most 31 remains. */
  function Normalize(value: nat, exp: nat): (nat, nat)
    decreases value
  {
    if value <= 31 then (exp, value) else Normalize(value / 2, exp + 1)
  }

  /** The two bit-ors join disjoint bits, since the exponent stays below 8. */
  function Encode(value: nat): nat {
    if value < 128 then value
    else if value > 31743 then 255
    else
      var (exp, mant) := Normalize(value / 8, 0);
      0x80 + exp * 16 + mant % 16
  }

  method EncodeFloat(value: nat) returns (code: nat)
    ensures code == Encode(value)
    ensures code <= 255
    ensures forall c :: 0 <= c <= 255 ==> (c <= code <==> DecodeFloat(c) <= value)
  {
    forall c | 0 <= c <= 255 ensures c <= Encode(value) <==> DecodeFloat(c) <= value {
      GaloisConnection(c, value);
    }
    EncodeRange(value);
    if value < 128 {
      return value;
    }
    if value > 31743 {
      return 255;
    }
    var exp, v := 0, value / 8;
    while v > 31
      invariant v >= 0 && exp >= 0 && Normalize(v, exp) == Normalize(value / 8, 0)
    {
      exp := exp + 1;
      v := v / 2;
    }
    return 0x80 + exp * 16 + v % 16;
  }

  lemma {:induction false} ShlStrict(a: nat, b: nat, n: nat)
    requires a < b
    ensures Shl(a, n) < Shl(b, n)
  {
    if n > 0 {
      ShlStrict(a, b, n - 1);
    }
  }

  /** More shifting outweighs a larger mantissa, as long as it is less than twice as large. */
  lemma {:induction false} ShlCross(a: nat, k: nat, b: nat, n: nat)
    requires k < n && a < 2 * b
    ensures Shl(a, k) < Shl(b, n)
  {
    if k == 0 {
      if n > 1 { ShlCross(a, 0, b, n - 1); }
    } else {
      ShlCross(a, k - 1, b, n - 1);
    }
  }

  lemma {:induction false} ShlSum(a: nat, b: nat, n: nat)
    ensures Shl(a + b, n) == Shl(a, n) + Shl(b, n)
    ensures Shl(16 * a, n) == 16 * Shl(a, n)
  {
    if n > 0 {
      ShlSum(a, b, n - 1);
    }
  }

  lemma {:induction false} NormalizeBounds(value: nat, exp: nat)
    requires value >= 16
    ensures var (e, m) := Normalize(value, exp);
            e >= exp && 16 <= m <= 31 && Shl(m, e - exp) <= value < Shl(m + 1, e - exp)
    decreases value
  {
    if value > 31 {
      NormalizeBounds(value / 2, exp + 1);
    }
  }

  /** In the middle range the code is an exponent and a mantissa that bracket the value. */
  lemma Bracket(value: nat) returns (e: nat, m: nat)
    requires 128 <= value <= 31743
    ensures e < 8 && 16 <= m <= 31 && Encode(value) == 128 + 16 * e + (m - 16)
    ensures Shl(m, e + 3) <= value < Shl(m + 1, e + 3)
  {
    NormalizeBounds(value / 8, 0);
    var (e', m') := Normalize(value / 8, 0);
    e, m := e', m';
    ShlThree(m, e);
    ShlThree(m + 1, e);
    ExponentBound(m, e);
  }

  lemma ShlThree(x: nat, n: nat)
    ensures Shl(x, n + 3) == 8 * Shl(x, n)
  {
    assert Shl(x, n + 3) == 2 * Shl(x, n + 2);
    assert Shl(x, n + 2) == 2 * Shl(x, n + 1);
  }

  lemma {:induction false} ExponentBound(m: nat, e: nat)
    requires m >= 16
    ensures e >= 8 ==> Shl(m, e) >= 4096
  {
    assert Shl(16, 8) == 4096;
    if e == 8 && m > 16 {
      ShlStrict(16, m, 8);
    } else if e > 8 {
      ShlCross(16, 8, m, e);
    }
  }

  lemma EncodeRange(value: nat)
    ensures Encode(value) <= 255
    ensures value >= 128 ==> Encode(value) >= 128
  {
    if 128 <= value <= 31743 {
      var e, m := Bracket(value);
    }
  }

  /** Codes are strictly ordered by the times they stand for. */
  lemma DecodeStrict(c: nat, d: nat)
    requires c < d <= 255
    ensures DecodeFloat(c) < DecodeFloat(d)
  {
    if d >= 128 {
      var e', m' := (d / 16) % 8 + 3, d % 16 + 16;
      if c < 128 {
        assert Shl(127, 0) == 127 && Shl(15, 3) == 120 && Shl(16, 3) == 128;
        if e' == 3 {
          if m' > 16 { ShlStrict(16, m', 3); }
        } else {
          ShlCross(16, 3, m', e');
        }
      } else {
        var e, m := (c / 16) % 8 + 3, c % 16 + 16;
        if e == e' {
          ShlStrict(m, m', e);
        } else {
          ShlCross(m, e, m', e');
        }
      }
    }
  }

  lemma CodesCompared(c: nat, e: nat, m: nat, value: nat)
    requires 128 <= c <= 255 && e < 8 && 16 <= m <= 31 && Shl(m, e + 3) <= value < Shl(m + 1, e + 3)
    ensures c <= 128 + 16 * e + (m - 16) <==> DecodeFloat(c) <= value
  {
    var e', m' := (c / 16) % 8, c % 16 + 16;
    assert c == 128 + 16 * e' + (m' - 16);
    if e' < e {
      ShlCross(m', e' + 3, m, e + 3);
    } else if e < e' {
      ShlCross(m, e + 3, m', e' + 3);
      if m + 1 < 32 { ShlCross(m + 1, e + 3, m', e' + 3); } else { ShlDouble(e + 3, m', e' + 3); }
    } else if m' < m {
      ShlStrict(m', m, e + 3);
    } else if m + 1 < m' {
      ShlStrict(m + 1, m', e + 3);
    }
  }

  /** Encoding and decoding form a Galois connection: the code of a time is the largest code that
      stands for no more than it. */
  lemma GaloisConnection(c: nat, value: nat)
    requires c <= 255
    ensures c <= Encode(value) <==> DecodeFloat(c) <= value
  {
    if value < 128 {
      if c >= 128 { DecodeStrict(127, c); }
    } else if value > 31743 {
      assert DecodeFloat(255) == Shl(31, 10) == 31744;
      if c < 255 { DecodeStrict(c, 255); }
    } else if c >= 128 {
      var e, m := Bracket(value);
      CodesCompared(c, e, m, value);
    } else {
      EncodeRange(value);
    }
  }

  lemma {:induction false} ShlDouble(k: nat, b: nat, n: nat)
    requires k < n && b >= 16
    ensures Shl(32, k) <= Shl(b, n)
  {
    if k > 0 {
      ShlDouble(k - 1, b, n - 1);
    } else if n > 1 {
      ShlDouble(0, b, n - 1);
    }
  }

  lemma EncodeMonotone(a: nat, b: nat)
    requires a <= b
    ensures Encode(a) <= Encode(b)
  {
    EncodeRange(a);
    GaloisConnection(Encode(a), a);
    GaloisConnection(Encode(a), b);
  }

  /** Every code survives decoding and encoding. */
  lemma RoundTrip(c: nat)
    requires c <= 255
    ensures Encode(DecodeFloat(c)) == c
  {
    var d := Encode(DecodeFloat(c));
    EncodeRange(DecodeFloat(c));
    GaloisConnection(c, DecodeFloat(c));
    GaloisConnection(d, DecodeFloat(c));
    if c < d {
      DecodeStrict(c, d);
    }
  }

  /** Below saturation what is lost is less than a sixteenth of the time. */
  lemma RelativeError(value: nat)
    requires 0 < value <= 31743
    ensures DecodeFloat(Encode(value)) <= value
    ensures 16 * (value - DecodeFloat(Encode(value))) < value
  {
    if value >= 128 {
      var e, m := Bracket(value);
      DecodeJoined(e, m);
      ShlSum(m, 1, e + 3);
      ShlSum(1, 0, e + 3);
      if m > 16 { ShlStrict(16, m, e + 3); }
      BelowASixteenth(value, Shl(m, e + 3), Shl(1, e + 3));
    }
  }

  lemma DecodeJoined(e: nat, m: nat)
    requires e < 8 && 16 <= m <= 31
    ensures DecodeFloat(128 + 16 * e + (m - 16)) == Shl(m, e + 3)
  {
    var code := 128 + 16 * e + (m - 16);
    assert code % 16 == m - 16 && code / 16 == 8 + e;
  }

  lemma BelowASixteenth(value: nat, low: nat, unit: nat)
    requires low <= value < low + unit && 16 * unit <= low
    ensures 16 * (value - low) < value
  {}
}
