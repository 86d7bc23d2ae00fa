/** Python's conversion of an integer to a float, done where `enable_load`
    and `show_live_data` scale a value for display (`n * 0.1`,
    `n / 1000.0`). */
module Floats {
  import opened Text

  /** 2**1024 - 2**970: the least magnitude that rounds past the largest
      double. Converting such an integer raises `OverflowError`. */
  const FloatLimit: nat := 179769313486231580793728971405303415079934132710037826936173778980444968292764750946649017977587207096330286416692887910946555547851940402630657488671505820681908902000708383676273854845817711531764475730270069855571366959622842914819860834936475292719074168444365510704342711559699508093042880177904174497792

  /** Multiplying or dividing `n` by a float does not raise. */
  predicate FitsFloat(n: int) {
    Abs(n) < FloatLimit
  }

  function Pow10(k: nat): nat {
    if k == 0 then 1 else 10 * Pow10(k - 1)
  }

  lemma {:induction false} Pow10Add(a: nat, b: nat)
    ensures Pow10(a + b) == Pow10(a) * Pow10(b)
  {
    if a > 0 {
      Pow10Add(a - 1, b);
      assert Pow10(a + b) == 10 * (Pow10(a - 1) * Pow10(b));
    }
  }

  /** 10**309 exceeds the float limit; the powers are built by repeated squaring. */
  lemma Pow10Of309()
    ensures Pow10(309) > FloatLimit
  {
    Pow10Of128();
    Pow10Add(128, 128);
    Pow10Add(256, 32);
    Pow10Add(288, 16);
    Pow10Add(304, 4);
    Pow10Add(308, 1);
    assert Pow10(309) == 1000000000000000000000000000000000000000000000000000000000000000000000000000000000000000000000000000000000000000000000000000000000000000000000000000000000000000000000000000000000000000000000000000000000000000000000000000000000000000000000000000000000000000000000000000000000000000000000000000000000000000000000;
  }

  lemma Pow10Of128()
    ensures Pow10(128) == 100000000000000000000000000000000000000000000000000000000000000000000000000000000000000000000000000000000000000000000000000000000 && Pow10(32) == 100000000000000000000000000000000
    ensures Pow10(16) == 10000000000000000 && Pow10(4) == 10000 && Pow10(1) == 10
  {
    Pow10Of32();
    Pow10Add(32, 32);
    var p64 := Pow10(32) * Pow10(32);
    assert p64 == 10000000000000000000000000000000000000000000000000000000000000000;
    Pow10Add(64, 64);
    assert Pow10(128) == p64 * p64;
  }

  lemma Pow10Of32()
    ensures Pow10(32) == 100000000000000000000000000000000
    ensures Pow10(16) == 10000000000000000 && Pow10(4) == 10000 && Pow10(1) == 10
  {
    Pow10Of16();
    Pow10Add(16, 16);
  }

  lemma Pow10Of16()
    ensures Pow10(16) == 10000000000000000 && Pow10(4) == 10000 && Pow10(1) == 10
  {
    assert Pow10(2) == 100;
    Pow10Add(2, 2);
    Pow10Add(4, 4);
    Pow10Add(8, 8);
  }

  /** A number below 10**k has at most k decimal digits. */
  lemma {:induction false} NatToStringBelow(n: nat, k: nat)
    requires 1 <= k && n < Pow10(k)
    ensures |NatToString(n)| <= k
  {
    if n >= 10 {
      assert Pow10(1) == 10;
      assert n / 10 < Pow10(k - 1);
      NatToStringBelow(n / 10, k - 1);
    }
  }

  /** Any integer a float can hold has at most 309 decimal digits, well
      within `int()`'s digit limit. */
  lemma FitsFloatDigits(n: int)
    requires FitsFloat(n)
    ensures |NatToString(Abs(n))| <= 309 < MaxStrDigits
  {
    Pow10Of309();
    NatToStringBelow(Abs(n), 309);
  }
}
