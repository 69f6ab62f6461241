/**
 * The "Random 45° increments" rotation function, integer part: from the drawn
 * `int` x it computes `r = x * 8` and `d = r * 45` in Java `int` arithmetic,
 * and rotates by `d` degrees. Despite the label, wrap-around keeps `d` only a
 * multiple of 8, and every multiple of 8 is reached.
 */
module RotationFunctionRandom45 {
  import opened JavaLang

  /** The degrees `d` for the drawn `x = SecureRandom.nextInt()`; the character is ignored. */
  function GetRotation(c: Char16, x: Int32): (d: Int32)
  {
    var r := Wrap32(x * 8);
    Wrap32(r * 45)
  }

  /** `d` is `360 * x` wrapped to 32 bits: the intermediate wrap of `r` changes nothing. */
  lemma RotationIsWrapped360(c: Char16, x: Int32)
    ensures GetRotation(c, x) == Wrap32(360 * x)
  {
    var r := Wrap32(x * 8);
    Wrap32Congruent(x * 8);
    var q := (x * 8 - INT_MIN) / TWO_32;
    assert r == 8 * x - q * TWO_32;
    var d := Wrap32(r * 45);
    Wrap32Congruent(r * 45);
    var q' := (r * 45 - INT_MIN) / TWO_32;
    assert 360 * x == d + (q' + 45 * q) * TWO_32;
    Wrap32Unique(360 * x, q' + 45 * q, d);
  }

  /** The only arithmetic guarantee: `d` is a multiple of 8. */
  lemma RotationMultipleOf8(c: Char16, x: Int32)
    ensures GetRotation(c, x) % 8 == 0
  {
    RotationIsWrapped360(c, x);
    var q := (360 * x - INT_MIN) / TWO_32;
    Wrap32Congruent(360 * x);
    assert Wrap32(360 * x) == 8 * (45 * x - q * 0x2000_0000);
  }

  /** Up to `|x| <= 5965232` nothing wraps: `d == 360 * x`, a whole number of turns. */
  lemma RotationExactWhenSmall(c: Char16, x: Int32)
    requires -5965232 <= x <= 5965232
    ensures GetRotation(c, x) == 360 * x
    ensures GetRotation(c, x) % 360 == 0
  {
    RotationIsWrapped360(c, x);
    Wrap32Unique(360 * x, 0, 360 * x);
  }

  /**
   * Just past that bound the value wraps, and the result is not a multiple of
   * 45: reduced modulo 360 it is 104 degrees.
   */
  lemma RotationNotMultipleOf45(c: Char16)
    ensures GetRotation(c, 5965233) == -2147483416
    ensures GetRotation(c, 5965233) % 45 == 14
    ensures GetRotation(c, 5965233) % 360 == 104
  {
    Wrap32Unique(5965233 * 8, 0, 47721864);
    Wrap32Unique(47721864 * 45, 1, -2147483416);
  }

  /** The inverse of 45 modulo 2^29: 45 * INV45 == 1 + 7 * 2^29. */
  const INV45: int := 83513253

  /** The values `d` can take are exactly the Java `int`s that are multiples of 8. */
  lemma RotationRange(c: Char16, d: Int32)
    ensures (exists x: Int32 :: GetRotation(c, x) == d) <==> d % 8 == 0
  {
    if d % 8 == 0 {
      var e := d / 8;
      var x := Wrap32(INV45 * e);
      var q := (INV45 * e - INT_MIN) / TWO_32;
      Wrap32Congruent(INV45 * e);
      assert x == INV45 * e - q * TWO_32;
      var turns: int := 360 * (x as int);
      assert turns == d + (7 * e - 360 * q) * TWO_32;
      Wrap32Unique(turns, 7 * e - 360 * q, d);
      RotationIsWrapped360(c, x);
    }
    forall x: Int32 | GetRotation(c, x) == d ensures d % 8 == 0 {
      RotationMultipleOf8(c, x);
    }
  }

  /** The character argument has no effect. */
  lemma RotationIgnoresCharacter(c: Char16, c': Char16, x: Int32)
    ensures GetRotation(c, x) == GetRotation(c', x)
  {
  }
}
