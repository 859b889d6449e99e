/** The bitwise JavaScript operators the MPR121 driver uses (`&` and `1 << n`),
    on the non-negative operands below 2^31 it applies them to, with their
    arithmetic meaning: masking with 2^k - 1 keeps the remainder, and-ing
    with 2^k tests one bit. */
module JsBits {

  /** 2 to the power n; `1 << n` in JavaScript for n < 31. */
  function Pow2(n: nat): (r: nat)
    ensures r >= 1
  {
    if n == 0 then 1 else 2 * Pow2(n - 1)
  }

  /** Bit i of x, counting from the least significant bit 0. */
  predicate Bit(x: nat, i: nat) {
    (x / Pow2(i)) % 2 == 1
  }

  /** JavaScript `a & b` for operands below 2^31, built one bit at a time
      from the least significant end. JavaScript first converts both
      operands to signed 32-bit integers, which leaves such operands as they
      are; larger operands would differ (`2^31 & 2^31` is -2^31 there). */
  function And(a: nat, b: nat): (r: nat)
    ensures r <= a && r <= b
    decreases a
  {
    if a == 0 || b == 0 then 0
    else 2 * And(a / 2, b / 2) + (if a % 2 == 1 && b % 2 == 1 then 1 else 0)
  }

  /** Quotient and remainder are determined by the division equation. */
  lemma DivModUnique(x: int, d: int, q: int, r: int)
    requires d > 0 && x == d * q + r && 0 <= r < d
    ensures x / d == q && x % d == r
  {
    var e := q - x / d;
    assert d * e == x % d - r;
  }

  /** Dividing by 2m is halving and then dividing by m; the remainder
      modulo 2m is rebuilt from the remainders of the two steps. */
  lemma DivModHalf(x: nat, m: nat)
    requires m > 0
    ensures x / (2 * m) == (x / 2) / m
    ensures x % (2 * m) == 2 * ((x / 2) % m) + x % 2
  {
    var q, t := (x / 2) / m, (x / 2) % m;
    assert x / 2 == m * q + t;
    assert x == (2 * m) * q + (2 * t + x % 2);
    DivModUnique(x, 2 * m, q, 2 * t + x % 2);
  }

  /** Bit i + 1 of x is bit i of x halved. */
  lemma BitOfHalf(x: nat, i: nat)
    ensures Bit(x, i + 1) == Bit(x / 2, i)
  {
    DivModHalf(x, Pow2(i));
  }

  /** Unfolding And once when the mask is odd: the low bit of x survives. */
  lemma AndOdd(x: nat, b: nat)
    requires x > 0 && b % 2 == 1
    ensures And(x, b) == 2 * And(x / 2, b / 2) + x % 2
  {
  }

  /** Unfolding And once when the mask is even: the low bit is cleared. */
  lemma AndEven(x: nat, b: nat)
    requires b > 0 && b % 2 == 0
    ensures And(x, b) == 2 * And(x / 2, b / 2)
  {
  }

  /** `x & ((1 << k) - 1)` is x modulo 2^k. */
  lemma {:induction false} AndMask(x: nat, k: nat)
    ensures And(x, Pow2(k) - 1) == x % Pow2(k)
  {
    if k == 0 {
      assert Pow2(k) - 1 == 0;
    } else if x == 0 {
      assert And(x, Pow2(k) - 1) == 0;
    } else {
      var m := Pow2(k - 1);
      var mask := Pow2(k) - 1;
      assert Pow2(k) == 2 * m;
      assert mask / 2 == m - 1 && mask % 2 == 1;
      AndOdd(x, mask);
      AndMask(x / 2, k - 1);
      DivModHalf(x, m);
      assert And(x, mask) == 2 * ((x / 2) % m) + x % 2;
    }
  }

  /** `x & (1 << k)` is either 2^k or 0, according to bit k of x. */
  lemma {:induction false} AndPow2(x: nat, k: nat)
    ensures And(x, Pow2(k)) == if Bit(x, k) then Pow2(k) else 0
  {
    if k == 0 {
      assert And(x, 1) == x % 2;
    } else {
      var m := Pow2(k - 1);
      AndEven(x, Pow2(k));
      AndPow2(x / 2, k - 1);
      BitOfHalf(x, k - 1);
    }
  }

  /** The low bit of `x & y` and the and of the remaining bits. */
  lemma AndHalves(x: nat, y: nat)
    requires x > 0 && y > 0
    ensures And(x, y) / 2 == And(x / 2, y / 2)
    ensures And(x, y) % 2 == if x % 2 == 1 && y % 2 == 1 then 1 else 0
  {
  }

  /** Bit i of `x & y` is set exactly when bit i is set in both. */
  lemma {:induction false} AndBit(x: nat, y: nat, i: nat)
    ensures Bit(And(x, y), i) == (Bit(x, i) && Bit(y, i))
  {
    if x == 0 || y == 0 {
      assert 0 / Pow2(i) == 0;
    } else if i == 0 {
      AndHalves(x, y);
    } else {
      AndHalves(x, y);
      AndBit(x / 2, y / 2, i - 1);
      BitOfHalf(x, i - 1);
      BitOfHalf(y, i - 1);
      BitOfHalf(And(x, y), i - 1);
    }
  }

  /** The mask 2^k - 1 has exactly bits 0 to k - 1 set. */
  lemma {:induction false} BitOfMask(k: nat, i: nat)
    ensures Bit(Pow2(k) - 1, i) == (i < k)
  {
    if k == 0 {
      assert (0 / Pow2(i)) == 0;
    } else if i > 0 {
      BitOfMask(k - 1, i - 1);
      BitOfHalf(Pow2(k) - 1, i - 1);
    }
  }
}
