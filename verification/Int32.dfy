// Two's-complement 32-bit arithmetic as the generated code and its C# helpers use it.
module Int32 {
  import opened Words

  const MIN: int := -0x8000_0000
  const MAX: int := 0x7fff_ffff
  const MODULUS: int := 0x1_0000_0000

  type int32 = x: int | MIN <= x <= MAX

  // The int32 congruent to x modulo 2^32.
  function Wrap(x: int): (r: int32) {
    (x - MIN) % MODULUS + MIN
  }

  // C#'s and CIL's remainder: it takes the sign of the dividend.
  function TruncRem(a: int, b: int): (r: int)
    requires b != 0
  {
    if a >= 0 then a % b else -((-a) % b)
  }

  // Bitwise conjunction of the low `width` bits of two naturals.
  function AndBits(a: nat, b: nat, width: nat): (r: nat)
    ensures r <= a && r <= b
  {
    if width == 0 then 0 else a % 2 * (b % 2) + 2 * AndBits(a / 2, b / 2, width - 1)
  }

  function And(a: int32, b: int32): int32 {
    Wrap(AndBits(a % MODULUS, b % MODULUS, 32))
  }

  // Bit k of the two's complement of x.
  function Bit(x: int, k: nat): nat {
    x % MODULUS / Pow2(k) % 2
  }

  // Some bit is set in both.
  predicate Overlap(a: int, b: int) {
    exists k | 0 <= k < 32 :: Bit(a, k) == 1 && Bit(b, k) == 1
  }

  // What wrapping means: the result is in range and differs by a multiple of 2^32.
  lemma WrapLaw(x: int)
    ensures -0x8000_0000 <= Wrap(x) < 0x8000_0000 && (Wrap(x) - x) % 0x1_0000_0000 == 0
    ensures -0x8000_0000 <= x < 0x8000_0000 ==> Wrap(x) == x
  {
    var k := WrapWitness(x);
    assert Wrap(x) - x == k * MODULUS;
  }

  // The remainder of a division that truncates toward zero.
  lemma TruncRemLaw(a: int, b: int) returns (q: int)
    requires b != 0
    ensures a == b * q + TruncRem(a, b)
    ensures if b > 0 then -b < TruncRem(a, b) < b else b < TruncRem(a, b) < -b
    ensures (a >= 0 ==> TruncRem(a, b) >= 0) && (a <= 0 ==> TruncRem(a, b) <= 0)
  {
    if a >= 0 {
      q := a / b;
    } else {
      q := -((-a) / b);
      assert b * q == -(b * ((-a) / b));
    }
  }

  // The conjunction has exactly the bits that both operands have.
  lemma AndLaw(a: int32, b: int32)
    ensures forall k | 0 <= k < 32 :: Bit(And(a, b), k) == 1 <==> Bit(a, k) == 1 && Bit(b, k) == 1
    ensures And(a, b) == 0 <==> !Overlap(a, b)
  {
    var both := AndBits(a % MODULUS, b % MODULUS, 32);
    assert And(a, b) % MODULUS == both;
    hide And, AndBits;
    forall k | 0 <= k < 32 ensures Bit(And(a, b), k) == 1 <==> Bit(a, k) == 1 && Bit(b, k) == 1 {
      AndBitsLaw(a % MODULUS, b % MODULUS, 32, k);
    }
    ZeroBits(And(a, b));
  }

  lemma {:induction false} AndBitsLaw(a: nat, b: nat, width: nat, k: nat)
    requires k < width
    ensures AndBits(a, b, width) / Pow2(k) % 2 == 1 <==> a / Pow2(k) % 2 == 1 && b / Pow2(k) % 2 == 1
    decreases width
  {
    AndBitsStep(a, b, width);
    hide AndBits;
    if k > 0 {
      AndBitsLaw(a / 2, b / 2, width - 1, k - 1);
      HigherBit(AndBits(a, b, width), k);
      HigherBit(a, k);
      HigherBit(b, k);
    } else {
      LowestBit(AndBits(a, b, width));
      LowestBit(a);
      LowestBit(b);
    }
  }

  lemma AndBitsStep(a: nat, b: nat, width: nat)
    requires width > 0
    ensures AndBits(a, b, width) % 2 == (if a % 2 == 1 && b % 2 == 1 then 1 else 0)
    ensures AndBits(a, b, width) / 2 == AndBits(a / 2, b / 2, width - 1)
  {
    var rest := AndBits(a / 2, b / 2, width - 1);
    assert AndBits(a, b, width) == a % 2 * (b % 2) + 2 * rest;
    hide AndBits;
    LowBits(a % 2, b % 2);
  }

  lemma LowestBit(x: nat)
    ensures x / Pow2(0) % 2 == x % 2
  {}

  lemma HigherBit(x: nat, k: nat)
    requires k > 0
    ensures x / Pow2(k) % 2 == x / 2 / Pow2(k - 1) % 2
  {
    HalfFirst(x, Pow2(k - 1));
  }

  lemma LowBits(x: nat, y: nat)
    requires x < 2 && y < 2
    ensures x * y == if x == 1 && y == 1 then 1 else 0
  {}

  // Only zero has no bits.
  lemma ZeroBits(x: int32)
    ensures x == 0 <==> forall k | 0 <= k < 32 :: Bit(x, k) != 1
  {
    Powers();
    hide Pow2;
    if x == 0 {
      forall k | 0 <= k < 32 ensures Bit(x, k) != 1 {
        ZeroDivided(Pow2(k));
      }
    } else {
      var k := SomeBit(x % MODULUS, 32);
      assert Bit(x, k) == 1;
    }
  }

  lemma Powers()
    ensures Pow2(16) == 0x1_0000 && Pow2(32) == MODULUS
  {
    assert Pow2(8) == 256;
    assert Pow2(16) == 256 * Pow2(8);
    assert Pow2(24) == 256 * Pow2(16);
    assert Pow2(32) == 256 * Pow2(24);
  }

  lemma ZeroDivided(p: nat)
    requires p > 0
    ensures 0 / p == 0
  {}

  lemma {:induction false} SomeBit(x: nat, width: nat) returns (k: nat)
    requires 0 < x < Pow2(width)
    ensures k < width && x / Pow2(k) % 2 == 1
  {
    if x % 2 == 1 {
      k := 0;
    } else {
      k := SomeBit(x / 2, width - 1);
      HalfFirst(x, Pow2(k));
      k := k + 1;
    }
  }

  // Wrapping keeps the bits.
  lemma WrapBits(x: int, k: nat)
    ensures Bit(Wrap(x), k) == Bit(x, k)
  {
    var w := WrapWitness(x);
    var q := x / MODULUS;
    DivUnique(Wrap(x), q + w, x % MODULUS);
  }

  lemma WrapShift(x: int, k: int)
    ensures Wrap(x + k * MODULUS) == Wrap(x)
  {
    var y := x - MIN;
    var q := y / MODULUS;
    assert y + k * MODULUS == (q + k) * MODULUS + y % MODULUS;
    DivUnique(y + k * MODULUS, q + k, y % MODULUS);
  }

  lemma DivUnique(n: int, q: int, r: int)
    requires n == q * MODULUS + r && 0 <= r < MODULUS
    ensures n % MODULUS == r
  {}

  // Wrap(x) differs from x by a multiple of 2^32.
  lemma WrapWitness(x: int) returns (k: int)
    ensures Wrap(x) == x + k * MODULUS
  {
    k := -((x - MIN) / MODULUS);
  }

  // Wrapping an operand first does not change a wrapped sum or product.
  lemma WrapAdd(a: int, b: int)
    ensures Wrap(Wrap(a) + b) == Wrap(a + b)
    ensures Wrap(a + Wrap(b)) == Wrap(a + b)
  {
    var j := WrapWitness(a);
    var k := WrapWitness(b);
    WrapShift(a + b, j);
    WrapShift(a + b, k);
  }

  lemma WrapMul(a: int, b: int)
    ensures Wrap(Wrap(a) * b) == Wrap(a * b)
    ensures Wrap(a * Wrap(b)) == Wrap(a * b)
  {
    var j := WrapWitness(a);
    var k := WrapWitness(b);
    assert Wrap(a) * b == a * b + (j * b) * MODULUS by { Distribute(a, j, MODULUS, b); }
    assert a * Wrap(b) == a * b + (k * a) * MODULUS by { Distribute(b, k, MODULUS, a); }
    WrapShift(a * b, j * b);
    WrapShift(a * b, k * a);
  }

  lemma Distribute(a: int, j: int, m: int, b: int)
    ensures (a + j * m) * b == a * b + (j * b) * m
  {
    assert (a + j * m) * b == a * b + (j * m) * b;
    assert (j * m) * b == (j * b) * m;
  }
}
