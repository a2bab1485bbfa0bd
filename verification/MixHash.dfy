/**
 mixHash of concurrent_hashmap.go is a bijection on 64-bit values: an explicit inverse undoes
 it from either side.
 */
module MixHash {
  import opened Arithmetic

  const MODULUS: nat := 0x1_0000_0000_0000_0000

  /** uint64 */
  type Word = x: nat | x < MODULUS

  // ---------- Bit operations ----------

  function Xor(a: nat, b: nat): nat {
    if a == 0 && b == 0 then 0 else 2 * Xor(a / 2, b / 2) + (a + b) % 2
  }

  function ShiftRight(a: nat, s: nat): nat {
    if s == 0 then a else ShiftRight(a / 2, s - 1)
  }

  lemma {:induction false} XorBelow(a: nat, b: nat, k: nat)
    requires a < Pow2(k) && b < Pow2(k)
    ensures Xor(a, b) < Pow2(k)
  {
    if k > 0 {
      XorBelow(a / 2, b / 2, k - 1);
    }
  }

  lemma {:induction false} XorZero(a: nat)
    ensures Xor(a, 0) == a && Xor(0, a) == a
  {
    if a > 0 {
      XorZero(a / 2);
    }
  }

  lemma {:induction false} XorHalf(a: nat, b: nat)
    ensures Xor(a, b) / 2 == Xor(a / 2, b / 2) && Xor(a, b) % 2 == (a + b) % 2
  {
  }

  lemma SameHalves(x: nat, y: nat)
    requires x / 2 == y / 2 && x % 2 == y % 2
    ensures x == y
  {
  }

  lemma Parity(a: nat, b: nat, x: nat)
    requires x % 2 == (a + b) % 2
    ensures (x + b) % 2 == a % 2
  {
  }

  /** Xor with the same value twice gives back the first. */
  lemma {:induction false} XorTwice(a: nat, b: nat)
    ensures Xor(Xor(a, b), b) == a
    decreases a + b
  {
    if a > 0 || b > 0 {
      var x := Xor(a, b);
      XorHalf(a, b);
      XorHalf(x, b);
      assert Xor(x, b) / 2 == a / 2 by {
        XorTwice(a / 2, b / 2);
      }
      Parity(a, b, x);
      SameHalves(Xor(x, b), a);
    }
  }

  lemma {:induction false} ShiftXor(a: nat, b: nat, s: nat)
    ensures ShiftRight(Xor(a, b), s) == Xor(ShiftRight(a, s), ShiftRight(b, s))
  {
    if s > 0 {
      XorHalf(a, b);
      ShiftXor(a / 2, b / 2, s - 1);
    }
  }

  /** Bit i of a value. */
  function Bit(a: nat, i: nat): nat {
    ShiftRight(a, i) % 2
  }

  /** Xor works bit by bit. */
  lemma XorBits(a: nat, b: nat, i: nat)
    ensures Bit(Xor(a, b), i) == if Bit(a, i) == Bit(b, i) then 0 else 1
  {
    ShiftXor(a, b, i);
    XorHalf(ShiftRight(a, i), ShiftRight(b, i));
  }

  lemma {:induction false} ShiftDivides(a: nat, s: nat)
    ensures ShiftRight(a, s) == a / Pow2(s)
  {
    if s > 0 {
      ShiftDivides(a / 2, s - 1);
      DivideTwice(a, Pow2(s - 1));
    }
  }

  lemma DivideTwice(a: nat, p: nat)
    requires p > 0
    ensures a / 2 / p == a / (2 * p)
  {
    var q, r := a / (2 * p), a % (2 * p);
    assert a == q * p * 2 + r;
    assert a / 2 == q * p + r / 2;
    Division(a / 2, p, q, r / 2);
  }

  lemma {:induction false} ShiftShift(a: nat, s: nat, t: nat)
    ensures ShiftRight(ShiftRight(a, s), t) == ShiftRight(a, s + t)
  {
    if s > 0 {
      ShiftShift(a / 2, s - 1, t);
    }
  }

  lemma {:induction false} ShiftAway(a: nat, k: nat, s: nat)
    requires a < Pow2(k) && k <= s
    ensures ShiftRight(a, s) == 0
  {
    if k > 0 {
      ShiftAway(a / 2, k - 1, s - 1);
    } else if s > 0 {
      ShiftAway(a / 2, 0, s - 1);
    }
  }

  lemma {:induction false} ShiftSmaller(a: nat, s: nat)
    ensures ShiftRight(a, s) <= a
  {
    if s > 0 {
      ShiftSmaller(a / 2, s - 1);
    }
  }

  lemma Pow64()
    ensures Pow2(64) == MODULUS
  {
    assert Pow2(4) == 16;
    PowSum(4, 4);
    assert Pow2(8) == 0x100;
    PowSum(8, 8);
    assert Pow2(16) == 0x1_0000;
    PowSum(16, 16);
    assert Pow2(32) == 0x1_0000_0000;
    PowSum(32, 32);
  }

  /** h ^ h >> 33 */
  function XorShift(h: Word): (r: Word) {
    Pow64();
    ShiftSmaller(h, 33);
    XorBelow(h, ShiftRight(h, 33), 64);
    Xor(h, ShiftRight(h, 33))
  }

  /** The shift is more than half the width, so doing it again undoes it. */
  lemma XorShiftTwice(h: Word)
    ensures XorShift(XorShift(h)) == h
  {
    var g := ShiftRight(h, 33);
    ShiftXor(h, g, 33);
    ShiftShift(h, 33, 33);
    Pow64();
    ShiftAway(h, 64, 66);
    XorZero(g);
    XorTwice(h, g);
  }

  // ---------- Multiplication ----------

  /** Multiplication that wraps around at 64 bits. */
  function Times(a: Word, b: Word): Word {
    a * b % MODULUS
  }

  /** Multiplying by c is undone by multiplying by its inverse d. */
  lemma TimesInverse(x: Word, c: Word, d: Word, k: nat)
    requires c * d == k * MODULUS + 1
    ensures Times(Times(x, c), d) == x
  {
    var p := x * c;
    var q, r := p / MODULUS, p % MODULUS;
    assert r * d == p * d - MODULUS * (q * d) by {
      assert p == q * MODULUS + r;
      assert p * d == q * MODULUS * d + r * d;
    }
    assert p * d == x + MODULUS * (x * k) by {
      assert p * d == x * (c * d);
      assert x * (k * MODULUS + 1) == x * k * MODULUS + x;
    }
    assert r * d == x + MODULUS * (x * k - q * d);
    Division(r * d, MODULUS, x * k - q * d, x);
  }

  // ---------- The mixer ----------

  const FIRST: Word := 0xff51_afd7_ed55_8ccd
  const SECOND: Word := 0xc4ce_b9fe_1a85_ec53
  // Their inverses modulo 2^64.
  const FIRST_INVERSE: Word := 0x4f74_430c_22a5_4005
  const SECOND_INVERSE: Word := 0x9cb4_b2f8_1293_37db

  function MixHash(h: Word): Word {
    XorShift(Times(XorShift(Times(XorShift(h), FIRST)), SECOND))
  }

  function Unmix(h: Word): Word {
    XorShift(Times(XorShift(Times(XorShift(h), SECOND_INVERSE)), FIRST_INVERSE))
  }

  lemma Inverses()
    ensures FIRST * FIRST_INVERSE == 0x4f3e_2925_cb7c_5b4e * MODULUS + 1
    ensures SECOND * SECOND_INVERSE == 0x7878_e448_12b2_d581 * MODULUS + 1
  {
  }

  lemma UnmixMix(h: Word)
    ensures Unmix(MixHash(h)) == h
  {
    Inverses();
    var a := XorShift(h);
    var b := Times(a, FIRST);
    var c := XorShift(b);
    var d := Times(c, SECOND);
    XorShiftTwice(d);
    TimesInverse(c, SECOND, SECOND_INVERSE, 0x7878_e448_12b2_d581);
    XorShiftTwice(b);
    TimesInverse(a, FIRST, FIRST_INVERSE, 0x4f3e_2925_cb7c_5b4e);
    XorShiftTwice(h);
  }

  lemma MixUnmix(h: Word)
    ensures MixHash(Unmix(h)) == h
  {
    Inverses();
    var a := XorShift(h);
    var b := Times(a, SECOND_INVERSE);
    var c := XorShift(b);
    var d := Times(c, FIRST_INVERSE);
    XorShiftTwice(d);
    TimesInverse(c, FIRST_INVERSE, FIRST, 0x4f3e_2925_cb7c_5b4e);
    XorShiftTwice(b);
    TimesInverse(a, SECOND_INVERSE, SECOND, 0x7878_e448_12b2_d581);
    XorShiftTwice(h);
  }

  /** What the table computes for a key's hash under its own seed. */
  function Seeded(hash: Word, seed: Word): Word {
    Pow64();
    XorBelow(hash, seed, 64);
    MixHash(Xor(hash, seed))
  }

  /** Under one seed distinct hashes stay distinct, and every value is taken. */
  lemma SeededDistinct(a: Word, b: Word, seed: Word)
    ensures Seeded(a, seed) == Seeded(b, seed) <==> a == b
  {
    Pow64();
    XorBelow(a, seed, 64);
    XorBelow(b, seed, 64);
    UnmixMix(Xor(a, seed));
    UnmixMix(Xor(b, seed));
    XorTwice(a, seed);
    XorTwice(b, seed);
  }

  lemma SeededOnto(h: Word, seed: Word) returns (hash: Word)
    ensures Seeded(hash, seed) == h
  {
    Pow64();
    XorBelow(Unmix(h), seed, 64);
    hash := Xor(Unmix(h), seed);
    XorTwice(Unmix(h), seed);
    MixUnmix(h);
  }
}
