/** Bitwise operations on unsigned integers, bit by bit, and the arithmetic they amount to. */
module Bits {

  function Power2(k: nat): (r: nat)
    ensures r > 0
  {
    if k == 0 then 1 else 2 * Power2(k - 1)
  }

  function And(x: nat, y: nat): nat {
    if x == 0 then 0 else 2 * And(x / 2, y / 2) + (if x % 2 == 1 && y % 2 == 1 then 1 else 0)
  }

  function Or(x: nat, y: nat): nat
    decreases x + y
  {
    if x == 0 && y == 0 then 0 else 2 * Or(x / 2, y / 2) + (if x % 2 == 1 || y % 2 == 1 then 1 else 0)
  }

  /** A 32-bit shift to the left: bits past the top are lost. */
  function Shl32(x: nat, k: nat): nat {
    x * Power2(k) % Power2(32)
  }

  /** Masking with k ones is the remainder by 2^k. */
  lemma {:induction false} AndMask(x: nat, k: nat)
    ensures And(x, Power2(k) - 1) == x % Power2(k)
  {
    if k == 0 {
      AndZero(x);
    } else if x > 0 {
      AndMask(x / 2, k - 1);
      AndMaskStep(x, Power2(k - 1), Power2(k));
    }
  }

  lemma AndMaskStep(x: nat, p: nat, q: nat)
    requires x > 0 && p > 0 && q == 2 * p && And(x / 2, p - 1) == x / 2 % p
    ensures And(x, q - 1) == x % q
  {
    assert (2 * p - 1) / 2 == p - 1 && (2 * p - 1) % 2 == 1;
    RemainderByDouble(x, p);
  }

  lemma {:induction false} AndZero(x: nat)
    ensures And(x, 0) == 0
  {
    if x > 0 {
      AndZero(x / 2);
    }
  }

  lemma RemainderByDouble(x: nat, p: nat)
    requires p > 0
    ensures x % (2 * p) == 2 * (x / 2 % p) + x % 2 && x / (2 * p) == x / 2 / p
  {
    var h, q, r := x / 2, x / 2 / p, x / 2 % p;
    assert x == 2 * h + x % 2 && h == q * p + r;
    assert x == q * (2 * p) + (2 * r + x % 2);
    RemainderIs(x, q, 2 * p, 2 * r + x % 2);
  }

  lemma RemainderIs(x: nat, q: nat, d: nat, r: nat)
    requires x == q * d + r && r < d
    ensures x % d == r && x / d == q
  {
    var e := q - x / d;
    assert x == x / d * d + x % d;
    assert e * d == x % d - r;
    Multiples(e, d);
  }

  lemma Multiples(e: int, d: nat)
    ensures (e >= 1 ==> e * d >= d) && (e <= -1 ==> e * d + d <= 0)
  {
  }

  /** Or-ing a number below 2^k into a multiple of 2^k adds it. */
  lemma {:induction false} OrDisjoint(m: nat, y: nat, k: nat)
    requires y < Power2(k)
    ensures Or(m * Power2(k), y) == m * Power2(k) + y
  {
    if k == 0 {
      OrZero(m);
    } else {
      var p := Power2(k - 1);
      assert m * (2 * p) == 2 * (m * p);
      if m * Power2(k) + y > 0 {
        OrDisjoint(m, y / 2, k - 1);
      }
    }
  }

  lemma {:induction false} OrZero(x: nat)
    ensures Or(x, 0) == x
  {
    if x > 0 {
      OrZero(x / 2);
    }
  }

  lemma Powers()
    ensures Power2(3) == 8 && Power2(4) == 16 && Power2(7) == 128 && Power2(8) == 256 && Power2(16) == 65536
    ensures Power2(24) == 16777216 && Power2(31) == 0x8000_0000 && Power2(32) == 0x1_0000_0000
  {
    assert Power2(4) == 16 && Power2(7) == 128 && Power2(8) == 256;
    assert Power2(10) == 1024 && Power2(12) == 4096 && Power2(14) == 16384 && Power2(16) == 65536;
    assert Power2(18) == 262144 && Power2(20) == 1048576 && Power2(22) == 4194304 && Power2(24) == 16777216;
    assert Power2(26) == 67108864 && Power2(28) == 268435456 && Power2(30) == 1073741824;
    assert Power2(31) == 0x8000_0000 && Power2(32) == 0x1_0000_0000;
  }
}
