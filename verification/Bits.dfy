/** Bit operators on unsigned integers, and when they are the same as arithmetic. */
module Bits {

  function Or(a: nat, b: nat): nat
    decreases a + b
  {
    if a == 0 && b == 0 then 0
    else 2 * Or(a / 2, b / 2) + if a % 2 == 1 || b % 2 == 1 then 1 else 0
  }

  function And(a: nat, b: nat): nat
    decreases a + b
  {
    if a == 0 && b == 0 then 0
    else 2 * And(a / 2, b / 2) + if a % 2 == 1 && b % 2 == 1 then 1 else 0
  }

  function Power2(k: nat): (p: nat)
    ensures p > 0
  {
    if k == 0 then 1 else 2 * Power2(k - 1)
  }

  lemma {:induction false} OrZero(a: nat)
    ensures Or(a, 0) == a
  {
    if a > 0 { OrZero(a / 2); }
  }

  lemma {:induction false} AndZero(a: nat)
    ensures And(a, 0) == 0
  {
    if a > 0 { AndZero(a / 2); }
  }

  /** Numbers that share no bits, as one of them is below the other's lowest bit, are put together by a sum. */
  lemma {:induction false} OrIsSum(x: nat, k: nat, b: nat)
    requires b < Power2(k)
    ensures Or(Power2(k) * x, b) == Power2(k) * x + b
    decreases k
  {
    if k == 0 {
      OrZero(x);
    } else {
      var half := Power2(k - 1) * x;
      assert Power2(k) * x == 2 * half;
      OrIsSum(x, k - 1, b / 2);
    }
  }

  /** A mask of ones keeps a number that is not longer than it. */
  lemma {:induction false} AndOnes(x: nat, k: nat)
    requires x < Power2(k)
    ensures And(x, Power2(k) - 1) == x
    decreases k
  {
    if k == 0 {
    } else {
      assert (Power2(k) - 1) / 2 == Power2(k - 1) - 1;
      AndOnes(x / 2, k - 1);
    }
  }

  /** A mask with no low bits drops low bits. */
  lemma {:induction false} AndAbove(x: nat, k: nat, low: nat, mask: nat)
    requires low < Power2(k)
    ensures And(Power2(k) * x + low, Power2(k) * mask) == Power2(k) * And(x, mask)
    decreases k
  {
    if k > 0 {
      var p := Power2(k - 1);
      Doubled(p, x);
      Doubled(p, mask);
      Doubled(p, And(x, mask));
      AndHalves(2 * (p * x) + low, 2 * (p * mask));
      AndAbove(x, k - 1, low / 2, mask);
    }
  }

  lemma Doubled(p: nat, x: nat)
    ensures 2 * p * x == 2 * (p * x)
  {}

  lemma AndHalves(a: nat, b: nat)
    ensures And(a, b) == 2 * And(a / 2, b / 2) + if a % 2 == 1 && b % 2 == 1 then 1 else 0
  {}

  lemma PowersInUse()
    ensures Power2(2) == 4 && Power2(3) == 8 && Power2(5) == 32
    ensures Power2(8) == 0x100 && Power2(16) == 0x1_0000
  {
    assert Power2(1) == 2 * Power2(0) && Power2(2) == 2 * Power2(1) && Power2(3) == 2 * Power2(2);
    assert Power2(4) == 2 * Power2(3) && Power2(5) == 2 * Power2(4) && Power2(6) == 2 * Power2(5);
    assert Power2(7) == 2 * Power2(6) && Power2(8) == 2 * Power2(7) && Power2(9) == 2 * Power2(8);
    assert Power2(10) == 2 * Power2(9) && Power2(11) == 2 * Power2(10) && Power2(12) == 2 * Power2(11);
    assert Power2(13) == 2 * Power2(12) && Power2(14) == 2 * Power2(13) && Power2(15) == 2 * Power2(14);
    assert Power2(16) == 2 * Power2(15);
  }
}
