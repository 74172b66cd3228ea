/** Bitwise operations on unbounded integers in two's complement, as Python has them, bit by bit. */
module Sha256Words {
  import opened Arithmetic
  import opened Binary

  const WORD: int := 0x1_0000_0000
  const MASK: int := 0xffff_ffff

  type U32 = x: int | 0 <= x < WORD witness 0

  /** Bit `i`; a negative number has ones all the way up. */
  predicate Bit(x: int, i: nat)
    decreases i
  {
    if i == 0 then x % 2 == 1 else Bit(x / 2, i - 1)
  }

  function And(x: int, y: nat): (r: nat)
    decreases y
  {
    if y == 0 then 0 else x % 2 * (y % 2) + 2 * And(x / 2, y / 2)
  }

  function Or(x: nat, y: nat): (r: nat)
    decreases x + y
  {
    if x == 0 && y == 0 then 0
    else (if x % 2 == 1 || y % 2 == 1 then 1 else 0) + 2 * Or(x / 2, y / 2)
  }

  function Xor(x: nat, y: nat): (r: nat)
    decreases x + y
  {
    if x == 0 && y == 0 then 0
    else (if x % 2 != y % 2 then 1 else 0) + 2 * Xor(x / 2, y / 2)
  }

  function Not(x: int): (r: int) {
    -x - 1
  }

  /** `x >> r`: halved `r` times. */
  function ShiftRight(x: nat, r: nat): (y: nat)
    ensures y <= x
    decreases r
  {
    if r == 0 then x else ShiftRight(x / 2, r - 1)
  }

  /** `x << r`: doubled `r` times. */
  function ShiftLeft(x: nat, r: nat): (y: nat) {
    if r == 0 then x else 2 * ShiftLeft(x, r - 1)
  }

  // ----- bit by bit -----

  lemma {:induction false} BitOfZero(i: nat)
    ensures !Bit(0, i)
    decreases i
  {
    if i > 0 {
      BitOfZero(i - 1);
    }
  }

  lemma {:induction false} BitDoubled(b: int, x: int, i: nat)
    requires 0 <= b < 2
    ensures Bit(b + 2 * x, i) <==> if i == 0 then b == 1 else Bit(x, i - 1)
  {
    assert (b + 2 * x) / 2 == x;
  }

  lemma {:induction false} BitAnd(x: int, y: nat, i: nat)
    ensures Bit(And(x, y), i) <==> Bit(x, i) && Bit(y, i)
    decreases i
  {
    if y == 0 {
      BitOfZero(i);
    } else {
      BitDoubled(x % 2 * (y % 2), And(x / 2, y / 2), i);
      if i > 0 {
        BitAnd(x / 2, y / 2, i - 1);
      }
    }
  }

  lemma {:induction false} BitOr(x: nat, y: nat, i: nat)
    ensures Bit(Or(x, y), i) <==> Bit(x, i) || Bit(y, i)
    decreases i
  {
    if x == 0 && y == 0 {
      BitOfZero(i);
    } else {
      BitDoubled(if x % 2 == 1 || y % 2 == 1 then 1 else 0, Or(x / 2, y / 2), i);
      if i > 0 {
        BitOr(x / 2, y / 2, i - 1);
      }
    }
  }

  lemma {:induction false} BitXor(x: nat, y: nat, i: nat)
    ensures Bit(Xor(x, y), i) <==> Bit(x, i) != Bit(y, i)
    decreases i
  {
    if x == 0 && y == 0 {
      BitOfZero(i);
    } else {
      BitDoubled(if x % 2 != y % 2 then 1 else 0, Xor(x / 2, y / 2), i);
      if i > 0 {
        BitXor(x / 2, y / 2, i - 1);
      }
    }
  }

  lemma {:induction false} BitNot(x: int, i: nat)
    ensures Bit(Not(x), i) <==> !Bit(x, i)
    decreases i
  {
    if i > 0 {
      assert Not(x) / 2 == Not(x / 2);
      BitNot(x / 2, i - 1);
    }
  }

  lemma {:induction false} BitShiftRight(x: nat, r: nat, i: nat)
    ensures Bit(ShiftRight(x, r), i) <==> Bit(x, i + r)
    decreases r
  {
    if r > 0 {
      BitShiftRight(x / 2, r - 1, i);
    }
  }

  lemma {:induction false} BitShiftLeft(x: nat, r: nat, i: nat)
    ensures Bit(ShiftLeft(x, r), i) <==> i >= r && Bit(x, i - r)
    decreases r
  {
    if r > 0 {
      BitDoubled(0, ShiftLeft(x, r - 1), i);
      if i > 0 {
        BitShiftLeft(x, r - 1, i - 1);
      }
    }
  }

  lemma {:induction false} BitOfSmall(x: nat, width: nat, i: nat)
    requires x < Pow2(width) && width <= i
    ensures !Bit(x, i)
    decreases i
  {
    if width == 0 {
      BitOfZero(i);
    } else {
      BitOfSmall(x / 2, width - 1, i - 1);
    }
  }

  lemma {:induction false} AndNothing(x: nat)
    ensures Pow2(0) == 1 && And(x, 0) == 0
  {
  }

  lemma {:induction false} Doubling(n: nat)
    ensures Pow2(n + 1) == 2 * Pow2(n) && Pow2(n) > 0
  {
  }

  lemma {:induction false} AndOdd(x: nat, y: nat)
    ensures And(x, 2 * y + 1) == x % 2 + 2 * And(x / 2, y)
  {
    assert (2 * y + 1) % 2 == 1 && (2 * y + 1) / 2 == y;
  }

  /** Masking keeps the lowest bits: the remainder. */
  lemma {:induction false} AndMask(x: nat, width: nat)
    ensures And(x, Pow2(width) - 1) == x % Pow2(width)
    decreases width
  {
    hide And, Pow2;
    if width == 0 {
      AndNothing(x);
    } else {
      var p := Pow2(width - 1);
      Doubling(width - 1);
      AndMask(x / 2, width - 1);
      AndOdd(x, p - 1);
      RemainderDoubled(x, p);
    }
  }

  lemma {:induction false} RemainderDoubled(x: nat, p: nat)
    requires p > 0
    ensures x % (2 * p) == x % 2 + 2 * (x / 2 % p)
  {
    var half := x / 2;
    var q, r := half / p, half % p;
    assert half == p * q + r && 0 <= r < p;
    assert x == 2 * (p * q) + (2 * r + x % 2);
    RemainderIs(x, 2 * p, q, 2 * r + x % 2);
  }

  lemma {:induction false} Pow2Of32()
    ensures Pow2(32) == WORD
  {
    assert Pow2(8) == 256;
    assert Pow2(16) == 256 * Pow2(8);
    assert Pow2(24) == 256 * Pow2(16);
    assert Pow2(32) == 256 * Pow2(24);
  }

  /** `x & 0xffffffff`. */
  function Trunc(x: nat): (r: nat)
    ensures r == x % WORD
  {
    Pow2Of32();
    AndMask(x, 32);
    And(x, MASK)
  }

  lemma {:induction false} DigitIsBit(n: nat, width: nat, i: nat)
    requires i < width
    ensures BitsOf(n, width)[i] == Bit(n, i)
    decreases i
  {
    if i > 0 {
      DigitIsBit(n / 2, width - 1, i - 1);
    }
  }
}
