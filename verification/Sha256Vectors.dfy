/** 32-bit vectors as words: their operations are those of the standard. */
module Sha256Vectors {
  import opened Binary
  import opened Sha256Words
  import opened Sha256Spec

  function Mask(i: nat): (m: bv32) {
    if i == 0 then 1 else Mask(i - 1) << 1
  }

  predicate Has(b: bv32, m: bv32) {
    b & m != 0
  }

  /** Bit `i`. */
  predicate At(b: bv32, i: nat) {
    Has(b, Mask(i))
  }

  function WordOf(b: bv32): (w: Word) {
    seq(32, i requires 0 <= i => At(b, i))
  }

  // ----- masks -----

  predicate Single(m: bv32) {
    m != 0 && m & (m - 1) == 0
  }

  lemma {:induction false} StaysZero(i: nat, j: nat)
    requires i <= j && Mask(i) == 0
    ensures Mask(j) == 0
    decreases j
  {
    if i < j {
      StaysZero(i, j - 1);
    }
  }

  lemma {:induction false} LastMask()
    ensures Mask(31) == 0x80000000
  {
    assert Mask(8) == 0x100;
    assert Mask(16) == 0x10000;
    assert Mask(24) == 0x1000000;
  }

  lemma {:induction false} Doubles(m: bv32)
    requires Single(m) && m << 1 != 0
    ensures Single(m << 1) && m != 0x80000000
  {
  }

  lemma {:induction false} MaskIs(i: nat)
    requires i < 32
    ensures Single(Mask(i)) && (i < 31 ==> Mask(i) != 0x80000000)
    decreases i
  {
    LastMask();
    if i > 0 {
      if Mask(i) == 0 {
        StaysZero(i, 31);
      }
      MaskIs(i - 1);
      Doubles(Mask(i - 1));
    }
    if i < 31 {
      if Mask(i + 1) == 0 {
        StaysZero(i + 1, 31);
      }
      Doubles(Mask(i));
    }
  }

  // ----- bit by bit -----

  lemma {:induction false} XorBit(x: bv32, y: bv32, z: bv32, m: bv32)
    requires Single(m)
    ensures Has(x ^ y ^ z, m) == ((Has(x, m) != Has(y, m)) != Has(z, m))
  {
  }

  lemma {:induction false} ChBit(x: bv32, y: bv32, z: bv32, m: bv32)
    requires Single(m)
    ensures Has((x & y) ^ (!x & z), m) == if Has(x, m) then Has(y, m) else Has(z, m)
  {
  }

  lemma {:induction false} MajBit(x: bv32, y: bv32, z: bv32, m: bv32)
    requires Single(m)
    ensures Has((x & y) ^ (x & z) ^ (y & z), m)
         == ((Has(x, m) && Has(y, m)) || (Has(x, m) && Has(z, m)) || (Has(y, m) && Has(z, m)))
  {
  }

  lemma {:induction false} XorAt(x: bv32, y: bv32, z: bv32, i: nat)
    requires i < 32
    ensures At(x ^ y ^ z, i) == ((At(x, i) != At(y, i)) != At(z, i))
  {
    hide Has;
    MaskIs(i);
    XorBit(x, y, z, Mask(i));
  }

  lemma {:induction false} SumOf(x: bv32, y: bv32, z: bv32)
    ensures Sum3(WordOf(x), WordOf(y), WordOf(z)) == WordOf(x ^ y ^ z)
  {
    hide At;
    var r := x ^ y ^ z;
    forall i | 0 <= i < 32
      ensures Sum3(WordOf(x), WordOf(y), WordOf(z))[i] == At(r, i)
    {
      XorAt(x, y, z, i);
    }
  }

  lemma {:induction false} ChAt(x: bv32, y: bv32, z: bv32, i: nat)
    requires i < 32
    ensures At((x & y) ^ (!x & z), i) == if At(x, i) then At(y, i) else At(z, i)
  {
    hide Has;
    MaskIs(i);
    ChBit(x, y, z, Mask(i));
  }

  lemma {:induction false} MajAt(x: bv32, y: bv32, z: bv32, i: nat)
    requires i < 32
    ensures At((x & y) ^ (x & z) ^ (y & z), i)
         == ((At(x, i) && At(y, i)) || (At(x, i) && At(z, i)) || (At(y, i) && At(z, i)))
  {
    hide Has;
    MaskIs(i);
    MajBit(x, y, z, Mask(i));
  }

  lemma {:induction false} ChoiceOf(x: bv32, y: bv32, z: bv32)
    ensures Ch(WordOf(x), WordOf(y), WordOf(z)) == WordOf((x & y) ^ (!x & z))
  {
    hide At;
    var r := (x & y) ^ (!x & z);
    forall i | 0 <= i < 32
      ensures Ch(WordOf(x), WordOf(y), WordOf(z))[i] == At(r, i)
    {
      ChAt(x, y, z, i);
    }
  }

  lemma {:induction false} MajorityIs(x: bv32, y: bv32, z: bv32, r: bv32)
    requires forall i :: 0 <= i < 32 ==>
               At(r, i) == ((At(x, i) && At(y, i)) || (At(x, i) && At(z, i)) || (At(y, i) && At(z, i)))
    ensures Maj(WordOf(x), WordOf(y), WordOf(z)) == WordOf(r)
  {
    hide At;
  }

  lemma {:induction false} MajorityOf(x: bv32, y: bv32, z: bv32)
    ensures Maj(WordOf(x), WordOf(y), WordOf(z)) == WordOf((x & y) ^ (x & z) ^ (y & z))
  {
    hide At, Maj, WordOf;
    forall i | 0 <= i < 32
      ensures At((x & y) ^ (x & z) ^ (y & z), i)
           == ((At(x, i) && At(y, i)) || (At(x, i) && At(z, i)) || (At(y, i) && At(z, i)))
    {
      MajAt(x, y, z, i);
    }
    MajorityIs(x, y, z, (x & y) ^ (x & z) ^ (y & z));
  }

  // ----- rotations, one place at a time -----

  function Turn(x: bv32, n: nat): (y: bv32) {
    if n == 0 then x else TurnOnce(Turn(x, n - 1))
  }

  function MoveOnce(y: bv32): (z: bv32) {
    y >> 1
  }

  function Move(x: bv32, n: nat): (y: bv32) {
    if n == 0 then x else MoveOnce(Move(x, n - 1))
  }

  function TurnOnce(y: bv32): (z: bv32) {
    (y >> 1) | (y << 31)
  }

  lemma {:induction false} TurnBit(y: bv32, m: bv32)
    requires Single(m) && m != 0x80000000
    ensures Has(TurnOnce(y), m) == Has(y, m << 1)
  {
  }

  lemma {:induction false} MoveBit(y: bv32, m: bv32)
    requires Single(m) && m != 0x80000000
    ensures Has(MoveOnce(y), m) == Has(y, m << 1)
  {
  }

  lemma {:induction false} TurnTop(y: bv32)
    ensures Has(TurnOnce(y), 0x80000000) == Has(y, 1) && !Has(MoveOnce(y), 0x80000000)
  {
  }

  lemma {:induction false} TurnOnceAt(y: bv32, i: nat)
    requires i < 32
    ensures At(TurnOnce(y), i) == At(y, (i + 1) % 32)
    ensures At(MoveOnce(y), i) == (i < 31 && At(y, i + 1))
  {
    hide Has, TurnOnce, MoveOnce;
    MaskIs(i);
    LastMask();
    if i < 31 {
      TurnBit(y, Mask(i));
      MoveBit(y, Mask(i));
    } else {
      TurnTop(y);
      assert Mask(0) == 1;
    }
  }

  lemma {:induction false} TurnAt(x: bv32, n: nat, i: nat)
    requires i < 32
    ensures At(Turn(x, n), i) == At(x, (i + n) % 32)
    decreases n
  {
    hide At, TurnOnce;
    if n > 0 {
      TurnOnceAt(Turn(x, n - 1), i);
      TurnAt(x, n - 1, (i + 1) % 32);
      assert ((i + 1) % 32 + (n - 1)) % 32 == (i + n) % 32;
    }
  }

  lemma {:induction false} MoveAt(x: bv32, n: nat, i: nat)
    requires i < 32
    ensures At(Move(x, n), i) == (i + n < 32 && At(x, i + n))
    decreases n
  {
    hide At, MoveOnce;
    if n > 0 {
      TurnOnceAt(Move(x, n - 1), i);
      if i < 31 {
        MoveAt(x, n - 1, i + 1);
      }
    }
  }

  lemma {:induction false} RotrOf(x: bv32, n: nat)
    ensures Rotr(WordOf(x), n) == WordOf(Turn(x, n))
  {
    forall i | 0 <= i < 32
      ensures Rotr(WordOf(x), n)[i] == WordOf(Turn(x, n))[i]
    {
      TurnAt(x, n, i);
    }
  }

  lemma {:induction false} ShrOf(x: bv32, n: nat)
    ensures Shr(WordOf(x), n) == WordOf(Move(x, n))
  {
    forall i | 0 <= i < 32
      ensures Shr(WordOf(x), n)[i] == WordOf(Move(x, n))[i]
    {
      MoveAt(x, n, i);
    }
  }

  // ----- sums -----

  /** Adding digit by digit with a carry. */
  lemma {:induction false} AddBits(x: seq<bool>, y: seq<bool>, s: seq<bool>, c: seq<bool>)
    requires |x| == |y| == |s| && |c| == |s| + 1
    requires forall i :: 0 <= i < |s| ==>
               s[i] == ((x[i] != y[i]) != c[i])
               && c[i + 1] == ((x[i] && y[i]) || (x[i] && c[i]) || (y[i] && c[i]))
    ensures Number(x) + Number(y) + (if c[0] then 1 else 0) == Number(s) + if c[|s|] then Pow2(|s|) else 0
  {
    if x != [] {
      forall i | 0 <= i < |s| - 1
        ensures c[1..][i + 1] == ((x[1..][i] && y[1..][i]) || (x[1..][i] && c[1..][i]) || (y[1..][i] && c[1..][i]))
      {
        assert c[1..][i + 1] == c[(i + 1) + 1];
      }
      AddBits(x[1..], y[1..], s[1..], c[1..]);
    }
  }

  function Plus(x: bv32, y: bv32): (s: bv32) {
    x + y
  }

  /** The carries of a sum of vectors. */
  function Carry(x: bv32, y: bv32): (c: bv32) {
    Plus(x, y) ^ x ^ y
  }

  /** `s` is the sum, and `c` its carries. */
  predicate IsSum(x: bv32, y: bv32, s: bv32, c: bv32) {
    s == x + y && c == s ^ x ^ y
  }

  lemma {:induction false} PlusIsSum(x: bv32, y: bv32)
    ensures IsSum(x, y, Plus(x, y), Carry(x, y))
  {
  }

  /** The masks of two places next to each other. */
  predicate Follow(m: bv32, n: bv32) {
    Single(m) && m != 0x80000000 && n == m << 1
  }

  lemma {:induction false} MasksFollow(i: nat)
    requires i < 31
    ensures Follow(Mask(i), Mask(i + 1))
  {
    hide Single;
    MaskIs(i);
  }

  // What is carried out of the place of mask `m`, case by case: deciding all cases at once costs far more.

  lemma {:induction false} NoneCarries(x: bv32, y: bv32, s: bv32, c: bv32, m: bv32, n: bv32)
    requires Follow(m, n) && IsSum(x, y, s, c) && !Has(x, m) && !Has(y, m)
    ensures !Has(c, n)
  {
  }

  lemma {:induction false} BothCarry(x: bv32, y: bv32, s: bv32, c: bv32, m: bv32, n: bv32)
    requires Follow(m, n) && IsSum(x, y, s, c) && Has(x, m) && Has(y, m)
    ensures Has(c, n)
  {
  }

  lemma {:induction false} FirstStops(x: bv32, y: bv32, s: bv32, c: bv32, m: bv32, n: bv32)
    requires Follow(m, n) && IsSum(x, y, s, c) && Has(x, m) && !Has(y, m) && Has(s, m)
    ensures !Has(c, n)
  {
  }

  lemma {:induction false} FirstCarries(x: bv32, y: bv32, s: bv32, c: bv32, m: bv32, n: bv32)
    requires Follow(m, n) && IsSum(x, y, s, c) && Has(x, m) && !Has(y, m) && !Has(s, m)
    ensures Has(c, n)
  {
  }

  lemma {:induction false} SecondStops(x: bv32, y: bv32, s: bv32, c: bv32, m: bv32, n: bv32)
    requires Follow(m, n) && IsSum(x, y, s, c) && !Has(x, m) && Has(y, m) && Has(s, m)
    ensures !Has(c, n)
  {
  }

  lemma {:induction false} SecondCarries(x: bv32, y: bv32, s: bv32, c: bv32, m: bv32, n: bv32)
    requires Follow(m, n) && IsSum(x, y, s, c) && !Has(x, m) && Has(y, m) && !Has(s, m)
    ensures Has(c, n)
  {
  }

  lemma {:induction false} CarriedOut(x: bv32, y: bv32, s: bv32, c: bv32, m: bv32, n: bv32)
    requires Follow(m, n) && IsSum(x, y, s, c)
    ensures Has(c, n) == ((Has(x, m) && Has(y, m)) || ((Has(x, m) || Has(y, m)) && !Has(s, m)))
  {
    hide *;
    if !Has(x, m) && !Has(y, m) {
      NoneCarries(x, y, s, c, m, n);
    } else if Has(x, m) && Has(y, m) {
      BothCarry(x, y, s, c, m, n);
    } else if Has(x, m) {
      if Has(s, m) {
        FirstStops(x, y, s, c, m, n);
      } else {
        FirstCarries(x, y, s, c, m, n);
      }
    } else if Has(s, m) {
      SecondStops(x, y, s, c, m, n);
    } else {
      SecondCarries(x, y, s, c, m, n);
    }
  }

  lemma {:induction false} BitIs(b: bv32, i: nat)
    ensures At(b, i) == Has(b, Mask(i))
  {
  }

  lemma {:induction false} CarryAt(x: bv32, y: bv32, i: nat)
    requires i < 31
    ensures At(Carry(x, y), i + 1)
         == ((At(x, i) && At(y, i)) || ((At(x, i) || At(y, i)) && !At(Plus(x, y), i)))
  {
    hide *;
    BitIs(x, i);
    BitIs(y, i);
    BitIs(Plus(x, y), i);
    BitIs(Carry(x, y), i + 1);
    PlusIsSum(x, y);
    MasksFollow(i);
    CarriedOut(x, y, Plus(x, y), Carry(x, y), Mask(i), Mask(i + 1));
  }

  lemma {:induction false} XorAgain(s: bv32, x: bv32, y: bv32, c: bv32)
    requires c == s ^ x ^ y
    ensures x ^ y ^ c == s
  {
  }

  lemma {:induction false} SumIs(x: bv32, y: bv32)
    ensures x ^ y ^ Carry(x, y) == Plus(x, y)
  {
    hide Plus;
    XorAgain(Plus(x, y), x, y, Carry(x, y));
  }

  lemma {:induction false} SumAt(x: bv32, y: bv32, i: nat)
    requires i < 32
    ensures At(Plus(x, y), i) == ((At(x, i) != At(y, i)) != At(Carry(x, y), i))
  {
    hide At, Plus, Carry;
    SumIs(x, y);
    XorAt(x, y, Carry(x, y), i);
  }

  /** Digit `i` of a sum of vectors, and the carry out of it. */
  lemma {:induction false} DigitOfSum(x: bv32, y: bv32, i: nat)
    requires i < 32
    ensures At(Plus(x, y), i) == ((At(x, i) != At(y, i)) != At(Carry(x, y), i))
    ensures var c := Carry(x, y);
            i < 31 ==> At(c, i + 1) == ((At(x, i) && At(y, i)) || (At(x, i) && At(c, i)) || (At(y, i) && At(c, i)))
  {
    hide At, Plus, Carry;
    SumAt(x, y, i);
    if i < 31 {
      CarryAt(x, y, i);
    }
  }

  lemma {:induction false} NothingCarriedIn(x: bv32, y: bv32)
    ensures !At(Carry(x, y), 0)
  {
  }

  /** Adding vectors is adding words modulo 2^32. */
  lemma {:induction false} AddOf(x: bv32, y: bv32)
    ensures Add(WordOf(x), WordOf(y)) == WordOf(Plus(x, y))
  {
    hide At, Carry, Plus, Add;
    var c := Carry(x, y);
    NothingCarriedIn(x, y);
    var cs := WordOf(c) + [(At(x, 31) && At(y, 31)) || (At(x, 31) && At(c, 31)) || (At(y, 31) && At(c, 31))];
    forall i | 0 <= i < 32
      ensures WordOf(Plus(x, y))[i] == ((WordOf(x)[i] != WordOf(y)[i]) != cs[i])
      ensures cs[i + 1] == ((WordOf(x)[i] && WordOf(y)[i]) || (WordOf(x)[i] && cs[i]) || (WordOf(y)[i] && cs[i]))
    {
      DigitOfSum(x, y, i);
    }
    SumIsAdd(WordOf(x), WordOf(y), WordOf(Plus(x, y)), cs);
  }

  lemma {:induction false} SumIsAdd(x: Word, y: Word, s: Word, c: seq<bool>)
    requires |c| == 33 && !c[0]
    requires forall i :: 0 <= i < 32 ==>
               s[i] == ((x[i] != y[i]) != c[i])
               && c[i + 1] == ((x[i] && y[i]) || (x[i] && c[i]) || (y[i] && c[i]))
    ensures Add(x, y) == s
  {
    hide Number, ToWord, Pow2;
    AddBits(x, y, s, c);
    NumberBound(s);
    Pow2Of32();
    WordAgain(s);
  }

  lemma {:induction false} WordAgain(w: Word)
    ensures ToWord(Number(w)) == w
  {
    WordIsDigits(Number(w));
    BitsOfNumber(w);
  }
}
