/** The SHA-256 model (sha256.py, class `SHA256`). */
module Sha256 {
  import opened Binary
  import opened Sha256Words
  import opened Sha256Spec

  const K: seq<U32> :=
    [0x428a2f98, 0x71374491, 0xb5c0fbcf, 0xe9b5dba5, 0x3956c25b, 0x59f111f1, 0x923f82a4, 0xab1c5ed5]
    + [0xd807aa98, 0x12835b01, 0x243185be, 0x550c7dc3, 0x72be5d74, 0x80deb1fe, 0x9bdc06a7, 0xc19bf174]
    + [0xe49b69c1, 0xefbe4786, 0x0fc19dc6, 0x240ca1cc, 0x2de92c6f, 0x4a7484aa, 0x5cb0a9dc, 0x76f988da]
    + [0x983e5152, 0xa831c66d, 0xb00327c8, 0xbf597fc7, 0xc6e00bf3, 0xd5a79147, 0x06ca6351, 0x14292967]
    + [0x27b70a85, 0x2e1b2138, 0x4d2c6dfc, 0x53380d13, 0x650a7354, 0x766a0abb, 0x81c2c92e, 0x92722c85]
    + [0xa2bfe8a1, 0xa81a664b, 0xc24b8b70, 0xc76c51a3, 0xd192e819, 0xd6990624, 0xf40e3585, 0x106aa070]
    + [0x19a4c116, 0x1e376c08, 0x2748774c, 0x34b0bcb5, 0x391c0cb3, 0x4ed8aa4a, 0x5b9cca4f, 0x682e6ff3]
    + [0x748f82ee, 0x78a5636f, 0x84c87814, 0x8cc70208, 0x90befffa, 0xa4506ceb, 0xbef9a3f7, 0xc67178f2]

  const H_256: seq<U32> := [
    0x6a09e667, 0xbb67ae85, 0x3c6ef372, 0xa54ff53a, 0x510e527f, 0x9b05688c, 0x1f83d9ab, 0x5be0cd19]

  const H_224: seq<U32> := [
    0xc1059ed8, 0x367cd507, 0x3070dd17, 0xf70e5939, 0xffc00b31, 0x68581511, 0x64f98fa7, 0xbefa4fa4]

  datatype Mode = Sha224 | Sha256

  // ----- the functions on numbers -----

  function Rotr32(n: nat, r: nat): (y: nat)
    requires r <= 32
  {
    Trunc(Or(ShiftRight(n, r), ShiftLeft(n, 32 - r)))
  }

  function Shr32(n: nat, r: nat): (y: nat) {
    ShiftRight(n, r)
  }

  function ChOf(x: nat, y: nat, z: nat): (r: nat) {
    Xor(And(x, y), And(Not(x), z))
  }

  function MajOf(x: nat, y: nat, z: nat): (r: nat) {
    Xor(Xor(And(x, y), And(x, z)), And(y, z))
  }

  function Sigma0(x: nat): (r: nat) { Xor(Xor(Rotr32(x, 2), Rotr32(x, 13)), Rotr32(x, 22)) }

  function Sigma1(x: nat): (r: nat) { Xor(Xor(Rotr32(x, 6), Rotr32(x, 11)), Rotr32(x, 25)) }

  function Delta0(x: nat): (r: nat) { Xor(Xor(Rotr32(x, 7), Rotr32(x, 18)), Shr32(x, 3)) }

  function Delta1(x: nat): (r: nat) { Xor(Xor(Rotr32(x, 17), Rotr32(x, 19)), Shr32(x, 10)) }

  function T1(e: nat, f: nat, g: nat, h: nat, k: nat, w: nat): (r: nat) {
    Trunc(h + Sigma1(e) + ChOf(e, f, g) + k + w)
  }

  function T2(a: nat, b: nat, c: nat): (r: nat) {
    Trunc(Sigma0(a) + MajOf(a, b, c))
  }

  // ----- they are the functions on words -----

  lemma {:induction false} InRangeBits(x: nat, i: nat)
    requires InRange(x) && 32 <= i
    ensures !Bit(x, i)
  {
    Pow2Of32();
    BitOfSmall(x, 32, i);
  }

  /** A number whose high bits are all zero is a word. */
  lemma {:induction false} SmallByBits(x: nat, width: nat)
    requires forall i :: width <= i ==> !Bit(x, i)
    ensures x < Pow2(width)
    decreases x
  {
    if x > 0 {
      if width == 0 {
        assert !Bit(x, 0);
        forall i | 0 <= i
          ensures !Bit(x / 2, i)
        {
          assert !Bit(x, i + 1);
        }
        SmallByBits(x / 2, 0);
      } else {
        forall i | width - 1 <= i
          ensures !Bit(x / 2, i)
        {
          assert !Bit(x, i + 1);
        }
        SmallByBits(x / 2, width - 1);
      }
    }
  }

  lemma {:induction false} TruncBit(x: nat, i: nat)
    ensures Bit(Trunc(x), i) <==> i < 32 && Bit(x, i)
  {
    if i < 32 {
      Pow2Of32();
      BitAnd(x, MASK, i);
      MaskBit(32, i);
    } else {
      InRangeBits(Trunc(x), i);
    }
  }

  lemma {:induction false} MaskBit(width: nat, i: nat)
    requires i < width
    ensures Bit(Pow2(width) - 1, i)
    decreases i
  {
    if i > 0 {
      assert (Pow2(width) - 1) / 2 == Pow2(width - 1) - 1;
      MaskBit(width - 1, i - 1);
    }
  }

  lemma {:induction false} RotrBit(n: nat, r: nat, i: nat)
    requires InRange(n) && 0 < r < 32 && i < 32
    ensures Bit(Rotr32(n, r), i) <==> Bit(n, (i + r) % 32)
  {
    hide Bit, Or, ShiftRight, ShiftLeft, Trunc;
    TruncBit(Or(ShiftRight(n, r), ShiftLeft(n, 32 - r)), i);
    BitOr(ShiftRight(n, r), ShiftLeft(n, 32 - r), i);
    BitShiftRight(n, r, i);
    BitShiftLeft(n, 32 - r, i);
    if i + r >= 32 {
      InRangeBits(n, i + r);
    }
  }

  lemma {:induction false} RotrWord(n: nat, r: nat)
    requires InRange(n) && 0 < r < 32
    ensures InRange(Rotr32(n, r)) && ToWord(Rotr32(n, r)) == Rotr(ToWord(n), r)
  {
    hide Bit, Or, ShiftRight, ShiftLeft, Trunc;
    var y := Rotr32(n, r);
    forall i | 0 <= i < 32
      ensures ToWord(y)[i] == Rotr(ToWord(n), r)[i]
    {
      RotrBit(n, r, i);
      assert Rotr(ToWord(n), r)[i] == ToWord(n)[(i + r) % 32];
    }
  }

  lemma {:induction false} ShrWord(n: nat, r: nat)
    requires InRange(n) && r < 32
    ensures InRange(Shr32(n, r)) && ToWord(Shr32(n, r)) == Shr(ToWord(n), r)
  {
    forall i | 0 <= i < 32
      ensures ToWord(Shr32(n, r))[i] == Shr(ToWord(n), r)[i]
    {
      BitShiftRight(n, r, i);
      if i + r >= 32 {
        InRangeBits(n, i + r);
      }
    }
  }

  lemma {:induction false} XorWords(x: nat, y: nat, z: nat)
    requires InRange(x) && InRange(y) && InRange(z)
    ensures InRange(Xor(Xor(x, y), z)) && ToWord(Xor(Xor(x, y), z)) == Sum3(ToWord(x), ToWord(y), ToWord(z))
  {
    forall i | 0 <= i
      ensures Bit(Xor(Xor(x, y), z), i) <==> (Bit(x, i) != Bit(y, i)) != Bit(z, i)
      ensures i >= 32 ==> !Bit(Xor(Xor(x, y), z), i)
    {
      BitXor(x, y, i);
      BitXor(Xor(x, y), z, i);
      if i >= 32 {
        InRangeBits(x, i);
        InRangeBits(y, i);
        InRangeBits(z, i);
      }
    }
    Pow2Of32();
    SmallByBits(Xor(Xor(x, y), z), 32);
  }

  lemma {:induction false} ChWord(x: nat, y: nat, z: nat)
    requires InRange(x) && InRange(y) && InRange(z)
    ensures InRange(ChOf(x, y, z)) && ToWord(ChOf(x, y, z)) == Ch(ToWord(x), ToWord(y), ToWord(z))
  {
    forall i | 0 <= i
      ensures Bit(ChOf(x, y, z), i) <==> if Bit(x, i) then Bit(y, i) else Bit(z, i)
      ensures i >= 32 ==> !Bit(ChOf(x, y, z), i)
    {
      BitXor(And(x, y), And(Not(x), z), i);
      BitAnd(x, y, i);
      BitAnd(Not(x), z, i);
      BitNot(x, i);
      if i >= 32 {
        InRangeBits(y, i);
        InRangeBits(z, i);
      }
    }
    Pow2Of32();
    SmallByBits(ChOf(x, y, z), 32);
  }

  lemma {:induction false} MajWord(x: nat, y: nat, z: nat)
    requires InRange(x) && InRange(y) && InRange(z)
    ensures InRange(MajOf(x, y, z)) && ToWord(MajOf(x, y, z)) == Maj(ToWord(x), ToWord(y), ToWord(z))
  {
    forall i | 0 <= i
      ensures Bit(MajOf(x, y, z), i)
            <==> (Bit(x, i) && Bit(y, i)) || (Bit(x, i) && Bit(z, i)) || (Bit(y, i) && Bit(z, i))
      ensures i >= 32 ==> !Bit(MajOf(x, y, z), i)
    {
      BitXor(Xor(And(x, y), And(x, z)), And(y, z), i);
      BitXor(And(x, y), And(x, z), i);
      BitAnd(x, y, i);
      BitAnd(x, z, i);
      BitAnd(y, z, i);
      if i >= 32 {
        InRangeBits(x, i);
        InRangeBits(y, i);
      }
    }
    Pow2Of32();
    SmallByBits(MajOf(x, y, z), 32);
  }

  lemma {:induction false} SigmaWords(x: nat)
    requires InRange(x)
    ensures InRange(Sigma0(x)) && ToWord(Sigma0(x)) == BigSigma0(ToWord(x))
    ensures InRange(Sigma1(x)) && ToWord(Sigma1(x)) == BigSigma1(ToWord(x))
  {
    RotrWord(x, 2);
    RotrWord(x, 13);
    RotrWord(x, 22);
    XorWords(Rotr32(x, 2), Rotr32(x, 13), Rotr32(x, 22));
    RotrWord(x, 6);
    RotrWord(x, 11);
    RotrWord(x, 25);
    XorWords(Rotr32(x, 6), Rotr32(x, 11), Rotr32(x, 25));
  }

  lemma {:induction false} DeltaWords(x: nat)
    requires InRange(x)
    ensures InRange(Delta0(x)) && ToWord(Delta0(x)) == SmallSigma0(ToWord(x))
    ensures InRange(Delta1(x)) && ToWord(Delta1(x)) == SmallSigma1(ToWord(x))
  {
    RotrWord(x, 7);
    RotrWord(x, 18);
    ShrWord(x, 3);
    XorWords(Rotr32(x, 7), Rotr32(x, 18), Shr32(x, 3));
    RotrWord(x, 17);
    RotrWord(x, 19);
    ShrWord(x, 10);
    XorWords(Rotr32(x, 17), Rotr32(x, 19), Shr32(x, 10));
  }

  // ----- sums -----

  lemma {:induction false} ModTwice(x: int, y: int)
    ensures (x % WORD + y) % WORD == (x + y) % WORD
  {
  }

  lemma {:induction false} AddWords(x: int, y: int)
    requires InRange(x % WORD) && InRange(y)
    ensures Add(ToWord(x % WORD), ToWord(y)) == ToWord((x + y) % WORD)
  {
    AddNumbers(x % WORD, y);
    ModTwice(x, y);
  }

  lemma {:induction false} FiveWords(x1: nat, x2: nat, x3: nat, x4: nat, x5: nat)
    requires InRange(x1) && InRange(x2) && InRange(x3) && InRange(x4) && InRange(x5)
    ensures ToWord((x1 + x2 + x3 + x4 + x5) % WORD)
         == Add(Add(Add(Add(ToWord(x1), ToWord(x2)), ToWord(x3)), ToWord(x4)), ToWord(x5))
  {
    hide ToWord, Add;
    AddNumbers(x1, x2);
    AddWords(x1 + x2, x3);
    AddWords(x1 + x2 + x3, x4);
    AddWords(x1 + x2 + x3 + x4, x5);
  }

  lemma {:induction false} SumsOf(a: nat, b: nat, c: nat, e: nat, f: nat, g: nat, h: nat, k: nat, w: nat)
    ensures InRange(T1(e, f, g, h, k, w)) && T1(e, f, g, h, k, w) == (h + Sigma1(e) + ChOf(e, f, g) + k + w) % WORD
    ensures InRange(T2(a, b, c)) && T2(a, b, c) == (Sigma0(a) + MajOf(a, b, c)) % WORD
  {
    hide Sigma0, Sigma1, ChOf, MajOf, And;
  }

  lemma {:induction false} T1Word(e: nat, f: nat, g: nat, h: nat, k: nat, w: nat)
    requires InRange(e) && InRange(f) && InRange(g) && InRange(h) && InRange(k) && InRange(w)
    ensures InRange(T1(e, f, g, h, k, w))
    ensures ToWord(T1(e, f, g, h, k, w))
         == Add(Add(Add(Add(ToWord(h), BigSigma1(ToWord(e))), Ch(ToWord(e), ToWord(f), ToWord(g))), ToWord(k)),
               ToWord(w))
  {
    hide *;
    SumsOf(0, 0, 0, e, f, g, h, k, w);
    SigmaWords(e);
    ChWord(e, f, g);
    FiveWords(h, Sigma1(e), ChOf(e, f, g), k, w);
  }

  lemma {:induction false} T2Word(a: nat, b: nat, c: nat)
    requires InRange(a) && InRange(b) && InRange(c)
    ensures InRange(T2(a, b, c))
          && ToWord(T2(a, b, c)) == Add(BigSigma0(ToWord(a)), Maj(ToWord(a), ToWord(b), ToWord(c)))
  {
    hide *;
    SumsOf(a, b, c, 0, 0, 0, 0, 0, 0);
    SigmaWords(a);
    MajWord(a, b, c);
    AddNumbers(Sigma0(a), MajOf(a, b, c));
  }

  function NextWord(w14: nat, w9: nat, w1: nat, w0: nat): (r: nat) {
    Trunc(Delta1(w14) + w9 + Delta0(w1) + w0)
  }

  lemma {:induction false} NextIsScheduled(w14: nat, w9: nat, w1: nat, w0: nat)
    requires InRange(w14) && InRange(w9) && InRange(w1) && InRange(w0)
    ensures InRange(NextWord(w14, w9, w1, w0))
    ensures ToWord(NextWord(w14, w9, w1, w0))
         == Add(Add(SmallSigma1(ToWord(w14)), ToWord(w9)), Add(SmallSigma0(ToWord(w1)), ToWord(w0)))
  {
    hide ToWord, Add, SmallSigma0, SmallSigma1, Delta0, Delta1, Trunc;
    DeltaWords(w14);
    DeltaWords(w1);
    AddNumbers(Delta1(w14), w9);
    AddNumbers(Delta0(w1), w0);
    var x, y := Delta1(w14) + w9, Delta0(w1) + w0;
    AddNumbers(x % WORD, y % WORD);
    SumOfRemainders(x, y);
    assert NextWord(w14, w9, w1, w0) == Trunc(x + y);
  }

  lemma {:induction false} SumOfRemainders(x: int, y: int)
    ensures (x % WORD + y % WORD) % WORD == (x + y) % WORD
  {
  }

  // ----- the sliding window -----

  /** The window after `t` rounds: the block, and from round 16 on the words of the last 16 rounds. */
  function Place(t: nat, i: nat): (p: nat) {
    if t < 16 then i else t - 16 + i
  }

  ghost predicate WindowIs(ws: seq<int>, block: seq<Word>, t: nat)
    requires |block| >= 16
  {
    |ws| == 16 && forall i :: 0 <= i < 16 ==> InRange(ws[i]) && ToWord(ws[i]) == Schedule(block, Place(t, i))
  }

  lemma {:induction false} WindowSlides(ws: seq<int>, block: seq<Word>, t: nat, next: int)
    requires |block| >= 16 && t >= 16 && WindowIs(ws, block, t) && next == NextWord(ws[14], ws[9], ws[1], ws[0])
    ensures InRange(next) && ToWord(next) == Schedule(block, t) && WindowIs(ws[1..] + [next], block, t + 1)
  {
    hide ToWord, Add, SmallSigma0, SmallSigma1, NextWord;
    assert InRange(ws[14]) && InRange(ws[9]) && InRange(ws[1]) && InRange(ws[0]);
    NextIsScheduled(ws[14], ws[9], ws[1], ws[0]);
    assert ToWord(ws[14]) == Schedule(block, t - 2) && ToWord(ws[9]) == Schedule(block, t - 7);
    assert ToWord(ws[1]) == Schedule(block, t - 15) && ToWord(ws[0]) == Schedule(block, t - 16);
    forall i | 0 <= i < 16
      ensures InRange((ws[1..] + [next])[i]) && ToWord((ws[1..] + [next])[i]) == Schedule(block, t - 15 + i)
    {
      if i < 15 {
        assert ToWord(ws[i + 1]) == Schedule(block, t - 16 + (i + 1));
      }
    }
  }

  lemma {:induction false} TruncInRange(x: nat)
    ensures InRange(Trunc(x))
  {
  }

  /** One round on numbers is one round on words. */
  lemma {:induction false} RoundWords(a: nat, b: nat, c: nat, d: nat, e: nat, f: nat, g: nat, h: nat, k: nat, w: nat)
    requires InRange(a) && InRange(b) && InRange(c) && InRange(d) && InRange(e) && InRange(f) && InRange(g)
          && InRange(h)
    requires InRange(k) && InRange(w)
    ensures var t1, t2 := T1(e, f, g, h, k, w), T2(a, b, c);
            && InRange(Trunc(d + t1)) && InRange(Trunc(t1 + t2))
            && Round(Variables(ToWord(a), ToWord(b), ToWord(c), ToWord(d), ToWord(e), ToWord(f), ToWord(g), ToWord(h)),
                     ToWord(k), ToWord(w))
            == Variables(ToWord(Trunc(t1 + t2)), ToWord(a), ToWord(b), ToWord(c), ToWord(Trunc(d + t1)), ToWord(e),
                  ToWord(f), ToWord(g))
  {
    hide ToWord, Add, BigSigma0, BigSigma1, Ch, Maj, T1, T2, Trunc, InRange;
    T1Word(e, f, g, h, k, w);
    T2Word(a, b, c);
    AddNumbers(d, T1(e, f, g, h, k, w));
    AddNumbers(T1(e, f, g, h, k, w), T2(a, b, c));
    TruncInRange(d + T1(e, f, g, h, k, w));
    TruncInRange(T1(e, f, g, h, k, w) + T2(a, b, c));
  }

  lemma {:induction false} EightInRange(a: int, b: int, c: int, d: int, e: int, f: int, g: int, h: int)
    requires InRange(a) && InRange(b) && InRange(c) && InRange(d) && InRange(e) && InRange(f) && InRange(g)
          && InRange(h)
    ensures AllInRange([a, b, c, d, e, f, g, h])
  {
  }

  lemma {:induction false} AddedWords(hs: seq<int>, vs: seq<int>, sums: seq<int>)
    requires |hs| == |vs| == |sums| == 8 && AllInRange(hs) && AllInRange(vs)
    requires forall i :: 0 <= i < 8 ==> sums[i] == (hs[i] + vs[i]) % WORD
    ensures AllInRange(sums)
    ensures var h := ToWords(hs);
            ToWords(sums) == [Add(h[0], ToWord(vs[0])), Add(h[1], ToWord(vs[1])),
                              Add(h[2], ToWord(vs[2])), Add(h[3], ToWord(vs[3])),
                              Add(h[4], ToWord(vs[4])), Add(h[5], ToWord(vs[5])),
                              Add(h[6], ToWord(vs[6])), Add(h[7], ToWord(vs[7]))]
  {
    hide ToWord, Add;
    forall i | 0 <= i < 8
      ensures InRange(sums[i]) && ToWords(sums)[i] == Add(ToWords(hs)[i], ToWord(vs[i]))
    {
      AddNumbers(hs[i], vs[i]);
    }
  }

  // ----- the class -----

  class Hash {
    const mode: Mode
    var H: array<int>
    var W: array<int>
    var a: int
    var b: int
    var c: int
    var d: int
    var e: int
    var f: int
    var g: int
    var h: int
    var t1: int
    var t2: int
    var k: int
    var w: int

    ghost predicate Valid()
      reads this, H, W
    {
      H.Length == 8 && W.Length == 16 && H != W && AllInRange(H[..])
    }

    ghost predicate InRegisters()
      reads this
    {
      InRange(a) && InRange(b) && InRange(c) && InRange(d) && InRange(e) && InRange(f) && InRange(g) && InRange(h)
    }

    ghost function Registers(): (v: Variables)
      reads this
    {
      Variables(ToWord(a), ToWord(b), ToWord(c), ToWord(d), ToWord(e), ToWord(f), ToWord(g), ToWord(h))
    }

    constructor (mode: Mode)
      ensures Valid() && this.mode == mode && fresh(H) && fresh(W)
      ensures H[..] == seq(8, _ => 0) && W[..] == seq(16, _ => 0)
      ensures a == b == c == d == e == f == g == h == 0 && t1 == t2 == k == w == 0
    {
      this.mode := mode;
      H, W := new int[8](_ => 0), new int[16](_ => 0);
      a, b, c, d, e, f, g, h := 0, 0, 0, 0, 0, 0, 0, 0;
      t1, t2, k, w := 0, 0, 0, 0;
    }

    /** A new list of the initial hash value. */
    method Init()
      requires Valid()
      modifies this`H
      ensures Valid() && fresh(H) && H[..] == if mode.Sha256? then H_256 else H_224
    {
      var h0 := if mode.Sha256? then H_256 else H_224;
      H := new int[8](i requires 0 <= i < 8 => h0[i]);
      assert H[..] == h0;
    }

    /** The list itself, not a copy: a later `Next` changes what was handed out. */
    method GetDigest() returns (digest: array<int>)
      ensures digest == H
    {
      digest := H;
    }

    method LoadBlock(block: seq<int>)
      requires Valid() && |block| >= 16
      modifies W
      ensures W[..] == block[..16]
    {
      for i := 0 to 16
        invariant forall j :: 0 <= j < i ==> W[j] == block[j]
      {
        W[i] := block[i];
      }
    }

    method CopyDigest()
      requires Valid()
      modifies this`a, this`b, this`c, this`d, this`e, this`f, this`g, this`h
      ensures InRegisters() && Registers() == Start(ToWords(H[..]))
    {
      a, b, c, d := H[0], H[1], H[2], H[3];
      e, f, g, h := H[4], H[5], H[6], H[7];
      assert forall i :: 0 <= i < 8 ==> InRange(H[..][i]);
    }

    method AddTo(i: nat, x: int)
      requires Valid() && i < 8 && InRange(x)
      modifies H
      ensures Valid() && H[..] == old(H[..])[i := (old(H[i]) + x) % WORD]
    {
      assert InRange(H[..][i]);
      H[i] := Trunc(H[i] + x);
    }

    method AddFirstHalf()
      requires Valid() && InRegisters()
      modifies H
      ensures Valid()
      ensures H[0] == (old(H[0]) + a) % WORD && H[1] == (old(H[1]) + b) % WORD
      ensures H[2] == (old(H[2]) + c) % WORD && H[3] == (old(H[3]) + d) % WORD
      ensures H[4] == old(H[4]) && H[5] == old(H[5]) && H[6] == old(H[6]) && H[7] == old(H[7])
    {
      hide InRange, AllInRange;
      AddTo(0, a);
      AddTo(1, b);
      AddTo(2, c);
      AddTo(3, d);
    }

    method AddSecondHalf()
      requires Valid() && InRegisters()
      modifies H
      ensures Valid()
      ensures H[0] == old(H[0]) && H[1] == old(H[1]) && H[2] == old(H[2]) && H[3] == old(H[3])
      ensures H[4] == (old(H[4]) + e) % WORD && H[5] == (old(H[5]) + f) % WORD
      ensures H[6] == (old(H[6]) + g) % WORD && H[7] == (old(H[7]) + h) % WORD
    {
      hide InRange, AllInRange;
      AddTo(4, e);
      AddTo(5, f);
      AddTo(6, g);
      AddTo(7, h);
    }

    method UpdateDigest()
      requires Valid() && InRegisters()
      modifies H
      ensures Valid()
      ensures var h0, v := old(ToWords(H[..])), Registers();
              ToWords(H[..]) == [Add(h0[0], v.a), Add(h0[1], v.b), Add(h0[2], v.c), Add(h0[3], v.d),
                                 Add(h0[4], v.e), Add(h0[5], v.f), Add(h0[6], v.g), Add(h0[7], v.h)]
    {
      hide ToWord, Add, ToWords, InRange, AllInRange;
      EightInRange(a, b, c, d, e, f, g, h);
      ghost var h0 := H[..];
      AddFirstHalf();
      AddSecondHalf();
      AddedWords(h0, [a, b, c, d, e, f, g, h], H[..]);
    }

    /** The word of round `round`; from round 16 on the window moves along. */
    method NextW(round: nat, ghost block: seq<Word>) returns (next: int)
      requires Valid() && |block| >= 16 && WindowIs(W[..], block, round)
      modifies W
      ensures InRange(next) && ToWord(next) == Schedule(block, round)
      ensures WindowIs(W[..], block, round + 1)
    {
      hide ToWord, Schedule, NextWord;
      if round < 16 {
        next := W[round];
        assert InRange(W[..][round]);
      } else {
        ghost var before := W[..];
        assert InRange(before[14]) && InRange(before[9]) && InRange(before[1]) && InRange(before[0]);
        next := NextWord(W[14], W[9], W[1], W[0]);
        for i := 0 to 15
          invariant forall j :: 0 <= j < i ==> W[j] == before[j + 1]
          invariant forall j :: i <= j < 16 ==> W[j] == before[j]
        {
          W[i] := W[i + 1];
        }
        W[15] := next;
        assert W[..] == before[1..] + [next];
        WindowSlides(before, block, round, next);
      }
    }

    /** The constant and the word of a round. */
    method LoadRound(round: nat, ghost block: seq<Word>)
      requires Valid() && |block| >= 16 && round < 64 && WindowIs(W[..], block, round)
      modifies this`k, this`w, W
      ensures k == K[round] && InRange(k) && InRange(w) && ToWord(w) == Schedule(block, round)
      ensures WindowIs(W[..], block, round + 1)
    {
      hide ToWord, Schedule, WindowIs, K;
      ConstantInRange(round);
      k := K[round];
      w := NextW(round, block);
    }

    /** The assignments that end a round. */
    method MoveRegisters()
      requires d >= 0 && t1 >= 0 && t2 >= 0
      modifies this`a, this`b, this`c, this`d, this`e, this`f, this`g, this`h
      ensures a == Trunc(t1 + t2) && b == old(a) && c == old(b) && d == old(c)
      ensures e == Trunc(old(d) + t1) && f == old(e) && g == old(f) && h == old(g)
    {
      hide Trunc;
      h := g;
      g := f;
      f := e;
      e := Trunc(d + t1);
      d := c;
      c := b;
      b := a;
      a := Trunc(t1 + t2);
    }

    method Sha256Round(round: nat, ghost block: seq<Word>)
      requires Valid() && InRegisters() && |block| >= 16 && round < 64 && WindowIs(W[..], block, round)
      modifies this`a, this`b, this`c, this`d, this`e, this`f, this`g, this`h, this`t1, this`t2, this`k, this`w, W
      ensures InRegisters() && WindowIs(W[..], block, round + 1)
      ensures Registers() == Round(old(Registers()), ToWord(K[round]), Schedule(block, round))
    {
      hide ToWord, Schedule, WindowIs, T1, T2, Trunc, Round, K;
      ConstantInRange(round);
      LoadRound(round, block);
      t1 := T1(e, f, g, h, k, w);
      t2 := T2(a, b, c);
      RoundWords(a, b, c, d, e, f, g, h, k, w);
      MoveRegisters();
    }

    /** One block: the hash value of section 6.2.2 of FIPS 180-4. */
    method Next(block: seq<int>)
      requires Valid() && |block| >= 16 && AllInRange(block)
      modifies this`a, this`b, this`c, this`d, this`e, this`f, this`g, this`h, this`t1, this`t2, this`k, this`w, H, W
      ensures Valid() && InRegisters()
      ensures ToWords(H[..]) == Compress(old(ToWords(H[..])), ToWords(K), ToWords(block))
      ensures WindowIs(W[..], ToWords(block), 64)
    {
      hide ToWord, Round, Schedule, Add;
      ghost var words, hash := ToWords(block), ToWords(H[..]);
      LoadBlock(block);
      FirstWindow(block, W[..]);
      CopyDigest();
      for i := 0 to 64
        invariant Valid() && InRegisters() && WindowIs(W[..], words, i) && ToWords(H[..]) == hash
        invariant Registers() == Rounds(hash, ToWords(K), words, i)
      {
        Sha256Round(i, words);
      }
      UpdateDigest();
    }
  }

  lemma {:induction false} ConstantInRange(round: nat)
    requires round < 64
    ensures |K| == 64 && InRange(K[round])
  {
  }

  lemma {:induction false} FirstWindow(block: seq<int>, ws: seq<int>)
    requires |block| >= 16 && AllInRange(block) && ws == block[..16]
    ensures WindowIs(ws, ToWords(block), 0)
  {
    hide ToWord;
    forall i | 0 <= i < 16
      ensures InRange(ws[i]) && ToWord(ws[i]) == Schedule(ToWords(block), Place(0, i))
    {
      assert ws[i] == block[i] && ToWords(block)[i] == ToWord(block[i]);
    }
  }
}
