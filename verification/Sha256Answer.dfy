/** The digest of "abc" that the tests of the SHA-256 model expect (sha256.py, lines 355-373), computed on 32-bit
    vectors. */
module Sha256Answer {
  import opened Binary
  import opened Sha256Words
  import opened Sha256Spec
  import opened Sha256Vectors
  import opened Sha256

  // ----- rotations by the amounts of the standard -----

  /** `Turn` and `Move` at once instead of place by place. */
  function Rotated(x: bv32, n: nat): (y: bv32) {
    if n == 2 then (x >> 2) | (x << 30)
    else if n == 6 then (x >> 6) | (x << 26)
    else if n == 7 then (x >> 7) | (x << 25)
    else if n == 11 then (x >> 11) | (x << 21)
    else if n == 13 then (x >> 13) | (x << 19)
    else if n == 17 then (x >> 17) | (x << 15)
    else if n == 18 then (x >> 18) | (x << 14)
    else if n == 19 then (x >> 19) | (x << 13)
    else if n == 22 then (x >> 22) | (x << 10)
    else if n == 25 then (x >> 25) | (x << 7)
    else Turn(x, n)
  }

  function Shifted(x: bv32, n: nat): (y: bv32) {
    if n == 3 then x >> 3 else if n == 10 then x >> 10 else Move(x, n)
  }

  lemma {:induction false} Turn2(x: bv32)
    ensures Turn(x, 2) == Rotated(x, 2)
  {
    assert Turn(x, 1) == (x >> 1) | (x << 31);
    assert Turn(x, 2) == (x >> 2) | (x << 30);
  }

  lemma {:induction false} Turn6(x: bv32)
    requires Turn(x, 2) == Rotated(x, 2)
    ensures Turn(x, 6) == Rotated(x, 6)
  {
    assert Turn(x, 3) == (x >> 3) | (x << 29);
    assert Turn(x, 4) == (x >> 4) | (x << 28);
    assert Turn(x, 5) == (x >> 5) | (x << 27);
    assert Turn(x, 6) == (x >> 6) | (x << 26);
  }

  lemma {:induction false} Turn7(x: bv32)
    requires Turn(x, 6) == Rotated(x, 6)
    ensures Turn(x, 7) == Rotated(x, 7)
  {
    assert Turn(x, 7) == (x >> 7) | (x << 25);
  }

  lemma {:induction false} Turn11(x: bv32)
    requires Turn(x, 7) == Rotated(x, 7)
    ensures Turn(x, 11) == Rotated(x, 11)
  {
    assert Turn(x, 8) == (x >> 8) | (x << 24);
    assert Turn(x, 9) == (x >> 9) | (x << 23);
    assert Turn(x, 10) == (x >> 10) | (x << 22);
    assert Turn(x, 11) == (x >> 11) | (x << 21);
  }

  lemma {:induction false} Turn13(x: bv32)
    requires Turn(x, 11) == Rotated(x, 11)
    ensures Turn(x, 13) == Rotated(x, 13)
  {
    assert Turn(x, 12) == (x >> 12) | (x << 20);
    assert Turn(x, 13) == (x >> 13) | (x << 19);
  }

  lemma {:induction false} Turn17(x: bv32)
    requires Turn(x, 13) == Rotated(x, 13)
    ensures Turn(x, 17) == Rotated(x, 17)
  {
    assert Turn(x, 14) == (x >> 14) | (x << 18);
    assert Turn(x, 15) == (x >> 15) | (x << 17);
    assert Turn(x, 16) == (x >> 16) | (x << 16);
    assert Turn(x, 17) == (x >> 17) | (x << 15);
  }

  lemma {:induction false} Turn18(x: bv32)
    requires Turn(x, 17) == Rotated(x, 17)
    ensures Turn(x, 18) == Rotated(x, 18)
  {
    assert Turn(x, 18) == (x >> 18) | (x << 14);
  }

  lemma {:induction false} Turn19(x: bv32)
    requires Turn(x, 18) == Rotated(x, 18)
    ensures Turn(x, 19) == Rotated(x, 19)
  {
    assert Turn(x, 19) == (x >> 19) | (x << 13);
  }

  lemma {:induction false} Turn22(x: bv32)
    requires Turn(x, 19) == Rotated(x, 19)
    ensures Turn(x, 22) == Rotated(x, 22)
  {
    assert Turn(x, 20) == (x >> 20) | (x << 12);
    assert Turn(x, 21) == (x >> 21) | (x << 11);
    assert Turn(x, 22) == (x >> 22) | (x << 10);
  }

  lemma {:induction false} Turn25(x: bv32)
    requires Turn(x, 22) == Rotated(x, 22)
    ensures Turn(x, 25) == Rotated(x, 25)
  {
    assert Turn(x, 23) == (x >> 23) | (x << 9);
    assert Turn(x, 24) == (x >> 24) | (x << 8);
    assert Turn(x, 25) == (x >> 25) | (x << 7);
  }

  lemma {:induction false} Moves(x: bv32)
    ensures Move(x, 3) == Shifted(x, 3) && Move(x, 10) == Shifted(x, 10)
  {
    assert Move(x, 1) == x >> 1;
    assert Move(x, 2) == x >> 2;
    assert Move(x, 3) == x >> 3;
    assert Move(x, 4) == x >> 4;
    assert Move(x, 5) == x >> 5;
    assert Move(x, 6) == x >> 6;
    assert Move(x, 7) == x >> 7;
    assert Move(x, 8) == x >> 8;
    assert Move(x, 9) == x >> 9;
    assert Move(x, 10) == x >> 10;
  }

  const ROTATIONS: set<nat> := {2, 6, 7, 11, 13, 17, 18, 19, 22, 25}

  lemma {:induction false} KnownRotation(x: bv32, n: nat)
    requires n in ROTATIONS
    ensures Rotated(x, n) == Turn(x, n)
  {
    hide Turn, Rotated;
    Turn2(x);
    Turn6(x);
    Turn7(x);
    Turn11(x);
    Turn13(x);
    Turn17(x);
    Turn18(x);
    Turn19(x);
    Turn22(x);
    Turn25(x);
  }

  lemma {:induction false} OtherRotation(x: bv32, n: nat)
    requires n !in ROTATIONS
    ensures Rotated(x, n) == Turn(x, n)
  {
    hide Turn;
  }

  lemma {:induction false} ShiftedIs(x: bv32, n: nat)
    ensures Shifted(x, n) == Move(x, n)
  {
    hide Move;
    if n == 3 || n == 10 {
      Moves(x);
    }
  }

  lemma {:induction false} RotatedIs(x: bv32, n: nat)
    ensures Rotated(x, n) == Turn(x, n) && Shifted(x, n) == Move(x, n)
  {
    hide Turn, Move, Rotated, Shifted;
    if n in ROTATIONS {
      KnownRotation(x, n);
    } else {
      OtherRotation(x, n);
    }
    ShiftedIs(x, n);
  }

  function Xor3(x: bv32, y: bv32, z: bv32): (r: bv32) { x ^ y ^ z }

  function Choice(x: bv32, y: bv32, z: bv32): (r: bv32) { (x & y) ^ (!x & z) }

  function Majority(x: bv32, y: bv32, z: bv32): (r: bv32) { (x & y) ^ (x & z) ^ (y & z) }

  function V0(x: bv32): (y: bv32) { Xor3(Rotated(x, 2), Rotated(x, 13), Rotated(x, 22)) }

  function V1(x: bv32): (y: bv32) { Xor3(Rotated(x, 6), Rotated(x, 11), Rotated(x, 25)) }

  function U0(x: bv32): (y: bv32) { Xor3(Rotated(x, 7), Rotated(x, 18), Shifted(x, 3)) }

  function U1(x: bv32): (y: bv32) { Xor3(Rotated(x, 17), Rotated(x, 19), Shifted(x, 10)) }

  lemma {:induction false} LogicOf(x: bv32, y: bv32, z: bv32)
    ensures Sum3(WordOf(x), WordOf(y), WordOf(z)) == WordOf(Xor3(x, y, z))
    ensures Ch(WordOf(x), WordOf(y), WordOf(z)) == WordOf(Choice(x, y, z))
    ensures Maj(WordOf(x), WordOf(y), WordOf(z)) == WordOf(Majority(x, y, z))
  {
    hide WordOf, Sum3, Ch, Maj;
    SumOf(x, y, z);
    ChoiceOf(x, y, z);
    MajorityOf(x, y, z);
  }

  lemma {:induction false} TurnedWord(x: bv32, n: nat)
    ensures Rotr(WordOf(x), n) == WordOf(Rotated(x, n)) && Shr(WordOf(x), n) == WordOf(Shifted(x, n))
  {
    hide *;
    RotatedIs(x, n);
    RotrOf(x, n);
    ShrOf(x, n);
  }

  lemma {:induction false} SigmasOf(x: bv32)
    ensures BigSigma0(WordOf(x)) == WordOf(V0(x)) && BigSigma1(WordOf(x)) == WordOf(V1(x))
    ensures SmallSigma0(WordOf(x)) == WordOf(U0(x)) && SmallSigma1(WordOf(x)) == WordOf(U1(x))
  {
    hide WordOf, Rotated, Shifted, Rotr, Shr, Sum3, Xor3;
    TurnedWord(x, 2);
    TurnedWord(x, 6);
    TurnedWord(x, 7);
    TurnedWord(x, 11);
    TurnedWord(x, 13);
    TurnedWord(x, 17);
    TurnedWord(x, 18);
    TurnedWord(x, 19);
    TurnedWord(x, 22);
    TurnedWord(x, 25);
    TurnedWord(x, 3);
    TurnedWord(x, 10);
    LogicOf(Rotated(x, 2), Rotated(x, 13), Rotated(x, 22));
    LogicOf(Rotated(x, 6), Rotated(x, 11), Rotated(x, 25));
    LogicOf(Rotated(x, 7), Rotated(x, 18), Shifted(x, 3));
    LogicOf(Rotated(x, 17), Rotated(x, 19), Shifted(x, 10));
  }

  // ----- one round -----

  datatype Vectors = Vectors(a: bv32, b: bv32, c: bv32, d: bv32, e: bv32, f: bv32, g: bv32, h: bv32)

  function First(v: Vectors, k: bv32, w: bv32): (t1: bv32) {
    Plus(Plus(Plus(Plus(v.h, V1(v.e)), Choice(v.e, v.f, v.g)), k), w)
  }

  function Second(v: Vectors): (t2: bv32) {
    Plus(V0(v.a), Majority(v.a, v.b, v.c))
  }

  function RoundV(v: Vectors, k: bv32, w: bv32): (v': Vectors) {
    var t1 := First(v, k, w);
    Vectors(Plus(t1, Second(v)), v.a, v.b, v.c, Plus(v.d, t1), v.e, v.f, v.g)
  }

  function WordsOf(v: Vectors): (r: Variables) {
    Variables(WordOf(v.a), WordOf(v.b), WordOf(v.c), WordOf(v.d), WordOf(v.e), WordOf(v.f), WordOf(v.g), WordOf(v.h))
  }

  lemma {:induction false} RoundOf(v: Vectors, k: bv32, w: bv32)
    ensures Round(WordsOf(v), WordOf(k), WordOf(w)) == WordsOf(RoundV(v, k, w))
  {
    hide WordOf, V0, V1, Add, Plus, BigSigma0, BigSigma1, Ch, Maj, Choice, Majority;
    SigmasOf(v.e);
    SigmasOf(v.a);
    LogicOf(v.e, v.f, v.g);
    LogicOf(v.a, v.b, v.c);
    AddOf(v.h, V1(v.e));
    AddOf(Plus(v.h, V1(v.e)), Choice(v.e, v.f, v.g));
    AddOf(Plus(Plus(v.h, V1(v.e)), Choice(v.e, v.f, v.g)), k);
    AddOf(Plus(Plus(Plus(v.h, V1(v.e)), Choice(v.e, v.f, v.g)), k), w);
    AddOf(V0(v.a), Majority(v.a, v.b, v.c));
    AddOf(First(v, k, w), Second(v));
    AddOf(v.d, First(v, k, w));
  }

  // ----- numbers -----

  function Digit(b: bv32, m: bv32): (d: nat) {
    if b & m != 0 then 1 else 0
  }

  function Byte0(b: bv32): (n: nat) {
    (if b & 0x1 != 0 then 1 else 0) + (if b & 0x2 != 0 then 2 else 0)
    + (if b & 0x4 != 0 then 4 else 0) + (if b & 0x8 != 0 then 8 else 0)
    + (if b & 0x10 != 0 then 16 else 0) + (if b & 0x20 != 0 then 32 else 0)
    + (if b & 0x40 != 0 then 64 else 0) + (if b & 0x80 != 0 then 128 else 0)
  }

  function Byte1(b: bv32): (n: nat) {
    (if b & 0x100 != 0 then 1 else 0) + (if b & 0x200 != 0 then 2 else 0)
    + (if b & 0x400 != 0 then 4 else 0) + (if b & 0x800 != 0 then 8 else 0)
    + (if b & 0x1000 != 0 then 16 else 0) + (if b & 0x2000 != 0 then 32 else 0)
    + (if b & 0x4000 != 0 then 64 else 0) + (if b & 0x8000 != 0 then 128 else 0)
  }

  function Byte2(b: bv32): (n: nat) {
    (if b & 0x10000 != 0 then 1 else 0) + (if b & 0x20000 != 0 then 2 else 0)
    + (if b & 0x40000 != 0 then 4 else 0) + (if b & 0x80000 != 0 then 8 else 0)
    + (if b & 0x100000 != 0 then 16 else 0) + (if b & 0x200000 != 0 then 32 else 0)
    + (if b & 0x400000 != 0 then 64 else 0) + (if b & 0x800000 != 0 then 128 else 0)
  }

  function Byte3(b: bv32): (n: nat) {
    (if b & 0x1000000 != 0 then 1 else 0) + (if b & 0x2000000 != 0 then 2 else 0)
    + (if b & 0x4000000 != 0 then 4 else 0) + (if b & 0x8000000 != 0 then 8 else 0)
    + (if b & 0x10000000 != 0 then 16 else 0) + (if b & 0x20000000 != 0 then 32 else 0)
    + (if b & 0x40000000 != 0 then 64 else 0) + (if b & 0x80000000 != 0 then 128 else 0)
  }

  /** The number that a vector stands for. */
  function Value(b: bv32): (n: nat) {
    Byte0(b) + 256 * Byte1(b) + 65536 * Byte2(b) + 16777216 * Byte3(b)
  }

  /** The number of the bits from `i` on. */
  function From(b: bv32, i: nat): (n: nat)
    decreases 32 - i
  {
    if i >= 32 then 0 else (if At(b, i) then 1 else 0) + 2 * From(b, i + 1)
  }

  lemma {:induction false} FromIs(b: bv32, i: nat)
    requires i <= 32
    ensures Number(WordOf(b)[i..]) == From(b, i)
    decreases 32 - i
  {
    hide At;
    if i < 32 {
      FromIs(b, i + 1);
      assert WordOf(b)[i..][1..] == WordOf(b)[i + 1..];
    }
  }

  lemma {:induction false} MaskTable()
    ensures Mask(0) == 0x1 && Mask(1) == 0x2 && Mask(2) == 0x4 && Mask(3) == 0x8
    ensures Mask(4) == 0x10 && Mask(5) == 0x20 && Mask(6) == 0x40 && Mask(7) == 0x80
    ensures Mask(8) == 0x100 && Mask(9) == 0x200 && Mask(10) == 0x400 && Mask(11) == 0x800
    ensures Mask(12) == 0x1000 && Mask(13) == 0x2000 && Mask(14) == 0x4000 && Mask(15) == 0x8000
    ensures Mask(16) == 0x10000 && Mask(17) == 0x20000 && Mask(18) == 0x40000 && Mask(19) == 0x80000
    ensures Mask(20) == 0x100000 && Mask(21) == 0x200000 && Mask(22) == 0x400000 && Mask(23) == 0x800000
    ensures Mask(24) == 0x1000000 && Mask(25) == 0x2000000 && Mask(26) == 0x4000000 && Mask(27) == 0x8000000
    ensures Mask(28) == 0x10000000 && Mask(29) == 0x20000000 && Mask(30) == 0x40000000 && Mask(31) == 0x80000000
  {
  }

  lemma {:induction false} NextDigit(b: bv32, i: nat)
    requires i < 32
    ensures From(b, i) == Digit(b, Mask(i)) + 2 * From(b, i + 1)
  {
    hide Mask;
  }

  lemma {:induction false} ByteDigits0(b: bv32)
    ensures Byte0(b) == Digit(b, 0x1) + 2 * Digit(b, 0x2) + 4 * Digit(b, 0x4)
                        + 8 * Digit(b, 0x8) + 16 * Digit(b, 0x10) + 32 * Digit(b, 0x20)
                        + 64 * Digit(b, 0x40) + 128 * Digit(b, 0x80)
  {
  }

  lemma {:induction false} ByteDigits1(b: bv32)
    ensures Byte1(b) == Digit(b, 0x100) + 2 * Digit(b, 0x200) + 4 * Digit(b, 0x400)
                        + 8 * Digit(b, 0x800) + 16 * Digit(b, 0x1000) + 32 * Digit(b, 0x2000)
                        + 64 * Digit(b, 0x4000) + 128 * Digit(b, 0x8000)
  {
  }

  lemma {:induction false} ByteDigits2(b: bv32)
    ensures Byte2(b) == Digit(b, 0x10000) + 2 * Digit(b, 0x20000) + 4 * Digit(b, 0x40000)
                        + 8 * Digit(b, 0x80000) + 16 * Digit(b, 0x100000) + 32 * Digit(b, 0x200000)
                        + 64 * Digit(b, 0x400000) + 128 * Digit(b, 0x800000)
  {
  }

  lemma {:induction false} ByteDigits3(b: bv32)
    ensures Byte3(b) == Digit(b, 0x1000000) + 2 * Digit(b, 0x2000000) + 4 * Digit(b, 0x4000000)
                        + 8 * Digit(b, 0x8000000) + 16 * Digit(b, 0x10000000) + 32 * Digit(b, 0x20000000)
                        + 64 * Digit(b, 0x40000000) + 128 * Digit(b, 0x80000000)
  {
  }

  lemma {:induction false} NextEight(b: bv32, i: nat)
    requires i < 25
    ensures From(b, i) == Digit(b, Mask(i)) + 2 * Digit(b, Mask(i + 1)) + 4 * Digit(b, Mask(i + 2))
                          + 8 * Digit(b, Mask(i + 3)) + 16 * Digit(b, Mask(i + 4)) + 32 * Digit(b, Mask(i + 5))
                          + 64 * Digit(b, Mask(i + 6)) + 128 * Digit(b, Mask(i + 7)) + 256 * From(b, i + 8)
  {
    hide Mask, From, Digit;
    NextDigit(b, i);
    NextDigit(b, i + 1);
    NextDigit(b, i + 2);
    NextDigit(b, i + 3);
    NextDigit(b, i + 4);
    NextDigit(b, i + 5);
    NextDigit(b, i + 6);
    NextDigit(b, i + 7);
  }

  lemma {:induction false} FourBytes(b: bv32)
    ensures Value(b) == Byte0(b) + 256 * (Byte1(b) + 256 * (Byte2(b) + 256 * Byte3(b)))
  {
    hide Byte0, Byte1, Byte2, Byte3;
  }

  lemma {:induction false} NothingBehind(b: bv32)
    ensures From(b, 32) == 0
  {
  }

  lemma {:induction false} ValueIs(b: bv32)
    ensures ToWord(Value(b)) == WordOf(b)
  {
    hide *;
    NothingBehind(b);
    MaskTable();
    NextEight(b, 0);
    NextEight(b, 8);
    NextEight(b, 16);
    NextEight(b, 24);
    ByteDigits0(b);
    ByteDigits1(b);
    ByteDigits2(b);
    ByteDigits3(b);
    FourBytes(b);
    FromIs(b, 0);
    assert WordOf(b)[0..] == WordOf(b);
    WordAgain(WordOf(b));
  }

  // ----- the message -----

  /** "abc", a one bit, and the length in bits. */
  const ABC: seq<int> := [0x61626380, 0, 0, 0, 0, 0, 0, 0, 0, 0, 0, 0, 0, 0, 0, 0x18]

  /** Word `t` of its message schedule. */
  predicate IsWord(t: nat, w: bv32) {
    Schedule(ToWords(ABC), t) == WordOf(w)
  }

  /** The variables after `t` rounds. */
  predicate IsState(t: nat, v: Vectors)
    requires t <= 64
  {
    ConstantCount();
    Rounds(ToWords(H_256), ToWords(K), ToWords(ABC), t) == WordsOf(v)
  }

  lemma {:induction false} ConstantCount()
    ensures |K| == 64 && |H_256| == 8
  {
  }

  lemma {:induction false} NextWordIs(t: nat, w2: bv32, w7: bv32, w15: bv32, w16: bv32, w: bv32)
    requires t >= 16 && IsWord(t - 2, w2) && IsWord(t - 7, w7) && IsWord(t - 15, w15) && IsWord(t - 16, w16)
    requires w == Plus(Plus(U1(w2), w7), Plus(U0(w15), w16))
    ensures IsWord(t, w)
  {
    hide WordOf, ToWords, U0, U1, Plus, Add, SmallSigma0, SmallSigma1;
    SigmasOf(w2);
    SigmasOf(w15);
    AddOf(U1(w2), w7);
    AddOf(U0(w15), w16);
    AddOf(Plus(U1(w2), w7), Plus(U0(w15), w16));
  }

  lemma {:induction false} NextState(t: nat, v: Vectors, k: bv32, w: bv32, v': Vectors)
    requires t < 64 && IsState(t, v) && |K| == 64 && Value(k) == K[t] && IsWord(t, w) && v' == RoundV(v, k, w)
    ensures IsState(t + 1, v')
  {
    hide WordOf, WordsOf, Value, RoundV, Round, Schedule, ToWord, K, H_256, ABC;
    ValueIs(k);
    RoundOf(v, k, w);
    ConstantCount();
    assert ToWords(K)[t] == ToWord(K[t]);
  }

  lemma {:induction false} FirstWord(t: nat, w: bv32)
    requires t < 16 && Value(w) == ABC[t]
    ensures IsWord(t, w)
  {
    hide WordOf, ToWord, Value;
    ValueIs(w);
    assert ToWords(ABC)[t] == ToWord(ABC[t]);
  }

  lemma {:induction false} FirstState()
    ensures IsState(0, STATE_0)
  {
    hide WordOf, ToWord, Value, Schedule, Round;
    ValueIs(0x6a09e667);
    ValueIs(0xbb67ae85);
    ValueIs(0x3c6ef372);
    ValueIs(0xa54ff53a);
    ValueIs(0x510e527f);
    ValueIs(0x9b05688c);
    ValueIs(0x1f83d9ab);
    ValueIs(0x5be0cd19);
    HashValues();
    assert ToWords(H_256) == [ToWord(H_256[0]), ToWord(H_256[1]), ToWord(H_256[2]), ToWord(H_256[3]),
                              ToWord(H_256[4]), ToWord(H_256[5]), ToWord(H_256[6]), ToWord(H_256[7])];
  }

  lemma {:induction false} HashValues()
    ensures |H_256| == 8
    ensures Value(0x6a09e667) == H_256[0] && Value(0xbb67ae85) == H_256[1]
    ensures Value(0x3c6ef372) == H_256[2] && Value(0xa54ff53a) == H_256[3]
    ensures Value(0x510e527f) == H_256[4] && Value(0x9b05688c) == H_256[5]
    ensures Value(0x1f83d9ab) == H_256[6] && Value(0x5be0cd19) == H_256[7]
  {
  }

  // ----- the message schedule -----

  lemma {:induction false} Words0()
    ensures IsWord(0, 0x61626380) && IsWord(1, 0) && IsWord(2, 0) && IsWord(3, 0)
    ensures IsWord(4, 0) && IsWord(5, 0) && IsWord(6, 0) && IsWord(7, 0)
    ensures IsWord(8, 0) && IsWord(9, 0) && IsWord(10, 0) && IsWord(11, 0)
    ensures IsWord(12, 0) && IsWord(13, 0) && IsWord(14, 0) && IsWord(15, 0x00000018)
  {
    hide IsWord;
    MessageValues();
    FirstWord(0, 0x61626380);
    FirstWord(1, 0);
    FirstWord(2, 0);
    FirstWord(3, 0);
    FirstWord(4, 0);
    FirstWord(5, 0);
    FirstWord(6, 0);
    FirstWord(7, 0);
    FirstWord(8, 0);
    FirstWord(9, 0);
    FirstWord(10, 0);
    FirstWord(11, 0);
    FirstWord(12, 0);
    FirstWord(13, 0);
    FirstWord(14, 0);
    FirstWord(15, 0x00000018);
  }

  lemma {:induction false} MessageValues()
    ensures |ABC| == 16 && Value(0x61626380) == ABC[0] && Value(0x18) == ABC[15] && Value(0) == 0
    ensures forall t :: 0 < t < 15 ==> ABC[t] == 0
  {
  }

  lemma {:induction false} Words1()
    ensures IsWord(16, 0x61626380) && IsWord(17, 0x000f0000) && IsWord(18, 0x7da86405) && IsWord(19, 0x600003c6)
    ensures IsWord(20, 0x3e9d7b78) && IsWord(21, 0x0183fc00) && IsWord(22, 0x12dcbfdb) && IsWord(23, 0xe2e2c38e)
  {
    hide IsWord;
    Words0();
    NextWordIs(16, 0, 0, 0, 0x61626380, 0x61626380);
    NextWordIs(17, 0x00000018, 0, 0, 0, 0x000f0000);
    NextWordIs(18, 0x61626380, 0, 0, 0, 0x7da86405);
    NextWordIs(19, 0x000f0000, 0, 0, 0, 0x600003c6);
    NextWordIs(20, 0x7da86405, 0, 0, 0, 0x3e9d7b78);
    NextWordIs(21, 0x600003c6, 0, 0, 0, 0x0183fc00);
    NextWordIs(22, 0x3e9d7b78, 0x00000018, 0, 0, 0x12dcbfdb);
    NextWordIs(23, 0x0183fc00, 0x61626380, 0, 0, 0xe2e2c38e);
  }

  lemma {:induction false} Words2()
    ensures IsWord(24, 0xc8215c1a) && IsWord(25, 0xb73679a2) && IsWord(26, 0xe5bc3909) && IsWord(27, 0x32663c5b)
    ensures IsWord(28, 0x9d209d67) && IsWord(29, 0xec8726cb) && IsWord(30, 0x702138a4) && IsWord(31, 0xd3b7973b)
  {
    hide IsWord;
    Words0();
    Words1();
    NextWordIs(24, 0x12dcbfdb, 0x000f0000, 0, 0, 0xc8215c1a);
    NextWordIs(25, 0xe2e2c38e, 0x7da86405, 0, 0, 0xb73679a2);
    NextWordIs(26, 0xc8215c1a, 0x600003c6, 0, 0, 0xe5bc3909);
    NextWordIs(27, 0xb73679a2, 0x3e9d7b78, 0, 0, 0x32663c5b);
    NextWordIs(28, 0xe5bc3909, 0x0183fc00, 0, 0, 0x9d209d67);
    NextWordIs(29, 0x32663c5b, 0x12dcbfdb, 0, 0, 0xec8726cb);
    NextWordIs(30, 0x9d209d67, 0xe2e2c38e, 0x00000018, 0, 0x702138a4);
    NextWordIs(31, 0xec8726cb, 0xc8215c1a, 0x61626380, 0x00000018, 0xd3b7973b);
  }

  lemma {:induction false} Words3()
    ensures IsWord(32, 0x93f5997f) && IsWord(33, 0x3b68ba73) && IsWord(34, 0xaff4ffc1) && IsWord(35, 0xf10a5c62)
    ensures IsWord(36, 0x0a8b3996) && IsWord(37, 0x72af830a) && IsWord(38, 0x9409e33e) && IsWord(39, 0x24641522)
  {
    hide IsWord;
    Words1();
    Words2();
    NextWordIs(32, 0x702138a4, 0xb73679a2, 0x000f0000, 0x61626380, 0x93f5997f);
    NextWordIs(33, 0xd3b7973b, 0xe5bc3909, 0x7da86405, 0x000f0000, 0x3b68ba73);
    NextWordIs(34, 0x93f5997f, 0x32663c5b, 0x600003c6, 0x7da86405, 0xaff4ffc1);
    NextWordIs(35, 0x3b68ba73, 0x9d209d67, 0x3e9d7b78, 0x600003c6, 0xf10a5c62);
    NextWordIs(36, 0xaff4ffc1, 0xec8726cb, 0x0183fc00, 0x3e9d7b78, 0x0a8b3996);
    NextWordIs(37, 0xf10a5c62, 0x702138a4, 0x12dcbfdb, 0x0183fc00, 0x72af830a);
    NextWordIs(38, 0x0a8b3996, 0xd3b7973b, 0xe2e2c38e, 0x12dcbfdb, 0x9409e33e);
    NextWordIs(39, 0x72af830a, 0x93f5997f, 0xc8215c1a, 0xe2e2c38e, 0x24641522);
  }

  lemma {:induction false} Words4()
    ensures IsWord(40, 0x9f47bf94) && IsWord(41, 0xf0a64f5a) && IsWord(42, 0x3e246a79) && IsWord(43, 0x27333ba3)
    ensures IsWord(44, 0x0c4763f2) && IsWord(45, 0x840abf27) && IsWord(46, 0x7a290d5d) && IsWord(47, 0x065c43da)
  {
    hide IsWord;
    Words2();
    Words3();
    NextWordIs(40, 0x9409e33e, 0x3b68ba73, 0xb73679a2, 0xc8215c1a, 0x9f47bf94);
    NextWordIs(41, 0x24641522, 0xaff4ffc1, 0xe5bc3909, 0xb73679a2, 0xf0a64f5a);
    NextWordIs(42, 0x9f47bf94, 0xf10a5c62, 0x32663c5b, 0xe5bc3909, 0x3e246a79);
    NextWordIs(43, 0xf0a64f5a, 0x0a8b3996, 0x9d209d67, 0x32663c5b, 0x27333ba3);
    NextWordIs(44, 0x3e246a79, 0x72af830a, 0xec8726cb, 0x9d209d67, 0x0c4763f2);
    NextWordIs(45, 0x27333ba3, 0x9409e33e, 0x702138a4, 0xec8726cb, 0x840abf27);
    NextWordIs(46, 0x0c4763f2, 0x24641522, 0xd3b7973b, 0x702138a4, 0x7a290d5d);
    NextWordIs(47, 0x840abf27, 0x9f47bf94, 0x93f5997f, 0xd3b7973b, 0x065c43da);
  }

  lemma {:induction false} Words5()
    ensures IsWord(48, 0xfb3e89cb) && IsWord(49, 0xcc7617db) && IsWord(50, 0xb9e66c34) && IsWord(51, 0xa9993667)
    ensures IsWord(52, 0x84badedd) && IsWord(53, 0xc21462bc) && IsWord(54, 0x1487472c) && IsWord(55, 0xb20f7a99)
  {
    hide IsWord;
    Words3();
    Words4();
    NextWordIs(48, 0x7a290d5d, 0xf0a64f5a, 0x3b68ba73, 0x93f5997f, 0xfb3e89cb);
    NextWordIs(49, 0x065c43da, 0x3e246a79, 0xaff4ffc1, 0x3b68ba73, 0xcc7617db);
    NextWordIs(50, 0xfb3e89cb, 0x27333ba3, 0xf10a5c62, 0xaff4ffc1, 0xb9e66c34);
    NextWordIs(51, 0xcc7617db, 0x0c4763f2, 0x0a8b3996, 0xf10a5c62, 0xa9993667);
    NextWordIs(52, 0xb9e66c34, 0x840abf27, 0x72af830a, 0x0a8b3996, 0x84badedd);
    NextWordIs(53, 0xa9993667, 0x7a290d5d, 0x9409e33e, 0x72af830a, 0xc21462bc);
    NextWordIs(54, 0x84badedd, 0x065c43da, 0x24641522, 0x9409e33e, 0x1487472c);
    NextWordIs(55, 0xc21462bc, 0xfb3e89cb, 0x9f47bf94, 0x24641522, 0xb20f7a99);
  }

  lemma {:induction false} Words6()
    ensures IsWord(56, 0xef57b9cd) && IsWord(57, 0xebe6b238) && IsWord(58, 0x9fe3095e) && IsWord(59, 0x78bc8d4b)
    ensures IsWord(60, 0xa43fcf15) && IsWord(61, 0x668b2ff8) && IsWord(62, 0xeeaba2cc) && IsWord(63, 0x12b1edeb)
  {
    hide IsWord;
    Words4();
    Words5();
    NextWordIs(56, 0x1487472c, 0xcc7617db, 0xf0a64f5a, 0x9f47bf94, 0xef57b9cd);
    NextWordIs(57, 0xb20f7a99, 0xb9e66c34, 0x3e246a79, 0xf0a64f5a, 0xebe6b238);
    NextWordIs(58, 0xef57b9cd, 0xa9993667, 0x27333ba3, 0x3e246a79, 0x9fe3095e);
    NextWordIs(59, 0xebe6b238, 0x84badedd, 0x0c4763f2, 0x27333ba3, 0x78bc8d4b);
    NextWordIs(60, 0x9fe3095e, 0xc21462bc, 0x840abf27, 0x0c4763f2, 0xa43fcf15);
    NextWordIs(61, 0x78bc8d4b, 0x1487472c, 0x7a290d5d, 0x840abf27, 0x668b2ff8);
    NextWordIs(62, 0xa43fcf15, 0xb20f7a99, 0x065c43da, 0x7a290d5d, 0xeeaba2cc);
    NextWordIs(63, 0x668b2ff8, 0xef57b9cd, 0xfb3e89cb, 0x065c43da, 0x12b1edeb);
  }

  // ----- the rounds -----

  lemma {:induction false} Constants4()
    ensures |K| == 64
    ensures Value(0x428a2f98) == K[0] && Value(0x71374491) == K[1]
    ensures Value(0xb5c0fbcf) == K[2] && Value(0xe9b5dba5) == K[3]
  {
  }

  lemma {:induction false} Constants8()
    ensures |K| == 64
    ensures Value(0x3956c25b) == K[4] && Value(0x59f111f1) == K[5]
    ensures Value(0x923f82a4) == K[6] && Value(0xab1c5ed5) == K[7]
  {
  }

  lemma {:induction false} Constants12()
    ensures |K| == 64
    ensures Value(0xd807aa98) == K[8] && Value(0x12835b01) == K[9]
    ensures Value(0x243185be) == K[10] && Value(0x550c7dc3) == K[11]
  {
  }

  lemma {:induction false} Constants16()
    ensures |K| == 64
    ensures Value(0x72be5d74) == K[12] && Value(0x80deb1fe) == K[13]
    ensures Value(0x9bdc06a7) == K[14] && Value(0xc19bf174) == K[15]
  {
  }

  lemma {:induction false} Constants20()
    ensures |K| == 64
    ensures Value(0xe49b69c1) == K[16] && Value(0xefbe4786) == K[17]
    ensures Value(0x0fc19dc6) == K[18] && Value(0x240ca1cc) == K[19]
  {
  }

  lemma {:induction false} Constants24()
    ensures |K| == 64
    ensures Value(0x2de92c6f) == K[20] && Value(0x4a7484aa) == K[21]
    ensures Value(0x5cb0a9dc) == K[22] && Value(0x76f988da) == K[23]
  {
  }

  lemma {:induction false} Constants28()
    ensures |K| == 64
    ensures Value(0x983e5152) == K[24] && Value(0xa831c66d) == K[25]
    ensures Value(0xb00327c8) == K[26] && Value(0xbf597fc7) == K[27]
  {
  }

  lemma {:induction false} Constants32()
    ensures |K| == 64
    ensures Value(0xc6e00bf3) == K[28] && Value(0xd5a79147) == K[29]
    ensures Value(0x06ca6351) == K[30] && Value(0x14292967) == K[31]
  {
  }

  lemma {:induction false} Constants36()
    ensures |K| == 64
    ensures Value(0x27b70a85) == K[32] && Value(0x2e1b2138) == K[33]
    ensures Value(0x4d2c6dfc) == K[34] && Value(0x53380d13) == K[35]
  {
  }

  lemma {:induction false} Constants40()
    ensures |K| == 64
    ensures Value(0x650a7354) == K[36] && Value(0x766a0abb) == K[37]
    ensures Value(0x81c2c92e) == K[38] && Value(0x92722c85) == K[39]
  {
  }

  lemma {:induction false} Constants44()
    ensures |K| == 64
    ensures Value(0xa2bfe8a1) == K[40] && Value(0xa81a664b) == K[41]
    ensures Value(0xc24b8b70) == K[42] && Value(0xc76c51a3) == K[43]
  {
  }

  lemma {:induction false} Constants48()
    ensures |K| == 64
    ensures Value(0xd192e819) == K[44] && Value(0xd6990624) == K[45]
    ensures Value(0xf40e3585) == K[46] && Value(0x106aa070) == K[47]
  {
  }

  lemma {:induction false} Constants52()
    ensures |K| == 64
    ensures Value(0x19a4c116) == K[48] && Value(0x1e376c08) == K[49]
    ensures Value(0x2748774c) == K[50] && Value(0x34b0bcb5) == K[51]
  {
  }

  lemma {:induction false} Constants56()
    ensures |K| == 64
    ensures Value(0x391c0cb3) == K[52] && Value(0x4ed8aa4a) == K[53]
    ensures Value(0x5b9cca4f) == K[54] && Value(0x682e6ff3) == K[55]
  {
  }

  lemma {:induction false} Constants60()
    ensures |K| == 64
    ensures Value(0x748f82ee) == K[56] && Value(0x78a5636f) == K[57]
    ensures Value(0x84c87814) == K[58] && Value(0x8cc70208) == K[59]
  {
  }

  lemma {:induction false} Constants64()
    ensures |K| == 64
    ensures Value(0x90befffa) == K[60] && Value(0xa4506ceb) == K[61]
    ensures Value(0xbef9a3f7) == K[62] && Value(0xc67178f2) == K[63]
  {
  }

  const STATE_0: Vectors := Vectors(0x6a09e667, 0xbb67ae85, 0x3c6ef372, 0xa54ff53a,
      0x510e527f, 0x9b05688c, 0x1f83d9ab, 0x5be0cd19)
  const STATE_1: Vectors := Vectors(0x5d6aebcd, 0x6a09e667, 0xbb67ae85, 0x3c6ef372,
      0xfa2a4622, 0x510e527f, 0x9b05688c, 0x1f83d9ab)
  const STATE_2: Vectors := Vectors(0x5a6ad9ad, 0x5d6aebcd, 0x6a09e667, 0xbb67ae85,
      0x78ce7989, 0xfa2a4622, 0x510e527f, 0x9b05688c)
  const STATE_3: Vectors := Vectors(0xc8c347a7, 0x5a6ad9ad, 0x5d6aebcd, 0x6a09e667,
      0xf92939eb, 0x78ce7989, 0xfa2a4622, 0x510e527f)
  const STATE_4: Vectors := Vectors(0xd550f666, 0xc8c347a7, 0x5a6ad9ad, 0x5d6aebcd,
      0x24e00850, 0xf92939eb, 0x78ce7989, 0xfa2a4622)
  const STATE_5: Vectors := Vectors(0x04409a6a, 0xd550f666, 0xc8c347a7, 0x5a6ad9ad,
      0x43ada245, 0x24e00850, 0xf92939eb, 0x78ce7989)
  const STATE_6: Vectors := Vectors(0x2b4209f5, 0x04409a6a, 0xd550f666, 0xc8c347a7,
      0x714260ad, 0x43ada245, 0x24e00850, 0xf92939eb)
  const STATE_7: Vectors := Vectors(0xe5030380, 0x2b4209f5, 0x04409a6a, 0xd550f666,
      0x9b27a401, 0x714260ad, 0x43ada245, 0x24e00850)
  const STATE_8: Vectors := Vectors(0x85a07b5f, 0xe5030380, 0x2b4209f5, 0x04409a6a,
      0x0c657a79, 0x9b27a401, 0x714260ad, 0x43ada245)
  const STATE_9: Vectors := Vectors(0x8e04ecb9, 0x85a07b5f, 0xe5030380, 0x2b4209f5,
      0x32ca2d8c, 0x0c657a79, 0x9b27a401, 0x714260ad)
  const STATE_10: Vectors := Vectors(0x8c87346b, 0x8e04ecb9, 0x85a07b5f, 0xe5030380,
      0x1cc92596, 0x32ca2d8c, 0x0c657a79, 0x9b27a401)
  const STATE_11: Vectors := Vectors(0x4798a3f4, 0x8c87346b, 0x8e04ecb9, 0x85a07b5f,
      0x436b23e8, 0x1cc92596, 0x32ca2d8c, 0x0c657a79)
  const STATE_12: Vectors := Vectors(0xf71fc5a9, 0x4798a3f4, 0x8c87346b, 0x8e04ecb9,
      0x816fd6e9, 0x436b23e8, 0x1cc92596, 0x32ca2d8c)
  const STATE_13: Vectors := Vectors(0x87912990, 0xf71fc5a9, 0x4798a3f4, 0x8c87346b,
      0x1e578218, 0x816fd6e9, 0x436b23e8, 0x1cc92596)
  const STATE_14: Vectors := Vectors(0xd932eb16, 0x87912990, 0xf71fc5a9, 0x4798a3f4,
      0x745a48de, 0x1e578218, 0x816fd6e9, 0x436b23e8)
  const STATE_15: Vectors := Vectors(0xc0645fde, 0xd932eb16, 0x87912990, 0xf71fc5a9,
      0x0b92f20c, 0x745a48de, 0x1e578218, 0x816fd6e9)
  const STATE_16: Vectors := Vectors(0xb0fa238e, 0xc0645fde, 0xd932eb16, 0x87912990,
      0x07590dcd, 0x0b92f20c, 0x745a48de, 0x1e578218)
  const STATE_17: Vectors := Vectors(0x21da9a9b, 0xb0fa238e, 0xc0645fde, 0xd932eb16,
      0x8034229c, 0x07590dcd, 0x0b92f20c, 0x745a48de)
  const STATE_18: Vectors := Vectors(0xc2fbd9d1, 0x21da9a9b, 0xb0fa238e, 0xc0645fde,
      0x846ee454, 0x8034229c, 0x07590dcd, 0x0b92f20c)
  const STATE_19: Vectors := Vectors(0xfe777bbf, 0xc2fbd9d1, 0x21da9a9b, 0xb0fa238e,
      0xcc899961, 0x846ee454, 0x8034229c, 0x07590dcd)
  const STATE_20: Vectors := Vectors(0xe1f20c33, 0xfe777bbf, 0xc2fbd9d1, 0x21da9a9b,
      0xb0638179, 0xcc899961, 0x846ee454, 0x8034229c)
  const STATE_21: Vectors := Vectors(0x9dc68b63, 0xe1f20c33, 0xfe777bbf, 0xc2fbd9d1,
      0x8ada8930, 0xb0638179, 0xcc899961, 0x846ee454)
  const STATE_22: Vectors := Vectors(0xc2606d6d, 0x9dc68b63, 0xe1f20c33, 0xfe777bbf,
      0xe1257970, 0x8ada8930, 0xb0638179, 0xcc899961)
  const STATE_23: Vectors := Vectors(0xa7a3623f, 0xc2606d6d, 0x9dc68b63, 0xe1f20c33,
      0x49f5114a, 0xe1257970, 0x8ada8930, 0xb0638179)
  const STATE_24: Vectors := Vectors(0xc5d53d8d, 0xa7a3623f, 0xc2606d6d, 0x9dc68b63,
      0xaa47c347, 0x49f5114a, 0xe1257970, 0x8ada8930)
  const STATE_25: Vectors := Vectors(0x1c2c2838, 0xc5d53d8d, 0xa7a3623f, 0xc2606d6d,
      0x2823ef91, 0xaa47c347, 0x49f5114a, 0xe1257970)
  const STATE_26: Vectors := Vectors(0xcde8037d, 0x1c2c2838, 0xc5d53d8d, 0xa7a3623f,
      0x14383d8e, 0x2823ef91, 0xaa47c347, 0x49f5114a)
  const STATE_27: Vectors := Vectors(0xb62ec4bc, 0xcde8037d, 0x1c2c2838, 0xc5d53d8d,
      0xc74c6516, 0x14383d8e, 0x2823ef91, 0xaa47c347)
  const STATE_28: Vectors := Vectors(0x77d37528, 0xb62ec4bc, 0xcde8037d, 0x1c2c2838,
      0xedffbff8, 0xc74c6516, 0x14383d8e, 0x2823ef91)
  const STATE_29: Vectors := Vectors(0x363482c9, 0x77d37528, 0xb62ec4bc, 0xcde8037d,
      0x6112a3b7, 0xedffbff8, 0xc74c6516, 0x14383d8e)
  const STATE_30: Vectors := Vectors(0xa0060b30, 0x363482c9, 0x77d37528, 0xb62ec4bc,
      0xade79437, 0x6112a3b7, 0xedffbff8, 0xc74c6516)
  const STATE_31: Vectors := Vectors(0xea992a22, 0xa0060b30, 0x363482c9, 0x77d37528,
      0x0109ab3a, 0xade79437, 0x6112a3b7, 0xedffbff8)
  const STATE_32: Vectors := Vectors(0x73b33bf5, 0xea992a22, 0xa0060b30, 0x363482c9,
      0xba591112, 0x0109ab3a, 0xade79437, 0x6112a3b7)
  const STATE_33: Vectors := Vectors(0x98e12507, 0x73b33bf5, 0xea992a22, 0xa0060b30,
      0x9cd9f5f6, 0xba591112, 0x0109ab3a, 0xade79437)
  const STATE_34: Vectors := Vectors(0xfe604df5, 0x98e12507, 0x73b33bf5, 0xea992a22,
      0x59249dd3, 0x9cd9f5f6, 0xba591112, 0x0109ab3a)
  const STATE_35: Vectors := Vectors(0xa9a7738c, 0xfe604df5, 0x98e12507, 0x73b33bf5,
      0x085f3833, 0x59249dd3, 0x9cd9f5f6, 0xba591112)
  const STATE_36: Vectors := Vectors(0x65a0cfe4, 0xa9a7738c, 0xfe604df5, 0x98e12507,
      0xf4b002d6, 0x085f3833, 0x59249dd3, 0x9cd9f5f6)
  const STATE_37: Vectors := Vectors(0x41a65cb1, 0x65a0cfe4, 0xa9a7738c, 0xfe604df5,
      0x0772a26b, 0xf4b002d6, 0x085f3833, 0x59249dd3)
  const STATE_38: Vectors := Vectors(0x34df1604, 0x41a65cb1, 0x65a0cfe4, 0xa9a7738c,
      0xa507a53d, 0x0772a26b, 0xf4b002d6, 0x085f3833)
  const STATE_39: Vectors := Vectors(0x6dc57a8a, 0x34df1604, 0x41a65cb1, 0x65a0cfe4,
      0xf0781bc8, 0xa507a53d, 0x0772a26b, 0xf4b002d6)
  const STATE_40: Vectors := Vectors(0x79ea687a, 0x6dc57a8a, 0x34df1604, 0x41a65cb1,
      0x1efbc0a0, 0xf0781bc8, 0xa507a53d, 0x0772a26b)
  const STATE_41: Vectors := Vectors(0xd6670766, 0x79ea687a, 0x6dc57a8a, 0x34df1604,
      0x26352d63, 0x1efbc0a0, 0xf0781bc8, 0xa507a53d)
  const STATE_42: Vectors := Vectors(0xdf46652f, 0xd6670766, 0x79ea687a, 0x6dc57a8a,
      0x838b2711, 0x26352d63, 0x1efbc0a0, 0xf0781bc8)
  const STATE_43: Vectors := Vectors(0x17aa0dfe, 0xdf46652f, 0xd6670766, 0x79ea687a,
      0xdecd4715, 0x838b2711, 0x26352d63, 0x1efbc0a0)
  const STATE_44: Vectors := Vectors(0x9d4baf93, 0x17aa0dfe, 0xdf46652f, 0xd6670766,
      0xfda24c2e, 0xdecd4715, 0x838b2711, 0x26352d63)
  const STATE_45: Vectors := Vectors(0x26628815, 0x9d4baf93, 0x17aa0dfe, 0xdf46652f,
      0xa80f11f0, 0xfda24c2e, 0xdecd4715, 0x838b2711)
  const STATE_46: Vectors := Vectors(0x72ab4b91, 0x26628815, 0x9d4baf93, 0x17aa0dfe,
      0xb7755da1, 0xa80f11f0, 0xfda24c2e, 0xdecd4715)
  const STATE_47: Vectors := Vectors(0xa14c14b0, 0x72ab4b91, 0x26628815, 0x9d4baf93,
      0xd57b94a9, 0xb7755da1, 0xa80f11f0, 0xfda24c2e)
  const STATE_48: Vectors := Vectors(0x4172328d, 0xa14c14b0, 0x72ab4b91, 0x26628815,
      0xfecf0bc6, 0xd57b94a9, 0xb7755da1, 0xa80f11f0)
  const STATE_49: Vectors := Vectors(0x05757ceb, 0x4172328d, 0xa14c14b0, 0x72ab4b91,
      0xbd714038, 0xfecf0bc6, 0xd57b94a9, 0xb7755da1)
  const STATE_50: Vectors := Vectors(0xf11bfaa8, 0x05757ceb, 0x4172328d, 0xa14c14b0,
      0x6e5c390c, 0xbd714038, 0xfecf0bc6, 0xd57b94a9)
  const STATE_51: Vectors := Vectors(0x7a0508a1, 0xf11bfaa8, 0x05757ceb, 0x4172328d,
      0x52f1ccf7, 0x6e5c390c, 0xbd714038, 0xfecf0bc6)
  const STATE_52: Vectors := Vectors(0x886e7a22, 0x7a0508a1, 0xf11bfaa8, 0x05757ceb,
      0x49231c1e, 0x52f1ccf7, 0x6e5c390c, 0xbd714038)
  const STATE_53: Vectors := Vectors(0x101fd28f, 0x886e7a22, 0x7a0508a1, 0xf11bfaa8,
      0x529e7d00, 0x49231c1e, 0x52f1ccf7, 0x6e5c390c)
  const STATE_54: Vectors := Vectors(0xf5702fdb, 0x101fd28f, 0x886e7a22, 0x7a0508a1,
      0x9f4787c3, 0x529e7d00, 0x49231c1e, 0x52f1ccf7)
  const STATE_55: Vectors := Vectors(0x3ec45cdb, 0xf5702fdb, 0x101fd28f, 0x886e7a22,
      0xe50e1b4f, 0x9f4787c3, 0x529e7d00, 0x49231c1e)
  const STATE_56: Vectors := Vectors(0x38cc9913, 0x3ec45cdb, 0xf5702fdb, 0x101fd28f,
      0x54cb266b, 0xe50e1b4f, 0x9f4787c3, 0x529e7d00)
  const STATE_57: Vectors := Vectors(0xfcd1887b, 0x38cc9913, 0x3ec45cdb, 0xf5702fdb,
      0x9b5e906c, 0x54cb266b, 0xe50e1b4f, 0x9f4787c3)
  const STATE_58: Vectors := Vectors(0xc062d46f, 0xfcd1887b, 0x38cc9913, 0x3ec45cdb,
      0x7e44008e, 0x9b5e906c, 0x54cb266b, 0xe50e1b4f)
  const STATE_59: Vectors := Vectors(0xffb70472, 0xc062d46f, 0xfcd1887b, 0x38cc9913,
      0x6d83bfc6, 0x7e44008e, 0x9b5e906c, 0x54cb266b)
  const STATE_60: Vectors := Vectors(0xb6ae8fff, 0xffb70472, 0xc062d46f, 0xfcd1887b,
      0xb21bad3d, 0x6d83bfc6, 0x7e44008e, 0x9b5e906c)
  const STATE_61: Vectors := Vectors(0xb85e2ce9, 0xb6ae8fff, 0xffb70472, 0xc062d46f,
      0x961f4894, 0xb21bad3d, 0x6d83bfc6, 0x7e44008e)
  const STATE_62: Vectors := Vectors(0x04d24d6c, 0xb85e2ce9, 0xb6ae8fff, 0xffb70472,
      0x948d25b6, 0x961f4894, 0xb21bad3d, 0x6d83bfc6)
  const STATE_63: Vectors := Vectors(0xd39a2165, 0x04d24d6c, 0xb85e2ce9, 0xb6ae8fff,
      0xfb121210, 0x948d25b6, 0x961f4894, 0xb21bad3d)
  const STATE_64: Vectors := Vectors(0x506e3058, 0xd39a2165, 0x04d24d6c, 0xb85e2ce9,
      0x5ef50f24, 0xfb121210, 0x948d25b6, 0x961f4894)

  lemma {:induction false} Rounds8()
    ensures IsState(8, STATE_8)
  {
    hide IsState, IsWord, K, Value;
    FirstState();
    Words0();
    Constants4();
    Constants8();
    NextState(0, STATE_0, 0x428a2f98, 0x61626380, STATE_1);
    NextState(1, STATE_1, 0x71374491, 0, STATE_2);
    NextState(2, STATE_2, 0xb5c0fbcf, 0, STATE_3);
    NextState(3, STATE_3, 0xe9b5dba5, 0, STATE_4);
    NextState(4, STATE_4, 0x3956c25b, 0, STATE_5);
    NextState(5, STATE_5, 0x59f111f1, 0, STATE_6);
    NextState(6, STATE_6, 0x923f82a4, 0, STATE_7);
    NextState(7, STATE_7, 0xab1c5ed5, 0, STATE_8);
  }

  lemma {:induction false} Rounds16()
    ensures IsState(16, STATE_16)
  {
    hide IsState, IsWord, K, Value;
    Rounds8();
    Words0();
    Constants12();
    Constants16();
    NextState(8, STATE_8, 0xd807aa98, 0, STATE_9);
    NextState(9, STATE_9, 0x12835b01, 0, STATE_10);
    NextState(10, STATE_10, 0x243185be, 0, STATE_11);
    NextState(11, STATE_11, 0x550c7dc3, 0, STATE_12);
    NextState(12, STATE_12, 0x72be5d74, 0, STATE_13);
    NextState(13, STATE_13, 0x80deb1fe, 0, STATE_14);
    NextState(14, STATE_14, 0x9bdc06a7, 0, STATE_15);
    NextState(15, STATE_15, 0xc19bf174, 0x00000018, STATE_16);
  }

  lemma {:induction false} Rounds24()
    ensures IsState(24, STATE_24)
  {
    hide IsState, IsWord, K, Value;
    Rounds16();
    Words1();
    Constants20();
    Constants24();
    NextState(16, STATE_16, 0xe49b69c1, 0x61626380, STATE_17);
    NextState(17, STATE_17, 0xefbe4786, 0x000f0000, STATE_18);
    NextState(18, STATE_18, 0x0fc19dc6, 0x7da86405, STATE_19);
    NextState(19, STATE_19, 0x240ca1cc, 0x600003c6, STATE_20);
    NextState(20, STATE_20, 0x2de92c6f, 0x3e9d7b78, STATE_21);
    NextState(21, STATE_21, 0x4a7484aa, 0x0183fc00, STATE_22);
    NextState(22, STATE_22, 0x5cb0a9dc, 0x12dcbfdb, STATE_23);
    NextState(23, STATE_23, 0x76f988da, 0xe2e2c38e, STATE_24);
  }

  lemma {:induction false} Rounds32()
    ensures IsState(32, STATE_32)
  {
    hide IsState, IsWord, K, Value;
    Rounds24();
    Words2();
    Constants28();
    Constants32();
    NextState(24, STATE_24, 0x983e5152, 0xc8215c1a, STATE_25);
    NextState(25, STATE_25, 0xa831c66d, 0xb73679a2, STATE_26);
    NextState(26, STATE_26, 0xb00327c8, 0xe5bc3909, STATE_27);
    NextState(27, STATE_27, 0xbf597fc7, 0x32663c5b, STATE_28);
    NextState(28, STATE_28, 0xc6e00bf3, 0x9d209d67, STATE_29);
    NextState(29, STATE_29, 0xd5a79147, 0xec8726cb, STATE_30);
    NextState(30, STATE_30, 0x06ca6351, 0x702138a4, STATE_31);
    NextState(31, STATE_31, 0x14292967, 0xd3b7973b, STATE_32);
  }

  lemma {:induction false} Rounds40()
    ensures IsState(40, STATE_40)
  {
    hide IsState, IsWord, K, Value;
    Rounds32();
    Words3();
    Constants36();
    Constants40();
    NextState(32, STATE_32, 0x27b70a85, 0x93f5997f, STATE_33);
    NextState(33, STATE_33, 0x2e1b2138, 0x3b68ba73, STATE_34);
    NextState(34, STATE_34, 0x4d2c6dfc, 0xaff4ffc1, STATE_35);
    NextState(35, STATE_35, 0x53380d13, 0xf10a5c62, STATE_36);
    NextState(36, STATE_36, 0x650a7354, 0x0a8b3996, STATE_37);
    NextState(37, STATE_37, 0x766a0abb, 0x72af830a, STATE_38);
    NextState(38, STATE_38, 0x81c2c92e, 0x9409e33e, STATE_39);
    NextState(39, STATE_39, 0x92722c85, 0x24641522, STATE_40);
  }

  lemma {:induction false} Rounds48()
    ensures IsState(48, STATE_48)
  {
    hide IsState, IsWord, K, Value;
    Rounds40();
    Words4();
    Constants44();
    Constants48();
    NextState(40, STATE_40, 0xa2bfe8a1, 0x9f47bf94, STATE_41);
    NextState(41, STATE_41, 0xa81a664b, 0xf0a64f5a, STATE_42);
    NextState(42, STATE_42, 0xc24b8b70, 0x3e246a79, STATE_43);
    NextState(43, STATE_43, 0xc76c51a3, 0x27333ba3, STATE_44);
    NextState(44, STATE_44, 0xd192e819, 0x0c4763f2, STATE_45);
    NextState(45, STATE_45, 0xd6990624, 0x840abf27, STATE_46);
    NextState(46, STATE_46, 0xf40e3585, 0x7a290d5d, STATE_47);
    NextState(47, STATE_47, 0x106aa070, 0x065c43da, STATE_48);
  }

  lemma {:induction false} Rounds56()
    ensures IsState(56, STATE_56)
  {
    hide IsState, IsWord, K, Value;
    Rounds48();
    Words5();
    Constants52();
    Constants56();
    NextState(48, STATE_48, 0x19a4c116, 0xfb3e89cb, STATE_49);
    NextState(49, STATE_49, 0x1e376c08, 0xcc7617db, STATE_50);
    NextState(50, STATE_50, 0x2748774c, 0xb9e66c34, STATE_51);
    NextState(51, STATE_51, 0x34b0bcb5, 0xa9993667, STATE_52);
    NextState(52, STATE_52, 0x391c0cb3, 0x84badedd, STATE_53);
    NextState(53, STATE_53, 0x4ed8aa4a, 0xc21462bc, STATE_54);
    NextState(54, STATE_54, 0x5b9cca4f, 0x1487472c, STATE_55);
    NextState(55, STATE_55, 0x682e6ff3, 0xb20f7a99, STATE_56);
  }

  lemma {:induction false} Rounds64()
    ensures IsState(64, STATE_64)
  {
    hide IsState, IsWord, K, Value;
    Rounds56();
    Words6();
    Constants60();
    Constants64();
    NextState(56, STATE_56, 0x748f82ee, 0xef57b9cd, STATE_57);
    NextState(57, STATE_57, 0x78a5636f, 0xebe6b238, STATE_58);
    NextState(58, STATE_58, 0x84c87814, 0x9fe3095e, STATE_59);
    NextState(59, STATE_59, 0x8cc70208, 0x78bc8d4b, STATE_60);
    NextState(60, STATE_60, 0x90befffa, 0xa43fcf15, STATE_61);
    NextState(61, STATE_61, 0xa4506ceb, 0x668b2ff8, STATE_62);
    NextState(62, STATE_62, 0xbef9a3f7, 0xeeaba2cc, STATE_63);
    NextState(63, STATE_63, 0xc67178f2, 0x12b1edeb, STATE_64);
  }

  /** One block, "abc", from the initial hash value: the digest of the standard. */
  lemma {:induction false} DigestOfAbc()
    ensures |K| == 64 && |H_256| == 8
    ensures Compress(ToWords(H_256), ToWords(K), ToWords(ABC))
         == ToWords([0xBA7816BF, 0x8F01CFEA, 0x414140DE, 0x5DAE2223,
                     0xB00361A3, 0x96177A9C, 0xB410FF61, 0xF20015AD])
  {
    hide WordOf, ToWord, Value, Add, Plus, Rounds;
    Rounds64();
    HashValues();
    DigestValues();
    ValueIs(0x6a09e667);
    ValueIs(0xbb67ae85);
    ValueIs(0x3c6ef372);
    ValueIs(0xa54ff53a);
    ValueIs(0x510e527f);
    ValueIs(0x9b05688c);
    ValueIs(0x1f83d9ab);
    ValueIs(0x5be0cd19);
    ValueIs(0xba7816bf);
    ValueIs(0x8f01cfea);
    ValueIs(0x414140de);
    ValueIs(0x5dae2223);
    ValueIs(0xb00361a3);
    ValueIs(0x96177a9c);
    ValueIs(0xb410ff61);
    ValueIs(0xf20015ad);
    AddOf(0x6a09e667, 0x506e3058);
    AddOf(0xbb67ae85, 0xd39a2165);
    AddOf(0x3c6ef372, 0x04d24d6c);
    AddOf(0xa54ff53a, 0xb85e2ce9);
    AddOf(0x510e527f, 0x5ef50f24);
    AddOf(0x9b05688c, 0xfb121210);
    AddOf(0x1f83d9ab, 0x948d25b6);
    AddOf(0x5be0cd19, 0x961f4894);
  }

  lemma {:induction false} DigestValues()
    ensures Plus(0x6a09e667, 0x506e3058) == 0xba7816bf && Value(0xba7816bf) == 0xba7816bf
    ensures Plus(0xbb67ae85, 0xd39a2165) == 0x8f01cfea && Value(0x8f01cfea) == 0x8f01cfea
    ensures Plus(0x3c6ef372, 0x04d24d6c) == 0x414140de && Value(0x414140de) == 0x414140de
    ensures Plus(0xa54ff53a, 0xb85e2ce9) == 0x5dae2223 && Value(0x5dae2223) == 0x5dae2223
    ensures Plus(0x510e527f, 0x5ef50f24) == 0xb00361a3 && Value(0xb00361a3) == 0xb00361a3
    ensures Plus(0x9b05688c, 0xfb121210) == 0x96177a9c && Value(0x96177a9c) == 0x96177a9c
    ensures Plus(0x1f83d9ab, 0x948d25b6) == 0xb410ff61 && Value(0xb410ff61) == 0xb410ff61
    ensures Plus(0x5be0cd19, 0x961f4894) == 0xf20015ad && Value(0xf20015ad) == 0xf20015ad
  {
  }
}
