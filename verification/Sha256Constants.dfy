/** The constants of FIPS 180-4, sections 4.2.2 and 5.3, are what that standard derives them from. */
module Sha256Constants {
  import Arithmetic
  import opened Sha256Words
  import opened Sha256

  ghost predicate IsPrime(p: int) {
    p >= 2 && forall d :: 2 <= d < p ==> p % d != 0
  }

  const PRIMES: seq<int> :=
    [2, 3, 5, 7, 11, 13, 17, 19]
    + [23, 29, 31, 37, 41, 43, 47, 53]
    + [59, 61, 67, 71, 73, 79, 83, 89]
    + [97, 101, 103, 107, 109, 113, 127, 131]
    + [137, 139, 149, 151, 157, 163, 167, 173]
    + [179, 181, 191, 193, 197, 199, 211, 223]
    + [227, 229, 233, 239, 241, 251, 257, 263]
    + [269, 271, 277, 281, 283, 293, 307, 311]

  // ----- the first 64 primes -----

  /** Not divided by a smaller prime below 18. */
  predicate Sieved(n: int) {
    && n >= 2 && (n == 2 || n % 2 != 0) && (n == 3 || n % 3 != 0) && (n == 5 || n % 5 != 0) && (n == 7 || n % 7 != 0)
    && (n == 11 || n % 11 != 0) && (n == 13 || n % 13 != 0) && (n == 17 || n % 17 != 0)
  }

  lemma {:induction false} Through(n: int, d: int, f: int)
    requires n >= 0 && d > 0 && f > 0 && n % d == 0 && d % f == 0
    ensures n % f == 0
  {
    var q := d / f * (n / d);
    calc {
      n;
      d * (n / d);
      f * (d / f) * (n / d);
      f * q;
    }
    Arithmetic.RemainderIs(n, f, q, 0);
  }

  lemma {:induction false} SmallDivisor(n: int, d: int)
    requires 2 <= d < 18 && d < n && n % d == 0
    ensures !Sieved(n)
  {
    if d % 2 == 0 {
      Through(n, d, 2);
    } else if d % 3 == 0 {
      Through(n, d, 3);
    }
  }

  /** A divisor or its quotient is below 18. */
  lemma {:induction false} OneIsSmall(n: int, d: int)
    requires 2 <= d < n < 324 && n % d == 0
    ensures 2 <= n / d < n && n % (n / d) == 0 && (d < 18 || n / d < 18)
  {
    var e := n / d;
    assert n == d * e;
    Arithmetic.Ordered(d, e, 1);
    Arithmetic.Ordered(e, 2, d);
    Arithmetic.RemainderIs(n, e, d, 0);
    if d >= 18 && e >= 18 {
      Arithmetic.Ordered(d, 18, e);
    }
  }

  lemma {:induction false} SievedIsPrime(n: int)
    requires n < 324
    ensures Sieved(n) <==> IsPrime(n)
  {
    if Sieved(n) {
      forall d | 2 <= d < n
        ensures n % d != 0
      {
        if n % d == 0 {
          OneIsSmall(n, d);
          SmallDivisor(n, if d < 18 then d else n / d);
        }
      }
    }
  }

  predicate NoneSieved(lo: int, hi: int)
    decreases hi - lo
  {
    lo >= hi || (!Sieved(lo) && NoneSieved(lo + 1, hi))
  }

  predicate Next(p: int, q: int) {
    p < q && NoneSieved(p + 1, q) && Sieved(q)
  }

  lemma {:induction false} NoneBetween(lo: int, hi: int, n: int)
    requires NoneSieved(lo, hi) && lo <= n < hi
    ensures !Sieved(n)
    decreases hi - lo
  {
    if lo < n {
      NoneBetween(lo + 1, hi, n);
    }
  }

  lemma {:induction false} Gaps1()
    ensures Next(PRIMES[0], PRIMES[1]) && Next(PRIMES[1], PRIMES[2])
    ensures Next(PRIMES[2], PRIMES[3]) && Next(PRIMES[3], PRIMES[4])
  {
  }

  lemma {:induction false} Gaps2()
    ensures Next(PRIMES[4], PRIMES[5]) && Next(PRIMES[5], PRIMES[6])
    ensures Next(PRIMES[6], PRIMES[7]) && Next(PRIMES[7], PRIMES[8])
  {
  }

  lemma {:induction false} Gaps3()
    ensures Next(PRIMES[8], PRIMES[9]) && Next(PRIMES[9], PRIMES[10])
    ensures Next(PRIMES[10], PRIMES[11]) && Next(PRIMES[11], PRIMES[12])
  {
  }

  lemma {:induction false} Gaps4()
    ensures Next(PRIMES[12], PRIMES[13]) && Next(PRIMES[13], PRIMES[14])
    ensures Next(PRIMES[14], PRIMES[15]) && Next(PRIMES[15], PRIMES[16])
  {
  }

  lemma {:induction false} Gaps5()
    ensures Next(PRIMES[16], PRIMES[17]) && Next(PRIMES[17], PRIMES[18])
    ensures Next(PRIMES[18], PRIMES[19]) && Next(PRIMES[19], PRIMES[20])
  {
  }

  lemma {:induction false} Gaps6()
    ensures Next(PRIMES[20], PRIMES[21]) && Next(PRIMES[21], PRIMES[22])
    ensures Next(PRIMES[22], PRIMES[23]) && Next(PRIMES[23], PRIMES[24])
  {
  }

  lemma {:induction false} Gaps7()
    ensures Next(PRIMES[24], PRIMES[25]) && Next(PRIMES[25], PRIMES[26])
    ensures Next(PRIMES[26], PRIMES[27]) && Next(PRIMES[27], PRIMES[28])
  {
  }

  lemma {:induction false} Gaps8()
    ensures Next(PRIMES[28], PRIMES[29]) && Next(PRIMES[29], PRIMES[30])
    ensures Next(PRIMES[30], PRIMES[31]) && Next(PRIMES[31], PRIMES[32])
  {
  }

  lemma {:induction false} Gaps9()
    ensures Next(PRIMES[32], PRIMES[33]) && Next(PRIMES[33], PRIMES[34])
    ensures Next(PRIMES[34], PRIMES[35]) && Next(PRIMES[35], PRIMES[36])
  {
  }

  lemma {:induction false} Gaps10()
    ensures Next(PRIMES[36], PRIMES[37]) && Next(PRIMES[37], PRIMES[38])
    ensures Next(PRIMES[38], PRIMES[39]) && Next(PRIMES[39], PRIMES[40])
  {
  }

  lemma {:induction false} Gaps11()
    ensures Next(PRIMES[40], PRIMES[41]) && Next(PRIMES[41], PRIMES[42])
    ensures Next(PRIMES[42], PRIMES[43]) && Next(PRIMES[43], PRIMES[44])
  {
  }

  lemma {:induction false} Gaps12()
    ensures Next(PRIMES[44], PRIMES[45]) && Next(PRIMES[45], PRIMES[46])
    ensures Next(PRIMES[46], PRIMES[47]) && Next(PRIMES[47], PRIMES[48])
  {
  }

  lemma {:induction false} Gaps13()
    ensures Next(PRIMES[48], PRIMES[49]) && Next(PRIMES[49], PRIMES[50])
    ensures Next(PRIMES[50], PRIMES[51]) && Next(PRIMES[51], PRIMES[52])
  {
  }

  lemma {:induction false} Gaps14()
    ensures Next(PRIMES[52], PRIMES[53]) && Next(PRIMES[53], PRIMES[54])
    ensures Next(PRIMES[54], PRIMES[55]) && Next(PRIMES[55], PRIMES[56])
  {
  }

  lemma {:induction false} Gaps15()
    ensures Next(PRIMES[56], PRIMES[57]) && Next(PRIMES[57], PRIMES[58])
    ensures Next(PRIMES[58], PRIMES[59]) && Next(PRIMES[59], PRIMES[60])
  {
  }

  lemma {:induction false} Gaps16()
    ensures Next(PRIMES[60], PRIMES[61]) && Next(PRIMES[61], PRIMES[62])
    ensures Next(PRIMES[62], PRIMES[63])
  {
  }

  lemma {:induction false} LowGap(k: nat)
    requires 0 <= k < 32
    ensures |PRIMES| == 64 && Next(PRIMES[k], PRIMES[k + 1])
  {
    hide *;
    PrimeTable();
    if k < 4 {
      Gaps1();
    } else if k < 8 {
      Gaps2();
    } else if k < 12 {
      Gaps3();
    } else if k < 16 {
      Gaps4();
    } else if k < 20 {
      Gaps5();
    } else if k < 24 {
      Gaps6();
    } else if k < 28 {
      Gaps7();
    } else {
      Gaps8();
    }
  }

  lemma {:induction false} HighGap(k: nat)
    requires 32 <= k < 63
    ensures |PRIMES| == 64 && Next(PRIMES[k], PRIMES[k + 1])
  {
    hide *;
    PrimeTable();
    if k < 36 {
      Gaps9();
    } else if k < 40 {
      Gaps10();
    } else if k < 44 {
      Gaps11();
    } else if k < 48 {
      Gaps12();
    } else if k < 52 {
      Gaps13();
    } else if k < 56 {
      Gaps14();
    } else if k < 60 {
      Gaps15();
    } else {
      Gaps16();
    }
  }

  /** Each of them is the next prime after the one before. */
  lemma {:induction false} FirstPrimes(k: nat)
    requires k < 63
    ensures |PRIMES| == 64 && PRIMES[0] == 2 && IsPrime(2)
    ensures PRIMES[k] < PRIMES[k + 1] && IsPrime(PRIMES[k + 1])
    ensures forall n :: PRIMES[k] < n < PRIMES[k + 1] ==> !IsPrime(n)
  {
    hide Sieved, IsPrime, NoneSieved, PRIMES;
    if k < 32 {
      LowGap(k);
    } else {
      HighGap(k);
    }
    PrimeTable();
    SievedIsPrime(PRIMES[k + 1]);
    forall n | PRIMES[k] < n < PRIMES[k + 1]
      ensures !IsPrime(n)
    {
      NoneBetween(PRIMES[k] + 1, PRIMES[k + 1], n);
      SievedIsPrime(n);
    }
  }

  lemma {:induction false} PrimeTable()
    ensures |PRIMES| == 64 && PRIMES[0] == 2 && IsPrime(2) && forall k :: 0 <= k < 64 ==> PRIMES[k] < 324
  {
  }

  // ----- roots -----

  const POW_64: int := WORD * WORD
  const POW_96: int := WORD * POW_64
  const POW_128: int := POW_64 * POW_64

  function Cube(x: int): (c: int) {
    x * x * x
  }

  /** `x` is the cube root of `n`, rounded down. */
  predicate CubeRoot(x: int, n: int) {
    x >= 0 && Cube(x) <= n < Cube(x + 1)
  }

  predicate SquareRoot(x: int, n: int) {
    x >= 0 && x * x <= n < (x + 1) * (x + 1)
  }

  lemma {:induction false} SquareGrows(x: int, y: int)
    requires 0 <= x <= y
    ensures x * x <= y * y
  {
    Arithmetic.Ordered(x, x, y);
    Arithmetic.Ordered(y, x, y);
  }

  lemma {:induction false} CubeGrows(x: int, y: int)
    requires 0 <= x <= y
    ensures Cube(x) <= Cube(y)
  {
    SquareGrows(x, y);
    Arithmetic.Ordered(x, x * x, y * y);
    Arithmetic.Ordered(y * y, x, y);
  }

  lemma {:induction false} OneCubeRoot(x: int, y: int, n: int)
    requires CubeRoot(x, n) && CubeRoot(y, n)
    ensures x == y
  {
    if x < y {
      CubeGrows(x + 1, y);
    } else if y < x {
      CubeGrows(y + 1, x);
    }
  }

  lemma {:induction false} OneSquareRoot(x: int, y: int, n: int)
    requires SquareRoot(x, n) && SquareRoot(y, n)
    ensures x == y
  {
    if x < y {
      SquareGrows(x + 1, y);
    } else if y < x {
      SquareGrows(y + 1, x);
    }
  }

  /** The cube root of `n`, rounded down, ends in the 32 bits `k`. */
  ghost predicate CubeRootEndsIn(n: int, k: int) {
    (exists x :: CubeRoot(x, n)) && forall x :: CubeRoot(x, n) ==> x % WORD == k
  }

  ghost predicate SquareRootEndsIn(n: int, k: int) {
    (exists x :: SquareRoot(x, n)) && forall x :: SquareRoot(x, n) ==> x % WORD == k
  }

  lemma {:induction false} ItsCubeRoot(m: nat, k: nat, n: int)
    requires k < WORD && CubeRoot(m * WORD + k, n)
    ensures CubeRootEndsIn(n, k)
  {
    hide CubeRoot;
    assert (m * WORD + k) % WORD == k;
    forall x | CubeRoot(x, n)
      ensures x % WORD == k
    {
      OneCubeRoot(x, m * WORD + k, n);
    }
  }

  lemma {:induction false} ItsSquareRoot(m: nat, k: nat, n: int)
    requires k < WORD && SquareRoot(m * WORD + k, n)
    ensures SquareRootEndsIn(n, k)
  {
    hide SquareRoot;
    assert (m * WORD + k) % WORD == k;
    forall x | SquareRoot(x, n)
      ensures x % WORD == k
    {
      OneSquareRoot(x, m * WORD + k, n);
    }
  }

  // ----- the round constants -----

  lemma {:induction false} CubeRoots1()
    ensures CubeRoot(1 * WORD + K[0], PRIMES[0] * POW_96)
    ensures CubeRoot(1 * WORD + K[1], PRIMES[1] * POW_96)
    ensures CubeRoot(1 * WORD + K[2], PRIMES[2] * POW_96)
    ensures CubeRoot(1 * WORD + K[3], PRIMES[3] * POW_96)
  {
  }

  lemma {:induction false} CubeRoots2()
    ensures CubeRoot(2 * WORD + K[4], PRIMES[4] * POW_96)
    ensures CubeRoot(2 * WORD + K[5], PRIMES[5] * POW_96)
    ensures CubeRoot(2 * WORD + K[6], PRIMES[6] * POW_96)
    ensures CubeRoot(2 * WORD + K[7], PRIMES[7] * POW_96)
  {
  }

  lemma {:induction false} CubeRoots3()
    ensures CubeRoot(2 * WORD + K[8], PRIMES[8] * POW_96)
    ensures CubeRoot(3 * WORD + K[9], PRIMES[9] * POW_96)
    ensures CubeRoot(3 * WORD + K[10], PRIMES[10] * POW_96)
    ensures CubeRoot(3 * WORD + K[11], PRIMES[11] * POW_96)
  {
  }

  lemma {:induction false} CubeRoots4()
    ensures CubeRoot(3 * WORD + K[12], PRIMES[12] * POW_96)
    ensures CubeRoot(3 * WORD + K[13], PRIMES[13] * POW_96)
    ensures CubeRoot(3 * WORD + K[14], PRIMES[14] * POW_96)
    ensures CubeRoot(3 * WORD + K[15], PRIMES[15] * POW_96)
  {
  }

  lemma {:induction false} CubeRoots5()
    ensures CubeRoot(3 * WORD + K[16], PRIMES[16] * POW_96)
    ensures CubeRoot(3 * WORD + K[17], PRIMES[17] * POW_96)
    ensures CubeRoot(4 * WORD + K[18], PRIMES[18] * POW_96)
    ensures CubeRoot(4 * WORD + K[19], PRIMES[19] * POW_96)
  {
  }

  lemma {:induction false} CubeRoots6()
    ensures CubeRoot(4 * WORD + K[20], PRIMES[20] * POW_96)
    ensures CubeRoot(4 * WORD + K[21], PRIMES[21] * POW_96)
    ensures CubeRoot(4 * WORD + K[22], PRIMES[22] * POW_96)
    ensures CubeRoot(4 * WORD + K[23], PRIMES[23] * POW_96)
  {
  }

  lemma {:induction false} CubeRoots7()
    ensures CubeRoot(4 * WORD + K[24], PRIMES[24] * POW_96)
    ensures CubeRoot(4 * WORD + K[25], PRIMES[25] * POW_96)
    ensures CubeRoot(4 * WORD + K[26], PRIMES[26] * POW_96)
    ensures CubeRoot(4 * WORD + K[27], PRIMES[27] * POW_96)
  {
  }

  lemma {:induction false} CubeRoots8()
    ensures CubeRoot(4 * WORD + K[28], PRIMES[28] * POW_96)
    ensures CubeRoot(4 * WORD + K[29], PRIMES[29] * POW_96)
    ensures CubeRoot(5 * WORD + K[30], PRIMES[30] * POW_96)
    ensures CubeRoot(5 * WORD + K[31], PRIMES[31] * POW_96)
  {
  }

  lemma {:induction false} CubeRoots9()
    ensures CubeRoot(5 * WORD + K[32], PRIMES[32] * POW_96)
    ensures CubeRoot(5 * WORD + K[33], PRIMES[33] * POW_96)
    ensures CubeRoot(5 * WORD + K[34], PRIMES[34] * POW_96)
    ensures CubeRoot(5 * WORD + K[35], PRIMES[35] * POW_96)
  {
  }

  lemma {:induction false} CubeRoots10()
    ensures CubeRoot(5 * WORD + K[36], PRIMES[36] * POW_96)
    ensures CubeRoot(5 * WORD + K[37], PRIMES[37] * POW_96)
    ensures CubeRoot(5 * WORD + K[38], PRIMES[38] * POW_96)
    ensures CubeRoot(5 * WORD + K[39], PRIMES[39] * POW_96)
  {
  }

  lemma {:induction false} CubeRoots11()
    ensures CubeRoot(5 * WORD + K[40], PRIMES[40] * POW_96)
    ensures CubeRoot(5 * WORD + K[41], PRIMES[41] * POW_96)
    ensures CubeRoot(5 * WORD + K[42], PRIMES[42] * POW_96)
    ensures CubeRoot(5 * WORD + K[43], PRIMES[43] * POW_96)
  {
  }

  lemma {:induction false} CubeRoots12()
    ensures CubeRoot(5 * WORD + K[44], PRIMES[44] * POW_96)
    ensures CubeRoot(5 * WORD + K[45], PRIMES[45] * POW_96)
    ensures CubeRoot(5 * WORD + K[46], PRIMES[46] * POW_96)
    ensures CubeRoot(6 * WORD + K[47], PRIMES[47] * POW_96)
  {
  }

  lemma {:induction false} CubeRoots13()
    ensures CubeRoot(6 * WORD + K[48], PRIMES[48] * POW_96)
    ensures CubeRoot(6 * WORD + K[49], PRIMES[49] * POW_96)
    ensures CubeRoot(6 * WORD + K[50], PRIMES[50] * POW_96)
    ensures CubeRoot(6 * WORD + K[51], PRIMES[51] * POW_96)
  {
  }

  lemma {:induction false} CubeRoots14()
    ensures CubeRoot(6 * WORD + K[52], PRIMES[52] * POW_96)
    ensures CubeRoot(6 * WORD + K[53], PRIMES[53] * POW_96)
    ensures CubeRoot(6 * WORD + K[54], PRIMES[54] * POW_96)
    ensures CubeRoot(6 * WORD + K[55], PRIMES[55] * POW_96)
  {
  }

  lemma {:induction false} CubeRoots15()
    ensures CubeRoot(6 * WORD + K[56], PRIMES[56] * POW_96)
    ensures CubeRoot(6 * WORD + K[57], PRIMES[57] * POW_96)
    ensures CubeRoot(6 * WORD + K[58], PRIMES[58] * POW_96)
    ensures CubeRoot(6 * WORD + K[59], PRIMES[59] * POW_96)
  {
  }

  lemma {:induction false} CubeRoots16()
    ensures CubeRoot(6 * WORD + K[60], PRIMES[60] * POW_96)
    ensures CubeRoot(6 * WORD + K[61], PRIMES[61] * POW_96)
    ensures CubeRoot(6 * WORD + K[62], PRIMES[62] * POW_96)
    ensures CubeRoot(6 * WORD + K[63], PRIMES[63] * POW_96)
  {
  }

  lemma {:induction false} LowRoot(t: nat) returns (m: nat)
    requires 0 <= t < 32
    ensures |K| == |PRIMES| == 64 && CubeRoot(m * WORD + K[t], PRIMES[t] * POW_96)
  {
    hide CubeRoot, K, PRIMES;
    PrimeTable();
    ConstantInRange(0);
    m := if t < 4 then 1 else if t < 9 then 2 else if t < 18 then 3 else if t < 30 then 4 else 5;
    if t < 4 {
      CubeRoots1();
    } else if t < 8 {
      CubeRoots2();
    } else if t < 12 {
      CubeRoots3();
    } else if t < 16 {
      CubeRoots4();
    } else if t < 20 {
      CubeRoots5();
    } else if t < 24 {
      CubeRoots6();
    } else if t < 28 {
      CubeRoots7();
    } else {
      CubeRoots8();
    }
  }

  lemma {:induction false} HighRoot(t: nat) returns (m: nat)
    requires 32 <= t < 64
    ensures |K| == |PRIMES| == 64 && CubeRoot(m * WORD + K[t], PRIMES[t] * POW_96)
  {
    hide CubeRoot, K, PRIMES;
    PrimeTable();
    ConstantInRange(0);
    m := if t < 47 then 5 else 6;
    if t < 36 {
      CubeRoots9();
    } else if t < 40 {
      CubeRoots10();
    } else if t < 44 {
      CubeRoots11();
    } else if t < 48 {
      CubeRoots12();
    } else if t < 52 {
      CubeRoots13();
    } else if t < 56 {
      CubeRoots14();
    } else if t < 60 {
      CubeRoots15();
    } else {
      CubeRoots16();
    }
  }

  /** Constant `t`: the first 32 bits of the fractional part of the cube root of prime number `t`. */
  lemma {:induction false} RoundConstants(t: nat)
    requires t < 64
    ensures |K| == |PRIMES| == 64 && CubeRootEndsIn(PRIMES[t] * POW_96, K[t])
  {
    hide CubeRoot, CubeRootEndsIn, K, PRIMES, POW_96;
    var m: nat;
    if t < 32 {
      m := LowRoot(t);
    } else {
      m := HighRoot(t);
    }
    ItsCubeRoot(m, K[t], PRIMES[t] * POW_96);
  }

  // ----- the initial hash values -----

  lemma {:induction false} SquareRoots256A()
    ensures SquareRoot(1 * WORD + H_256[0], PRIMES[0] * POW_64)
    ensures SquareRoot(1 * WORD + H_256[1], PRIMES[1] * POW_64)
    ensures SquareRoot(2 * WORD + H_256[2], PRIMES[2] * POW_64)
    ensures SquareRoot(2 * WORD + H_256[3], PRIMES[3] * POW_64)
  {
  }

  lemma {:induction false} SquareRoots256B()
    ensures SquareRoot(3 * WORD + H_256[4], PRIMES[4] * POW_64)
    ensures SquareRoot(3 * WORD + H_256[5], PRIMES[5] * POW_64)
    ensures SquareRoot(4 * WORD + H_256[6], PRIMES[6] * POW_64)
    ensures SquareRoot(4 * WORD + H_256[7], PRIMES[7] * POW_64)
  {
  }

  lemma {:induction false} SquareRoots224A()
    ensures SquareRoot(0x4cbbb9d5d * WORD + H_224[0], PRIMES[8] * POW_128)
    ensures SquareRoot(0x5629a292a * WORD + H_224[1], PRIMES[9] * POW_128)
    ensures SquareRoot(0x59159015a * WORD + H_224[2], PRIMES[10] * POW_128)
    ensures SquareRoot(0x6152fecd8 * WORD + H_224[3], PRIMES[11] * POW_128)
  {
  }

  lemma {:induction false} SquareRoots224B()
    ensures SquareRoot(0x667332667 * WORD + H_224[4], PRIMES[12] * POW_128)
    ensures SquareRoot(0x68eb44a87 * WORD + H_224[5], PRIMES[13] * POW_128)
    ensures SquareRoot(0x6db0c2e0d * WORD + H_224[6], PRIMES[14] * POW_128)
    ensures SquareRoot(0x747b5481d * WORD + H_224[7], PRIMES[15] * POW_128)
  {
  }

  /** The initial hash value of SHA-256: the first 32 bits of the fractional parts of the square roots of the first
      eight primes. */
  lemma {:induction false} InitialHash256(i: nat)
    requires i < 8
    ensures |H_256| == 8 && |PRIMES| == 64 && SquareRootEndsIn(PRIMES[i] * POW_64, H_256[i])
  {
    hide SquareRoot, SquareRootEndsIn, PRIMES, POW_64;
    PrimeTable();
    SquareRoots256A();
    SquareRoots256B();
    var ms := [1, 1, 2, 2, 3, 3, 4, 4];
    ItsSquareRoot(ms[i], H_256[i], PRIMES[i] * POW_64);
  }

  /** The initial hash value of SHA-224: the second 32 bits of those of the ninth to the sixteenth prime. */
  lemma {:induction false} InitialHash224(i: nat)
    requires i < 8
    ensures |H_224| == 8 && |PRIMES| == 64 && SquareRootEndsIn(PRIMES[8 + i] * POW_128, H_224[i])
  {
    hide SquareRoot, SquareRootEndsIn, PRIMES, POW_128;
    PrimeTable();
    SquareRoots224A();
    SquareRoots224B();
    var ms := [0x4cbbb9d5d, 0x5629a292a, 0x59159015a, 0x6152fecd8, 0x667332667, 0x68eb44a87, 0x6db0c2e0d, 0x747b5481d];
    ItsSquareRoot(ms[i], H_224[i], PRIMES[8 + i] * POW_128);
  }
}
