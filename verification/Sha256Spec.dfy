/** The hash computation of FIPS 180-4, section 6.2.2, on words of 32 bits. */
module Sha256Spec {
  import opened Binary
  import opened Sha256Words

  /** Bit 0 is the lowest. */
  type Word = w: seq<bool> | |w| == 32 witness seq(32, _ => false)

  function ToWord(n: int): (w: Word) {
    seq(32, i requires 0 <= i => Bit(n, i))
  }

  predicate InRange(n: int) {
    0 <= n < WORD
  }

  function ToWords(ns: seq<int>): (ws: seq<Word>)
    ensures |ws| == |ns|
  {
    seq(|ns|, i requires 0 <= i < |ns| => ToWord(ns[i]))
  }

  predicate AllInRange(ns: seq<int>) {
    forall i :: 0 <= i < |ns| ==> InRange(ns[i])
  }

  /** Addition modulo 2^32. */
  function Add(x: Word, y: Word): (z: Word) {
    ToWord((Number(x) + Number(y)) % WORD)
  }

  function Rotr(x: Word, n: nat): (z: Word) {
    seq(32, i requires 0 <= i => x[(i + n) % 32])
  }

  function Shr(x: Word, n: nat): (z: Word) {
    seq(32, i requires 0 <= i => i + n < 32 && x[i + n])
  }

  function Sum3(x: Word, y: Word, z: Word): (r: Word) {
    seq(32, i requires 0 <= i < 32 => (x[i] != y[i]) != z[i])
  }

  /** `x` chooses between `y` and `z`. */
  function Ch(x: Word, y: Word, z: Word): (r: Word) {
    seq(32, i requires 0 <= i < 32 => if x[i] then y[i] else z[i])
  }

  /** What at least two of the three say. */
  function Maj(x: Word, y: Word, z: Word): (r: Word) {
    seq(32, i requires 0 <= i < 32 => (x[i] && y[i]) || (x[i] && z[i]) || (y[i] && z[i]))
  }

  function BigSigma0(x: Word): (r: Word) { Sum3(Rotr(x, 2), Rotr(x, 13), Rotr(x, 22)) }

  function BigSigma1(x: Word): (r: Word) { Sum3(Rotr(x, 6), Rotr(x, 11), Rotr(x, 25)) }

  function SmallSigma0(x: Word): (r: Word) { Sum3(Rotr(x, 7), Rotr(x, 18), Shr(x, 3)) }

  function SmallSigma1(x: Word): (r: Word) { Sum3(Rotr(x, 17), Rotr(x, 19), Shr(x, 10)) }

  /** Word `t` of the message schedule. */
  function Schedule(block: seq<Word>, t: nat): (w: Word)
    requires |block| >= 16
  {
    if t < 16 then block[t]
    else
      Add(Add(SmallSigma1(Schedule(block, t - 2)), Schedule(block, t - 7)),
          Add(SmallSigma0(Schedule(block, t - 15)), Schedule(block, t - 16)))
  }

  datatype Variables = Variables(a: Word, b: Word, c: Word, d: Word, e: Word, f: Word, g: Word, h: Word)

  function Round(v: Variables, k: Word, w: Word): (v': Variables) {
    var t1 := Add(Add(Add(Add(v.h, BigSigma1(v.e)), Ch(v.e, v.f, v.g)), k), w);
    var t2 := Add(BigSigma0(v.a), Maj(v.a, v.b, v.c));
    Variables(Add(t1, t2), v.a, v.b, v.c, Add(v.d, t1), v.e, v.f, v.g)
  }

  function Start(h: seq<Word>): (v: Variables)
    requires |h| == 8
  {
    Variables(h[0], h[1], h[2], h[3], h[4], h[5], h[6], h[7])
  }

  /** The variables after `t` rounds. */
  function Rounds(h: seq<Word>, k: seq<Word>, block: seq<Word>, t: nat): (v: Variables)
    requires |h| == 8 && |k| == 64 && |block| >= 16 && t <= 64
  {
    if t == 0 then Start(h) else Round(Rounds(h, k, block, t - 1), k[t - 1], Schedule(block, t - 1))
  }

  /** The next hash value. */
  function Compress(h: seq<Word>, k: seq<Word>, block: seq<Word>): (h': seq<Word>)
    requires |h| == 8 && |k| == 64 && |block| >= 16
    ensures |h'| == 8
  {
    var v := Rounds(h, k, block, 64);
    [Add(h[0], v.a), Add(h[1], v.b), Add(h[2], v.c), Add(h[3], v.d),
     Add(h[4], v.e), Add(h[5], v.f), Add(h[6], v.g), Add(h[7], v.h)]
  }

  // ----- numbers and words -----

  lemma {:induction false} WordIsDigits(n: nat)
    ensures ToWord(n) == BitsOf(n, 32)
  {
    forall i | 0 <= i < 32
      ensures ToWord(n)[i] == BitsOf(n, 32)[i]
    {
      DigitIsBit(n, 32, i);
    }
  }

  lemma {:induction false} NumberOfWord(n: int)
    requires InRange(n)
    ensures Number(ToWord(n)) == n
  {
    WordIsDigits(n);
    Pow2Of32();
    NumberOfBits(n, 32);
  }

  /** A masked sum is the sum of the words. */
  lemma {:induction false} AddNumbers(x: int, y: int)
    requires InRange(x) && InRange(y)
    ensures ToWord((x + y) % WORD) == Add(ToWord(x), ToWord(y))
  {
    NumberOfWord(x);
    NumberOfWord(y);
  }
}
