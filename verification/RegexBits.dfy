/** Bits packed into bytes, lowest bit first. */
module RegexBits {
  import opened Arithmetic
  import opened RegexPattern
  import opened Binary

  /** One more bit on top. */
  lemma {:induction false} NumberSnoc(bits: seq<bool>, b: bool)
    ensures Number(bits + [b]) == Number(bits) + if b then Pow2(|bits|) else 0
  {
    if bits == [] {
      assert [] + [b] == [b] && [b][1..] == [];
    } else {
      NumberSnoc(bits[1..], b);
      assert (bits + [b])[1..] == bits[1..] + [b];
    }
  }

  lemma {:induction false} NumberConcat(a: seq<bool>, b: seq<bool>)
    ensures Number(a + b) == Number(a) + Pow2(|a|) * Number(b)
  {
    if a == [] {
      assert a + b == b;
    } else {
      NumberConcat(a[1..], b);
      assert (a + b)[1..] == a[1..] + b;
      Doubled(Pow2(|a| - 1), Number(b));
    }
  }

  lemma {:induction false} Doubled(x: int, y: int)
    ensures 2 * (x * y) == (2 * x) * y
  {
  }

  lemma {:induction false} NumberZeros(n: nat)
    ensures Number(Zeros(n)) == 0
  {
    if n > 0 {
      assert Zeros(n)[1..] == Zeros(n - 1);
      NumberZeros(n - 1);
    }
  }

  function Zeros(n: nat): (bits: seq<bool>)
    ensures |bits| == n
  {
    seq(n, _ => false)
  }

  function ByteOf(bits: seq<bool>): (b: Byte)
    requires |bits| <= 8
  {
    NumberBound(bits);
    Pow2UpTo8(|bits|);
    Number(bits)
  }

  lemma {:induction false} Pow2UpTo8(n: nat)
    requires n <= 8
    ensures 0 < Pow2(n) <= 256
    ensures Pow2(0) == 1 && Pow2(4) == 16 && Pow2(8) == 256
    ensures n < 8 ==> Pow2(n) <= 128
  {
    assert Pow2(4) == 16;
    assert Pow2(8) == 16 * Pow2(4);
  }

  /** Eight bits to a byte; the last byte is filled with zeros. */
  function Pack(bits: seq<bool>): (bytes: Text)
    decreases |bits|
  {
    if bits == [] then [] else [ByteOf(bits[..Min(8, |bits|)])] + Pack(bits[Min(8, |bits|)..])
  }

  function Unpack(bytes: Text): (bits: seq<bool>)
    ensures |bits| == 8 * |bytes|
  {
    if bytes == [] then [] else BitsOf(bytes[0], 8) + Unpack(bytes[1..])
  }

  /** The bits filled up to a whole number of bytes. */
  function Padded(bits: seq<bool>): (p: seq<bool>)
    ensures |p| == (|bits| + 7) / 8 * 8
  {
    bits + Zeros((|bits| + 7) / 8 * 8 - |bits|)
  }

  lemma {:induction false} LastByte(bits: seq<bool>)
    requires 0 < |bits| <= 8
    ensures BitsOf(ByteOf(bits), 8) == Padded(bits)
  {
    var p := bits + Zeros(8 - |bits|);
    assert Number(p) == Number(bits) by {
      NumberConcat(bits, Zeros(8 - |bits|));
      NumberZeros(8 - |bits|);
    }
    BitsOfNumber(p);
    assert (|bits| + 7) / 8 == 1;
  }

  lemma {:induction false} PaddedSplit(bits: seq<bool>, m: nat)
    requires 0 < |bits| && m == Min(8, |bits|)
    ensures Padded(bits) == Padded(bits[..m]) + Padded(bits[m..])
    ensures (|bits| + 7) / 8 == 1 + (|bits| - m + 7) / 8
  {
    assert (|bits| + 7) / 8 == 1 + (|bits| - m + 7) / 8;
  }

  /** Unpacking gives the bits back, filled up to whole bytes. */
  lemma {:induction false} UnpackPack(bits: seq<bool>)
    ensures Unpack(Pack(bits)) == Padded(bits) && |Pack(bits)| == (|bits| + 7) / 8
    decreases |bits|
  {
    if bits != [] {
      var m := Min(8, |bits|);
      UnpackPack(bits[m..]);
      LastByte(bits[..m]);
      assert Pack(bits)[1..] == Pack(bits[m..]);
      PaddedSplit(bits, m);
    }
  }

  lemma {:induction false} UnpackConcat(a: Text, b: Text)
    ensures Unpack(a + b) == Unpack(a) + Unpack(b)
  {
    hide BitsOf;
    if a == [] {
      assert a + b == b;
    } else {
      UnpackConcat(a[1..], b);
      assert (a + b)[1..] == a[1..] + b;
    }
  }

  lemma {:induction false} PackNothing()
    ensures Pack([]) == []
  {
  }

  lemma {:induction false} PackStep(bits: seq<bool>)
    requires |bits| >= 8
    ensures Pack(bits) == [ByteOf(bits[..8])] + Pack(bits[8..])
  {
    assert Min(8, |bits|) == 8;
  }

  /** Whole bytes in front are packed on their own. */
  lemma {:induction false} PackConcat(a: seq<bool>, b: seq<bool>)
    requires |a| % 8 == 0
    ensures Pack(a + b) == Pack(a) + Pack(b)
    decreases |a|
  {
    hide ByteOf, Pack;
    if a == [] {
      assert a + b == b;
      PackNothing();
    } else {
      PackConcat(a[8..], b);
      assert (a + b)[..8] == a[..8] && (a + b)[8..] == a[8..] + b;
      PackStep(a);
      PackStep(a + b);
    }
  }

  // ----- packing bit by bit -----

  function WholePart(bits: seq<bool>): (r: seq<bool>) {
    bits[..|bits| / 8 * 8]
  }

  function Tail(bits: seq<bool>): (r: seq<bool>)
    ensures |r| == |bits| % 8
  {
    bits[|bits| / 8 * 8..]
  }

  /** `bits` have been packed behind `base`: whole bytes are out, the rest is in `aux`. */
  ghost predicate Packing(base: Text, bits: seq<bool>, bytes: Text, aux: Byte, bitpos: nat) {
    bitpos == |bits| && bytes == base + Pack(WholePart(bits)) && aux == ByteOf(Tail(bits))
  }

  /** One more bit in the byte that is being filled. */
  lemma {:induction false} BitAdded(tail: seq<bool>, bit: bool)
    requires |tail| < 8
    ensures ByteOf(tail + [bit]) == if bit then (ByteOf(tail) + Pow2(|tail|)) % 256 else ByteOf(tail)
  {
    NumberSnoc(tail, bit);
    NumberBound(tail);
    NumberBound(tail + [bit]);
    Pow2UpTo8(|tail|);
    Pow2UpTo8(|tail| + 1);
  }

  /** The bit that completes a byte. */
  lemma {:induction false} ByteFilled(bits: seq<bool>, bit: bool)
    requires |bits| % 8 == 7
    ensures var more := bits + [bit];
            && Pack(WholePart(more)) == Pack(WholePart(bits)) + [ByteOf(Tail(bits) + [bit])]
            && Tail(more) == [] && ByteOf(Tail(more)) == 0
  {
    var more := bits + [bit];
    assert WholePart(more) == WholePart(bits) + (Tail(bits) + [bit]) by {
      hide Pack, ByteOf;
    }
    PackConcat(WholePart(bits), Tail(bits) + [bit]);
    PackEight(Tail(bits) + [bit]);
  }

  lemma {:induction false} ByteGrows(bits: seq<bool>, bit: bool)
    requires |bits| % 8 != 7
    ensures WholePart(bits + [bit]) == WholePart(bits) && Tail(bits + [bit]) == Tail(bits) + [bit]
  {
    assert |bits + [bit]| / 8 == |bits| / 8;
  }

  /** The block that every table's loop runs once per bit. */
  method PushBit(ghost base: Text, ghost bits: seq<bool>, bytes: Text, aux: Byte, bitpos: nat, shift: nat, bit: bool)
    returns (bytes': Text, aux': Byte, bitpos': nat)
    requires Packing(base, bits, bytes, aux, bitpos) && shift == bitpos % 8
    ensures Packing(base, bits + [bit], bytes', aux', bitpos') && bitpos' == bitpos + 1
  {
    bytes', aux' := bytes, aux;
    hide Pack, ByteOf, WholePart, Tail, Pow2;
    BitAdded(Tail(bits), bit);
    if bit {
      aux' := (aux + Pow2(shift)) % 256;
    }
    if bitpos % 8 == 7 {
      bytes' := bytes' + [aux'];
      aux' := 0;
      ByteFilled(bits, bit);
    } else {
      ByteGrows(bits, bit);
    }
    bitpos' := bitpos + 1;
  }

  lemma {:induction false} PackEight(bits: seq<bool>)
    requires 0 < |bits| <= 8
    ensures Pack(bits) == [ByteOf(bits)]
  {
    assert bits[..|bits|] == bits && bits[|bits|..] == [];
  }

  /** The block behind a table that may end inside a byte. */
  method Flush(ghost base: Text, ghost bits: seq<bool>, bytes: Text, aux: Byte, bitpos: nat) returns (bytes': Text)
    requires Packing(base, bits, bytes, aux, bitpos)
    ensures bytes' == base + Pack(bits)
  {
    hide ByteOf;
    bytes' := bytes;
    if bitpos % 8 != 0 {
      bytes' := bytes' + [aux];
      PackEight(Tail(bits));
    }
    PackConcat(WholePart(bits), Tail(bits));
    assert WholePart(bits) + Tail(bits) == bits;
  }
}
