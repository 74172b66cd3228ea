/** Requests as bytes (Request.java): the constructors' encoding and `parse`. */
module Wire {
  import opened Requests

  const HEADER: nat := 16

  // ----- Java arithmetic -----

  /** Java's `/` and `%` on longs: truncated towards zero. */
  function Quot(v: int, d: nat): (q: int)
    requires d > 0
  {
    if v >= 0 then v / d else -((-v) / d)
  }

  function Rem(v: int, d: nat): (r: int)
    requires d > 0
    ensures v == Quot(v, d) * d + r
  {
    v - Quot(v, d) * d
  }

  /** The whole part of a `BigDecimal`. */
  function Whole(b: real): (n: int) {
    if b >= 0.0 then b.Floor else -((-b).Floor)
  }

  /** `BigDecimal.remainder` by 256. */
  function Remainder256(b: real): (r: real) {
    b - 256.0 * (Whole(b / 256.0) as real)
  }

  lemma {:induction false} FloorIs(b: real, n: int)
    requires n as real <= b < n as real + 1.0
    ensures b.Floor == n
  {
  }

  lemma {:induction false} FloorOfQuotient(b: real)
    requires b >= 0.0
    ensures (b / 256.0).Floor == b.Floor / 256
  {
    var n := b.Floor;
    var q := n / 256;
    assert 256 * q <= n < 256 * (q + 1);
    assert 256.0 * (q as real) <= b < 256.0 * (q as real) + 256.0;
    FloorIs(b / 256.0, q);
  }

  /** Dividing exactly and cutting off the fraction at the end is dividing whole numbers. */
  lemma {:induction false} DigitOfFraction(b: real)
    ensures Whole(b / 256.0) == Quot(Whole(b), 256) && Whole(Remainder256(b)) == Rem(Whole(b), 256)
  {
    if b >= 0.0 {
      FloorOfQuotient(b);
      var n := b.Floor;
      FloorIs(Remainder256(b), n - 256 * (n / 256));
    } else {
      FloorOfQuotient(-b);
      var n := (-b).Floor;
      assert (-b) / 256.0 == -(b / 256.0);
      FloorIs(-Remainder256(b), n - 256 * (n / 256));
      assert Remainder256(b) <= 0.0;
      assert Remainder256(b) == 0.0 ==> n - 256 * (n / 256) == 0;
    }
  }

  /** `v` after `x` divisions by 256. */
  function Shifted(v: int, x: nat): (s: int) {
    if x == 0 then v else Quot(Shifted(v, x - 1), 256)
  }

  function ByteOf(v: int, x: nat): (b: JByte) {
    ToByte(Rem(Shifted(v, x), 256))
  }

  /** Four bytes, the lowest first. */
  function Four(v: int): (bs: seq<JByte>)
    ensures |bs| == 4
  {
    [ByteOf(v, 0), ByteOf(v, 1), ByteOf(v, 2), ByteOf(v, 3)]
  }

  function Unsigned(b: JByte): (u: nat)
    ensures u < 256
  {
    if b >= 0 then b else b + 256
  }

  function FromBytes(arr: seq<JByte>, pos: nat): (n: nat)
    requires pos + 4 <= |arr|
    ensures n < 0x1_0000_0000
  {
    Unsigned(arr[pos]) + 256 * (Unsigned(arr[pos + 1]) + 256 * (Unsigned(arr[pos + 2]) + 256 * Unsigned(arr[pos + 3])))
  }

  lemma {:induction false} UnsignedByte(v: int)
    requires 0 <= v < 256
    ensures Unsigned(ToByte(v)) == v
  {
  }

  lemma {:induction false} Digits(v: nat)
    requires v < 0x1_0000_0000
    ensures Unsigned(ByteOf(v, 0))
          + 256 * (Unsigned(ByteOf(v, 1)) + 256 * (Unsigned(ByteOf(v, 2)) + 256 * Unsigned(ByteOf(v, 3)))) == v
  {
    hide *;
    DigitAt(v, 0);
    DigitAt(v, 1);
    DigitAt(v, 2);
    DigitAt(v, 3);
    ShiftedThree(v);
  }

  lemma {:induction false} DigitAt(v: nat, x: nat)
    ensures Shifted(v, x) >= 0 && Shifted(v, x + 1) == Shifted(v, x) / 256
    ensures Unsigned(ByteOf(v, x)) == Shifted(v, x) % 256
  {
    if x > 0 {
      DigitAt(v, x - 1);
    }
    UnsignedByte(Shifted(v, x) % 256);
  }

  lemma {:induction false} ShiftedThree(v: nat)
    requires v < 0x1_0000_0000
    ensures Shifted(v, 0) == v && Shifted(v, 3) < 256
  {
    assert Shifted(v, 1) == v / 256 && Shifted(v, 2) == v / 256 / 256 && Shifted(v, 3) == v / 256 / 256 / 256;
  }

  /** Four bytes give the number back exactly when it is unsigned and fits. */
  lemma {:induction false} FourRoundTripIff(v: int)
    ensures FromBytes(Four(v), 0) == v <==> 0 <= v < 0x1_0000_0000
  {
    hide ByteOf, Unsigned;
    if 0 <= v < 0x1_0000_0000 {
      Digits(v);
    }
  }

  // ----- encoding -----

  function Words(n: nat): (w: nat)
    ensures 8 * w - 8 < n <= 8 * w
  {
    (n + 7) / 8
  }

  function Encode(r: Request): (bytes: seq<JByte>)
    ensures |bytes| == HEADER + |r.payload|
  {
    var w := Words(|r.payload|);
    [-1, -1, r.peerId, r.opcode, ToByte(w % 256), ToByte(w / 256), 0, 0] + Four(r.zxid) + Four(r.epoch) + r.payload
  }

  // ----- parsing -----

  /** `Crash`: the sum of header and payload size overflows an `int`, and the payload is then read
      behind the end of the buffer. */
  datatype Parsed = Parsed(request: Request, size: nat) | Nothing | Crash

  /** `(int) n * 8`, with the overflow of `int`. */
  function PayloadSize(n: nat): (s: int)
    ensures -0x8000_0000 <= s < 0x8000_0000 && s % 8 == 0
  {
    ToInt32(ToInt32(n) * 8)
  }

  function Parse(indata: seq<JByte>): (p: Parsed)
    ensures p.Parsed? ==> HEADER <= p.size <= |indata| && p.size == HEADER + |p.request.payload|
  {
    if |indata| < HEADER || indata[0] != -1 || indata[1] != -1 then Nothing
    else
      var s := PayloadSize(FromBytes(indata, 4));
      if s < 0 || |indata| < ToInt32(HEADER + s) then Nothing
      else if HEADER + s >= 0x8000_0000 then Crash
      else Parsed(Request(indata[3], indata[2], FromBytes(indata, 8), FromBytes(indata, 12),
            indata[HEADER..HEADER + s]), HEADER + s)
  }

  /** What was parsed stays so when more bytes follow. */
  lemma {:induction false} ParseIsStable(a: seq<JByte>, b: seq<JByte>)
    requires !Parse(a).Nothing?
    ensures Parse(a + b) == Parse(a)
  {
    hide PayloadSize, ToInt32;
    assert FromBytes(a + b, 4) == FromBytes(a, 4) && FromBytes(a + b, 8) == FromBytes(a, 8)
          && FromBytes(a + b, 12) == FromBytes(a, 12);
    var s := PayloadSize(FromBytes(a, 4));
    if HEADER + s < 0x8000_0000 {
      assert (a + b)[HEADER..HEADER + s] == a[HEADER..HEADER + s];
    }
  }

  lemma {:induction false} EncodedFields(r: Request, more: seq<JByte>)
    ensures var d := Encode(r) + more;
            && d[0] == -1 && d[1] == -1 && d[2] == r.peerId && d[3] == r.opcode
            && FromBytes(d, 4) == Unsigned(ToByte(Words(|r.payload|) % 256))
                  + 256 * Unsigned(ToByte(Words(|r.payload|) / 256))
            && FromBytes(d, 8) == FromBytes(Four(r.zxid), 0)
            && FromBytes(d, 12) == FromBytes(Four(r.epoch), 0)
            && d[HEADER..HEADER + |r.payload|] == r.payload
  {
    hide ByteOf, ToByte;
    var d := Encode(r) + more;
    assert d[8..12] == Four(r.zxid) && d[12..16] == Four(r.epoch);
    assert d[8] == Four(r.zxid)[0] && d[9] == Four(r.zxid)[1] && d[10] == Four(r.zxid)[2] && d[11] == Four(r.zxid)[3];
    assert d[12] == Four(r.epoch)[0] && d[13] == Four(r.epoch)[1] && d[14] == Four(r.epoch)[2]
          && d[15] == Four(r.epoch)[3];
  }

  /** What four bytes, whole words and a two-byte word count can carry. */
  predicate Fits(r: Request) {
    && 0 <= r.zxid < 0x1_0000_0000 && 0 <= r.epoch < 0x1_0000_0000
    && |r.payload| % 8 == 0 && |r.payload| < 8 * 65536
  }

  lemma {:induction false} ByteMod(v: nat)
    ensures Unsigned(ToByte(v)) == v % 256
  {
  }

  lemma {:induction false} TwoDigits(w: nat)
    ensures w % 256 % 256 + 256 * (w / 256 % 256) == w % 65536
  {
    var a := w / 256;
    TwoDigitsOf(w, a, w % 256, a / 256, a % 256);
  }

  lemma {:induction false} TwoDigitsOf(w: nat, a: nat, low: nat, q: nat, high: nat)
    requires w == 256 * a + low && a == 256 * q + high && low < 256 && high < 256
    ensures w % 65536 == low + 256 * high && low % 256 == low
  {
  }

  lemma {:induction false} SmallSize(n: nat)
    requires n < 65536
    ensures PayloadSize(n) == 8 * n
  {
  }

  lemma {:induction false} WholeWords(n: nat)
    ensures 8 * (Words(n) % 65536) == n <==> n % 8 == 0 && n < 8 * 65536
  {
  }

  /** The size that is read back: whole words, and no more than 65535 of them. */
  lemma {:induction false} SizeReadBack(r: Request, more: seq<JByte>)
    ensures var s := PayloadSize(FromBytes(Encode(r) + more, 4));
            && s == 8 * (Words(|r.payload|) % 65536) && 0 <= s < 8 * 65536
            && (s == |r.payload| <==> |r.payload| % 8 == 0 && |r.payload| < 8 * 65536)
  {
    hide *;
    var w := Words(|r.payload|);
    EncodedFields(r, more);
    ByteMod(w % 256);
    ByteMod(w / 256);
    TwoDigits(w);
    SmallSize(w % 65536);
    WholeWords(|r.payload|);
  }

  /** A request comes back from its own bytes, whatever follows them, exactly when it fits. */
  lemma {:induction false} RoundTripIff(r: Request, more: seq<JByte>)
    ensures Parse(Encode(r) + more) == Parsed(r, HEADER + |r.payload|) <==> Fits(r)
  {
    hide FromBytes, Encode, PayloadSize, Four;
    EncodedFields(r, more);
    SizeReadBack(r, more);
    FourRoundTripIff(r.zxid);
    FourRoundTripIff(r.epoch);
  }
}
