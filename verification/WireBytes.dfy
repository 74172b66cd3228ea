/** Where every field of a request stands in its bytes. */
module WireBytes {
  import opened Requests
  import opened Wire

  /** The `k`-th byte of a number, the lowest first. */
  function Digit(v: nat, k: nat): (d: nat)
    requires k < 4
  {
    v / (if k == 0 then 1 else if k == 1 then 256 else if k == 2 then 65536 else 16777216) % 256
  }

  lemma {:induction false} ShiftedIs(v: nat)
    ensures Shifted(v, 0) == v && Shifted(v, 1) == v / 256
    ensures Shifted(v, 2) == v / 65536 && Shifted(v, 3) == v / 16777216
  {
    hide Quot;
    DigitAt(v, 0);
    DigitAt(v, 1);
    DigitAt(v, 2);
    assert v / 256 / 256 == v / 65536 && v / 65536 / 256 == v / 16777216;
  }

  lemma {:induction false} FourAt(v: nat, k: nat)
    requires k < 4
    ensures Unsigned(Four(v)[k]) == Digit(v, k)
  {
    hide ByteOf, Unsigned, Shifted;
    ShiftedIs(v);
    DigitAt(v, k);
  }

  /** Two bytes of ones, peer, opcode, the number of payload words in two bytes, two zeros, zxid and epoch in four bytes
      each, all with the lowest byte first, and the payload. */
  lemma {:induction false} EncodedBytes(r: Request, k: nat)
    requires r.zxid >= 0 && r.epoch >= 0 && k < 4
    ensures var d := Encode(r); var words := (|r.payload| + 7) / 8;
            && |d| == 16 + |r.payload| && Unsigned(d[0]) == Unsigned(d[1]) == 0xFF
            && d[2] == r.peerId && d[3] == r.opcode
            && Unsigned(d[4]) == words % 256 && Unsigned(d[5]) == words / 256 % 256 && d[6] == 0 && d[7] == 0
            && Unsigned(d[8 + k]) == Digit(r.zxid, k) && Unsigned(d[12 + k]) == Digit(r.epoch, k)
            && d[16..] == r.payload
  {
    hide Four, ToByte;
    var d, w := Encode(r), Words(|r.payload|);
    ByteMod(w % 256);
    ByteMod(w / 256);
    FourAt(r.zxid, k);
    FourAt(r.epoch, k);
    assert d[8..12] == Four(r.zxid) && d[12..16] == Four(r.epoch);
    assert d[8 + k] == d[8..12][k] && d[12 + k] == d[12..16][k];
  }

  /** Four bytes as one number. */
  function Joined(d: seq<JByte>, at: nat): (n: nat)
    requires at + 4 <= |d|
  {
    Unsigned(d[at]) + 256 * Unsigned(d[at + 1]) + 65536 * Unsigned(d[at + 2]) + 16777216 * Unsigned(d[at + 3])
  }

  /** What parsing takes from the bytes, as long as the announced size can be added up: nothing before all of them are
      there, and then every field from its place. */
  lemma {:induction false} ParsedBytes(d: seq<JByte>)
    requires |d| >= 16 ==> 8 * Joined(d, 4) + 16 < 0x8000_0000
    ensures Parse(d) == if |d| < 16 || d[0] != -1 || d[1] != -1 || |d| < 16 + 8 * Joined(d, 4) then Nothing
                        else
                          var size := 8 * Joined(d, 4);
                          Parsed(Request(d[3], d[2], Joined(d, 8), Joined(d, 12), d[16..16 + size]), 16 + size)
  {
    hide Unsigned;
  }
}
