/** The bytes of a configuration, and the tables read back from them (fregex.cpp,
    `fregex_get_config` from the packing on; rem_top_ff.v, lines 224-241). */
module RegexPacking {
  import opened RegexPattern
  import opened Binary
  import opened RegexBits
  import opened RegexLayout
  import opened RegexTables

  function Flatten(rows: seq<seq<bool>>): (bits: seq<bool>) {
    if rows == [] then [] else rows[0] + Flatten(rows[1..])
  }

  /** What is stored for a length. */
  function Nibble(length: nat): (n: nat) {
    if length == 0 then 0 else length - 1
  }

  /** Two lengths to a byte, the first in the low half. */
  function LengthBytes(lengths: seq<nat>): (bytes: Text) {
    if |lengths| < 2 then []
    else
      var k := |lengths| - 2;
      LengthBytes(lengths[..k]) + [(Nibble(lengths[k]) + 16 * Nibble(lengths[k + 1])) % 256]
  }

  function TableBits(t: Tables): (bits: seq<bool>) {
    t.sheet.ranges + t.sheet.linked + Flatten(t.triggers) + Flatten(t.edges)
  }

  function PackTables(t: Tables): (bytes: Text) {
    t.sheet.chars + Pack(TableBits(t)) + LengthBytes(t.lengths) + Pack(t.sticky)
  }

  function RoundUp(n: nat): (r: nat) {
    (n + 7) / 8 * 8
  }

  /** Where the transition masks start behind the characters. */
  function Acts(charCnt: nat, stateCnt: nat): (n: nat) {
    charCnt / 2 + charCnt + stateCnt * charCnt
  }

  function Delays(charCnt: nat, stateCnt: nat): (n: nat) {
    Acts(charCnt, stateCnt) + RoundUp(stateCnt * stateCnt)
  }

  /** The tables as the hardware slices them out of a configuration for `charCnt` characters and `stateCnt` states. */
  function Decode(bytes: Text, charCnt: nat, stateCnt: nat): (t: Tables)
    requires |bytes| == ConfigLength(charCnt, stateCnt)
  {
    DecodeFrom(bytes[..charCnt], Unpack(bytes[charCnt..]), charCnt, stateCnt)
  }

  function DecodeFrom(chars: Text, bits: seq<bool>, charCnt: nat, stateCnt: nat): (t: Tables) {
    Tables(Sheet(chars, Slice(bits, charCnt / 2, charCnt), Slice(bits, 0, charCnt / 2)),
           Rows(bits, charCnt / 2 + charCnt, stateCnt, charCnt),
           Rows(bits, Acts(charCnt, stateCnt), stateCnt, stateCnt),
           ReadLengths(Rows(bits, Delays(charCnt, stateCnt), stateCnt, 4)),
           Slice(bits, Delays(charCnt, stateCnt) + 4 * stateCnt, stateCnt))
  }

  function ReadLengths(nibbles: seq<seq<bool>>): (lengths: seq<nat>) {
    seq(|nibbles|, s requires 0 <= s < |nibbles| => Number(nibbles[s]) + 1)
  }

  function ConfigLength(charCnt: nat, stateCnt: nat): (n: nat) {
    charCnt + (charCnt / 2 + charCnt + stateCnt * charCnt + stateCnt * stateCnt + 7) / 8 + stateCnt / 2
          + (stateCnt + 7) / 8
  }

  /** `n` bits from `from` on, as many as there are. */
  function Slice(bits: seq<bool>, from: nat, n: nat): (r: seq<bool>) {
    if from + n <= |bits| then bits[from..from + n] else []
  }

  function Rows(bits: seq<bool>, from: nat, rows: nat, width: nat): (r: seq<seq<bool>>)
    ensures |r| == rows
    decreases rows
  {
    if rows == 0 then [] else [Slice(bits, from, width)] + Rows(bits, from + width, rows - 1, width)
  }

  // ----- the round trip -----

  predicate RowsOf(rows: seq<seq<bool>>, width: nat) {
    forall s :: 0 <= s < |rows| ==> |rows[s]| == width
  }

  lemma {:induction false} FlattenLength(rows: seq<seq<bool>>, width: nat)
    requires RowsOf(rows, width)
    ensures |Flatten(rows)| == |rows| * width
  {
    if rows != [] {
      FlattenLength(rows[1..], width);
      assert |rows| * width == width + (|rows| - 1) * width;
    }
  }

  lemma {:induction false} FlattenSnoc(rows: seq<seq<bool>>, row: seq<bool>)
    ensures Flatten(rows + [row]) == Flatten(rows) + row
  {
    if rows == [] {
      assert [] + [row] == [row] && [row][1..] == [];
    } else {
      FlattenSnoc(rows[1..], row);
      assert (rows + [row])[1..] == rows[1..] + [row];
    }
  }

  lemma {:induction false} SliceMiddle(bits: seq<bool>, front: seq<bool>, middle: seq<bool>, back: seq<bool>)
    requires bits == front + middle + back
    ensures Slice(bits, |front|, |middle|) == middle
  {
  }

  lemma {:induction false} Grouped(bits: seq<bool>, a: seq<bool>, b: seq<bool>, c: seq<bool>, d: seq<bool>)
    requires bits == a + (b + c) + d
    ensures bits == a + b + (c + d) && bits == (a + b) + c + d
  {
  }

  lemma {:induction false} RowsOfFlatten(bits: seq<bool>, front: seq<bool>, rows: seq<seq<bool>>, back: seq<bool>,
        width: nat)
    requires bits == front + Flatten(rows) + back && RowsOf(rows, width)
    ensures Rows(bits, |front|, |rows|, width) == rows
    decreases |rows|
  {
    if rows != [] {
      var first, rest := rows[0], Flatten(rows[1..]);
      Grouped(bits, front, first, rest, back);
      SliceMiddle(bits, front, first, rest + back);
      RowsOfFlatten(bits, front + first, rows[1..], back, width);
    }
  }

  predicate ShortLengths(lengths: seq<nat>) {
    forall s :: 0 <= s < |lengths| ==> lengths[s] <= 16
  }

  function NibbleRows(lengths: seq<nat>): (rows: seq<seq<bool>>)
    ensures |rows| == |lengths| && RowsOf(rows, 4)
  {
    seq(|lengths|, s requires 0 <= s < |lengths| => BitsOf(Nibble(lengths[s]), 4))
  }

  lemma {:induction false} TwoNibbles(a: nat, b: nat)
    requires a < 16 && b < 16
    ensures BitsOf(a + 16 * b, 8) == BitsOf(a, 4) + BitsOf(b, 4)
  {
    Pow2UpTo8(4);
    NumberOfBits(a, 4);
    NumberOfBits(b, 4);
    NumberConcat(BitsOf(a, 4), BitsOf(b, 4));
    BitsOfNumber(BitsOf(a, 4) + BitsOf(b, 4));
  }

  lemma {:induction false} ShortNibble(lengths: seq<nat>, k: nat)
    requires k < |lengths| && ShortLengths(lengths)
    ensures Nibble(lengths[k]) < 16
  {
  }

  lemma {:induction false} LastRows(lengths: seq<nat>, k: nat)
    requires |lengths| == k + 2
    ensures NibbleRows(lengths)
          == NibbleRows(lengths[..k]) + [BitsOf(Nibble(lengths[k]), 4), BitsOf(Nibble(lengths[k + 1]), 4)]
  {
    forall s | 0 <= s < k
      ensures NibbleRows(lengths)[s] == NibbleRows(lengths[..k])[s]
    {
      assert lengths[..k][s] == lengths[s];
    }
  }

  lemma {:induction false} LastLengths(lengths: seq<nat>, k: nat)
    requires |lengths| == k + 2 && ShortLengths(lengths)
    ensures var a, b := Nibble(lengths[k]), Nibble(lengths[k + 1]);
            a < 16 && b < 16 && LengthBytes(lengths) == LengthBytes(lengths[..k]) + [a + 16 * b]
  {
    ShortNibble(lengths, k);
    ShortNibble(lengths, k + 1);
  }

  lemma {:induction false} UnpackLengths(lengths: seq<nat>)
    requires |lengths| % 2 == 0 && ShortLengths(lengths)
    ensures Unpack(LengthBytes(lengths)) == Flatten(NibbleRows(lengths)) && |LengthBytes(lengths)| == |lengths| / 2
  {
    if lengths != [] {
      var k := |lengths| - 2;
      var a, b := Nibble(lengths[k]), Nibble(lengths[k + 1]);
      LastLengths(lengths, k);
      LastRows(lengths, k);
      UnpackLengths(lengths[..k]);
      TwoNibbles(a, b);
      UnpackConcat(LengthBytes(lengths[..k]), [a + 16 * b]);
      UnpackOne(a + 16 * b);
      LastTwoRows(NibbleRows(lengths), NibbleRows(lengths[..k]), BitsOf(a, 4), BitsOf(b, 4));
    }
  }

  lemma {:induction false} UnpackOne(b: Byte)
    ensures Unpack([b]) == BitsOf(b, 8)
  {
    assert [b][1..] == [];
  }

  lemma {:induction false} LastTwoRows(rows: seq<seq<bool>>, init: seq<seq<bool>>, a: seq<bool>, b: seq<bool>)
    requires rows == init + [a, b]
    ensures Flatten(rows) == Flatten(init) + (a + b)
  {
    assert rows == (init + [a]) + [b];
    FlattenSnoc(init, a);
    FlattenSnoc(init + [a], b);
    SnocTwice(Flatten(init), a, b);
  }

  lemma {:induction false} SnocTwice(x: seq<bool>, a: seq<bool>, b: seq<bool>)
    ensures x + a + b == x + (a + b)
  {
  }

  /** Lengths are read back as at least one. */
  function AtLeastOne(lengths: seq<nat>): (r: seq<nat>) {
    seq(|lengths|, s requires 0 <= s < |lengths| => if lengths[s] == 0 then 1 else lengths[s])
  }

  ghost predicate Packable(t: Tables, charCnt: nat, stateCnt: nat) {
    && charCnt % 16 == 0 && stateCnt % 2 == 0 && Shaped(t, charCnt, stateCnt) && ShortLengths(t.lengths)
    && |t.sheet.chars| == |t.sheet.linked| == charCnt && |t.sheet.ranges| == charCnt / 2
  }

  lemma {:induction false} WholeRows(charCnt: nat, stateCnt: nat)
    requires charCnt % 16 == 0
    ensures (charCnt / 2 + charCnt + stateCnt * charCnt) % 8 == 0
  {
    var k := charCnt / 16;
    assert charCnt == 16 * k;
    Sixteenfold(stateCnt, k, stateCnt * k);
    EightDivides(k + 2 * k + 2 * (stateCnt * k));
  }

  lemma {:induction false} Sixteenfold(a: nat, k: nat, ak: nat)
    requires ak == a * k
    ensures a * (16 * k) == 16 * ak
  {
  }

  lemma {:induction false} EightDivides(m: nat)
    ensures 8 * m % 8 == 0
  {
  }

  /** The bits behind the characters. */
  lemma {:induction false} UnpackTables(t: Tables, charCnt: nat, stateCnt: nat)
    requires Packable(t, charCnt, stateCnt)
    ensures var bits := Unpack(PackTables(t)[charCnt..]);
            bits == Padded(TableBits(t)) + Flatten(NibbleRows(t.lengths)) + Padded(t.sticky)
    ensures |TableBits(t)| == charCnt / 2 + charCnt + stateCnt * charCnt + stateCnt * stateCnt
    ensures |PackTables(t)| == ConfigLength(charCnt, stateCnt)
  {
    hide Pack, Unpack, LengthBytes, NibbleRows, Flatten, Padded;
    var a, b, c := Pack(TableBits(t)), LengthBytes(t.lengths), Pack(t.sticky);
    assert PackTables(t)[charCnt..] == a + b + c;
    UnpackConcat(a + b, c);
    UnpackConcat(a, b);
    UnpackPack(TableBits(t));
    UnpackPack(t.sticky);
    UnpackLengths(t.lengths);
    FlattenLength(t.triggers, charCnt);
    FlattenLength(t.edges, stateCnt);
  }

  lemma {:induction false} PaddedTableBits(t: Tables, charCnt: nat, stateCnt: nat)
    requires Packable(t, charCnt, stateCnt)
    ensures var front := t.sheet.ranges + t.sheet.linked + Flatten(t.triggers);
            && |front| == charCnt / 2 + charCnt + stateCnt * charCnt
            && Padded(TableBits(t)) == front + Padded(Flatten(t.edges))
            && |Padded(TableBits(t))| == |front| + RoundUp(stateCnt * stateCnt)
  {
    var front, acts := t.sheet.ranges + t.sheet.linked + Flatten(t.triggers), Flatten(t.edges);
    FlattenLength(t.triggers, charCnt);
    FlattenLength(t.edges, stateCnt);
    WholeRows(charCnt, stateCnt);
    assert (|front| + |acts| + 7) / 8 == |front| / 8 + (|acts| + 7) / 8;
    assert Padded(front + acts) == front + Padded(acts);
  }

  /** Where each table starts in the bits behind the characters. */
  lemma {:induction false} DecodedBits(t: Tables, charCnt: nat, stateCnt: nat, bits: seq<bool>)
    requires Packable(t, charCnt, stateCnt)
    requires bits == Padded(TableBits(t)) + Flatten(NibbleRows(t.lengths)) + Padded(t.sticky)
    ensures Slice(bits, 0, charCnt / 2) == t.sheet.ranges
    ensures Slice(bits, charCnt / 2, charCnt) == t.sheet.linked
    ensures Rows(bits, charCnt / 2 + charCnt, stateCnt, charCnt) == t.triggers
  {
    hide TableBits, Flatten, NibbleRows, Padded, Slice, Rows;
    PaddedTableBits(t, charCnt, stateCnt);
    var rest := Padded(Flatten(t.edges)) + Flatten(NibbleRows(t.lengths)) + Padded(t.sticky);
    ThreeTables(t.sheet.ranges, t.sheet.linked, t.triggers, rest, charCnt, bits);
  }

  lemma {:induction false} FourParts(bits: seq<bool>, a: seq<bool>, b: seq<bool>, c: seq<bool>, d: seq<bool>)
    requires bits == a + b + c + d
    ensures bits == [] + a + (b + c + d) && bits == a + b + (c + d)
  {
  }

  lemma {:induction false} ThreeTables(r: seq<bool>, l: seq<bool>, rows: seq<seq<bool>>, rest: seq<bool>, width: nat,
        bits: seq<bool>)
    requires RowsOf(rows, width) && bits == r + l + Flatten(rows) + rest
    ensures Slice(bits, 0, |r|) == r && Slice(bits, |r|, |l|) == l && Rows(bits, |r| + |l|, |rows|, width) == rows
  {
    var f := Flatten(rows);
    FourParts(bits, r, l, f, rest);
    SliceMiddle(bits, [], r, l + f + rest);
    SliceMiddle(bits, r, l, f + rest);
    RowsOfFlatten(bits, r + l, rows, rest, width);
  }

  lemma {:induction false} DecodedActs(t: Tables, charCnt: nat, stateCnt: nat, bits: seq<bool>)
    requires Packable(t, charCnt, stateCnt)
    requires bits == Padded(TableBits(t)) + Flatten(NibbleRows(t.lengths)) + Padded(t.sticky)
    ensures Rows(bits, Acts(charCnt, stateCnt), stateCnt, stateCnt) == t.edges
  {
    PaddedTableBits(t, charCnt, stateCnt);
    var front := t.sheet.ranges + t.sheet.linked + Flatten(t.triggers);
    var tail := Flatten(NibbleRows(t.lengths)) + Padded(t.sticky);
    assert bits == front + Padded(Flatten(t.edges)) + tail;
    PaddedRows(bits, front, t.edges, tail, stateCnt);
  }

  lemma {:induction false} PaddedRows(bits: seq<bool>, front: seq<bool>, rows: seq<seq<bool>>, tail: seq<bool>,
        width: nat)
    requires bits == front + Padded(Flatten(rows)) + tail && RowsOf(rows, width)
    ensures Rows(bits, |front|, |rows|, width) == rows
  {
    var acts := Flatten(rows);
    var zeros := Zeros(RoundUp(|acts|) - |acts|);
    assert bits == front + acts + (zeros + tail);
    RowsOfFlatten(bits, front, rows, zeros + tail, width);
  }

  lemma {:induction false} DecodedRest(t: Tables, charCnt: nat, stateCnt: nat, bits: seq<bool>)
    requires Packable(t, charCnt, stateCnt)
    requires bits == Padded(TableBits(t)) + Flatten(NibbleRows(t.lengths)) + Padded(t.sticky)
    ensures Rows(bits, Delays(charCnt, stateCnt), stateCnt, 4) == NibbleRows(t.lengths)
    ensures Slice(bits, Delays(charCnt, stateCnt) + 4 * stateCnt, stateCnt) == t.sticky
  {
    var front, rows := Padded(TableBits(t)), NibbleRows(t.lengths);
    assert |front| == Delays(charCnt, stateCnt) by { PaddedTableBits(t, charCnt, stateCnt); }
    RowsOfFlatten(bits, front, rows, Padded(t.sticky), 4);
    assert |front + Flatten(rows)| == |front| + 4 * stateCnt by { FlattenLength(rows, 4); }
    StickyAt(bits, front + Flatten(rows), t.sticky);
  }

  lemma {:induction false} StickyAt(bits: seq<bool>, front: seq<bool>, sticky: seq<bool>)
    requires bits == front + Padded(sticky)
    ensures Slice(bits, |front|, |sticky|) == sticky
  {
    var zeros := Zeros(RoundUp(|sticky|) - |sticky|);
    assert bits == front + sticky + zeros;
    SliceMiddle(bits, front, sticky, zeros);
  }

  lemma {:induction false} NibbleRead(length: nat)
    requires length <= 16
    ensures Number(BitsOf(Nibble(length), 4)) + 1 == if length == 0 then 1 else length
  {
    Pow2UpTo8(4);
    NumberOfBits(Nibble(length), 4);
  }

  lemma {:induction false} LengthsRead(lengths: seq<nat>)
    requires ShortLengths(lengths)
    ensures ReadLengths(NibbleRows(lengths)) == AtLeastOne(lengths)
  {
    forall s | 0 <= s < |lengths|
      ensures ReadLengths(NibbleRows(lengths))[s] == AtLeastOne(lengths)[s]
    {
      NibbleRead(lengths[s]);
    }
  }

  lemma {:induction false} DecodedTables(t: Tables, charCnt: nat, stateCnt: nat, bits: seq<bool>)
    requires Packable(t, charCnt, stateCnt)
    requires bits == Padded(TableBits(t)) + Flatten(NibbleRows(t.lengths)) + Padded(t.sticky)
    ensures DecodeFrom(t.sheet.chars, bits, charCnt, stateCnt) == t.(lengths := AtLeastOne(t.lengths))
  {
    var d := DecodeFrom(t.sheet.chars, bits, charCnt, stateCnt);
    assert d.sheet == t.sheet && d.triggers == t.triggers by { DecodedBits(t, charCnt, stateCnt, bits); }
    assert d.edges == t.edges by { DecodedActs(t, charCnt, stateCnt, bits); }
    assert d.lengths == AtLeastOne(t.lengths) && d.sticky == t.sticky by {
      DecodedRest(t, charCnt, stateCnt, bits);
      LengthsRead(t.lengths);
    }
  }

  lemma {:induction false} CharsInFront(t: Tables, charCnt: nat, stateCnt: nat)
    requires Packable(t, charCnt, stateCnt)
    ensures |PackTables(t)| >= charCnt && PackTables(t)[..charCnt] == t.sheet.chars
  {
    hide TableBits, LengthBytes, Pack;
  }

  /** The packed bytes decode to every table they were made from. */
  lemma {:induction false} DecodePacked(t: Tables, charCnt: nat, stateCnt: nat)
    requires Packable(t, charCnt, stateCnt)
    ensures |PackTables(t)| == ConfigLength(charCnt, stateCnt)
    ensures Decode(PackTables(t), charCnt, stateCnt) == t.(lengths := AtLeastOne(t.lengths))
  {
    hide TableBits, LengthBytes, Padded, NibbleRows, Unpack, Pack, Flatten, DecodeFrom, AtLeastOne, ConfigLength;
    UnpackTables(t, charCnt, stateCnt);
    DecodedTables(t, charCnt, stateCnt, Unpack(PackTables(t)[charCnt..]));
    CharsInFront(t, charCnt, stateCnt);
  }

  // ----- the code -----

  /** One row of flags; `bitpos` starts on a whole byte, so the loop index gives the bit. */
  method PackRow(ghost base: Text, ghost bits: seq<bool>, bytes: Text, aux: Byte, bitpos: nat, row: seq<bool>)
    returns (bytes': Text, aux': Byte, bitpos': nat)
    requires Packing(base, bits, bytes, aux, bitpos) && bitpos % 8 == 0
    ensures Packing(base, bits + row, bytes', aux', bitpos') && bitpos' == bitpos + |row|
  {
    hide Packing;
    bytes', aux', bitpos' := bytes, aux, bitpos;
    assert bits + row[..0] == bits;
    for i := 0 to |row|
      invariant Packing(base, bits + row[..i], bytes', aux', bitpos') && bitpos' == bitpos + i
    {
      bytes', aux', bitpos' := PushBit(base, bits + row[..i], bytes', aux', bitpos', i % 8, row[i]);
      assert bits + row[..i] + [row[i]] == bits + row[..i + 1];
    }
    assert row[..|row|] == row;
  }

  method PackTriggerRow(ghost base: Text, ghost bits: seq<bool>, bytes: Text, aux: Byte, bitpos: nat,
                        oactivates: array2<bool>, s: nat, ghost row: seq<bool>)
    returns (bytes': Text, aux': Byte, bitpos': nat)
    requires Packing(base, bits, bytes, aux, bitpos) && bitpos % 8 == 0 && s < oactivates.Length0
    requires |row| == oactivates.Length1 && forall i :: 0 <= i < oactivates.Length1 ==> oactivates[s, i] == row[i]
    ensures Packing(base, bits + row, bytes', aux', bitpos') && bitpos' == bitpos + |row|
  {
    hide Packing;
    bytes', aux', bitpos' := bytes, aux, bitpos;
    assert bits + row[..0] == bits;
    for i := 0 to oactivates.Length1
      invariant Packing(base, bits + row[..i], bytes', aux', bitpos') && bitpos' == bitpos + i
    {
      bytes', aux', bitpos' := PushBit(base, bits + row[..i], bytes', aux', bitpos', i % 8, oactivates[s, i]);
      assert bits + row[..i] + [row[i]] == bits + row[..i + 1];
    }
    assert row[..|row|] == row;
  }

  /** The trigger rows, each a whole number of bytes. */
  method PackTriggers(ghost base: Text, ghost bits: seq<bool>, bytes: Text, aux: Byte, bitpos: nat,
                      oactivates: array2<bool>, ghost rows: seq<seq<bool>>)
    returns (bytes': Text, aux': Byte, bitpos': nat)
    requires Packing(base, bits, bytes, aux, bitpos) && bitpos % 8 == 0 && oactivates.Length1 % 8 == 0
    requires |rows| == oactivates.Length0 && RowsOf(rows, oactivates.Length1)
    requires forall s, i :: 0 <= s < |rows| && 0 <= i < oactivates.Length1 ==> oactivates[s, i] == rows[s][i]
    ensures Packing(base, bits + Flatten(rows), bytes', aux', bitpos')
  {
    hide Packing;
    bytes', aux', bitpos' := bytes, aux, bitpos;
    ghost var done := bits;
    assert bits + Flatten(rows[..0]) == bits;
    for s := 0 to oactivates.Length0
      invariant done == bits + Flatten(rows[..s]) && bitpos' % 8 == 0 && Packing(base, done, bytes', aux', bitpos')
    {
      bytes', aux', bitpos' := PackTriggerRow(base, done, bytes', aux', bitpos', oactivates, s, rows[s]);
      NextRow(bits, rows, s);
      done := done + rows[s];
    }
    assert rows[..|rows|] == rows;
  }

  lemma {:induction false} NextRow(bits: seq<bool>, rows: seq<seq<bool>>, s: nat)
    requires s < |rows|
    ensures bits + Flatten(rows[..s]) + rows[s] == bits + Flatten(rows[..s + 1])
  {
    FlattenSnoc(rows[..s], rows[s]);
    assert rows[..s + 1] == rows[..s] + [rows[s]];
  }

  /** One transition row; the bit is given by `bitpos`, as a row may end inside a byte. */
  method PackEdgeRow(ghost base: Text, ghost bits: seq<bool>, bytes: Text, aux: Byte, bitpos: nat,
        otrans: array2<bool>, s: nat, ghost row: seq<bool>)
    returns (bytes': Text, aux': Byte, bitpos': nat)
    requires Packing(base, bits, bytes, aux, bitpos) && s < otrans.Length0
    requires |row| == otrans.Length1 && forall i :: 0 <= i < otrans.Length1 ==> otrans[s, i] == row[i]
    ensures Packing(base, bits + row, bytes', aux', bitpos') && bitpos' == bitpos + |row|
  {
    hide Packing;
    bytes', aux', bitpos' := bytes, aux, bitpos;
    assert bits + row[..0] == bits;
    for i := 0 to otrans.Length1
      invariant Packing(base, bits + row[..i], bytes', aux', bitpos') && bitpos' == bitpos + i
    {
      bytes', aux', bitpos' := PushBit(base, bits + row[..i], bytes', aux', bitpos', bitpos' % 8, otrans[s, i]);
      assert bits + row[..i] + [row[i]] == bits + row[..i + 1];
    }
    assert row[..|row|] == row;
  }

  method PackEdges(ghost base: Text, ghost bits: seq<bool>, bytes: Text, aux: Byte, bitpos: nat,
                   otrans: array2<bool>, ghost rows: seq<seq<bool>>)
    returns (bytes': Text, aux': Byte, bitpos': nat)
    requires Packing(base, bits, bytes, aux, bitpos)
    requires |rows| == otrans.Length0 && RowsOf(rows, otrans.Length1)
    requires forall s, i :: 0 <= s < |rows| && 0 <= i < otrans.Length1 ==> otrans[s, i] == rows[s][i]
    ensures Packing(base, bits + Flatten(rows), bytes', aux', bitpos')
  {
    hide Packing;
    bytes', aux', bitpos' := bytes, aux, bitpos;
    ghost var done := bits;
    assert bits + Flatten(rows[..0]) == bits;
    for s := 0 to otrans.Length0
      invariant done == bits + Flatten(rows[..s]) && Packing(base, done, bytes', aux', bitpos')
    {
      bytes', aux', bitpos' := PackEdgeRow(base, done, bytes', aux', bitpos', otrans, s, rows[s]);
      NextRow(bits, rows, s);
      done := done + rows[s];
    }
    assert rows[..|rows|] == rows;
  }

  lemma {:induction false} NoLengths()
    ensures LengthBytes([]) == []
  {
  }

  lemma {:induction false} NextLengths(lengths: seq<nat>, i: nat)
    requires i % 2 == 1 && i < |lengths|
    ensures LengthBytes(lengths[..i + 1])
         == LengthBytes(lengths[..i - 1]) + [(Nibble(lengths[i - 1]) + 16 * Nibble(lengths[i])) % 256]
  {
    assert lengths[..i + 1][..i - 1] == lengths[..i - 1];
  }

  lemma {:induction false} AddMod(a: nat, b: nat)
    ensures (a % 256 + b) % 256 == (a + b) % 256
  {
  }

  /** The lengths, two to a byte. */
  method PackLengths(oslen: array<nat>) returns (bytes: Text)
    requires oslen.Length % 2 == 0
    ensures bytes == LengthBytes(oslen[..])
  {
    hide LengthBytes;
    NoLengths();
    bytes := [];
    var aux: Byte := 0;
    for i := 0 to oslen.Length
      invariant i % 2 == 0 ==> aux == 0 && bytes == LengthBytes(oslen[..i])
      invariant i % 2 == 1 ==> aux == Nibble(oslen[i - 1]) % 256 && bytes == LengthBytes(oslen[..i - 1])
    {
      var stored := if oslen[i] == 0 then 0 else oslen[i] - 1;
      var shifted := if i % 2 == 1 then 16 * stored else stored;
      if i % 2 == 0 {
        assert oslen[..i + 1 - 1] == oslen[..i];
      }
      aux := (aux + shifted) % 256;
      if i % 2 == 1 {
        AddMod(Nibble(oslen[i - 1]), 16 * stored);
        NextLengths(oslen[..], i);
        assert oslen[..][..i + 1] == oslen[..i + 1] && oslen[..][..i - 1] == oslen[..i - 1];
        bytes := bytes + [aux];
        aux := 0;
      }
    }
    assert oslen[..oslen.Length] == oslen[..];
  }

  lemma {:induction false} RowsRead(t: Tables, oactivates: array2<bool>, otrans: array2<bool>, oslen: array<nat>,
        osticky: array<bool>)
    requires oactivates.Length0 == otrans.Length0 == otrans.Length1 == oslen.Length == osticky.Length
    requires Shaped(t, oactivates.Length1, oslen.Length)
    requires forall s :: 0 <= s < oslen.Length ==> RowFilled(t, s, oactivates, otrans, oslen, osticky)
    ensures forall s, i :: 0 <= s < |t.triggers| && 0 <= i < oactivates.Length1 ==> oactivates[s, i] == t.triggers[s][i]
    ensures forall s, i :: 0 <= s < |t.edges| && 0 <= i < otrans.Length1 ==> otrans[s, i] == t.edges[s][i]
    ensures oslen[..] == t.lengths && osticky[..] == t.sticky
  {
    forall s | 0 <= s < oslen.Length
      ensures oslen[s] == t.lengths[s] && osticky[s] == t.sticky[s]
      ensures forall i :: 0 <= i < oactivates.Length1 ==> oactivates[s, i] == t.triggers[s][i]
      ensures forall i :: 0 <= i < otrans.Length1 ==> otrans[s, i] == t.edges[s][i]
    {
      assert RowFilled(t, s, oactivates, otrans, oslen, osticky);
    }
  }

  lemma {:induction false} NothingPacked(base: Text)
    ensures Packing(base, [], base, 0, 0)
  {
    assert base + [] == base;
  }

  method PackSheet(ghost base: Text, bytes: Text, sheet: Sheet) returns (bytes': Text, aux: Byte, bitpos: nat)
    requires bytes == base && |sheet.ranges| % 8 == 0
    ensures Packing(base, sheet.ranges + sheet.linked, bytes', aux, bitpos)
    ensures bitpos == |sheet.ranges| + |sheet.linked|
  {
    hide Packing;
    NothingPacked(base);
    assert [] + sheet.ranges == sheet.ranges;
    bytes', aux, bitpos := PackRow(base, [], bytes, 0, 0, sheet.ranges);
    bytes', aux, bitpos := PackRow(base, sheet.ranges, bytes', aux, bitpos, sheet.linked);
  }

  lemma {:induction false} TableBitsAre(t: Tables)
    ensures TableBits(t) == t.sheet.ranges + t.sheet.linked + Flatten(t.triggers) + Flatten(t.edges)
  {
  }

  lemma {:induction false} Sixteenths(n: nat)
    requires n % 16 == 0
    ensures n % 8 == 0 && n / 2 % 8 == 0 && (n / 2 + n) % 8 == 0
  {
    var k := n / 16;
    assert n == 16 * k && n / 2 == 8 * k;
    EightDivides(2 * k);
    EightDivides(k);
    EightDivides(3 * k);
  }

  method PackFront(ghost base: Text, bytes: Text, sheet: Sheet, oactivates: array2<bool>, ghost rows: seq<seq<bool>>)
    returns (bytes': Text, aux: Byte, bitpos: nat)
    requires bytes == base && oactivates.Length1 % 16 == 0
    requires |sheet.linked| == oactivates.Length1 && |sheet.ranges| == oactivates.Length1 / 2
    requires |rows| == oactivates.Length0 && RowsOf(rows, oactivates.Length1)
    requires forall s, i :: 0 <= s < |rows| && 0 <= i < oactivates.Length1 ==> oactivates[s, i] == rows[s][i]
    ensures Packing(base, sheet.ranges + sheet.linked + Flatten(rows), bytes', aux, bitpos)
  {
    hide *;
    Sixteenths(oactivates.Length1);
    bytes', aux, bitpos := PackSheet(base, bytes, sheet);
    bytes', aux, bitpos := PackTriggers(base, sheet.ranges + sheet.linked, bytes', aux, bitpos, oactivates, rows);
  }

  /** The tables of flags, in one run of bits. */
  method PackBits(ghost base: Text, bytes: Text, sheet: Sheet, oactivates: array2<bool>, otrans: array2<bool>,
        ghost t: Tables)
    returns (bytes': Text)
    requires bytes == base && t.sheet == sheet && oactivates.Length1 % 16 == 0
    requires |sheet.linked| == oactivates.Length1 && |sheet.ranges| == oactivates.Length1 / 2
    requires |t.triggers| == oactivates.Length0 && RowsOf(t.triggers, oactivates.Length1)
    requires |t.edges| == otrans.Length0 && RowsOf(t.edges, otrans.Length1)
    requires forall s, i :: 0 <= s < |t.triggers| && 0 <= i < oactivates.Length1 ==>
          oactivates[s, i] == t.triggers[s][i]
    requires forall s, i :: 0 <= s < |t.edges| && 0 <= i < otrans.Length1 ==> otrans[s, i] == t.edges[s][i]
    ensures bytes' == base + Pack(TableBits(t))
  {
    hide *;
    TableBitsAre(t);
    var aux, bitpos;
    ghost var front := sheet.ranges + sheet.linked + Flatten(t.triggers);
    bytes', aux, bitpos := PackFront(base, bytes, sheet, oactivates, t.triggers);
    bytes', aux, bitpos := PackEdges(base, front, bytes', aux, bitpos, otrans, t.edges);
    bytes' := Flush(base, front + Flatten(t.edges), bytes', aux, bitpos);
  }

  method PackFlags(ghost base: Text, bytes: Text, flags: seq<bool>) returns (bytes': Text)
    requires bytes == base
    ensures bytes' == base + Pack(flags)
  {
    hide Packing;
    NothingPacked(base);
    assert [] + flags == flags;
    var aux, bitpos;
    bytes', aux, bitpos := PackRow(base, [], bytes, 0, 0, flags);
    bytes' := Flush(base, flags, bytes', aux, bitpos);
  }

  /** Packs the filled tables, one after the other. */
  method PackConfig(sheet: Sheet, oactivates: array2<bool>, otrans: array2<bool>, oslen: array<nat>,
        osticky: array<bool>, ghost t: Tables)
    returns (bytes: Text)
    requires oactivates.Length0 == otrans.Length0 == otrans.Length1 == oslen.Length == osticky.Length
    requires oactivates.Length1 % 16 == 0 && oslen.Length % 2 == 0 && Shaped(t, oactivates.Length1, oslen.Length)
    requires t.sheet == sheet && |sheet.chars| == |sheet.linked| == oactivates.Length1
          && |sheet.ranges| == oactivates.Length1 / 2
    requires forall s :: 0 <= s < oslen.Length ==> RowFilled(t, s, oactivates, otrans, oslen, osticky)
    ensures bytes == PackTables(t)
  {
    RowsRead(t, oactivates, otrans, oslen, osticky);
    bytes := PackBits(sheet.chars, sheet.chars, sheet, oactivates, otrans, t);
    var lengths := PackLengths(oslen);
    bytes := bytes + lengths;
    bytes := PackFlags(bytes, bytes, osticky[..]);
  }
}
