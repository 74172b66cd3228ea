/** Where the hardware finds every entry of every table: the bit addresses of rem_top_ff.v, lines 224-232. */
module RegexAddress {
  import opened Arithmetic
  import opened RegexPattern
  import opened Binary
  import opened RegexBits
  import opened RegexLayout
  import opened RegexTables
  import opened RegexPacking

  /** Bit `i` of the input register: the lowest bit of the first byte is bit 0. */
  predicate BitAt(bytes: Text, i: nat)
    requires i < 8 * |bytes|
  {
    bytes[i / 8] / Pow2(i % 8) % 2 == 1
  }

  lemma {:induction false} BitsOfAt(n: nat, width: nat, i: nat)
    requires i < width
    ensures BitsOf(n, width)[i] <==> n / Pow2(i) % 2 == 1
    decreases i
  {
    if i > 0 {
      BitsOfAt(n / 2, width - 1, i - 1);
      DivideTwice(n, Pow2(i - 1));
    }
  }

  lemma {:induction false} DivideTwice(n: nat, p: nat)
    requires p > 0
    ensures n / 2 / p == n / (2 * p)
  {
    var q, r := n / 2 / p, n / 2 % p;
    assert n / 2 == p * q + r;
    assert n == 2 * p * q + (2 * r + n % 2);
    QuotientIs(n, 2 * p, q, 2 * r + n % 2);
  }

  lemma {:induction false} QuotientIs(x: nat, n: nat, q: nat, r: nat)
    requires n > 0 && x == n * q + r && r < n
    ensures x / n == q
  {
    var d := x / n;
    assert x == n * d + x % n;
    Ordered(n, d + 1, q);
    Ordered(n, q + 1, d);
    assert n * (d + 1) == n * d + n && n * (q + 1) == n * q + n;
  }

  lemma {:induction false} UnpackAt(bytes: Text, i: nat)
    requires i < 8 * |bytes|
    ensures Unpack(bytes)[i] <==> BitAt(bytes, i)
    decreases |bytes|
  {
    hide BitsOf, Pow2;
    if i < 8 {
      BitsOfAt(bytes[0], 8, i);
    } else {
      UnpackAt(bytes[1..], i - 8);
      assert (i - 8) / 8 == i / 8 - 1 && (i - 8) % 8 == i % 8;
    }
  }

  /** The packed bytes hold bit `k` in byte `k / 8`, at its place `k % 8` from the lowest. */
  lemma {:induction false} PackedBit(bits: seq<bool>, k: nat)
    requires k < |bits|
    ensures k / 8 < |Pack(bits)| && (bits[k] <==> Pack(bits)[k / 8] / Pow2(k % 8) % 2 == 1)
  {
    hide Pack, Unpack;
    UnpackPack(bits);
    UnpackAt(Pack(bits), k);
  }

  // ----- the tables -----

  lemma {:induction false} RowsAt(bits: seq<bool>, from: nat, rows: nat, width: nat, s: nat)
    requires s < rows
    ensures Rows(bits, from, rows, width)[s] == Slice(bits, from + s * width, width)
    decreases rows
  {
    if s > 0 {
      RowsAt(bits, from + width, rows - 1, width, s - 1);
      assert from + width + (s - 1) * width == from + s * width;
    }
  }

  lemma {:induction false} SliceAt(bits: seq<bool>, from: nat, n: nat, x: nat)
    requires x < |Slice(bits, from, n)|
    ensures from + x < |bits| && x < n && Slice(bits, from, n)[x] == bits[from + x]
  {
  }

  /** Bit `i` behind the characters. */
  lemma {:induction false} BehindChars(bytes: Text, charCnt: nat, i: nat)
    requires charCnt <= |bytes| && i < |Unpack(bytes[charCnt..])|
    ensures 8 * charCnt + i < 8 * |bytes| && (Unpack(bytes[charCnt..])[i] <==> BitAt(bytes, 8 * charCnt + i))
  {
    hide Unpack, Pow2;
    UnpackAt(bytes[charCnt..], i);
    assert (8 * charCnt + i) / 8 == charCnt + i / 8 && (8 * charCnt + i) % 8 == i % 8;
  }

  /** Where the tables start, in bits. */
  function RangesAt(charCnt: nat): (a: nat) { charCnt * 8 }

  function LinkedBitsAt(charCnt: nat): (a: nat) { charCnt / 2 + charCnt * 8 }

  function TriggersAt(charCnt: nat): (a: nat) { charCnt + charCnt / 2 + charCnt * 8 }

  function EdgesAt(charCnt: nat, stateCnt: nat): (a: nat) {
    stateCnt * charCnt + charCnt + charCnt / 2 + charCnt * 8
  }

  /** The edges fill up whole bytes. */
  function LengthsAt(charCnt: nat, stateCnt: nat): (a: nat) {
    (stateCnt * stateCnt + 7) / 8 * 8 + stateCnt * charCnt + charCnt + charCnt / 2 + charCnt * 8
  }

  function StickyAt(charCnt: nat, stateCnt: nat): (a: nat) {
    stateCnt * 4 + LengthsAt(charCnt, stateCnt)
  }

  lemma {:induction false} CharAddress(t: Tables, charCnt: nat, stateCnt: nat, x: nat)
    requires Packable(t, charCnt, stateCnt) && x < charCnt
    ensures |PackTables(t)| >= charCnt && PackTables(t)[x] == t.sheet.chars[x]
  {
    hide PackTables;
    CharsInFront(t, charCnt, stateCnt);
    assert PackTables(t)[x] == PackTables(t)[..charCnt][x];
  }

  /** Whether character `x` continues a literal. */
  lemma {:induction false} LinkedAddress(t: Tables, charCnt: nat, stateCnt: nat, x: nat)
    requires Packable(t, charCnt, stateCnt) && x < |t.sheet.linked|
    ensures LinkedBitsAt(charCnt) + x < 8 * |PackTables(t)|
    ensures BitAt(PackTables(t), LinkedBitsAt(charCnt) + x) <==> t.sheet.linked[x]
  {
    hide PackTables, Unpack, TableBits, Pow2, Padded, NibbleRows, Flatten, Slice, Rows;
    var bytes := PackTables(t);
    CharsInFront(t, charCnt, stateCnt);
    UnpackTables(t, charCnt, stateCnt);
    var bits := Unpack(bytes[charCnt..]);
    DecodedBits(t, charCnt, stateCnt, bits);
    SliceAt(bits, charCnt / 2, charCnt, x);
    BehindChars(bytes, charCnt, charCnt / 2 + x);
  }

  /** Whether characters `2 * p` and `2 * p + 1` are the bounds of a range. */
  lemma {:induction false} RangeAddress(t: Tables, charCnt: nat, stateCnt: nat, p: nat)
    requires Packable(t, charCnt, stateCnt) && p < |t.sheet.ranges|
    ensures RangesAt(charCnt) + p < 8 * |PackTables(t)|
    ensures BitAt(PackTables(t), RangesAt(charCnt) + p) <==> t.sheet.ranges[p]
  {
    hide PackTables, Unpack, TableBits, Pow2, Padded, NibbleRows, Flatten, Slice, Rows;
    var bytes := PackTables(t);
    CharsInFront(t, charCnt, stateCnt);
    UnpackTables(t, charCnt, stateCnt);
    var bits := Unpack(bytes[charCnt..]);
    DecodedBits(t, charCnt, stateCnt, bits);
    SliceAt(bits, 0, charCnt / 2, p);
    BehindChars(bytes, charCnt, p);
  }

  lemma {:induction false} RowBit(bits: seq<bool>, from: nat, rows: seq<seq<bool>>, width: nat, s: nat, x: nat)
    requires Rows(bits, from, |rows|, width) == rows && s < |rows| && x < |rows[s]|
    ensures from + s * width + x < |bits| && bits[from + s * width + x] == rows[s][x]
  {
    hide Slice;
    RowsAt(bits, from, |rows|, width, s);
    SliceAt(bits, from + s * width, width, x);
  }

  /** Whether character `x` triggers state `s`. */
  lemma {:induction false} TriggerAddress(t: Tables, charCnt: nat, stateCnt: nat, s: nat, x: nat)
    requires Packable(t, charCnt, stateCnt) && s < |t.triggers| && x < |t.triggers[s]|
    ensures TriggersAt(charCnt) + (s * charCnt + x) < 8 * |PackTables(t)|
    ensures BitAt(PackTables(t), TriggersAt(charCnt) + (s * charCnt + x)) <==> t.triggers[s][x]
  {
    hide PackTables, Unpack, TableBits, Pow2, Padded, NibbleRows, Flatten, Slice, Rows;
    var bytes := PackTables(t);
    CharsInFront(t, charCnt, stateCnt);
    UnpackTables(t, charCnt, stateCnt);
    var bits := Unpack(bytes[charCnt..]);
    DecodedBits(t, charCnt, stateCnt, bits);
    RowBit(bits, charCnt / 2 + charCnt, t.triggers, charCnt, s, x);
    BehindChars(bytes, charCnt, charCnt / 2 + charCnt + s * charCnt + x);
  }

  /** The bits behind the characters, and the rows of the transitions and of the lengths in them. */
  lemma {:induction false} RowsBehind(t: Tables, charCnt: nat, stateCnt: nat)
    requires Packable(t, charCnt, stateCnt)
    ensures |PackTables(t)| >= charCnt
    ensures var bits := Unpack(PackTables(t)[charCnt..]);
            && Rows(bits, Acts(charCnt, stateCnt), |t.edges|, stateCnt) == t.edges
            && Rows(bits, Delays(charCnt, stateCnt), |NibbleRows(t.lengths)|, 4) == NibbleRows(t.lengths)
  {
    hide PackTables, Unpack, TableBits, Padded, Flatten, Slice, Rows, BitsOf, Acts, Delays;
    CharsInFront(t, charCnt, stateCnt);
    UnpackTables(t, charCnt, stateCnt);
    DecodedActs(t, charCnt, stateCnt, Unpack(PackTables(t)[charCnt..]));
    DecodedRest(t, charCnt, stateCnt, Unpack(PackTables(t)[charCnt..]));
  }

  /** Whether state `s` may be entered from state `k`. */
  lemma {:induction false} EdgeAddress(t: Tables, charCnt: nat, stateCnt: nat, s: nat, k: nat)
    requires Packable(t, charCnt, stateCnt) && s < |t.edges| && k < |t.edges[s]|
    ensures EdgesAt(charCnt, stateCnt) + (s * stateCnt + k) < 8 * |PackTables(t)|
    ensures BitAt(PackTables(t), EdgesAt(charCnt, stateCnt) + (s * stateCnt + k)) <==> t.edges[s][k]
  {
    hide PackTables, Unpack, Pow2, Rows, NibbleRows, Packable, BitAt;
    var bytes := PackTables(t);
    RowsBehind(t, charCnt, stateCnt);
    var bits := Unpack(bytes[charCnt..]);
    RowBit(bits, Acts(charCnt, stateCnt), t.edges, stateCnt, s, k);
    BehindChars(bytes, charCnt, Acts(charCnt, stateCnt) + s * stateCnt + k);
  }

  /** Bit `j` of the four that hold the length of state `s`, less one. */
  lemma {:induction false} LengthAddress(t: Tables, charCnt: nat, stateCnt: nat, s: nat, j: nat)
    requires Packable(t, charCnt, stateCnt) && s < |t.lengths| && j < 4
    ensures LengthsAt(charCnt, stateCnt) + (s * 4 + j) < 8 * |PackTables(t)|
    ensures BitAt(PackTables(t), LengthsAt(charCnt, stateCnt) + (s * 4 + j))
       <==> (if t.lengths[s] == 0 then 0 else t.lengths[s] - 1) / Pow2(j) % 2 == 1
  {
    hide PackTables, Unpack, Pow2, Rows, BitsOf, Packable, BitAt;
    var bytes := PackTables(t);
    RowsBehind(t, charCnt, stateCnt);
    var bits := Unpack(bytes[charCnt..]);
    RowBit(bits, Delays(charCnt, stateCnt), NibbleRows(t.lengths), 4, s, j);
    BehindChars(bytes, charCnt, Delays(charCnt, stateCnt) + s * 4 + j);
    BitsOfAt(Nibble(t.lengths[s]), 4, j);
  }

  /** Whether state `s` stays active. */
  lemma {:induction false} StickyAddress(t: Tables, charCnt: nat, stateCnt: nat, s: nat)
    requires Packable(t, charCnt, stateCnt) && s < |t.sticky|
    ensures StickyAt(charCnt, stateCnt) + s < 8 * |PackTables(t)|
    ensures BitAt(PackTables(t), StickyAt(charCnt, stateCnt) + s) <==> t.sticky[s]
  {
    hide PackTables, Unpack, TableBits, Pow2, Padded, NibbleRows, Flatten, Slice, Rows;
    var bytes := PackTables(t);
    CharsInFront(t, charCnt, stateCnt);
    UnpackTables(t, charCnt, stateCnt);
    var bits := Unpack(bytes[charCnt..]);
    DecodedRest(t, charCnt, stateCnt, bits);
    SliceAt(bits, Delays(charCnt, stateCnt) + 4 * stateCnt, stateCnt, s);
    BehindChars(bytes, charCnt, Delays(charCnt, stateCnt) + 4 * stateCnt + s);
  }
}
