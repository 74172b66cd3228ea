/** Values cut into pieces that fit a network message, and the requests that carry them
    (basic_ops.go, `set` and `Delete`; experimental.go, `BatchSet`). */
module Chunks {
  import opened Arithmetic
  import opened ColumnPages
  import opened BulkGet

  const CLEN: nat := 8188
  const FLEN: nat := 8190
  const MAX_KEY: nat := 6
  const MAX_OPS: nat := 65536

  type Key = k: Bytes | |k| <= 8 witness []

  /** `i` in `width` bytes, the highest first. */
  function IndexBytes(i: nat, width: nat): (bs: Bytes)
    ensures |bs| == width
    decreases width
  {
    if width == 0 then [] else IndexBytes(i / 256, width - 1) + [i % 256]
  }

  /** `i >> 8 * j`. */
  function Shr8(i: nat, j: nat): (r: nat) {
    if j == 0 then i else Shr8(i, j - 1) / 256
  }

  lemma {:induction false} ShrStep(i: nat, j: nat)
    ensures Shr8(i / 256, j) == Shr8(i, j + 1)
  {
    if j > 0 {
      ShrStep(i, j - 1);
    }
  }

  lemma {:induction false} IndexByteAt(i: nat, width: nat, j: nat)
    requires j < width
    ensures IndexBytes(i, width)[width - 1 - j] == Shr8(i, j) % 256
    decreases width
  {
    if j > 0 {
      IndexByteAt(i / 256, width - 1, j - 1);
      ShrStep(i, j - 1);
    }
  }

  /** The bytes tell the indices below `256 * ... * 256` apart, and no others. */
  lemma {:induction false} IndexBytesEqualIff(i: nat, j: nat, width: nat)
    ensures IndexBytes(i, width) == IndexBytes(j, width) <==> i % Power(width) == j % Power(width)
    decreases width
  {
    if width > 0 {
      var a, b := IndexBytes(i / 256, width - 1), IndexBytes(j / 256, width - 1);
      IndexBytesEqualIff(i / 256, j / 256, width - 1);
      SplitLow(i, Power(width - 1));
      SplitLow(j, Power(width - 1));
      assert (a + [i % 256])[..width - 1] == a && (b + [j % 256])[..width - 1] == b;
      assert (a + [i % 256])[width - 1] == i % 256 && (b + [j % 256])[width - 1] == j % 256;
    }
  }

  function Power(width: nat): (p: nat)
    ensures p > 0
  {
    if width == 0 then 1 else 256 * Power(width - 1)
  }

  lemma {:induction false} SplitLow(i: nat, p: nat)
    requires p > 0
    ensures i % (256 * p) == 256 * (i / 256 % p) + i % 256
  {
    var a := i / 256;
    assert a == p * (a / p) + a % p;
    assert i == 256 * p * (a / p) + (256 * (a % p) + i % 256);
    RemainderIs(i, 256 * p, a / p, 256 * (a % p) + i % 256);
  }

  /** An index in front of a key. */
  method IndexKey(idx: nat, idxLen: nat, key: Bytes) returns (reqKey: array<Byte>)
    ensures fresh(reqKey) && reqKey[..] == IndexBytes(idx, idxLen) + key
  {
    hide IndexBytes, Shr8;
    reqKey := new Byte[|key| + idxLen](_ => 0);
    ghost var bytes := IndexBytes(idx, idxLen);
    var j := idxLen - 1;
    while j >= 0
      invariant -1 <= j < idxLen
      invariant forall k :: 0 <= k < idxLen - 1 - j ==> reqKey[k] == bytes[k]
    {
      IndexByteAt(idx, idxLen, j);
      reqKey[idxLen - j - 1] := Shr8(idx, j) % 256;
      j := j - 1;
    }
    assert reqKey[..idxLen] == bytes;
    for k := 0 to |key|
      invariant reqKey[..idxLen] == bytes && reqKey[idxLen..idxLen + k] == key[..k]
    {
      reqKey[idxLen + k] := key[k];
      assert reqKey[idxLen..idxLen + k + 1] == reqKey[idxLen..idxLen + k] + [key[k]];
    }
    assert reqKey[..] == reqKey[..idxLen] + reqKey[idxLen..idxLen + |key|] && key[..|key|] == key;
  }

  const IDX_LEN: nat := 2

  /** Chunk `i` of the value under `key`. */
  function KeyOf(i: nat, key: Bytes): (k: Key)
    requires |key| <= MAX_KEY
  {
    IndexBytes(i, IDX_LEN) + key
  }

  /** A key as the store sees it: filled with zeros to eight bytes. */
  function Word(k: Key): (w: Bytes)
    ensures |w| == 8
  {
    k + seq(8 - |k|, _ => 0)
  }

  function Fill(key: Bytes): (w: Bytes)
    requires |key| <= MAX_KEY
    ensures |w| == MAX_KEY
  {
    key + seq(MAX_KEY - |key|, _ => 0)
  }

  /** Different chunks have different keys; keys that differ only in zeros at the end are one key. */
  lemma {:induction false} WordsEqualIff(i: nat, key: Bytes, j: nat, other: Bytes)
    requires |key| <= MAX_KEY && |other| <= MAX_KEY && i < MAX_OPS && j < MAX_OPS
    ensures Word(KeyOf(i, key)) == Word(KeyOf(j, other)) <==> i == j && Fill(key) == Fill(other)
  {
    hide IndexBytes;
    var a, b := Word(KeyOf(i, key)), Word(KeyOf(j, other));
    assert a == IndexBytes(i, 2) + Fill(key) && b == IndexBytes(j, 2) + Fill(other);
    assert a[..2] == IndexBytes(i, 2) && a[2..] == Fill(key) && b[..2] == IndexBytes(j, 2) && b[2..] == Fill(other);
    IndexBytesEqualIff(i, j, 2);
    assert Power(1) == 256 && Power(2) == MAX_OPS;
  }

  // ----- pieces -----

  function Pieces(v: Bytes): (ps: seq<Bytes>)
    decreases |v|
  {
    if v == [] then [] else [v[..Min(|v|, FLEN)]] + Pieces(v[Min(|v|, FLEN)..])
  }

  function ChunksOf(value: Bytes): (cs: seq<Bytes>)
    ensures |cs| >= 1
  {
    [value[..Min(|value|, CLEN)]] + Pieces(value[Min(|value|, CLEN)..])
  }

  /** One, and one more for every `FLEN` bytes begun behind the first `CLEN`. */
  function NumOps(vLen: nat): (n: nat) {
    1 + (vLen - Min(vLen, CLEN) + FLEN - 1) / FLEN
  }

  function Join(ps: seq<Bytes>): (v: Bytes) {
    if ps == [] then [] else ps[0] + Join(ps[1..])
  }

  lemma {:induction false} CountPieces(n: nat)
    ensures (n + FLEN - 1) / FLEN == if n == 0 then 0 else 1 + (n - Min(n, FLEN) + FLEN - 1) / FLEN
  {
  }

  /** The pieces make up the value, there are as many as counted, and only the last may be short. */
  lemma {:induction false} PiecesSplit(v: Bytes)
    ensures Join(Pieces(v)) == v && |Pieces(v)| == (|v| + FLEN - 1) / FLEN
    ensures forall i :: 0 <= i < |Pieces(v)| ==>
          1 <= |Pieces(v)[i]| <= FLEN && (i + 1 < |Pieces(v)| ==> |Pieces(v)[i]| == FLEN)
    decreases |v|
  {
    CountPieces(|v|);
    if v != [] {
      var k := Min(|v|, FLEN);
      PiecesSplit(v[k..]);
      assert v[..k] + v[k..] == v;
      assert Pieces(v)[1..] == Pieces(v[k..]);
      forall i | 0 <= i < |Pieces(v)|
        ensures 1 <= |Pieces(v)[i]| <= FLEN && (i + 1 < |Pieces(v)| ==> |Pieces(v)[i]| == FLEN)
      {
        if i > 0 {
          assert Pieces(v)[i] == Pieces(v[k..])[i - 1];
        }
      }
    }
  }

  lemma {:induction false} ChunksSplit(value: Bytes)
    ensures var cs := ChunksOf(value);
            && Join(cs) == value && |cs| == NumOps(|value|)
            && |cs[0]| == Min(|value|, CLEN)
            && forall i :: 1 <= i < |cs| ==> 1 <= |cs[i]| <= FLEN && (i + 1 < |cs| ==> |cs[i]| == FLEN)
  {
    var k := Min(|value|, CLEN);
    PiecesSplit(value[k..]);
    hide Pieces;
    assert value[..k] + value[k..] == value;
    assert ChunksOf(value)[1..] == Pieces(value[k..]);
    forall i | 1 <= i < |ChunksOf(value)|
      ensures 1 <= |ChunksOf(value)[i]| <= FLEN && (i + 1 < |ChunksOf(value)| ==> |ChunksOf(value)[i]| == FLEN)
    {
      assert ChunksOf(value)[i] == Pieces(value[k..])[i - 1];
      assert i + 1 < |ChunksOf(value)| ==> ChunksOf(value)[i + 1] == Pieces(value[k..])[i];
    }
  }

  /** The longest value that can be stored. */
  lemma {:induction false} TooLongIff(vLen: nat)
    ensures NumOps(vLen) > MAX_OPS <==> vLen > CLEN + (MAX_OPS - 1) * FLEN
  {
  }

  // ----- requests -----

  datatype Op = Set(key: Key, value: Bytes, replicated: bool) | Delete(key: Key)

  type Store = map<Bytes, Bytes>

  function Do(store: Store, op: Op): (s: Store) {
    match op
    case Set(k, v, _) => store[Word(k) := v]
    case Delete(k) => store - {Word(k)}
  }

  function DoAll(store: Store, ops: seq<Op>): (s: Store)
    decreases |ops|
  {
    if ops == [] then store else Do(DoAll(store, ops[..|ops| - 1]), ops[|ops| - 1])
  }

  lemma {:induction false} DoJoins(store: Store, a: seq<Op>, b: seq<Op>)
    ensures DoAll(store, a + b) == DoAll(DoAll(store, a), b)
    decreases |b|
  {
    if b == [] {
      assert a + b == a;
    } else {
      var last := |b| - 1;
      DoJoins(store, a, b[..last]);
      assert (a + b)[..|a + b| - 1] == a + b[..last];
    }
  }

  /** One request per chunk. */
  function OpsOf(key: Bytes, chunks: seq<Bytes>, replicated: bool): (ops: seq<Op>)
    requires |key| <= MAX_KEY
    ensures |ops| == |chunks|
  {
    seq(|chunks|, i requires 0 <= i < |chunks| && |key| <= MAX_KEY => Set(KeyOf(i, key), chunks[i], replicated))
  }

  /** The number of further chunks in front of the first. */
  function Counted(value: Bytes): (cs: seq<Bytes>)
    ensures |cs| >= 1
  {
    var cs := ChunksOf(value);
    var n := NumOps(|value|) - 1;
    cs[0 := IndexBytes(n, IDX_LEN) + cs[0]]
  }

  datatype Built = Built(ops: seq<Op>) | KeyTooLong | ValueTooLong

  function SetOps(replicated: bool, key: Bytes, value: Bytes): (b: Built) {
    if |key| > MAX_KEY then KeyTooLong
    else if NumOps(|value|) > MAX_OPS then ValueTooLong
    else Built(OpsOf(key, ChunksOf(value), replicated))
  }

  /** All requests of a batch, or what is wrong with the first key or value that cannot be stored. */
  function BatchOps(keys: seq<Bytes>, values: seq<Bytes>, before: seq<Op>): (b: Built)
    requires |keys| <= |values|
    decreases |keys|
  {
    if keys == [] then Built(before)
    else if |keys[0]| > MAX_KEY then KeyTooLong
    else if NumOps(|values[0]|) > MAX_OPS then ValueTooLong
    else BatchOps(keys[1..], values[1..], before + OpsOf(keys[0], Counted(values[0]), false))
  }

  function DeleteOps(key: Bytes, n: nat): (ops: seq<Op>)
    requires |key| <= MAX_KEY
    ensures |ops| == n
  {
    seq(n, i requires 0 <= i < n && |key| <= MAX_KEY => Delete(KeyOf(i, key)))
  }

  /** What `Get` brings back for a stored value: nothing for an empty one, and at most `CLEN` bytes. */
  function Fetch(value: Bytes): (r: Option<Bytes>) {
    if value == [] then None else Some(value[..Min(|value|, CLEN)])
  }

  function Get(store: Store, key: Bytes): (r: Option<Bytes>)
    requires |key| <= MAX_KEY
  {
    var w := Word(KeyOf(0, key));
    if w in store then Fetch(store[w]) else None
  }

  // ----- the code -----

  lemma {:induction false} PiecesNext(value: Bytes, i: nat, start: nat)
    requires start < |value| && 1 <= i && i + |Pieces(value[start..])| == |ChunksOf(value)|
    requires ChunksOf(value)[i..] == Pieces(value[start..])
    ensures var k := Min(|value| - start, FLEN);
            && i < |ChunksOf(value)| && ChunksOf(value)[i] == value[start..start + k]
            && Pieces(value[start + k..]) == ChunksOf(value)[i + 1..]
            && i + 1 + |Pieces(value[start + k..])| == |ChunksOf(value)|
  {
    hide ChunksOf;
    var cs := ChunksOf(value);
    var k := Min(|value| - start, FLEN);
    assert value[start..][..k] == value[start..start + k] && value[start..][k..] == value[start + k..];
    assert cs[i] == cs[i..][0] && cs[i + 1..] == cs[i..][1..];
  }

  /** All but the first request carry the chunks of the value. */
  predicate CarryLater(ops: seq<Op>, key: Bytes, value: Bytes, replicated: bool)
    requires |key| <= MAX_KEY
  {
    forall i :: 1 <= i < |ops| ==> i < |ChunksOf(value)| && ops[i] == Set(KeyOf(i, key), ChunksOf(value)[i], replicated)
  }

  /** The requests for the pieces behind the first chunk. */
  method LaterOps(rqs: array<Op>, replicated: bool, key: Bytes, value: Bytes)
    requires |key| <= MAX_KEY && rqs.Length == NumOps(|value|)
    modifies rqs
    ensures rqs[0] == old(rqs[0]) && CarryLater(rqs[..], key, value, replicated)
  {
    hide Pieces, ChunksOf, KeyOf, IndexBytes;
    ChunksSplit(value);
    FirstPieces(value);
    var vLen := |value|;
    var left := vLen - Min(vLen, CLEN);
    for i := 1 to rqs.Length
      invariant rqs[0] == old(rqs[0]) && 0 <= left <= vLen
      invariant |ChunksOf(value)| == rqs.Length == i + |Pieces(value[vLen - left..])|
      invariant ChunksOf(value)[i..] == Pieces(value[vLen - left..])
      invariant forall j :: 1 <= j < i ==> rqs[j] == Set(KeyOf(j, key), ChunksOf(value)[j], replicated)
    {
      SomePieces(value[vLen - left..]);
      PiecesNext(value, i, vLen - left);
      var toSend := Min(left, FLEN);
      var reqKey := IndexKey(i, IDX_LEN, key);
      KeyIs(i, key);
      rqs[i] := Set(reqKey[..], value[vLen - left..vLen - left + toSend], replicated);
      left := left - toSend;
    }
  }

  lemma {:induction false} KeyIs(i: nat, key: Bytes)
    requires |key| <= MAX_KEY
    ensures KeyOf(i, key) == IndexBytes(i, IDX_LEN) + key
  {
  }

  lemma {:induction false} SomePieces(v: Bytes)
    requires |Pieces(v)| > 0
    ensures |v| > 0
  {
  }

  lemma {:induction false} FirstPieces(value: Bytes)
    ensures ChunksOf(value)[0] == value[..Min(|value|, CLEN)]
          && ChunksOf(value)[1..] == Pieces(value[Min(|value|, CLEN)..])
  {
  }

  method BuildSet(replicated: bool, key: Bytes, value: Bytes) returns (b: Built)
    ensures b == SetOps(replicated, key, value)
  {
    hide ChunksOf, NumOps, KeyOf;
    if |key| > MAX_KEY {
      return KeyTooLong;
    }
    var pLen := Min(|value|, CLEN);
    var left := |value| - pLen;
    var numOps := (left + FLEN - 1) / FLEN + 1;
    NumOpsIs(|value|);
    if numOps > MAX_OPS {
      return ValueTooLong;
    }
    var rqs := new Op[numOps](_ => Delete([]));
    rqs[0] := Set([0, 0] + key, value[..pLen], replicated);
    LaterOps(rqs, replicated, key, value);
    ChunksSplit(value);
    FirstPieces(value);
    FirstKey(key);
    assert rqs[..] == OpsOf(key, ChunksOf(value), replicated);
    b := Built(rqs[..]);
  }

  lemma {:induction false} NumOpsIs(vLen: nat)
    ensures NumOps(vLen) == (vLen - Min(vLen, CLEN) + FLEN - 1) / FLEN + 1
  {
  }

  lemma {:induction false} TwoIndexBytes(n: nat)
    ensures IndexBytes(n, IDX_LEN) == [n / 256 % 256, n % 256]
  {
    assert IndexBytes(n / 256, 1) == IndexBytes(n / 256 / 256, 0) + [n / 256 % 256];
  }

  lemma {:induction false} FirstKey(key: Bytes)
    requires |key| <= MAX_KEY
    ensures KeyOf(0, key) == [0, 0] + key
  {
    TwoIndexBytes(0);
  }

  method BuildBatch(keys: seq<Bytes>, values: seq<Bytes>) returns (b: Built)
    requires |keys| <= |values|
    ensures b == BatchOps(keys, values, [])
  {
    hide ChunksOf, NumOps, KeyOf, OpsOf, Counted;
    var rqs: seq<Op> := [];
    assert keys[0..] == keys && values[0..] == values;
    for i := 0 to |keys|
      invariant BatchOps(keys, values, []) == BatchOps(keys[i..], values[i..], rqs)
    {
      var key, value := keys[i], values[i];
      assert keys[i..][1..] == keys[i + 1..] && values[i..][1..] == values[i + 1..];
      if |key| > MAX_KEY {
        return KeyTooLong;
      }
      var pLen := Min(|value|, CLEN);
      var left := |value| - pLen;
      var numOps := (left + FLEN - 1) / FLEN + 1;
      NumOpsIs(|value|);
      if numOps > MAX_OPS {
        return ValueTooLong;
      }
      var pVal := [(numOps - 1) / 256 % 256, (numOps - 1) % 256] + value[..pLen];
      TwoIndexBytes(numOps - 1);
      var later := new Op[numOps](_ => Delete([]));
      later[0] := Set([0, 0] + key, pVal, false);
      LaterOps(later, false, key, value);
      CountedOps(key, value, later[..]);
      rqs := rqs + later[..];
    }
    b := Built(rqs);
  }

  lemma {:induction false} CountedOps(key: Bytes, value: Bytes, ops: seq<Op>)
    requires |key| <= MAX_KEY && |ops| == NumOps(|value|)
    requires var n := NumOps(|value|) - 1;
             n >= 0 && ops[0] == Set([0, 0] + key, IndexBytes(n, IDX_LEN) + value[..Min(|value|, CLEN)], false)
    requires CarryLater(ops, key, value, false)
    ensures ops == OpsOf(key, Counted(value), false)
  {
    hide NumOps, ChunksOf, KeyOf;
    ChunksSplit(value);
    FirstPieces(value);
    FirstKey(key);
  }

  method BuildDelete(key: Bytes, numOps: nat) returns (ops: seq<Op>)
    requires |key| <= MAX_KEY && numOps > 0
    ensures ops == DeleteOps(key, numOps)
  {
    hide KeyOf;
    FirstKey(key);
    var rqs := new Op[numOps](_ => Delete([]));
    rqs[0] := Delete([0, 0] + key);
    for i := 1 to numOps
      invariant forall j :: 0 <= j < i ==> rqs[j] == Delete(KeyOf(j, key))
    {
      var reqKey := IndexKey(i, IDX_LEN, key);
      KeyIs(i, key);
      rqs[i] := Delete(reqKey[..]);
    }
    assert rqs[..] == DeleteOps(key, numOps);
    ops := rqs[..];
  }
}
