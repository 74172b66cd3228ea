/** The requests of `set`, `BatchSet`, `Delete` and `ArraySetN`, byte for byte. */
module ChunkRequests {
  import opened Arithmetic
  import opened ColumnPages
  import opened BulkGet
  import opened Chunks
  import opened ArrayStore

  /** Where chunk `i` of a value starts: the first has room for 8188 bytes, every later one for 8190. */
  function ChunkStart(i: nat): (a: nat) {
    if i == 0 then 0 else 8188 + 8190 * (i - 1)
  }

  /** The bytes of chunk `i`. */
  function ChunkBytes(value: Bytes, i: nat): (bytes: Bytes)
    requires ChunkStart(i) <= |value|
  {
    value[ChunkStart(i)..if ChunkStart(i + 1) <= |value| then ChunkStart(i + 1) else |value|]
  }

  /** `n` chunks are as many as the value needs: the last one begins inside the value, unless it is the first. */
  predicate IsChunkCount(value: Bytes, n: nat) {
    n >= 1 && |value| <= ChunkStart(n) && (n == 1 || ChunkStart(n - 1) < |value|)
  }

  /** A write of chunk `i` under `key`, with `count` in front of its bytes. */
  predicate Writes(op: Op, key: Bytes, i: nat, count: Bytes, value: Bytes, replicated: bool) {
    && op.Set? && op.replicated == replicated
    && |op.key| == 2 + |key| && op.key[0] == i / 256 && op.key[1] == i % 256 && op.key[2..] == key
    && ChunkStart(i) <= |value| && op.value == count + ChunkBytes(value, i)
  }

  lemma {:induction false} PieceAt(v: Bytes, i: nat)
    requires i < |Pieces(v)|
    ensures 8190 * i < |v|
    ensures Pieces(v)[i] == v[8190 * i..if 8190 * (i + 1) <= |v| then 8190 * (i + 1) else |v|]
    decreases i
  {
    var k := Min(|v|, FLEN);
    if i > 0 {
      PieceAt(v[k..], i - 1);
      assert Pieces(v)[i] == Pieces(v[k..])[i - 1];
    }
  }

  lemma {:induction false} ChunkAt(value: Bytes, i: nat)
    requires i < |ChunksOf(value)|
    ensures ChunkStart(i) <= |value| && ChunksOf(value)[i] == ChunkBytes(value, i)
  {
    hide Pieces;
    var k := Min(|value|, CLEN);
    FirstPieces(value);
    if i > 0 {
      PieceAt(value[k..], i - 1);
      assert ChunksOf(value)[i] == Pieces(value[k..])[i - 1];
      assert |value| > CLEN by {
        SomePieces(value[k..]);
      }
    }
  }

  lemma {:induction false} CountIs(value: Bytes)
    ensures |ChunksOf(value)| == NumOps(|value|) && IsChunkCount(value, NumOps(|value|))
  {
    ChunksSplit(value);
  }

  lemma {:induction false} OpAt(key: Bytes, chunks: seq<Bytes>, replicated: bool, i: nat)
    requires |key| <= MAX_KEY && i < |chunks| && i < MAX_OPS
    ensures var op := OpsOf(key, chunks, replicated)[i];
            && op.Set? && op.replicated == replicated && op.value == chunks[i]
            && |op.key| == 2 + |key| && op.key[0] == i / 256 && op.key[1] == i % 256 && op.key[2..] == key
  {
    TwoIndexBytes(i);
  }

  /** What `set` sends: one write per chunk, each with the flag for replication, or an error and nothing. */
  lemma {:induction false} SetRequests(replicated: bool, key: Bytes, value: Bytes)
    ensures SetOps(replicated, key, value) == KeyTooLong <==> |key| > 6
    ensures SetOps(replicated, key, value) == ValueTooLong <==> |key| <= 6 && |value| > ChunkStart(65536)
    ensures var b := SetOps(replicated, key, value);
            b.Built? ==> IsChunkCount(value, |b.ops|)
                         && forall i :: 0 <= i < |b.ops| ==> Writes(b.ops[i], key, i, [], value, replicated)
  {
    hide ChunksOf, OpsOf;
    CountIs(value);
    TooLongIff(|value|);
    var b := SetOps(replicated, key, value);
    if b.Built? {
      forall i | 0 <= i < |b.ops|
        ensures Writes(b.ops[i], key, i, [], value, replicated)
      {
        OpAt(key, ChunksOf(value), replicated, i);
        ChunkAt(value, i);
      }
    }
  }

  /** The requests of one value of a batch: not replicated, the first with the number of the later ones in front. */
  lemma {:induction false} CountedRequests(key: Bytes, value: Bytes, i: nat)
    requires |key| <= MAX_KEY && NumOps(|value|) <= MAX_OPS && i < NumOps(|value|)
    ensures var ops := OpsOf(key, Counted(value), false); var later := |ops| - 1;
            && IsChunkCount(value, |ops|) && i < |ops|
            && Writes(ops[i], key, i, if i == 0 then [later / 256, later % 256] else [], value, false)
  {
    hide ChunksOf, OpsOf, NumOps;
    CountIs(value);
    OpAt(key, Counted(value), false, i);
    ChunkAt(value, i);
    TwoIndexBytes(NumOps(|value|) - 1);
  }

  function Chained(parts: seq<seq<Op>>): (ops: seq<Op>) {
    if parts == [] then [] else parts[0] + Chained(parts[1..])
  }

  ghost predicate ValueAt(ops: seq<Op>, key: Bytes, value: Bytes) {
    var later := |ops| - 1;
    && IsChunkCount(value, |ops|)
    && forall i :: 0 <= i < |ops| ==>
         Writes(ops[i], key, i, if i == 0 then [later / 256 % 256, later % 256] else [], value, false)
  }

  /** What `BatchSet` sends: the requests of one value after those of another, in the order of the keys. */
  lemma {:induction false} BatchRequests(keys: seq<Bytes>, values: seq<Bytes>, before: seq<Op>)
    returns (parts: seq<seq<Op>>)
    requires |keys| <= |values| && BatchOps(keys, values, before).Built?
    ensures BatchOps(keys, values, before).ops == before + Chained(parts)
    ensures |parts| == |keys| && forall q :: 0 <= q < |keys| ==> ValueAt(parts[q], keys[q], values[q])
    decreases |keys|
  {
    hide NumOps, OpsOf, Counted, ValueAt;
    if keys == [] {
      parts := [];
    } else {
      var ops := OpsOf(keys[0], Counted(values[0]), false);
      var rest := BatchRequests(keys[1..], values[1..], before + ops);
      parts := [ops] + rest;
      assert parts[1..] == rest;
      assert before + ops + Chained(rest) == before + (ops + Chained(rest));
      assert ValueAt(ops, keys[0], values[0]) by {
        ValueOps(keys[0], values[0]);
      }
    }
  }

  lemma {:induction false} ValueOps(key: Bytes, value: Bytes)
    requires |key| <= MAX_KEY && NumOps(|value|) <= MAX_OPS
    ensures ValueAt(OpsOf(key, Counted(value), false), key, value)
  {
    hide NumOps, OpsOf, Counted, ChunksOf, Writes, IsChunkCount;
    var ops := OpsOf(key, Counted(value), false);
    CountedLength(value);
    CountedRequests(key, value, 0);
    forall i | 0 <= i < |ops|
      ensures Writes(ops[i], key, i, if i == 0 then [(|ops| - 1) / 256 % 256, (|ops| - 1) % 256] else [], value, false)
    {
      CountedRequests(key, value, i);
    }
  }

  lemma {:induction false} CountedLength(value: Bytes)
    ensures |Counted(value)| == NumOps(|value|)
  {
    CountIs(value);
  }

  /** A batch fails if and only if some key or value cannot be stored; the first such pair decides how. */
  lemma {:induction false} BatchFailsWhere(keys: seq<Bytes>, values: seq<Bytes>, before: seq<Op>) returns (q: nat)
    requires |keys| <= |values|
    ensures q <= |keys| && (q == |keys| <==> BatchOps(keys, values, before).Built?)
    ensures forall p :: 0 <= p < q ==> |keys[p]| <= 6 && |values[p]| <= ChunkStart(65536)
    ensures q < |keys| ==>
              if |keys[q]| > 6 then BatchOps(keys, values, before) == KeyTooLong
              else |values[q]| > ChunkStart(65536) && BatchOps(keys, values, before) == ValueTooLong
    decreases |keys|
  {
    hide NumOps, OpsOf, Counted;
    q := 0;
    if keys != [] {
      TooLongIff(|values[0]|);
      if |keys[0]| <= MAX_KEY && NumOps(|values[0]|) <= MAX_OPS {
        var r := BatchFailsWhere(keys[1..], values[1..], before + OpsOf(keys[0], Counted(values[0]), false));
        q := r + 1;
        forall p | 0 <= p < q
          ensures |keys[p]| <= 6 && |values[p]| <= ChunkStart(65536)
        {
          if p > 0 {
            assert keys[p] == keys[1..][p - 1] && values[p] == values[1..][p - 1];
          }
        }
      }
    }
  }

  /** The requests of `Delete`: one for each of the `n` chunk keys. */
  lemma {:induction false} DeleteRequests(key: Bytes, n: nat, i: nat)
    requires |key| <= 6 && i < n <= 65536
    ensures |DeleteOps(key, n)| == n
    ensures var op := DeleteOps(key, n)[i];
            op.Delete? && |op.key| == 2 + |key| && op.key[0] == i / 256 && op.key[1] == i % 256 && op.key[2..] == key
  {
    TwoIndexBytes(i);
  }

  // ----- arrays -----

  /** The key of element `i` of an array; 0 is the directory. */
  function ElementKey(i: nat, key: Bytes): (k: Bytes) {
    [i / 65536 % 256, i / 256 % 256, i % 256] + key
  }

  lemma {:induction false} ThreeIndexBytes(i: nat)
    ensures IndexBytes(i, ARR_IDX_LEN) == [i / 65536 % 256, i / 256 % 256, i % 256]
  {
    assert IndexBytes(i / 256, 2) == IndexBytes(i / 256 / 256, 1) + [i / 256 % 256];
    assert IndexBytes(i / 256 / 256, 1) == IndexBytes(i / 256 / 256 / 256, 0) + [i / 256 / 256 % 256];
    assert i / 256 / 256 == i / 65536;
  }

  /** The requests of `ArraySetN`: for element `a` what `set` sends for it under the key of index `a + 1`, and for the
      directory under that of index 0 the indices 1, 2, 3, ... in three bytes each. */
  lemma {:induction false} ElementRequests(key: Bytes, vls: seq<Bytes>, a: nat, i: nat)
    requires |key| <= 3 && a <= |vls|
    ensures var job := JobsOf(vls)[a];
            && (job.value == if a < |vls| then vls[a] else Dir(|vls|))
            && (JobOps(key, job) == [] <==> |job.value| > ChunkStart(65536))
            && (JobOps(key, job) != [] ==> IsChunkCount(job.value, |JobOps(key, job)|))
            && (i < |JobOps(key, job)| ==>
                  Writes(JobOps(key, job)[i], ElementKey(if a < |vls| then a + 1 else 0, key), i, [], job.value, false))
  {
    hide Dir, OpsOf, ChunksOf, NumOps;
    var job := JobsOf(vls)[a];
    ThreeIndexBytes(job.index);
    CountIs(job.value);
    TooLongIff(|job.value|);
    if i < |JobOps(key, job)| {
      OpAt(ElementKey(job.index, key), ChunksOf(job.value), false, i);
      ChunkAt(job.value, i);
    }
  }

  lemma {:induction false} DirectoryBytes(n: nat, k: nat)
    requires k < n
    ensures |Dir(n)| == 3 * n
    ensures Dir(n)[3 * k] == (k + 1) / 65536 % 256 && Dir(n)[3 * k + 1] == (k + 1) / 256 % 256
    ensures Dir(n)[3 * k + 2] == (k + 1) % 256
  {
    hide Dir;
    DirAt(n, k);
    ThreeIndexBytes(k + 1);
    var three := Dir(n)[3 * k..3 * k + 3];
    assert Dir(n)[3 * k] == three[0] && Dir(n)[3 * k + 1] == three[1] && Dir(n)[3 * k + 2] == three[2];
  }
}
