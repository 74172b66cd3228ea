/** The store after values were written in chunks, and what reading and deleting find there. */
module ChunkStore {
  import opened Arithmetic
  import opened ColumnPages
  import opened BulkGet
  import opened Chunks

  // ----- the order of writes -----

  /** Only writes, and never two different values for one key. */
  predicate Consistent(ops: seq<Op>) {
    && (forall a :: a in ops ==> a.Set?)
    && (forall a, b :: a in ops && b in ops && Word(a.key) == Word(b.key) ==> a.value == b.value)
  }

  predicate Touches(ops: seq<Op>, w: Bytes) {
    exists op :: op in ops && Word(op.key) == w
  }

  lemma {:induction false} Untouched(store: Store, ops: seq<Op>, w: Bytes)
    requires !Touches(ops, w)
    ensures w in DoAll(store, ops) <==> w in store
    ensures w in store ==> DoAll(store, ops)[w] == store[w]
    decreases |ops|
  {
    if ops != [] {
      var last := ops[|ops| - 1];
      assert last in ops && forall op :: op in ops[..|ops| - 1] ==> op in ops;
      Untouched(store, ops[..|ops| - 1], w);
    }
  }

  lemma {:induction false} Written(store: Store, ops: seq<Op>, op: Op)
    requires Consistent(ops) && op in ops
    ensures Word(op.key) in DoAll(store, ops) && DoAll(store, ops)[Word(op.key)] == op.value
    decreases |ops|
  {
    var before, last := ops[..|ops| - 1], ops[|ops| - 1];
    assert ops == before + [last] && last in ops && forall a :: a in before ==> a in ops;
    if op in before && Word(op.key) != Word(last.key) {
      Written(store, before, op);
    }
  }

  /** Writes may come in any order, and repeatedly. */
  lemma {:induction false} AnyOrder(store: Store, a: seq<Op>, b: seq<Op>)
    requires Consistent(a) && forall op :: op in a <==> op in b
    ensures DoAll(store, a) == DoAll(store, b)
  {
    hide DoAll, Word;
    assert Consistent(b);
    var s, t := DoAll(store, a), DoAll(store, b);
    forall w
      ensures (w in s <==> w in t) && (w in s ==> s[w] == t[w])
    {
      if op :| op in a && Word(op.key) == w {
        Written(store, a, op);
        Written(store, b, op);
      } else {
        assert !Touches(a, w) && !Touches(b, w);
        Untouched(store, a, w);
        Untouched(store, b, w);
      }
    }
  }

  // ----- one value -----

  lemma {:induction false} OpsAre(key: Bytes, chunks: seq<Bytes>, replicated: bool, i: nat)
    requires |key| <= MAX_KEY && i < |chunks|
    ensures OpsOf(key, chunks, replicated)[i] == Set(KeyOf(i, key), chunks[i], replicated)
  {
  }

  lemma {:induction false} OpsConsistent(key: Bytes, chunks: seq<Bytes>, replicated: bool)
    requires |key| <= MAX_KEY && |chunks| <= MAX_OPS
    ensures Consistent(OpsOf(key, chunks, replicated))
  {
    hide KeyOf, Word;
    var ops := OpsOf(key, chunks, replicated);
    forall a, b | a in ops && b in ops && Word(a.key) == Word(b.key)
      ensures a.value == b.value
    {
      var i :| 0 <= i < |ops| && ops[i] == a;
      var j :| 0 <= j < |ops| && ops[j] == b;
      WordsEqualIff(i, key, j, key);
    }
  }

  /** Every chunk is found under its own key. */
  lemma {:induction false} ChunkStored(store: Store, key: Bytes, chunks: seq<Bytes>, replicated: bool, i: nat)
    requires |key| <= MAX_KEY && |chunks| <= MAX_OPS && i < |chunks|
    ensures var s := DoAll(store, OpsOf(key, chunks, replicated)); var w := Word(KeyOf(i, key));
            w in s && s[w] == chunks[i]
  {
    hide KeyOf, Word, DoAll;
    var ops := OpsOf(key, chunks, replicated);
    OpsConsistent(key, chunks, replicated);
    assert ops[i] in ops;
    Written(store, ops, ops[i]);
  }

  /** Reading back a value that was set brings all of it exactly when it is not empty and fits the
      first chunk; otherwise only the first chunk. */
  lemma {:induction false} GetAfterSetIff(store: Store, key: Bytes, value: Bytes, replicated: bool)
    requires SetOps(replicated, key, value).Built?
    ensures var r := Get(DoAll(store, SetOps(replicated, key, value).ops), key);
            && r == Fetch(value)
            && (r == Some(value) <==> 1 <= |value| <= CLEN)
  {
    ChunksSplit(value);
    FirstPieces(value);
    hide KeyOf, Word, DoAll, ChunksOf, NumOps;
    ChunkStored(store, key, ChunksOf(value), replicated, 0);
    var k := Min(|value|, CLEN);
    assert value[..k][..k] == value[..k];
    assert |value| <= CLEN ==> value[..k] == value;
  }

  // ----- deleting -----

  function ChunkWords(key: Bytes, n: nat): (ws: set<Bytes>)
    requires |key| <= MAX_KEY
    ensures forall i :: 0 <= i < n ==> Word(KeyOf(i, key)) in ws
    ensures forall w :: w in ws ==> exists i :: 0 <= i < n && w == Word(KeyOf(i, key))
  {
    if n == 0 then {} else ChunkWords(key, n - 1) + {Word(KeyOf(n - 1, key))}
  }

  lemma {:induction false} DeletesRemove(store: Store, key: Bytes, n: nat)
    requires |key| <= MAX_KEY
    ensures DoAll(store, DeleteOps(key, n)) == store - ChunkWords(key, n)
    decreases n
  {
    hide KeyOf, Word, DoAll, DeleteOps, ChunkWords;
    if n == 0 {
      NoDeletes(store, key);
    } else {
      DeletesRemove(store, key, n - 1);
      DeleteLast(store, key, n);
      var ws, w := ChunkWords(key, n - 1), Word(KeyOf(n - 1, key));
      LastChunkWord(key, n);
      RemoveTwice(store, ws, w);
    }
  }

  lemma {:induction false} NoDeletes(store: Store, key: Bytes)
    requires |key| <= MAX_KEY
    ensures DoAll(store, DeleteOps(key, 0)) == store - ChunkWords(key, 0)
  {
  }

  lemma {:induction false} DeleteLast(store: Store, key: Bytes, n: nat)
    requires |key| <= MAX_KEY && n > 0
    ensures DoAll(store, DeleteOps(key, n)) == DoAll(store, DeleteOps(key, n - 1)) - {Word(KeyOf(n - 1, key))}
  {
    hide KeyOf, Word;
    assert DeleteOps(key, n)[..n - 1] == DeleteOps(key, n - 1);
  }

  lemma {:induction false} LastChunkWord(key: Bytes, n: nat)
    requires |key| <= MAX_KEY && n > 0
    ensures ChunkWords(key, n) == ChunkWords(key, n - 1) + {Word(KeyOf(n - 1, key))}
  {
    hide KeyOf, Word;
  }

  lemma {:induction false} RemoveTwice(store: Store, ws: set<Bytes>, w: Bytes)
    ensures store - ws - {w} == store - (ws + {w})
  {
  }

  /** `Short`: the value found has no two bytes to take the number of chunks from. */
  datatype Deleted = Gone(store: Store) | NotFound | Short | BadKey

  function Count(v: Bytes): (n: nat)
    requires |v| >= 2
  {
    var high: nat, low: nat := v[0], v[1];
    256 * high + low
  }

  function DeleteFrom(store: Store, key: Bytes): (d: Deleted) {
    if |key| > MAX_KEY then BadKey
    else
      match Get(store, key)
      case None => NotFound
      case Some(v) => if |v| < 2 then Short else Gone(DoAll(store, DeleteOps(key, Count(v) + 1)))
  }

  lemma {:induction false} CountReadBack(n: nat, rest: Bytes)
    requires n < MAX_OPS
    ensures var v := IndexBytes(n, IDX_LEN) + rest; |v| >= 2 && Count(v) == n
  {
    TwoIndexBytes(n);
  }

  lemma {:induction false} TouchesChunkWord(key: Bytes, chunks: seq<Bytes>, replicated: bool, w: Bytes)
    requires |key| <= MAX_KEY
    ensures Touches(OpsOf(key, chunks, replicated), w) ==> w in ChunkWords(key, |chunks|)
  {
    hide KeyOf, Word;
    var ops := OpsOf(key, chunks, replicated);
    if Touches(ops, w) {
      var op :| op in ops && Word(op.key) == w;
      var i :| 0 <= i < |ops| && ops[i] == op;
      assert Word(KeyOf(i, key)) in ChunkWords(key, |chunks|);
    }
  }

  lemma {:induction false} RemovesNothingIff(store: Store, ws: set<Bytes>)
    ensures store - ws == store <==> forall w :: w in ws ==> w !in store
  {
    if forall w :: w in ws ==> w !in store {
      assert (store - ws).Keys == store.Keys;
    } else {
      var w :| w in ws && w in store;
      assert w !in store - ws;
    }
  }

  /** Writing a batch value only touches the keys of its chunks. */
  lemma {:induction false} OnlyChunkWords(store: Store, key: Bytes, chunks: seq<Bytes>, replicated: bool)
    requires |key| <= MAX_KEY
    ensures DoAll(store, OpsOf(key, chunks, replicated)) - ChunkWords(key, |chunks|)
          == store - ChunkWords(key, |chunks|)
  {
    hide KeyOf, Word, DoAll;
    var ops, ws := OpsOf(key, chunks, replicated), ChunkWords(key, |chunks|);
    var s := DoAll(store, ops);
    forall w | w !in ws
      ensures (w in s <==> w in store) && (w in s ==> s[w] == store[w])
    {
      TouchesChunkWord(key, chunks, replicated, w);
      Untouched(store, ops, w);
    }
  }

  lemma {:induction false} CountedFirst(value: Bytes)
    requires NumOps(|value|) <= MAX_OPS
    ensures |Counted(value)| == NumOps(|value|)
    ensures Counted(value)[0] == IndexBytes(NumOps(|value|) - 1, IDX_LEN) + value[..Min(|value|, CLEN)]
    ensures forall i :: 1 <= i < |Counted(value)| ==> Counted(value)[i] == ChunksOf(value)[i]
  {
    ChunksSplit(value);
    FirstPieces(value);
  }

  lemma {:induction false} FetchCount(n: nat, first: Bytes)
    requires n < MAX_OPS && |first| <= CLEN
    ensures var r := Fetch(IndexBytes(n, IDX_LEN) + first);
            r.Some? && |r.value| >= 2 && Count(r.value) == n
  {
    CountReadBack(n, first);
  }

  /** Deleting after a batch write takes away the chunks of the value and nothing else: the store is
      the one from before exactly when it held nothing under those keys. */
  lemma {:induction false} DeleteAfterBatch(store: Store, key: Bytes, value: Bytes)
    requires |key| <= MAX_KEY && NumOps(|value|) <= MAX_OPS
    ensures var s := DoAll(store, OpsOf(key, Counted(value), false)); var ws := ChunkWords(key, NumOps(|value|));
            && DeleteFrom(s, key) == Gone(store - ws)
            && (DeleteFrom(s, key) == Gone(store) <==>
                  forall i :: 0 <= i < NumOps(|value|) ==> Word(KeyOf(i, key)) !in store)
  {
    hide KeyOf, Word, DoAll, ChunksOf, IndexBytes, Counted, DeleteOps, OpsOf, NumOps, Fetch;
    var n, ws := NumOps(|value|), ChunkWords(key, NumOps(|value|));
    var s := DoAll(store, OpsOf(key, Counted(value), false));
    CountedFirst(value);
    AtLeastOne(|value|);
    ChunkStored(store, key, Counted(value), false, 0);
    FetchCount(n - 1, value[..Min(|value|, CLEN)]);
    DeletesRemove(s, key, n);
    OnlyChunkWords(store, key, Counted(value), false);
    assert DeleteFrom(s, key) == Gone(store - ws);
    RemovesNothingIff(store, ws);
    assert forall i :: 0 <= i < n ==> Word(KeyOf(i, key)) in ws;
  }

  lemma {:induction false} AtLeastOne(n: nat)
    ensures NumOps(n) >= 1
  {
  }

  // ----- a batch of values -----

  /** No two keys differ only in zeros at the end. */
  predicate KeysDiffer(keys: seq<Bytes>) {
    && (forall i :: 0 <= i < |keys| ==> |keys[i]| <= MAX_KEY)
    && (forall i, j :: 0 <= i < j < |keys| ==> Fill(keys[i]) != Fill(keys[j]))
  }

  lemma {:induction false} BatchJoins(keys: seq<Bytes>, values: seq<Bytes>, before: seq<Op>)
    requires |keys| <= |values|
    ensures var b, c := BatchOps(keys, values, before), BatchOps(keys, values, []);
            && b.Built? == c.Built? && (b.Built? ==> b.ops == before + c.ops)
    decreases |keys|
  {
    hide OpsOf, Counted, NumOps;
    if keys == [] {
      assert before + [] == before;
    } else if |keys[0]| <= MAX_KEY && NumOps(|values[0]|) <= MAX_OPS {
      var first := OpsOf(keys[0], Counted(values[0]), false);
      BatchJoins(keys[1..], values[1..], before + first);
      BatchJoins(keys[1..], values[1..], first);
      assert [] + first == first;
      var c := BatchOps(keys[1..], values[1..], []);
      if c.Built? {
        assert before + first + c.ops == before + (first + c.ops);
      }
    }
  }

  /** A batch writes all chunks of all its values, under keys of their own. */
  lemma {:induction false} BatchStores(store: Store, keys: seq<Bytes>, values: seq<Bytes>, i: nat, j: nat)
    requires |keys| <= |values| && KeysDiffer(keys) && BatchOps(keys, values, []).Built?
    requires i < |keys| && NumOps(|values[i]|) <= MAX_OPS && j < NumOps(|values[i]|)
    ensures j < |Counted(values[i])|
    ensures var s := DoAll(store, BatchOps(keys, values, []).ops); var w := Word(KeyOf(j, keys[i]));
            w in s && s[w] == Counted(values[i])[j]
    decreases |keys|
  {
    hide OpsOf, Counted, NumOps, KeyOf, Word, DoAll, Fill, BatchOps;
    CountedFirst(values[i]);
    BatchStep(keys, values);
    var first := OpsOf(keys[0], Counted(values[0]), false);
    var rest := BatchOps(keys[1..], values[1..], []).ops;
    DoJoins(store, first, rest);
    var w := Word(KeyOf(j, keys[i]));
    if i > 0 {
      assert KeysDiffer(keys[1..]);
      BatchStores(DoAll(store, first), keys[1..], values[1..], i - 1, j);
    } else {
      CountedFirst(values[0]);
      ChunkStored(store, keys[0], Counted(values[0]), false, j);
      assert KeysDiffer(keys[1..]);
      assert forall k :: 0 <= k < |keys[1..]| ==> Fill(keys[1..][k]) == Fill(keys[k + 1]) != Fill(keys[0]);
      BatchAvoids(keys[1..], values[1..], keys[0], j);
      Untouched(DoAll(store, first), rest, w);
    }
  }

  lemma {:induction false} BatchStep(keys: seq<Bytes>, values: seq<Bytes>)
    requires 0 < |keys| <= |values| && BatchOps(keys, values, []).Built?
    ensures |keys[0]| <= MAX_KEY && NumOps(|values[0]|) <= MAX_OPS && BatchOps(keys[1..], values[1..], []).Built?
    ensures BatchOps(keys, values, []).ops
          == OpsOf(keys[0], Counted(values[0]), false) + BatchOps(keys[1..], values[1..], []).ops
  {
    hide OpsOf, Counted, NumOps;
    var first := OpsOf(keys[0], Counted(values[0]), false);
    assert [] + first == first;
    BatchJoins(keys[1..], values[1..], first);
  }

  /** The chunks of other keys leave this key's chunks alone. */
  lemma {:induction false} BatchAvoids(keys: seq<Bytes>, values: seq<Bytes>, key: Bytes, j: nat)
    requires |keys| <= |values| && KeysDiffer(keys) && BatchOps(keys, values, []).Built?
    requires |key| <= MAX_KEY && j < MAX_OPS && forall k :: 0 <= k < |keys| ==> Fill(keys[k]) != Fill(key)
    ensures !Touches(BatchOps(keys, values, []).ops, Word(KeyOf(j, key)))
    decreases |keys|
  {
    hide OpsOf, Counted, NumOps, KeyOf, Word, Fill, BatchOps;
    if keys == [] {
      NoBatch(values);
    } else {
      BatchStep(keys, values);
      assert KeysDiffer(keys[1..]);
      assert forall k :: 0 <= k < |keys[1..]| ==> keys[1..][k] == keys[k + 1];
      BatchAvoids(keys[1..], values[1..], key, j);
      CountedFirst(values[0]);
      OpsAvoid(keys[0], Counted(values[0]), key, j);
    }
  }

  lemma {:induction false} NoBatch(values: seq<Bytes>)
    ensures BatchOps([], values, []) == Built([])
  {
  }

  lemma {:induction false} OpsAvoid(other: Bytes, chunks: seq<Bytes>, key: Bytes, j: nat)
    requires |other| <= MAX_KEY && |key| <= MAX_KEY && |chunks| <= MAX_OPS && j < MAX_OPS && Fill(other) != Fill(key)
    ensures !Touches(OpsOf(other, chunks, false), Word(KeyOf(j, key)))
  {
    hide KeyOf, Word, Fill;
    var ops := OpsOf(other, chunks, false);
    if Touches(ops, Word(KeyOf(j, key))) {
      var op :| op in ops && Word(op.key) == Word(KeyOf(j, key));
      var i :| 0 <= i < |ops| && ops[i] == op;
      WordsEqualIff(i, other, j, key);
      assert false;
    }
  }

  // ----- the client -----

  datatype Outcome = Ok | KeyError | TooLong

  class Client {
    /** What the store holds, under its eight-byte keys. */
    var store: Store

    constructor (store: Store)
      ensures this.store == store
    {
      this.store := store;
    }

    method SetValue(replicated: bool, key: Bytes, value: Bytes) returns (o: Outcome)
      modifies this
      ensures match SetOps(replicated, key, value)
              case Built(ops) => o == Ok && store == DoAll(old(store), ops)
              case KeyTooLong => o == KeyError && store == old(store)
              case ValueTooLong => o == TooLong && store == old(store)
    {
      var b := BuildSet(replicated, key, value);
      match b {
        case Built(ops) =>
          store := DoAll(store, ops);
          o := Ok;
        case KeyTooLong => o := KeyError;
        case ValueTooLong => o := TooLong;
      }
    }

    method BatchSet(keys: seq<Bytes>, values: seq<Bytes>) returns (o: Outcome)
      requires |keys| <= |values|
      modifies this
      ensures match BatchOps(keys, values, [])
              case Built(ops) => o == Ok && store == DoAll(old(store), ops)
              case KeyTooLong => o == KeyError && store == old(store)
              case ValueTooLong => o == TooLong && store == old(store)
    {
      var b := BuildBatch(keys, values);
      match b {
        case Built(ops) =>
          store := DoAll(store, ops);
          o := Ok;
        case KeyTooLong => o := KeyError;
        case ValueTooLong => o := TooLong;
      }
    }

    method DeleteValue(key: Bytes) returns (d: Deleted)
      modifies this
      ensures d == DeleteFrom(old(store), key) && store == if d.Gone? then d.store else old(store)
    {
      if |key| > MAX_KEY {
        return BadKey;
      }
      var result := Get(store, key);
      if result.None? {
        return NotFound;
      }
      if |result.value| < 2 {
        return Short;
      }
      var numOps := Count(result.value) + 1;
      var ops := BuildDelete(key, numOps);
      store := DoAll(store, ops);
      d := Gone(store);
    }
  }
}
