/** Reading many keys in bulk sends of `n` requests (basic_ops.go, `GetBulkN`). */
module BulkGet {
  import opened Arithmetic
  import opened ColumnPages

  type Bytes = seq<Byte>

  const GROUP: nat := 3

  datatype Option<T> = None | Some(value: T)

  /** `condition` is the parameter of a conditional read; a plain read has none. */
  datatype Request = Request(key: Bytes, condition: Option<Bytes>)

  /** The second byte of the condition asks for rotation together with the neighbours. */
  predicate Perturbed(r: Request) {
    r.condition.Some? && |r.condition.value| == 2 && r.condition.value[1] == 0xFF
  }

  /** Two zero bytes of chunk index in front of the key. */
  function InitKey(key: Bytes): (k: Bytes) {
    [0, 0] + key
  }

  function RequestOf(key: Bytes, perturbed: bool, decompress: bool): (r: Request) {
    if decompress then Request(InitKey(key), Some([1, if perturbed then 0xFF else 0]))
    else if perturbed then Request(InitKey(key), Some([0, 0xFF]))
    else Request(InitKey(key), None)
  }

  /** The requests for the keys: the first `getCondNo` are perturbed. */
  function Requests(keys: seq<Bytes>, getCondNo: nat, decompress: bool): (rs: seq<Request>)
    ensures |rs| == |keys|
  {
    seq(|keys|, i requires 0 <= i < |keys| => RequestOf(keys[i], i < getCondNo, decompress))
  }

  /** What a bulk send brings back: one reply per request, or a broken connection. */
  datatype Reply = Replies(values: seq<Option<Bytes>>) | NetworkError

  datatype Results = Values(values: seq<Bytes>) | SendFailed | Corrupted(key: Bytes) | BadArguments | Panic

  /** The server answers every request of a bulk. */
  ghost predicate Answers(serve: seq<Request> -> Reply) {
    forall rs :: serve(rs).Replies? ==> |serve(rs).values| == |rs|
  }

  /** The index of the first missing reply, or the number of replies. */
  function FirstMissing(values: seq<Option<Bytes>>): (i: nat)
    ensures i <= |values| && (i < |values| ==> values[i].None?) && forall j :: 0 <= j < i ==> values[j].Some?
  {
    if values == [] || values[0].None? then 0 else 1 + FirstMissing(values[1..])
  }

  function Present(values: seq<Option<Bytes>>): (vs: seq<Bytes>)
    requires FirstMissing(values) == |values|
    ensures |vs| == |values|
  {
    seq(|values|, i requires 0 <= i < |values| && FirstMissing(values) == |values| => values[i].value)
  }

  /** Sends of `n` requests, the last one with what is left. */
  ghost function Sends(rs: seq<Request>, n: nat, serve: seq<Request> -> Reply): (o: Results)
    requires n > 0 && Answers(serve)
    decreases |rs|
  {
    if rs == [] then Values([])
    else
      var m := Min(n, |rs|);
      match serve(rs[..m])
      case NetworkError => SendFailed
      case Replies(values) =>
        var i := FirstMissing(values);
        if i < |values| then Corrupted(rs[i].key)
        else
          match Sends(rs[m..], n, serve)
          case Values(more) => Values(Present(values) + more)
          case SendFailed => SendFailed
          case Corrupted(key) => Corrupted(key)
          case BadArguments => BadArguments
          case Panic => Panic
  }

  // ----- the code -----

  /** Copies the replies of one send behind the results so far. */
  method Collect(rqs: seq<Request>, values: seq<Option<Bytes>>, results: array<Bytes>, start: nat)
    returns (bad: Option<Bytes>)
    requires |rqs| == |values| && start + |values| <= results.Length
    modifies results
    ensures var i := FirstMissing(values);
            if i < |values| then bad == Some(rqs[i].key)
            else bad == None && results[..start + |values|] == old(results[..start]) + Present(values)
                 && results[start + |values|..] == old(results[start + |values|..])
  {
    bad := None;
    for j := 0 to |values|
      invariant forall k :: 0 <= k < j ==> values[k].Some? && results[start + k] == values[k].value
      invariant forall k :: 0 <= k < results.Length && !(start <= k < start + j) ==> results[k] == old(results[k])
    {
      if values[j].None? {
        MissingIs(values, j);
        return Some(rqs[j].key);
      }
      results[start + j] := values[j].value;
    }
    MissingIs(values, |values|);
  }

  lemma {:induction false} MissingIs(values: seq<Option<Bytes>>, i: nat)
    requires i <= |values| && (i < |values| ==> values[i].None?) && forall j :: 0 <= j < i ==> values[j].Some?
    ensures FirstMissing(values) == i
  {
    var m := FirstMissing(values);
    if m < i || i < m {
      assert false;
    }
  }

  function PrependValues(done: seq<Bytes>, o: Results): (o': Results) {
    match o
    case Values(more) => Values(done + more)
    case SendFailed => SendFailed
    case Corrupted(key) => Corrupted(key)
    case BadArguments => BadArguments
    case Panic => Panic
  }

  lemma {:induction false} SendStep(rs: seq<Request>, n: nat, serve: seq<Request> -> Reply, done: seq<Bytes>, k: nat)
    requires n > 0 && Answers(serve) && k < |rs|
    ensures var m := Min(n, |rs| - k); var o := PrependValues(done, Sends(rs[k..], n, serve));
            match serve(rs[k..k + m])
            case NetworkError => o == SendFailed
            case Replies(values) =>
              |values| == m
              && var i := FirstMissing(values);
              if i < m then o == Corrupted(rs[k + i].key)
              else o == PrependValues(done + Present(values), Sends(rs[k + m..], n, serve))
  {
    hide Present, FirstMissing;
    var m := Min(n, |rs| - k);
    assert rs[k..][..m] == rs[k..k + m] && rs[k..][m..] == rs[k + m..];
    var reply := serve(rs[k..k + m]);
    if reply.Replies? && FirstMissing(reply.values) == |reply.values| {
      PrependTwice(done, Present(reply.values), Sends(rs[k + m..], n, serve));
    }
  }

  lemma {:induction false} PrependTwice(a: seq<Bytes>, b: seq<Bytes>, o: Results)
    ensures PrependValues(a, PrependValues(b, o)) == PrependValues(a + b, o)
  {
    match o
    case Values(more) => assert a + (b + more) == a + b + more;
    case SendFailed =>
    case Corrupted(key) =>
    case BadArguments =>
    case Panic =>
  }

  lemma {:induction false} BatchStart(i: nat, n: nat)
    requires n > 0
    ensures (i + 1) % n == if i % n == n - 1 then 0 else i % n + 1
  {
    var q := i / n;
    assert i == n * q + i % n;
    if i % n == n - 1 {
      assert i + 1 == n * (q + 1) + 0;
      RemainderIs(i + 1, n, q + 1, 0);
    } else {
      RemainderIs(i + 1, n, q, i % n + 1);
    }
  }

  /** One send: the replies go behind the results so far, or the call ends. */
  method SendBulk(batch: seq<Request>, ghost rs: seq<Request>, ghost n: nat, serve: seq<Request> -> Reply,
        results: array<Bytes>, k: nat)
    returns (end: Option<Results>)
    requires n > 0 && Answers(serve) && k < |rs| == results.Length && batch == rs[k..k + Min(n, |rs| - k)]
    modifies results
    ensures var o := PrependValues(old(results[..k]), Sends(rs[k..], n, serve)); var m := |batch|;
            if end.Some? then end.value == o else o == PrependValues(results[..k + m], Sends(rs[k + m..], n, serve))
  {
    hide Sends, PrependValues, Present, FirstMissing;
    SendStep(rs, n, serve, results[..k], k);
    var reply := serve(batch);
    match reply {
      case NetworkError => end := Some(SendFailed);
      case Replies(values) =>
        var bad := Collect(batch, values, results, k);
        end := if bad.Some? then Some(Corrupted(bad.value)) else None;
    }
  }

  lemma {:induction false} RequestAt(keys: seq<Bytes>, getCondNo: nat, decompress: bool, i: nat)
    requires i < |keys|
    ensures Requests(keys, getCondNo, decompress)[i] == RequestOf(keys[i], i < getCondNo, decompress)
  {
  }

  lemma {:induction false} FullSend(rs: seq<Request>, n: nat, k: nat)
    requires k + n <= |rs|
    ensures Min(n, |rs| - k) == n
  {
  }

  lemma {:induction false} LastSend(rs: seq<Request>, n: nat, k: nat)
    requires k <= |rs| < k + n
    ensures Min(n, |rs| - k) == |rs| - k
  {
  }

  /** The slot of request `i`. */
  function SlotOf(i: nat, n: nat): (at: nat)
    requires n > 0
    ensures at < n
  {
    i % n
  }

  lemma {:induction false} SlotAfter(i: nat, n: nat)
    requires n > 0
    ensures SlotOf(0, n) == 0 && SlotOf(i + 1, n) == if SlotOf(i, n) == n - 1 then 0 else SlotOf(i, n) + 1
  {
    BatchStart(i, n);
  }

  method FillSlot(rqs: array<Request>, at: nat, r: Request)
    requires at < rqs.Length
    modifies rqs
    ensures rqs[..at + 1] == old(rqs[..at]) + [r]
  {
    rqs[at] := r;
  }

  /** Requests up to `i` are in their slots, those before `k` have been sent, and `whole` is still to come. */
  ghost predicate Underway(rqs: seq<Request>, results: seq<Bytes>, all: seq<Request>, n: nat,
        serve: seq<Request> -> Reply, whole: Results, k: nat, i: nat)
    requires n > 0 && Answers(serve)
  {
    && k <= i <= |all| == |results| && |rqs| == n && SlotOf(i, n) == i - k && rqs[..i - k] == all[k..i]
    && whole == PrependValues(results[..k], Sends(all[k..], n, serve))
  }

  /** One turn of the loop: the request goes to its slot, and a full set of slots is sent. */
  method SendSlot(r: Request, i: nat, n: nat, serve: seq<Request> -> Reply, rqs: array<Request>,
        results: array<Bytes>, ghost all: seq<Request>, ghost whole: Results, ghost k: nat)
    returns (end: Option<Results>, ghost k': nat)
    requires n > 0 && Answers(serve) && i < |all| && r == all[i]
    requires Underway(rqs[..], results[..], all, n, serve, whole, k, i)
    modifies rqs, results
    ensures if end.Some? then end.value == whole else Underway(rqs[..], results[..], all, n, serve, whole, k', i + 1)
  {
    hide SlotOf, Sends, PrependValues, Answers, Min;
    end, k' := None, k;
    ghost var before := results[..];
    SlotAfter(i, n);
    FillSlot(rqs, SlotOf(i, n), r);
    assert all[k..i + 1] == all[k..i] + [all[i]];
    if SlotOf(i + 1, n) == 0 {
      assert rqs[..n] == rqs[..];
      FullSend(all, n, k);
      end := SendBulk(rqs[..], all, n, serve, results, i - n + 1);
      k' := i + 1;
      assert rqs[..0] == all[k'..k'];
    } else {
      assert results[..] == before;
    }
  }

  /** The slots that are not full at the end, if any. */
  method SendLeft(n: nat, serve: seq<Request> -> Reply, rqs: array<Request>, results: array<Bytes>,
        ghost all: seq<Request>, ghost whole: Results, ghost k: nat)
    returns (o: Results)
    requires n > 0 && Answers(serve) && Underway(rqs[..], results[..], all, n, serve, whole, k, |all|)
    modifies results
    ensures o == whole
  {
    hide SlotOf, Sends, PrependValues, Answers, Min;
    var left := SlotOf(results.Length, n);
    assert rqs[..left] == all[k..];
    if left != 0 {
      LastSend(all, n, k);
      var end := SendBulk(rqs[..left], all, n, serve, results, results.Length - left);
      if end.Some? {
        return end.value;
      }
    }
    assert all[|all|..] == [];
    NothingLeft(results[..], n, serve);
    assert results[..results.Length] == results[..];
    o := Values(results[..]);
  }

  method SendAll(keys: seq<Bytes>, getCondNo: nat, decompress: bool, n: nat, serve: seq<Request> -> Reply)
    returns (o: Results)
    requires n > 0 && Answers(serve)
    ensures o == Sends(Requests(keys, getCondNo, decompress), n, serve)
  {
    hide SlotOf, Sends, PrependValues, Answers, Min, Underway, Requests, RequestOf;
    ghost var all := Requests(keys, getCondNo, decompress);
    ghost var whole := Sends(all, n, serve);
    var results := new Bytes[|keys|](_ => []);
    var rqs := new Request[n](_ => Request([], None));
    ghost var k := 0;
    StartsUnderway(rqs[..], results[..], all, n, serve);
    for i := 0 to |keys|
      invariant Underway(rqs[..], results[..], all, n, serve, whole, k, i)
    {
      RequestAt(keys, getCondNo, decompress, i);
      var end;
      end, k := SendSlot(RequestOf(keys[i], i < getCondNo, decompress), i, n, serve, rqs, results, all, whole, k);
      if end.Some? {
        return end.value;
      }
    }
    o := SendLeft(n, serve, rqs, results, all, whole, k);
  }

  lemma {:induction false} StartsUnderway(rqs: seq<Request>, results: seq<Bytes>, all: seq<Request>, n: nat,
        serve: seq<Request> -> Reply)
    requires n > 0 && Answers(serve) && |rqs| == n && |results| == |all|
    ensures Underway(rqs, results, all, n, serve, Sends(all, n, serve), 0, 0)
  {
    hide SlotOf, Sends, PrependValues, Answers;
    NothingYet(all, n, serve);
    SlotAfter(0, n);
    assert results[..0] == [] && all[0..] == all && rqs[..0] == all[0..0];
  }

  method GetBulkN(keys: seq<Bytes>, getCondNo: nat, getNo: nat, decompress: bool, n: int, serve: seq<Request> -> Reply)
    returns (o: Results)
    requires |keys| == getCondNo + getNo && Answers(serve)
    ensures o == if getCondNo % GROUP != 0 || n % GROUP != 0 then BadArguments
                 else if n <= 0 then Panic
                 else Sends(Requests(keys, getCondNo, decompress), n, serve)
  {
    if getCondNo % GROUP != 0 || n % GROUP != 0 {
      return BadArguments;
    }
    if n <= 0 {
      return Panic;
    }
    o := SendAll(keys, getCondNo, decompress, n, serve);
  }

  lemma {:induction false} NothingYet(rs: seq<Request>, n: nat, serve: seq<Request> -> Reply)
    requires n > 0 && Answers(serve)
    ensures PrependValues([], Sends(rs, n, serve)) == Sends(rs, n, serve)
  {
    match Sends(rs, n, serve)
    case Values(more) => assert [] + more == more;
    case SendFailed =>
    case Corrupted(key) =>
    case BadArguments =>
    case Panic =>
  }

  lemma {:induction false} NothingLeft(done: seq<Bytes>, n: nat, serve: seq<Request> -> Reply)
    requires n > 0 && Answers(serve)
    ensures PrependValues(done, Sends([], n, serve)) == Values(done)
  {
    assert done + [] == done;
  }

  // ----- no triplet is split -----

  /** A server that answers one request at a time, and three perturbed requests in a row together;
      fewer than three cannot be rotated. */
  datatype Server = Server(single: Request -> Bytes, rotate: (Request, Request, Request) -> (Bytes, Bytes, Bytes))

  function Serve(s: Server, rs: seq<Request>): (values: seq<Option<Bytes>>)
    ensures |values| == |rs|
    decreases |rs|
  {
    if rs == [] then []
    else if !Perturbed(rs[0]) then [Some(s.single(rs[0]))] + Serve(s, rs[1..])
    else if |rs| >= 3 && Perturbed(rs[1]) && Perturbed(rs[2]) then
      var (a, b, c) := s.rotate(rs[0], rs[1], rs[2]);
      [Some(a), Some(b), Some(c)] + Serve(s, rs[3..])
    else [None] + Serve(s, rs[1..])
  }

  /** The first `c` requests are perturbed, the others are not. */
  predicate PerturbedFirst(rs: seq<Request>, c: nat) {
    c <= |rs| && (forall i :: 0 <= i < c ==> Perturbed(rs[i])) && (forall i :: c <= i < |rs| ==> !Perturbed(rs[i]))
  }

  /** Behind a multiple of three requests the server starts afresh. */
  lemma {:induction false} ServeSplits(s: Server, rs: seq<Request>, c: nat, m: nat)
    requires PerturbedFirst(rs, c) && c % 3 == 0 && m <= |rs| && (m % 3 == 0 || m == |rs|)
    ensures Serve(s, rs) == Serve(s, rs[..m]) + Serve(s, rs[m..])
    decreases |rs|
  {
    if m == 0 {
      assert rs[..0] == [] && rs[0..] == rs;
    } else if m == |rs| {
      assert rs[..m] == rs && rs[m..] == [];
    } else if c == 0 {
      SingleSplits(s, rs, m);
    } else {
      hide Serve, Perturbed;
      var tail := rs[3..];
      assert PerturbedFirst(tail, c - 3);
      assert Perturbed(rs[0]) && Perturbed(rs[1]) && Perturbed(rs[2]);
      ServeSplits(s, tail, c - 3, m - 3);
      TripletSplits(s, rs, m);
    }
  }

  lemma {:induction false} TripletSplits(s: Server, rs: seq<Request>, m: nat)
    requires 3 <= m <= |rs| && Perturbed(rs[0]) && Perturbed(rs[1]) && Perturbed(rs[2])
    requires Serve(s, rs[3..]) == Serve(s, rs[3..][..m - 3]) + Serve(s, rs[3..][m - 3..])
    ensures Serve(s, rs) == Serve(s, rs[..m]) + Serve(s, rs[m..])
  {
    hide *;
    ServeTriplet(s, rs);
    ServeTriplet(s, rs[..m]);
    assert rs[..m][3..] == rs[3..][..m - 3] && rs[m..] == rs[3..][m - 3..];
  }

  lemma {:induction false} ServeTriplet(s: Server, rs: seq<Request>)
    requires |rs| >= 3 && Perturbed(rs[0]) && Perturbed(rs[1]) && Perturbed(rs[2])
    ensures var t := s.rotate(rs[0], rs[1], rs[2]);
            Serve(s, rs) == [Some(t.0), Some(t.1), Some(t.2)] + Serve(s, rs[3..])
  {
  }

  lemma {:induction false} SingleSplits(s: Server, rs: seq<Request>, m: nat)
    requires PerturbedFirst(rs, 0) && m <= |rs|
    ensures Serve(s, rs) == Serve(s, rs[..m]) + Serve(s, rs[m..])
    decreases |rs|
  {
    if m == 0 {
      assert rs[..0] == [] && rs[0..] == rs;
    } else {
      var tail := rs[1..];
      assert PerturbedFirst(tail, 0);
      SingleSplits(s, tail, m - 1);
      assert rs[..m][1..] == tail[..m - 1] && rs[m..] == tail[m - 1..];
    }
  }

  lemma {:induction false} ServeAnswersAll(s: Server, rs: seq<Request>, c: nat)
    requires PerturbedFirst(rs, c) && c % 3 == 0
    ensures FirstMissing(Serve(s, rs)) == |rs|
    decreases |rs|
  {
    if rs != [] {
      if c == 0 {
        assert PerturbedFirst(rs[1..], 0);
        ServeAnswersAll(s, rs[1..], 0);
        MissingIs(Serve(s, rs), |rs|);
      } else {
        assert PerturbedFirst(rs[3..], c - 3);
        ServeAnswersAll(s, rs[3..], c - 3);
        assert Perturbed(rs[0]) && Perturbed(rs[1]) && Perturbed(rs[2]);
        MissingIs(Serve(s, rs), |rs|);
      }
    }
  }

  function Replier(s: Server): (serve: seq<Request> -> Reply) {
    (rs: seq<Request>) => Replies(Serve(s, rs))
  }

  lemma {:induction false} PresentJoins(a: seq<Option<Bytes>>, b: seq<Option<Bytes>>)
    requires FirstMissing(a) == |a| && FirstMissing(b) == |b|
    ensures FirstMissing(a + b) == |a + b| && Present(a + b) == Present(a) + Present(b)
  {
    MissingIs(a + b, |a + b|);
  }

  lemma {:induction false} PerturbedParts(rs: seq<Request>, c: nat, m: nat)
    requires PerturbedFirst(rs, c) && m <= |rs|
    ensures PerturbedFirst(rs[..m], Min(c, m)) && PerturbedFirst(rs[m..], if c >= m then c - m else 0)
  {
  }

  lemma {:induction false} MultipleOfThree(c: nat, m: nat, length: nat)
    requires c % 3 == 0 && c <= length && m <= length && (m % 3 == 0 || m == length)
    ensures Min(c, m) % 3 == 0 && (if c >= m then c - m else 0) % 3 == 0
  {
  }

  /** In sends of a multiple of three, every triplet of perturbed requests stays together: the
      replies are those of one send of everything, whatever the size of a send. */
  lemma {:induction false} SendsAreOne(s: Server, rs: seq<Request>, c: nat, n: nat)
    requires n > 0 && n % 3 == 0 && PerturbedFirst(rs, c) && c % 3 == 0
    ensures Answers(Replier(s)) && FirstMissing(Serve(s, rs)) == |rs|
    ensures Sends(rs, n, Replier(s)) == Values(Present(Serve(s, rs)))
    decreases |rs|
  {
    hide Serve, Present, FirstMissing, PerturbedFirst;
    ServeAnswersAll(s, rs, c);
    if rs == [] {
      NothingServed(s);
    } else {
      var m := Min(n, |rs|);
      PerturbedParts(rs, c, m);
      MultipleOfThree(c, m, |rs|);
      ServeAnswersAll(s, rs[..m], Min(c, m));
      SendsAreOne(s, rs[m..], if c >= m then c - m else 0, n);
      ServeSplits(s, rs, c, m);
      PresentJoins(Serve(s, rs[..m]), Serve(s, rs[m..]));
    }
  }

  lemma {:induction false} NothingServed(s: Server)
    ensures FirstMissing(Serve(s, [])) == 0 && Present(Serve(s, [])) == []
  {
  }

  lemma {:induction false} RequestsPerturbedFirst(keys: seq<Bytes>, getCondNo: nat, decompress: bool)
    requires getCondNo <= |keys|
    ensures PerturbedFirst(Requests(keys, getCondNo, decompress), getCondNo)
  {
  }

  /** `GetBulkN` brings back, key by key, what one send of all requests would. */
  lemma {:induction false} BulkSizeDoesNotMatter(s: Server, keys: seq<Bytes>, getCondNo: nat, decompress: bool, n: nat)
    requires n > 0 && n % 3 == 0 && getCondNo % 3 == 0 && getCondNo <= |keys|
    ensures var rs := Requests(keys, getCondNo, decompress);
            && Answers(Replier(s)) && FirstMissing(Serve(s, rs)) == |keys|
            && Sends(rs, n, Replier(s)) == Values(Present(Serve(s, rs)))
  {
    RequestsPerturbedFirst(keys, getCondNo, decompress);
    SendsAreOne(s, Requests(keys, getCondNo, decompress), getCondNo, n);
  }

  lemma {:induction false} ServeFirst(s: Server, rs: seq<Request>)
    requires rs != [] && !Perturbed(rs[0])
    ensures Serve(s, rs) == [Some(s.single(rs[0]))] + Serve(s, rs[1..])
  {
  }

  /** The reply at place `i`: to request `i` alone, or with the two others of its triplet. */
  lemma {:induction false} ReplyAt(s: Server, rs: seq<Request>, c: nat, i: nat)
    requires PerturbedFirst(rs, c) && c % 3 == 0 && i < |rs|
    ensures var g := i / 3 * 3;
            if i >= c then Serve(s, rs)[i] == Some(s.single(rs[i]))
            else g + 2 < |rs| && var t := s.rotate(rs[g], rs[g + 1], rs[g + 2]);
                 Serve(s, rs)[i] == Some(if i % 3 == 0 then t.0 else if i % 3 == 1 then t.1 else t.2)
    decreases |rs|
  {
    hide Perturbed, Serve;
    if c == 0 {
      assert !Perturbed(rs[0]);
      ServeFirst(s, rs);
      if i > 0 {
        assert PerturbedFirst(rs[1..], 0);
        ReplyAt(s, rs[1..], 0, i - 1);
      }
    } else {
      assert Perturbed(rs[0]) && Perturbed(rs[1]) && Perturbed(rs[2]);
      ServeTriplet(s, rs);
      if i >= 3 {
        assert PerturbedFirst(rs[3..], c - 3);
        ReplyAt(s, rs[3..], c - 3, i - 3);
        assert (i - 3) / 3 * 3 + 3 == i / 3 * 3 && (i - 3) % 3 == i % 3;
      }
    }
  }
}
