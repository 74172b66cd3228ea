/** What `GetBulkN` sends and what it makes of the replies, send by send. */
module BulkReplies {
  import opened Arithmetic
  import opened ColumnPages
  import opened BulkGet

  /** The bytes of every request: two zero bytes and the key; a condition unless it is a plain read, whose first byte
      asks for decompression and whose second asks for rotation. */
  lemma {:induction false} RequestBytes(keys: seq<Bytes>, getCondNo: nat, decompress: bool, i: nat)
    requires i < |keys|
    ensures var r := Requests(keys, getCondNo, decompress)[i];
            && |r.key| == 2 + |keys[i]| && r.key[0] == 0 && r.key[1] == 0 && r.key[2..] == keys[i]
            && (r.condition == None <==> !decompress && i >= getCondNo)
            && (r.condition.Some? ==>
                  && |r.condition.value| == 2
                  && (r.condition.value[0] == if decompress then 1 else 0)
                  && (r.condition.value[1] == if i < getCondNo then 0xFF else 0))
  {
    RequestAt(keys, getCondNo, decompress, i);
  }

  /** Where the send that starts with request `b` ends. */
  function SendEnd(total: nat, n: nat, b: nat): (e: nat) {
    if b + n <= total then b + n else total
  }

  /** The send that starts with request `b`. */
  function Batch(rs: seq<Request>, n: nat, b: nat): (batch: seq<Request>)
    requires b <= |rs|
  {
    rs[b..SendEnd(|rs|, n, b)]
  }

  /** That send brought a reply to every request. */
  ghost predicate Complete(rs: seq<Request>, n: nat, serve: seq<Request> -> Reply, b: nat)
    requires b <= |rs|
  {
    var reply := serve(Batch(rs, n, b));
    reply.Replies? && forall j :: 0 <= j < |reply.values| ==> reply.values[j].Some?
  }

  lemma {:induction false} BatchOfRest(rs: seq<Request>, n: nat, b: nat)
    requires n <= |rs| && b <= |rs| - n
    ensures Batch(rs[n..], n, b) == Batch(rs, n, b + n)
  {
  }

  lemma {:induction false} StartOfRest(n: nat, i: nat)
    requires 0 < n <= i
    ensures i - i % n == (i - n) - (i - n) % n + n && i % n <= i - n
  {
    RemainderIs(i, n, (i - n) / n + 1, (i - n) % n);
    assert i - n == n * ((i - n) / n) + (i - n) % n;
    assert n * ((i - n) / n + 1) == n * ((i - n) / n) + n;
  }

  /** When all is well, result `i` is the reply to request `i` in the send that holds it: at its own place there. */
  lemma {:induction false} ResultIsReply(rs: seq<Request>, n: nat, serve: seq<Request> -> Reply, i: nat)
    requires n > 0 && Answers(serve) && Sends(rs, n, serve).Values? && i < |rs|
    ensures |Sends(rs, n, serve).values| == |rs| && i % n <= i
    ensures var b := i - i % n; var reply := serve(Batch(rs, n, b));
            && reply.Replies? && i - b < |reply.values|
            && reply.values[i - b] == Some(Sends(rs, n, serve).values[i])
    decreases |rs|
  {
    hide Answers, FirstMissing;
    var m := Min(n, |rs|);
    assert Batch(rs, n, 0) == rs[..m];
    var values := serve(rs[..m]).values;
    FirstSend(rs, n, serve);
    assert |serve(rs[..m]).values| == |rs[..m]| by {
      AnswersEach(serve, rs[..m]);
    }
    var later := Sends(rs[m..], n, serve).values;
    assert Sends(rs, n, serve).values == Present(values) + later;
    if i < m {
      SmallRemainder(i, n);
      LengthOfRest(rs[m..], n, serve);
    } else {
      ResultIsReply(rs[m..], n, serve, i - m);
      StartOfRest(n, i);
      BatchOfRest(rs, n, (i - n) - (i - n) % n);
    }
  }

  lemma {:induction false} AnswersEach(serve: seq<Request> -> Reply, rs: seq<Request>)
    requires Answers(serve) && serve(rs).Replies?
    ensures |serve(rs).values| == |rs|
  {
  }

  lemma {:induction false} SmallRemainder(i: nat, n: nat)
    requires i < n
    ensures i % n == i
  {
  }

  lemma {:induction false} LengthOfRest(rs: seq<Request>, n: nat, serve: seq<Request> -> Reply)
    requires n > 0 && Answers(serve) && Sends(rs, n, serve).Values?
    ensures |Sends(rs, n, serve).values| == |rs|
    decreases |rs|
  {
    hide Present, FirstMissing, Answers;
    if rs != [] {
      var m := Min(n, |rs|);
      FirstSend(rs, n, serve);
      AnswersEach(serve, rs[..m]);
      LengthOfRest(rs[m..], n, serve);
    }
  }

  lemma {:induction false} FirstSend(rs: seq<Request>, n: nat, serve: seq<Request> -> Reply)
    requires n > 0 && Answers(serve) && rs != [] && Sends(rs, n, serve).Values?
    ensures var m := Min(n, |rs|); var reply := serve(rs[..m]);
            && reply.Replies? && FirstMissing(reply.values) == |reply.values| && Sends(rs[m..], n, serve).Values?
            && Sends(rs, n, serve).values == Present(reply.values) + Sends(rs[m..], n, serve).values
  {
    hide Answers, Present;
  }

  /** When the call fails: at the first send that is broken or lacks a reply, and the error names its first request
      without one. */
  lemma {:induction false} FailsWhere(rs: seq<Request>, n: nat, serve: seq<Request> -> Reply) returns (b: nat)
    requires n > 0 && Answers(serve) && !Sends(rs, n, serve).Values?
    ensures b < |rs| && b % n == 0 && !Complete(rs, n, serve, b)
    ensures forall a :: 0 <= a < b && a % n == 0 ==> Complete(rs, n, serve, a)
    ensures match serve(Batch(rs, n, b))
            case NetworkError => Sends(rs, n, serve) == SendFailed
            case Replies(values) =>
              exists j :: 0 <= j < |values| && values[j].None? && (forall k :: 0 <= k < j ==> values[k].Some?)
                          && b + j < |rs| && Sends(rs, n, serve) == Corrupted(rs[b + j].key)
    decreases |rs|
  {
    hide Answers, Present;
    var m := Min(n, |rs|);
    assert Batch(rs, n, 0) == rs[..m];
    b := 0;
    if serve(rs[..m]).Replies? {
      var values := serve(rs[..m]).values;
      AnswersEach(serve, rs[..m]);
      var j := FirstMissing(values);
      if j == |values| {
        assert Complete(rs, n, serve, 0);
        var later := FailsWhere(rs[m..], n, serve);
        b := FailsLater(rs, n, serve, later);
      } else {
        FailsAtOnce(rs, n, serve);
      }
    }
  }

  lemma {:induction false} FailsAtOnce(rs: seq<Request>, n: nat, serve: seq<Request> -> Reply)
    requires n > 0 && Answers(serve) && rs != []
    requires var reply := serve(rs[..Min(n, |rs|)]); reply.Replies? && FirstMissing(reply.values) < |reply.values|
    ensures var values := serve(rs[..Min(n, |rs|)]).values;
            exists j :: 0 <= j < |values| && values[j].None? && (forall k :: 0 <= k < j ==> values[k].Some?)
                        && 0 + j < |rs| && Sends(rs, n, serve) == Corrupted(rs[0 + j].key)
  {
    hide Answers, Present;
    var m := Min(n, |rs|);
    AnswersEach(serve, rs[..m]);
    var j := FirstMissing(serve(rs[..m]).values);
    assert rs[..m][j] == rs[j];
    assert serve(rs[..m]).values[j].None? && 0 + j < |rs|;
  }

  lemma {:induction false} FailsLater(rs: seq<Request>, n: nat, serve: seq<Request> -> Reply, later: nat)
    returns (b: nat)
    requires 0 < n < |rs| && later < |rs| - n && later % n == 0 && Complete(rs, n, serve, 0)
    requires forall a :: 0 <= a < later && a % n == 0 ==> Complete(rs[n..], n, serve, a)
    ensures b == later + n && b % n == 0 && Batch(rs, n, b) == Batch(rs[n..], n, later)
    ensures forall a :: 0 <= a < b && a % n == 0 ==> Complete(rs, n, serve, a)
  {
    hide Complete;
    b := later + n;
    NextStart(later, n);
    BatchOfRest(rs, n, later);
    forall a | 0 <= a < b && a % n == 0
      ensures Complete(rs, n, serve, a)
    {
      if a >= n {
        StartOfRest(n, a);
        assert (a - n) % n == 0;
        CompleteRest(rs, n, serve, a - n);
      } else {
        SmallRemainder(a, n);
      }
    }
  }

  lemma {:induction false} CompleteRest(rs: seq<Request>, n: nat, serve: seq<Request> -> Reply, a: nat)
    requires n <= |rs| && a <= |rs| - n && Complete(rs[n..], n, serve, a)
    ensures Complete(rs, n, serve, a + n)
  {
    BatchOfRest(rs, n, a);
  }

  lemma {:induction false} NextStart(b: nat, n: nat)
    requires n > 0 && b % n == 0
    ensures (b + n) % n == 0
  {
    assert b == n * (b / n) && n * (b / n + 1) == n * (b / n) + n;
    RemainderIs(b + n, n, b / n + 1, 0);
  }
}
