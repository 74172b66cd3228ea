/** Requests out of a stream of bytes that arrives in pieces (Node.java, the read loop of `run`). */
module Reassembly {
  import opened Requests
  import opened Wire
  import opened WireRequest

  /** The requests at the front of the bytes and what is left, or the requests before a crash. */
  datatype Stream = Stream(requests: seq<Request>, rest: seq<JByte>) | Broken(requests: seq<Request>)

  function ParseAll(bytes: seq<JByte>): (s: Stream)
    decreases |bytes|
  {
    match Parse(bytes)
    case Nothing => Stream([], bytes)
    case Crash => Broken([])
    case Parsed(r, size) => Prepend([r], ParseAll(bytes[size..]))
  }

  function Prepend(before: seq<Request>, s: Stream): (t: Stream) {
    match s
    case Stream(requests, rest) => Stream(before + requests, rest)
    case Broken(requests) => Broken(before + requests)
  }

  lemma {:induction false} PrependTwice(a: seq<Request>, b: seq<Request>, s: Stream)
    ensures Prepend(a, Prepend(b, s)) == Prepend(a + b, s)
  {
    assert a + (b + s.requests) == a + b + s.requests;
  }

  lemma {:induction false} PrependNone(s: Stream)
    ensures Prepend([], s) == s
  {
    assert [] + s.requests == s.requests;
  }

  /** After one more piece of the stream. */
  function After(s: Stream, piece: seq<JByte>): (t: Stream) {
    match s
    case Broken(requests) => s
    case Stream(requests, rest) => Prepend(requests, ParseAll(rest + piece))
  }

  /** Reading on where the first part stopped is reading both parts at once. */
  lemma {:induction false} SplitAnywhere(a: seq<JByte>, b: seq<JByte>)
    ensures After(ParseAll(a), b) == ParseAll(a + b)
    decreases |a|
  {
    hide Parse;
    match Parse(a) {
      case Nothing => PrependNone(ParseAll(a + b));
      case Crash => ParseIsStable(a, b);
      case Parsed(r, size) =>
        ParseIsStable(a, b);
        SplitAnywhere(a[size..], b);
        assert (a + b)[size..] == a[size..] + b;
        var s := ParseAll(a[size..]);
        if s.Stream? {
          PrependTwice([r], s.requests, ParseAll(s.rest + b));
        }
    }
  }

  function Concat(pieces: seq<seq<JByte>>): (bytes: seq<JByte>) {
    if pieces == [] then [] else pieces[0] + Concat(pieces[1..])
  }

  function AfterAll(s: Stream, pieces: seq<seq<JByte>>): (t: Stream)
    decreases |pieces|
  {
    if pieces == [] then s else AfterAll(After(s, pieces[0]), pieces[1..])
  }

  /** The requests and the leftover depend on the bytes only, not on how they were cut. */
  lemma {:induction false} CutDoesNotMatter(bytes: seq<JByte>, pieces: seq<seq<JByte>>)
    ensures AfterAll(ParseAll(bytes), pieces) == ParseAll(bytes + Concat(pieces))
    decreases |pieces|
  {
    hide ParseAll, After;
    if pieces == [] {
      assert bytes + [] == bytes;
    } else {
      SplitAnywhere(bytes, pieces[0]);
      CutDoesNotMatter(bytes + pieces[0], pieces[1..]);
      assert bytes + Concat(pieces) == bytes + pieces[0] + Concat(pieces[1..]);
    }
  }

  function EncodeAll(rs: seq<Request>): (bytes: seq<JByte>) {
    if rs == [] then [] else Encode(rs[0]) + EncodeAll(rs[1..])
  }

  /** A stream of requests that fit comes back as those requests, with what follows them left over,
      however it was cut. */
  lemma {:induction false} StreamRoundTrip(rs: seq<Request>, tail: seq<JByte>, pieces: seq<seq<JByte>>)
    requires (forall i :: 0 <= i < |rs| ==> Fits(rs[i])) && Parse(tail).Nothing?
    requires Concat(pieces) == EncodeAll(rs) + tail
    ensures AfterAll(Stream([], []), pieces) == Stream(rs, tail)
  {
    hide Parse, Fits, Encode, EncodeAll;
    ParseEncoded(rs, tail);
    NothingInNothing();
    CutDoesNotMatter([], pieces);
    assert [] + Concat(pieces) == Concat(pieces);
  }

  lemma {:induction false} NothingInNothing()
    ensures ParseAll([]) == Stream([], [])
  {
  }

  lemma {:induction false} ParseEncoded(rs: seq<Request>, tail: seq<JByte>)
    requires (forall i :: 0 <= i < |rs| ==> Fits(rs[i])) && Parse(tail).Nothing?
    ensures ParseAll(EncodeAll(rs) + tail) == Stream(rs, tail)
    decreases |rs|
  {
    hide Parse, Fits, Encode;
    if rs == [] {
      assert EncodeAll(rs) + tail == tail;
    } else {
      var more := EncodeAll(rs[1..]) + tail;
      assert EncodeAll(rs) + tail == Encode(rs[0]) + more;
      RoundTripIff(rs[0], more);
      assert (Encode(rs[0]) + more)[HEADER + |rs[0].payload|..] == more;
      ParseEncoded(rs[1..], tail);
      assert [rs[0]] + rs[1..] == rs;
    }
  }

  // ----- the code -----

  class Receiver {
    var bufB: array<JByte>
    var requestQueue: seq<WireRequest>

    /** The queued requests are the ones in `rs`. */
    ghost predicate Queued(rs: seq<Request>)
      reads this, requestQueue, set q | q in requestQueue :: q.data
    {
      |requestQueue| == |rs| && forall i :: 0 <= i < |rs| ==> requestQueue[i].Represents(rs[i])
    }

    constructor ()
      ensures bufB.Length == 0 && requestQueue == [] && Queued([]) && fresh(bufB)
    {
      bufB := new JByte[0];
      requestQueue := [];
    }

    /** The bytes kept from before and the new ones. */
    method Append(buf: seq<JByte>)
      requires buf != []
      modifies this`bufB
      ensures fresh(bufB) && bufB[..] == old(bufB[..]) + buf
    {
      var cnt, kept := |buf|, bufB;
      if kept.Length > 0 {
        var bufX := new JByte[cnt + kept.Length](_ => 0);
        for r := 0 to kept.Length
          invariant bufX[..r] == kept[..r]
        {
          bufX[r] := kept[r];
          assert bufX[..r + 1] == bufX[..r] + [kept[r]];
        }
        assert kept[..kept.Length] == kept[..];
        for r := 0 to cnt
          invariant bufX[..kept.Length + r] == kept[..] + buf[..r]
        {
          bufX[kept.Length + r] := buf[r];
          assert bufX[..kept.Length + r + 1] == bufX[..kept.Length + r] + [buf[r]];
        }
        assert bufX[..] == bufX[..kept.Length + cnt] && buf[..cnt] == buf;
        bufB := bufX;
      } else {
        var bufX := new JByte[cnt](_ => 0);
        for r := 0 to cnt
          invariant bufX[..r] == buf[..r]
        {
          bufX[r] := buf[r];
          assert bufX[..r + 1] == bufX[..r] + [buf[r]];
        }
        assert bufX[..] == bufX[..cnt] && buf[..cnt] == buf && kept[..] == [] && [] + buf == buf;
        bufB := bufX;
      }
    }

    /** Drops the first `processed` bytes. */
    method DropFirst(processed: nat)
      requires processed <= bufB.Length
      modifies this`bufB
      ensures fresh(bufB) && bufB[..] == old(bufB[..])[processed..]
    {
      var cnt, kept := bufB.Length, bufB;
      var bufX := new JByte[cnt - processed](_ => 0);
      for r := processed to cnt
        invariant bufX[..r - processed] == kept[processed..r]
      {
        bufX[r - processed] := kept[r];
        assert bufX[..r - processed + 1] == bufX[..r - processed] + [kept[r]];
      }
      assert bufX[..] == bufX[..cnt - processed] == kept[processed..cnt] == kept[..][processed..];
      bufB := bufX;
    }

    /** Queues the requests that are complete in the buffer. */
    method Drain(ghost rs: seq<Request>) returns (crashed: bool)
      requires Queued(rs)
      modifies this`bufB, this`requestQueue
      ensures var s := Prepend(rs, ParseAll(old(bufB[..])));
              && Queued(s.requests) && crashed == s.Broken?
              && (!crashed ==> bufB[..] == s.rest && Parse(bufB[..]).Nothing?)
    {
      hide Parse, ParseAll, Prepend;
      ghost var whole := Prepend(rs, ParseAll(bufB[..]));
      crashed := false;
      var cnt := bufB.Length;
      ghost var queued := rs;
      while 0 < cnt
        invariant cnt == bufB.Length && Queued(queued)
        invariant whole == Prepend(queued, ParseAll(bufB[..]))
        decreases cnt
      {
        ParseStep(bufB[..], queued);
        var req, crash := ParseRequest(bufB);
        if crash {
          crashed := true;
          return;
        }
        if req == null {
          break;
        }
        ghost var r := Parse(bufB[..]).request;
        Enqueue(req, r, queued);
        queued := queued + [r];
        var processed := HEADER + req.paylSize;
        DropFirst(processed);
        cnt := cnt - processed;
      }
      if cnt == 0 {
        assert bufB[..] == [];
        NothingParsed();
        bufB := new JByte[0];
        assert bufB[..] == [];
      }
      NothingMore(bufB[..], queued);
    }

    method Enqueue(req: WireRequest, ghost r: Request, ghost queued: seq<Request>)
      requires Queued(queued) && req.Represents(r)
      modifies this`requestQueue
      ensures Queued(queued + [r])
    {
      requestQueue := requestQueue + [req];
    }

    /** One read from the connection: all requests that are complete by now are queued. */
    method Receive(buf: seq<JByte>, ghost rs: seq<Request>) returns (crashed: bool)
      requires Queued(rs) && Parse(bufB[..]).Nothing?
      modifies this`bufB, this`requestQueue
      ensures var s := After(Stream(rs, old(bufB[..])), buf);
              && Queued(s.requests) && crashed == s.Broken?
              && (!crashed ==> bufB[..] == s.rest && Parse(bufB[..]).Nothing?)
    {
      hide Parse, ParseAll, Prepend;
      crashed := false;
      if |buf| == 0 {
        assert bufB[..] + buf == bufB[..];
        NothingMore(bufB[..], rs);
      } else {
        Append(buf);
        crashed := Drain(rs);
      }
    }
  }

  lemma {:induction false} NothingParsed()
    ensures Parse([]).Nothing?
  {
  }

  lemma {:induction false} NothingMore(bytes: seq<JByte>, queued: seq<Request>)
    requires Parse(bytes).Nothing?
    ensures Prepend(queued, ParseAll(bytes)) == Stream(queued, bytes)
  {
    assert queued + [] == queued;
  }

  lemma {:induction false} ParseStep(bytes: seq<JByte>, queued: seq<Request>)
    ensures var p := Parse(bytes); var s := Prepend(queued, ParseAll(bytes));
            match p
            case Nothing => true
            case Crash => s == Broken(queued)
            case Parsed(r, size) => s == Prepend(queued + [r], ParseAll(bytes[size..]))
  {
    hide Parse;
    match Parse(bytes) {
      case Nothing =>
      case Crash => assert queued + [] == queued;
      case Parsed(r, size) => PrependTwice(queued, [r], ParseAll(bytes[size..]));
    }
  }
}
