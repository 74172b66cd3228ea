/** Writes without a payload: copying their null payload into a proposal fails before anything is sent. */
module ClusterWrites {
  import opened Requests
  import opened NodeProtocol
  import opened ClusterModel
  import opened ClusterSafety
  import opened ClusterTheorems
  import Wire

  predicate IsEmptyWrite(c: Cluster, e: Event) {
    e.Write? && e.target == c.leaderId && e.req.payload == []
  }

  /** At the leader a write fails if and only if it has no payload; if it fails, nothing has happened,
      and if not, its connection waits for the next zxid, which every peer has been proposed with the payload. */
  lemma {:induction false} WriteThrowsIff(n: NodeState, r: Request, source: Channel, opens: Connection)
    requires n.Valid() && n.iAmLeader && r.opcode == OPCODE_WRITEREQ
    ensures var o := Step(n, r, source, opens);
            && (o.thrown <==> r.payload == [])
            && (o.thrown ==> o.node == n && o.out == [])
            && (!o.thrown ==>
                  && n.myZxid + 1 in o.node.rsock && o.node.rsock[n.myZxid + 1] == source
                  && forall x :: 0 <= x < PEERS && n.sockets[x] ==>
                       ToPeer(x, Request(OPCODE_PROPOSAL, n.myId, n.myZxid + 1, n.myEpoch, r.payload)) in o.out)
  {
  }

  /** Sixteen bytes that are such a write. */
  lemma {:induction false} SixteenBytesThrow(n: NodeState, source: Channel, opens: Connection)
    requires n.Valid() && n.iAmLeader
    ensures var r := Request(OPCODE_WRITEREQ, 0, 0, 0, []);
            && |Wire.Encode(r)| == 16 && Wire.Parse(Wire.Encode(r)) == Wire.Parsed(r, 16)
            && Step(n, r, source, opens) == Outcome(n, [], true)
  {
    var r := Request(OPCODE_WRITEREQ, 0, 0, 0, []);
    Wire.RoundTripIff(r, []);
    assert Wire.Encode(r) + [] == Wire.Encode(r);
  }

  lemma {:induction false} EmptyWriteIsLost(c: Cluster, e: Event)
    requires Configured(c) && Enabled(c, e) && IsEmptyWrite(c, e)
    ensures Handle(c, e).thrown && Apply(c, e) == c
  {
    LeaderStep(c.leader, e.req, e.channel);
    assert c.log + [] == c.log;
  }

  /** The run without the writes that fail. */
  function Proposed(c: Cluster, es: seq<Event>): (ds: seq<Event>) {
    if es == [] then []
    else
      var rest := Proposed(c, es[1..]);
      if IsEmptyWrite(c, es[0]) then rest else [es[0]] + rest
  }

  lemma {:induction false} SameLeaderSameProposed(c: Cluster, d: Cluster, es: seq<Event>)
    requires c.leaderId == d.leaderId
    ensures Proposed(c, es) == Proposed(d, es)
  {
    if es != [] {
      SameLeaderSameProposed(c, d, es[1..]);
    }
  }

  /** Writes without payload might as well not be there: leaving them out is a run to the same cluster. */
  lemma {:induction false} EmptyWritesDropOut(c: Cluster, es: seq<Event>)
    requires Inv(c) && IsRun(c, es)
    ensures IsRun(c, Proposed(c, es)) && Run(c, Proposed(c, es)) == Run(c, es)
    decreases |es|
  {
    hide Apply, Enabled, Tables, Numbered, Quorums, Histories;
    if es != [] {
      var c1 := Apply(c, es[0]);
      EventKeepsInv(c, es[0]);
      EmptyWritesDropOut(c1, es[1..]);
      SameLeader(c, es[0]);
      SameLeaderSameProposed(c, c1, es[1..]);
      if IsEmptyWrite(c, es[0]) {
        EmptyWriteIsLost(c, es[0]);
      } else {
        assert Proposed(c, es)[1..] == Proposed(c, es[1..]);
      }
    }
  }

  lemma {:induction false} SameLeader(c: Cluster, e: Event)
    requires AllValid(c) && Enabled(c, e)
    ensures Apply(c, e).leaderId == c.leaderId
  {
  }

  /** From rest, a zxid above the leader's is proposed if and only if some write had a payload. */
  lemma {:induction false} ProposedIff(c: Cluster, es: seq<Event>, p: int)
    requires Inv(c) && Converged(c) && IsRun(c, es) && p in c.followers.Keys
    ensures LeaderWrites(c, es) > 0
       <==> exists o :: o in Run(c, es).log && o.ToPeer? && o.req.opcode == OPCODE_PROPOSAL
                        && o.req.zxid > c.leader.myZxid
  {
    hide IsRun, Run, Tables, Numbered, Quorums, Histories, LeaderWrites;
    if LeaderWrites(c, es) > 0 {
      var o := WriteIsProposed(c, es, p);
    } else {
      WritesBoundZxid(c, es, c.leader.myZxid);
    }
  }
}
