/** Several writes when no message is lost: the order of a proposal and the COMMIT before it decides
    whether the cluster comes to rest. A proposal that overtakes the COMMIT is never acknowledged. */
module ClusterOrder {
  import opened Requests
  import opened NodeProtocol
  import opened ClusterModel
  import opened ClusterSafety
  import opened ClusterTheorems
  import opened ClusterDelivery

  /** Follower `p` is delivered the proposal for `z` while `z` is its next zxid. */
  predicate TakesProposal(c: Cluster, e: Event, p: int, z: int) {
    && e.Deliver? && IsProposalTo(e.packet, p) && e.packet.req.zxid == z
    && p in c.followers && c.followers[p].myZxid == z - 1
  }

  /** That happens in the run. */
  ghost predicate Meets(c: Cluster, es: seq<Event>, p: int, z: int)
    requires AllValid(c) && IsRun(c, es)
    decreases |es|
  {
    es != [] && (TakesProposal(c, es[0], p, z) || Meets(Apply(c, es[0]), es[1..], p, z))
  }

  predicate IsAckOf(o: Output, p: int, z: int) {
    o.ToPeer? && o.req.opcode == OPCODE_ACKPROPOSE && o.req.peerId == p && o.req.zxid == z
  }

  /** Follower `p` has not acknowledged `z`, and the leader has not counted it. */
  predicate Unacked(c: Cluster, p: int, z: int) {
    && (forall o :: o in c.log ==> !IsAckOf(o, p, z))
    && 0 <= p < |c.leader.acked| && c.leader.acked[p] < z
  }

  // ----- without the meeting, no acknowledgement -----

  lemma {:induction false} LeaderSendsNoAck(n: NodeState, r: Request, channel: Channel)
    requires n.Valid() && n.iAmLeader
    requires r.opcode == OPCODE_WRITEREQ || r.opcode == OPCODE_ACKPROPOSE || r.opcode == OPCODE_SYNCREQ
    ensures forall o :: o in Step(n, r, channel, Refused).out ==> o.req.opcode != OPCODE_ACKPROPOSE
  {
  }

  /** The leader's entry grows only by an acknowledgement for exactly the next zxid. */
  lemma {:induction false} LeaderCountsOne(n: NodeState, r: Request, channel: Channel, p: int)
    requires n.Valid() && n.iAmLeader && 0 <= p < PEERS
    requires r.opcode == OPCODE_WRITEREQ || r.opcode == OPCODE_ACKPROPOSE || r.opcode == OPCODE_SYNCREQ
    ensures var acked := Step(n, r, channel, Refused).node.acked;
            |acked| == PEERS && (acked[p] != n.acked[p] ==>
              r.opcode == OPCODE_ACKPROPOSE && r.peerId == p && acked[p] == r.zxid == n.acked[p] + 1)
  {
  }

  lemma {:induction false} FollowerAcks(f: NodeState, r: Request, channel: Channel)
    requires f.Valid() && !f.iAmLeader
    requires r.opcode == OPCODE_WRITEREQ || r.opcode == OPCODE_PROPOSAL || r.opcode == OPCODE_COMMIT
    ensures forall o :: o in Step(f, r, channel, Refused).out && o.req.opcode == OPCODE_ACKPROPOSE ==>
              r.opcode == OPCODE_PROPOSAL && o.req.peerId == f.myId && o.req.zxid == r.zxid == f.myZxid + 1
  {
  }

  lemma {:induction false} StaysUnacked(c: Cluster, e: Event, p: int, z: int)
    requires Inv(c) && Enabled(c, e) && Unacked(c, p, z) && p in c.followers && !TakesProposal(c, e, p, z)
    ensures Unacked(Apply(c, e), p, z)
  {
    hide Step, Tables, Quorums, Histories, Traffic;
    var r, t := Received(e), Target(e);
    var o := Handle(c, e);
    assert Apply(c, e).log == c.log + o.out;
    if t == c.leaderId {
      if e.Deliver? {
        LeaderReceives(c, r);
      }
      LeaderSendsNoAck(c.leader, r, e.channel);
      LeaderCountsOne(c.leader, r, e.channel, p);
      if e.Deliver? {
        assert e.packet in c.log && !IsAckOf(e.packet, p, z);
      }
    } else {
      if e.Deliver? {
        FollowerReceives(c, t, r);
      }
      FollowerAcks(c.followers[t], r, e.channel);
    }
  }

  /** In every run, with losses or without, a follower that does not meet the proposal for `z` in time
      never acknowledges `z`, is never counted for it, and never gets beyond `z - 1`. */
  lemma {:induction false} StaysBehind(c: Cluster, es: seq<Event>, p: int, z: int)
    requires Inv(c) && IsRun(c, es) && p in c.followers && Unacked(c, p, z) && !Meets(c, es, p, z)
    ensures var c' := Run(c, es);
            Unacked(c', p, z) && p in c'.followers && c'.followers[p].myZxid < z
    decreases |es|
  {
    hide Apply, Enabled, Numbered, Quorums, Histories, Unacked, TakesProposal, InStep;
    if es == [] {
      AckedAtLeast(c, p);
      UnackedMeans(c, p, z);
    } else {
      EventKeepsInv(c, es[0]);
      EventNotBehind(c, es[0]);
      assert p in Apply(c, es[0]).followers.Keys;
      StaysUnacked(c, es[0], p, z);
      StaysBehind(Apply(c, es[0]), es[1..], p, z);
    }
  }

  lemma {:induction false} UnackedMeans(c: Cluster, p: int, z: int)
    requires Unacked(c, p, z)
    ensures 0 <= p < |c.leader.acked| && c.leader.acked[p] < z
  {
  }

  /** A proposal that comes before the COMMITs of earlier zxids is answered by a sync request, and forgotten. */
  lemma {:induction false} EarlyProposalIsForgotten(c: Cluster, e: Event, p: int)
    requires Inv(c) && Enabled(c, e) && e.Deliver? && IsProposalTo(e.packet, p) && p in c.followers
    requires e.packet.req.zxid != c.followers[p].myZxid + 1
    ensures Apply(c, e) == c.(log := c.log + [ToPeer(c.leaderId, Request(OPCODE_SYNCREQ, p, 1, 1, []))])
  {
    hide Tables, Quorums, Histories, ProposedToAll;
    assert Traffic(c, e.packet);
    FollowerStep(c.followers[p], e.packet.req, e.channel);
    assert c.followers[p := c.followers[p]] == c.followers;
  }

  // ----- with it, the acknowledgement is counted -----

  /** The moment of the meeting: the cluster before and after it. */
  lemma {:induction false} MeetingSplits(c: Cluster, es: seq<Event>, p: int, z: int)
    returns (before: Cluster, e: Event, after: Cluster)
    requires Inv(c) && IsRun(c, es) && Meets(c, es, p, z)
    ensures Inv(before) && Enabled(before, e) && TakesProposal(before, e, p, z) && after == Apply(before, e)
    ensures NotBehind(c, before) && NotBehind(after, Run(c, es)) && after.log <= Run(c, es).log
    decreases |es|
  {
    hide Apply, Enabled, Tables, Numbered, Quorums, Histories, TakesProposal;
    var c1 := Apply(c, es[0]);
    EventKeepsInv(c, es[0]);
    EventNotBehind(c, es[0]);
    if TakesProposal(c, es[0], p, z) {
      before, e, after := c, es[0], c1;
      RunNotBehind(c, []);
      RunNotBehind(c1, es[1..]);
    } else {
      before, e, after := MeetingSplits(c1, es[1..], p, z);
    }
  }

  lemma {:induction false} MeetingMeans(c: Cluster, e: Event, p: int, z: int)
    requires TakesProposal(c, e, p, z)
    ensures e.Deliver? && IsProposalTo(e.packet, p) && e.packet.req.zxid == z
    ensures p in c.followers && c.followers[p].myZxid == z - 1
  {
  }

  /** In a run without losses, the acknowledgement that the meeting calls forth is counted. */
  lemma {:induction false} MetIsCounted(c: Cluster, es: seq<Event>, p: int, z: int)
    requires Inv(c) && Converged(c) && IsRun(c, es) && FailureFree(c, es) && p in c.followers
    requires z > c.leader.myZxid && Meets(c, es, p, z)
    ensures 0 <= p < PEERS && Run(c, es).leader.acked[p] >= z
  {
    hide FailureFree, IsRun, Run, Apply, Enabled, Tables, Numbered, Quorums, Histories, Delivers, TakesProposal;
    assert 0 <= p < PEERS;
    var s, e, t := MeetingSplits(c, es, p, z);
    MeetingMeans(s, e, p, z);
    var ack := ProposalReaches(s, e, p, z);
    if ack in t.log {
      NewSince(c, ack);
      var s', e', t' := AckDelivery(c, es, p, z, ack);
      DeliveryOf(e', ack);
      AckReaches(s', e', p, z);
    } else {
      EventNotBehind(s, e);
    }
  }

  /** When an acknowledgement is delivered, the one before it has been counted. */
  lemma {:induction false} AckDelivery(c: Cluster, es: seq<Event>, p: int, z: int, ack: Output)
    returns (before: Cluster, e: Event, after: Cluster)
    requires Inv(c) && IsRun(c, es) && FailureFree(c, es) && p in c.followers && 0 <= p < PEERS
    requires IsAckOf(ack, p, z) && ack in Run(c, es).log && ack !in c.log
    ensures Inv(before) && Enabled(before, e) && Delivers(e, ack) && after == Apply(before, e)
    ensures NotBehind(after, Run(c, es)) && before.leaderId == c.leaderId && before.leader.acked[p] >= z - 1
  {
    hide FailureFree, IsRun, Run, Apply, Tables, Quorums, Histories, ProposedToAll, Delivers;
    before, e, after := Delivery(c, es, ack);
    DeliveryOf(e, ack);
    AckComesAfter(before, e, p, z);
  }

  lemma {:induction false} AckComesAfter(c: Cluster, e: Event, p: int, z: int)
    requires Inv(c) && Enabled(c, e) && e.Deliver? && IsAckOf(e.packet, p, z) && 0 <= p < PEERS
    ensures c.leader.acked[p] >= z - 1
  {
    assert Traffic(c, e.packet);
    AckedAtLeast(c, p);
  }

  // ----- when several writes converge -----

  /** Every follower meets every proposal that is new in the run. */
  ghost predicate MeetsAll(c: Cluster, es: seq<Event>)
    requires AllValid(c) && IsRun(c, es)
  {
    forall p, z :: p in c.followers && z > c.leader.myZxid && z in ProposedTo(Run(c, es).log, p) ==> Meets(c, es, p, z)
  }

  lemma {:induction false} LeaderNeverBack(c: Cluster, es: seq<Event>)
    requires Inv(c) && IsRun(c, es)
    ensures c.leader.myZxid <= Run(c, es).leader.myZxid
    decreases |es|
  {
    hide Apply, Enabled, Tables, Numbered, Quorums, Histories, TakesQuorumBranch;
    if es != [] {
      EventKeepsInv(c, es[0]);
      LeaderAdvancesByOne(c, es[0]);
      LeaderNeverBack(Apply(c, es[0]), es[1..]);
    }
  }

  /** At rest no acknowledgement above the leader's zxid has been sent or counted. */
  lemma {:induction false} RestIsUnacked(c: Cluster, p: int, z: int)
    requires Inv(c) && Converged(c) && p in c.followers && z > c.leader.myZxid
    ensures Unacked(c, p, z)
  {
    assert InStep(c, p);
    forall o | o in c.log
      ensures !IsAckOf(o, p, z)
    {
      if IsAckOf(o, p, z) {
        HasFollowers(c, p);
        NothingAhead(c, o);
      }
    }
    if c.leader.acked[p] >= z {
      assert p in SlotsFrom(c.leader.acked, c.leader.myZxid + 1);
      var o := ProposedToMember(c.log, p, c.leader.myZxid + 1);
    }
  }

  lemma {:induction false} HasFollowers(c: Cluster, p: int)
    requires p in c.followers
    ensures |c.followers.Keys| > 0
  {
    if |c.followers.Keys| == 0 {
      assert p in c.followers.Keys;
    }
  }

  lemma {:induction false} AckedAtMost(c: Cluster, p: int)
    requires Configured(c) && Tables(c) && p in c.followers
    ensures 0 <= p < PEERS && c.leader.acked[p] <= c.leader.myZxid + 1
  {
    assert InStep(c, p);
  }

  /** What has been met has no open proposal at the end. */
  lemma {:induction false} NoneOpen(c: Cluster, es: seq<Event>, z: int)
    requires Inv(c) && Converged(c) && |c.followers.Keys| >= 2 && IsRun(c, es) && FailureFree(c, es)
    requires MeetsAll(c, es) && z == Run(c, es).leader.myZxid + 1
    ensures !ProposedToAll(Run(c, es), z)
  {
    hide FailureFree, IsRun, Run, Numbered, Histories, Tables, Meets, Converged;
    var c' := Run(c, es);
    RunKeepsInv(c, es);
    LeaderNeverBack(c, es);
    if ProposedToAll(c', z) {
      forall p | p in c'.followers
        ensures c'.leader.acked[p] == z
      {
        SameKeys(c, es, p);
        AckedAtMost(c', p);
        assert Meets(c, es, p, z);
        MetIsCounted(c, es, p, z);
      }
      SomebodyLags(c');
    }
  }

  lemma {:induction false} SameKeys(c: Cluster, es: seq<Event>, p: int)
    requires AllValid(c) && IsRun(c, es)
    ensures p in Run(c, es).followers <==> p in c.followers
  {
    assert p in Run(c, es).followers <==> p in Run(c, es).followers.Keys;
  }

  /** A COMMIT is delivered to a follower that is one zxid before it, or not before it. */
  lemma {:induction false} CommitArrives(c: Cluster, es: seq<Event>, p: int, z: int)
    requires Inv(c) && Converged(c) && IsRun(c, es) && FailureFree(c, es) && p in c.followers
    requires c.leader.myZxid < z <= Run(c, es).leader.commited[p] && 1 <= z
    ensures p in Run(c, es).followers && Run(c, es).followers[p].myZxid >= z
  {
    hide FailureFree, IsRun, Run, Apply, Enabled, InStep, Numbered, Quorums, Delivers;
    var c' := Run(c, es);
    RunKeepsInv(c, es);
    SameMembers(c, es, p);
    UpToHolds(c'.leader.commited[p], z);
    var commit := CommitsToMember(c'.log, p, z);
    HasFollowers(c, p);
    NewSince(c, commit);
    var s, e, t := Delivery(c, es, commit);
    DeliveryOf(e, commit);
    CommitComesAfter(s, e, p, z);
    CommitReaches(s, e, p, z);
  }

  lemma {:induction false} CommitComesAfter(c: Cluster, e: Event, p: int, z: int)
    requires Inv(c) && Enabled(c, e) && e.Deliver? && IsCommitTo(e.packet, p) && e.packet.req.zxid == z
    requires p in c.followers
    ensures c.followers[p].myZxid >= z - 1
  {
    assert Traffic(c, e.packet) && InStep(c, p);
  }

  lemma {:induction false} MeetingAllConverges(c: Cluster, es: seq<Event>)
    requires Inv(c) && Converged(c) && |c.followers.Keys| >= 2 && IsRun(c, es) && FailureFree(c, es)
    requires MeetsAll(c, es)
    ensures Converged(Run(c, es))
  {
    hide FailureFree, IsRun, Run, Meets, MeetsAll, Quorums, Histories, ProposedToAll;
    var c' := Run(c, es);
    var m := c'.leader.myZxid;
    RunKeepsInv(c, es);
    RunNotBehind(c, es);
    LeaderNeverBack(c, es);
    NoneOpen(c, es, m + 1);
    forall o | o in c'.log && o.ToPeer? && o.req.opcode == OPCODE_PROPOSAL
      ensures o.req.zxid <= m
    {
      assert Traffic(c', o);
    }
    forall p | p in c'.followers
      ensures c'.followers[p].myZxid == m
    {
      SameKeys(c, es, p);
      assert InStep(c', p);
      if m > c.leader.myZxid {
        CommittedIsMet(c, es, p);
        CommitArrives(c, es, p, m);
      }
    }
  }

  /** The leader has told every follower everything it took. */
  lemma {:induction false} CommittedIsMet(c: Cluster, es: seq<Event>, p: int)
    requires Inv(c) && Converged(c) && |c.followers.Keys| >= 2 && IsRun(c, es) && FailureFree(c, es)
    requires MeetsAll(c, es) && p in c.followers && Run(c, es).leader.myZxid > c.leader.myZxid
    ensures 0 <= p < PEERS && Run(c, es).leader.commited[p] >= Run(c, es).leader.myZxid >= 1
  {
    hide FailureFree, IsRun, Run, Meets, Histories, Quorums, Traffic;
    var c' := Run(c, es);
    var m := c'.leader.myZxid;
    RunKeepsInv(c, es);
    SameKeys(c, es, p);
    assert InStep(c, p) && InStep(c', p);
    assert ProposedToAll(c', m);
    assert Meets(c, es, p, m);
    MetIsCounted(c, es, p, m);
    NoneOpen(c, es, m + 1);
    if c'.leader.acked[p] > m {
      assert p in SlotsFrom(c'.leader.acked, m + 1);
    }
  }

  lemma {:induction false} ConvergedMeetsAll(c: Cluster, es: seq<Event>)
    requires Inv(c) && Converged(c) && IsRun(c, es) && Converged(Run(c, es))
    ensures MeetsAll(c, es)
  {
    hide IsRun, Run, Meets, Tables, Numbered, Quorums, Histories;
    var c' := Run(c, es);
    RunKeepsInv(c, es);
    forall p, z | p in c.followers && z > c.leader.myZxid && z in ProposedTo(c'.log, p)
      ensures Meets(c, es, p, z)
    {
      var o := ProposedToMember(c'.log, p, z);
      SameKeys(c, es, p);
      RestIsUnacked(c, p, z);
      if !Meets(c, es, p, z) {
        StaysBehind(c, es, p, z);
      }
    }
  }

  /** With three nodes or more and any number of writes, a run from rest that loses no message comes to
      rest again if and only if every follower is delivered every new proposal while it is its next:
      after the COMMIT of the zxid before. */
  lemma {:induction false} ConvergesIffInOrder(c: Cluster, es: seq<Event>)
    requires Inv(c) && Converged(c) && |c.followers.Keys| >= 2 && IsRun(c, es) && FailureFree(c, es)
    ensures Converged(Run(c, es)) <==> MeetsAll(c, es)
  {
    hide FailureFree, Run, Converged, MeetsAll, Tables, Numbered, Quorums, Histories;
    if MeetsAll(c, es) {
      MeetingAllConverges(c, es);
    }
    if Converged(Run(c, es)) {
      ConvergedMeetsAll(c, es);
    }
  }
}
