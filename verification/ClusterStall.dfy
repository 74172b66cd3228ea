/** A run of two writes that loses no message and does not come to rest: the proposals of the second
    write overtake the COMMITs of the first. */
module ClusterStall {
  import opened Requests
  import opened NodeProtocol
  import opened ClusterModel
  import opened ClusterSafety
  import opened ClusterTheorems
  import opened ClusterDelivery
  import opened ClusterOrder

  lemma {:induction false} WritesJoin(c: Cluster, a: seq<Event>, b: seq<Event>)
    ensures LeaderWrites(c, a + b) == LeaderWrites(c, a) + LeaderWrites(c, b)
    decreases |b|
  {
    if b == [] {
      assert a + b == a;
    } else {
      assert (a + b)[..|a + b| - 1] == a + b[..|b| - 1];
      WritesJoin(c, a, b[..|b| - 1]);
    }
  }

  /** Once delivered, an acknowledgement is counted. */
  lemma {:induction false} DeliveredIsCounted(s: Cluster, es: seq<Event>, p: int, z: int, ack: Output)
    requires Inv(s) && IsRun(s, es) && p in s.followers && IsAckOf(ack, p, z) && ack.peer == s.leaderId
    requires Delivered(es, ack)
    ensures 0 <= p < PEERS && Run(s, es).leader.acked[p] >= z
  {
    hide Apply, Enabled, Tables, Numbered, Quorums, Histories;
    assert 0 <= p < PEERS;
    var d :| d in es && Delivers(d, ack);
    var j :| 0 <= j < |es| && es[j] == d;
    RunSplit(s, es, j);
    var before, e := Run(s, es[..j]), es[j];
    RunKeepsInv(s, es[..j]);
    RunNotBehind(s, es[..j]);
    assert es[j..][0] == e && es[j..][1..] == es[j + 1..];
    AckComesAfter(before, e, p, z);
    AckReaches(before, e, p, z);
    EventKeepsInv(before, e);
    RunNotBehind(Apply(before, e), es[j + 1..]);
  }

  /** The sync request of follower `p`. */
  function SyncFrom(s: Cluster, p: JByte): (o: Output) {
    ToPeer(s.leaderId, Request(OPCODE_SYNCREQ, p, 1, 1, []))
  }

  predicate IsSync(s: Cluster, o: Output, p: int) {
    -128 <= p < 128 && o == SyncFrom(s, p)
  }

  /** Proposals of the leader of `b` that none of the followers `ps` is ready for: each is answered by a
      sync request. */
  lemma {:induction false} DeliverEarly(b: Cluster, s: Cluster, ps: seq<int>, payload: seq<JByte>)
    returns (es: seq<Event>)
    requires Inv(s) && forall p :: p in ps ==>
               p in s.followers && ProposalTo(b, p, payload) in s.log && s.followers[p].myZxid != b.leader.myZxid
    ensures IsRun(s, es) && forall e :: e in es ==> e.Deliver?
    ensures var t := Run(s, es);
            && t == s.(log := t.log) && s.log <= t.log
            && (forall o :: o in t.log && o !in s.log ==> exists p :: p in ps && IsSync(s, o, p))
            && (forall p :: p in ps ==> Delivered(es, ProposalTo(b, p, payload)))
    decreases |ps|
  {
    hide Tables, Numbered, Quorums, Histories, Apply, Enabled, IsRun, Run, Delivered;
    if ps == [] {
      es := [];
      NoRun(s);
    } else {
      var p := ps[0];
      var packet := ProposalTo(b, p, payload);
      var e := Deliver(packet, 0);
      EarlyIsEnabled(s, packet);
      EarlyProposalIsForgotten(s, e, p);
      assert 0 <= p < PEERS;
      var s1 := s.(log := s.log + [SyncFrom(s, p)]);
      EventKeepsInv(s, e);
      var rest := DeliverEarly(b, s1, ps[1..], payload);
      es := [e] + rest;
      RunFirst(s, e, rest);
      forall q | q in ps
        ensures Delivered(es, ProposalTo(b, q, payload))
      {
        assert q == p || q in ps[1..];
        DeliveredFirst(e, rest, ProposalTo(b, q, payload));
      }
      forall o | o in Run(s, es).log && o !in s.log
        ensures exists q :: q in ps && IsSync(s, o, q)
      {
        if o in s1.log {
          assert p in ps && IsSync(s, o, p);
        } else {
          var q :| q in ps[1..] && IsSync(s1, o, q);
          assert q in ps && IsSync(s, o, q);
        }
      }
    }
  }

  lemma {:induction false} EarlyIsEnabled(s: Cluster, packet: Output)
    requires packet in s.log && packet.ToPeer? && packet.peer in s.followers
    ensures Enabled(s, Deliver(packet, 0))
  {
  }

  /** The leader ignores sync requests. */
  lemma {:induction false} DeliverSyncs(s: Cluster, ps: seq<int>) returns (es: seq<Event>)
    requires Inv(s)
    ensures IsRun(s, es) && Run(s, es) == s && forall e :: e in es ==> e.Deliver?
    ensures forall p: int :: p in ps && -128 <= p < 128 && SyncFrom(s, p) in s.log ==> Delivered(es, SyncFrom(s, p))
    decreases |ps|
  {
    hide Tables, Numbered, Quorums, Histories, Apply, Enabled, IsRun, Run, Delivered, SyncFrom;
    if ps == [] {
      es := [];
      NoRun(s);
    } else {
      var rest := DeliverSyncs(s, ps[1..]);
      if -128 <= ps[0] < 128 && SyncFrom(s, ps[0]) in s.log {
        var p: JByte := ps[0];
        var e := Deliver(SyncFrom(s, p), 0);
        SyncIsIgnored(s, p);
        es := [e] + rest;
        RunFirst(s, e, rest);
        forall q: int | q in ps && -128 <= q < 128 && SyncFrom(s, q) in s.log
          ensures Delivered(es, SyncFrom(s, q))
        {
          assert q == p || q in ps[1..];
          DeliveredFirst(e, rest, SyncFrom(s, q));
        }
      } else {
        es := rest;
        assert ps == [ps[0]] + ps[1..];
      }
    }
  }

  lemma {:induction false} SyncIsIgnored(s: Cluster, p: JByte)
    requires Configured(s) && SyncFrom(s, p) in s.log
    ensures var e := Deliver(SyncFrom(s, p), 0); Enabled(s, e) && Apply(s, e) == s
  {
    LeaderStep(s.leader, SyncFrom(s, p).req, 0);
    assert s.log + [] == s.log;
  }

  // ----- the run -----

  /** The first write up to its quorum: all proposals and acknowledgements delivered, no COMMIT yet. */
  lemma {:induction false} UpToQuorum(c: Cluster, channel: Channel, req: Request, ps: seq<int>)
    returns (es: seq<Event>)
    requires Inv(c) && Converged(c) && |c.followers.Keys| >= 2 && forall p :: p in ps <==> p in c.followers.Keys
    requires req.opcode == OPCODE_WRITEREQ && req.payload != []
    ensures IsRun(c, es) && LeaderWrites(c, es) == 1
    ensures var s := Run(c, es);
            && Inv(s) && Amid(c, s) && s.followers == c.followers && c.log <= s.log
            && s.leader.myZxid == c.leader.myZxid + 1
            && forall o :: o in s.log && o !in c.log && o.ToPeer? ==>
                 Delivered(es, o) || (o.peer in c.followers && o == CommitFor(c, o.peer))
  {
    hide Apply, Enabled, Amid, Tables, Numbered, Quorums, Histories, Delivered, IsRun, Run, LeaderWrites, IsAck;
    var w := Write(c.leaderId, channel, req);
    TakesWrite(c, channel, req);
    var s1 := Apply(c, w);
    EventKeepsInv(c, w);
    var a := DeliverProposals(c, s1, ps, req.payload);
    var s2 := Run(s1, a);
    var b := DeliverAcks(c, s2, ps);
    RunJoin(s1, a, b);
    es := [w] + (a + b);
    RunFirst(c, w, a + b);
    RunKeepsInv(s1, a);
    RunKeepsInv(s2, b);
    var s := Run(c, es);
    OneWriteOnly(c, w, a + b);
    forall o | o in s.log && o !in c.log && o.ToPeer?
      ensures Delivered(es, o) || (o.peer in c.followers && o == CommitFor(c, o.peer))
    {
      if o in s1.log {
        DeliveredMore(a, es, o);
      } else if o in s2.log {
        var p :| p in ps && IsAck(c, o, p);
        AckIs(c, o, p);
        DeliveredMore(b, es, o);
      }
    }
    forall p | p in s.followers
      ensures s.leader.acked[p] >= c.leader.myZxid + 1
    {
      assert p in ps;
      var ack := AckFrom(c, p);
      AckIsOne(c, s2, p);
      DeliveredIsCounted(s2, b, p, c.leader.myZxid + 1, ack);
    }
    SomeFollower(s);
    var p :| p in s.followers;
    StaysBelow(c, es);
    AllAckedAllTold(s, c.leader.myZxid + 1, p);
  }

  lemma {:induction false} AckIs(c: Cluster, o: Output, p: int)
    requires IsAck(c, o, p)
    ensures -128 <= p < 128 && o == AckFrom(c, p)
  {
  }

  lemma {:induction false} AckIsOne(c: Cluster, s: Cluster, p: JByte)
    requires Amid(c, s)
    ensures IsAckOf(AckFrom(c, p), p, c.leader.myZxid + 1) && AckFrom(c, p).peer == s.leaderId
  {
  }

  lemma {:induction false} StaysBelow(c: Cluster, es: seq<Event>)
    requires Inv(c) && Converged(c) && IsRun(c, es) && LeaderWrites(c, es) == 1
    ensures Run(c, es).leader.myZxid <= c.leader.myZxid + 1
  {
    hide Tables, Numbered, Quorums, Histories, Run, LeaderWrites;
    WritesBoundZxid(c, es, c.leader.myZxid);
  }

  lemma {:induction false} OneWriteOnly(c: Cluster, w: Event, rest: seq<Event>)
    requires IsLeaderWrite(c, w) && forall e :: e in rest ==> e.Deliver?
    ensures LeaderWrites(c, [w] + rest) == 1
  {
    DeliveriesWriteNothing(c, rest);
    WritesSplit(c, [w] + rest);
    assert ([w] + rest)[1..] == rest;
  }

  lemma {:induction false} AmidTwice(c: Cluster, s: Cluster, t: Cluster)
    requires Amid(c, s) && Amid(s, t)
    ensures Amid(c, t)
  {
  }

  lemma {:induction false} AmidLog(c: Cluster, s: Cluster, t: Cluster)
    requires Amid(c, s) && t == s.(log := t.log)
    ensures Amid(c, t)
  {
  }

  /** The second write, its proposals delivered before any COMMIT of the first, and then everything else. */
  lemma {:induction false} Overtake(c: Cluster, s: Cluster, channel: Channel, req: Request, ps: seq<int>)
    returns (es: seq<Event>)
    requires Inv(c) && Inv(s) && Amid(c, s) && (forall p :: p in ps <==> p in c.followers.Keys)
    requires forall p :: p in s.followers ==> s.followers[p].myZxid != s.leader.myZxid
    requires req.opcode == OPCODE_WRITEREQ && req.payload != []
    ensures IsRun(s, es) && LeaderWrites(s, es) == 1
    ensures var t := Run(s, es);
            && s.log <= t.log && t.leader.myZxid == s.leader.myZxid
            && (forall p :: p in ps ==> ProposalTo(s, p, req.payload) in t.log)
            && (forall o :: o in t.log && o !in s.log && o.ToPeer? ==> Delivered(es, o))
            && (forall p :: p in c.followers && CommitFor(c, p) in s.log ==> Delivered(es, CommitFor(c, p)))
  {
    hide Apply, Enabled, Amid, Tables, Numbered, Quorums, Histories, Delivered, IsRun, Run, LeaderWrites, ProposalTo,
         CommitFor, SyncFrom, IsSync;
    SameMembersAmid(c, s);
    var w := Write(s.leaderId, channel, req);
    TakesWrite(s, channel, req);
    var s1 := Apply(s, w);
    EventKeepsInv(s, w);
    WriteKeepsZxid(s, w);
    var a := DeliverEarly(s, s1, ps, req.payload);
    var s2 := Run(s1, a);
    RunKeepsInv(s1, a);
    var b := DeliverSyncs(s2, ps);
    AmidTwice(c, s, s1);
    AmidLog(c, s1, s2);
    var d := DeliverCommits(c, s2, ps);
    RunJoin(s1, a, b);
    RunJoin(s1, a + b, d);
    es := [w] + (a + b + d);
    RunFirst(s, w, a + b + d);
    OneWriteOnly(s, w, a + b + d);
    var t := Run(s, es);
    forall o | o in t.log && o !in s.log && o.ToPeer?
      ensures Delivered(es, o)
    {
      if o in s1.log {
        DeliveredMore(a, es, o);
      } else {
        var p :| p in ps && IsSync(s1, o, p);
        SyncIs(s1, s2, o, p);
        DeliveredMore(b, es, o);
      }
    }
    forall p | p in c.followers && CommitFor(c, p) in s.log
      ensures Delivered(es, CommitFor(c, p))
    {
      assert p in ps;
      PrefixHas(s.log, s2.log, CommitFor(c, p));
      DeliveredMore(d, es, CommitFor(c, p));
    }
    forall p | p in ps
      ensures ProposalTo(s, p, req.payload) in t.log
    {
      PrefixHas(s1.log, t.log, ProposalTo(s, p, req.payload));
    }
  }

  lemma {:induction false} SameMembersAmid(c: Cluster, s: Cluster)
    requires Amid(c, s)
    ensures s.leaderId == c.leaderId && s.followers.Keys == c.followers.Keys
  {
  }

  lemma {:induction false} SyncIs(s: Cluster, t: Cluster, o: Output, p: int)
    requires IsSync(s, o, p) && t.leaderId == s.leaderId
    ensures -128 <= p < 128 && o == SyncFrom(t, p)
  {
  }

  lemma {:induction false} WriteKeepsZxid(s: Cluster, w: Event)
    requires Inv(s) && Enabled(s, w) && w.Write?
    ensures Apply(s, w).leader.myZxid == s.leader.myZxid
  {
    LeaderAdvancesByOne(s, w);
  }

  /** From every converged cluster of three nodes or more, every two writes have a run that delivers
      everything that is sent and still does not come to rest: no follower takes the second one. */
  lemma {:induction false} TwoWritesCanStall(c: Cluster, channel: Channel, req: Request, channel': Channel,
        req': Request)
    returns (es: seq<Event>)
    requires Inv(c) && Converged(c) && |c.followers.Keys| >= 2
    requires req.opcode == OPCODE_WRITEREQ && req.payload != []
    requires req'.opcode == OPCODE_WRITEREQ && req'.payload != []
    ensures IsRun(c, es) && FailureFree(c, es) && LeaderWrites(c, es) == 2
    ensures !Converged(Run(c, es)) && !MeetsAll(c, es)
  {
    hide Apply, Enabled, Tables, Numbered, Quorums, Histories, Delivered, IsRun, Run, LeaderWrites, CommitFor, Meets,
         MeetsAll, Amid, TakesProposal;
    var ps := Listed(c.followers.Keys);
    var a := UpToQuorum(c, channel, req, ps);
    var s := Run(c, a);
    SameMembersAmid(c, s);
    var b := Overtake(c, s, channel', req', ps);
    RunJoin(c, a, b);
    es := a + b;
    var t := Run(c, es);
    WritesJoin(c, a, b);
    SameLeaderSameWrites(c, s, b);
    forall o | o in t.log && o !in c.log && o.ToPeer?
      ensures Delivered(es, o)
    {
      if o !in s.log || (o.peer in c.followers && o == CommitFor(c, o.peer)) {
        DeliveredMore(b, es, o);
      } else {
        DeliveredMore(a, es, o);
      }
    }
    SomeFollower(c);
    var p :| p in c.followers;
    assert p in c.followers.Keys;
    assert ProposalTo(s, p, req'.payload) in t.log;
    assert !Converged(t);
    ConvergesIffInOrder(c, es);
  }
}
