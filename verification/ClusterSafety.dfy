/** The invariant of `ClusterModel` holds in every reachable state. */
module ClusterSafety {
  import opened Requests
  import opened NodeProtocol
  import opened ClusterModel

  // ----- histories -----

  lemma {:induction false} CommitsToAppend(a: seq<Output>, b: seq<Output>, p: int)
    ensures CommitsTo(a + b, p) == CommitsTo(a, p) + CommitsTo(b, p)
  {
    if b == [] {
      assert a + b == a;
    } else {
      assert (a + b)[..|a + b| - 1] == a + b[..|b| - 1];
      CommitsToAppend(a, b[..|b| - 1], p);
    }
  }

  lemma {:induction false} AnswersAppend(a: seq<Output>, b: seq<Output>)
    ensures Answers(a + b) == Answers(a) + Answers(b)
  {
    if b == [] {
      assert a + b == a;
    } else {
      assert (a + b)[..|a + b| - 1] == a + b[..|b| - 1];
      AnswersAppend(a, b[..|b| - 1]);
    }
  }

  lemma {:induction false} HistoryOfBroadcast(selected: seq<bool>, req: Request, p: int)
    ensures CommitsTo(ToPeers(selected, req), p)
         == if req.opcode == OPCODE_COMMIT && 0 <= p < |selected| && selected[p] then [req.zxid] else []
    ensures Answers(ToPeers(selected, req)) == []
  {
    hide CommitsTo, Answers, ToPeers;
    NoPeers(req);
    NoHistory(p);
    if selected != [] {
      var last := |selected| - 1;
      var front := ToPeers(selected[..last], req);
      HistoryOfBroadcast(selected[..last], req, p);
      NextPeer(selected, last, req);
      assert selected[..last + 1] == selected;
      if !selected[last] {
        assert front + [] == front;
      } else {
        CommitsToAppend(front, [ToPeer(last, req)], p);
        AnswersAppend(front, [ToPeer(last, req)]);
        HistoryOfOne(last, req, p);
      }
    }
  }

  lemma {:induction false} NoHistory(p: int)
    ensures CommitsTo([], p) == [] && Answers([]) == []
  {
  }

  lemma {:induction false} HistoryOfOne(peer: int, req: Request, p: int)
    ensures CommitsTo([ToPeer(peer, req)], p) == if req.opcode == OPCODE_COMMIT && p == peer then [req.zxid] else []
    ensures Answers([ToPeer(peer, req)]) == []
  {
  }

  lemma {:induction false} UpToNext(k: int)
    requires k >= 0
    ensures UpTo(k + 1) == UpTo(k) + [k + 1]
  {
  }

  lemma {:induction false} ProposedToAppend(a: seq<Output>, b: seq<Output>, p: int)
    ensures ProposedTo(a + b, p) == ProposedTo(a, p) + ProposedTo(b, p)
  {
    if b == [] {
      assert a + b == a;
    } else {
      assert (a + b)[..|a + b| - 1] == a + b[..|b| - 1];
      ProposedToAppend(a, b[..|b| - 1], p);
    }
  }

  lemma {:induction false} ProposedToMember(log: seq<Output>, p: int, z: int) returns (o: Output)
    requires z in ProposedTo(log, p)
    ensures o in log && IsProposalTo(o, p) && o.req.zxid == z
  {
    var last := |log| - 1;
    if IsProposalTo(log[last], p) && log[last].req.zxid == z {
      o := log[last];
    } else {
      o := ProposedToMember(log[..last], p, z);
    }
  }

  lemma {:induction false} MemberProposedTo(log: seq<Output>, o: Output, p: int)
    requires o in log && IsProposalTo(o, p)
    ensures o.req.zxid in ProposedTo(log, p)
  {
    var last := |log| - 1;
    if log[last] != o {
      MemberProposedTo(log[..last], o, p);
    }
  }

  lemma {:induction false} ProposedStays(c: Cluster, c': Cluster, out: seq<Output>, z: int)
    requires ProposedToAll(c, z) && c'.log == c.log + out && c.followers.Keys == c'.followers.Keys
    ensures ProposedToAll(c', z)
  {
    forall p | p in c'.followers
      ensures z in ProposedTo(c'.log, p)
    {
      assert p in c.followers.Keys;
      ProposedToAppend(c.log, out, p);
    }
  }

  // ----- initial states -----

  lemma {:induction false} InitialInv(c: Cluster)
    requires Initial(c)
    ensures Inv(c)
  {
    assert SlotsFrom(c.leader.acked, 1) == {};
  }

  // ----- what one event may change -----

  /** `c'` comes after `c`: the log grew by `out`, and no number went back. */
  ghost predicate After(c: Cluster, c': Cluster, out: seq<Output>) {
    && Configured(c) && Configured(c')
    && c'.leaderId == c.leaderId && c'.followers.Keys == c.followers.Keys
    && c'.log == c.log + out
    && c'.leader.myZxid >= c.leader.myZxid
    && (forall p :: p in c.followers ==> c'.followers[p].myZxid >= c.followers[p].myZxid)
    && (forall p :: p in c.followers ==> c'.leader.commited[p] >= c.leader.commited[p])
    && (forall z :: z in c.leader.rsock ==> z in c'.leader.rsock)
    && (forall z :: z in c.leader.rsock && z <= c.leader.myZxid ==> c'.leader.rsock[z] == c.leader.rsock[z])
  }

  lemma {:induction false} TrafficStays(c: Cluster, c': Cluster, out: seq<Output>, o: Output)
    requires After(c, c', out) && Traffic(c, o)
    ensures Traffic(c', o)
  {
    if ProposedToAll(c, o.req.zxid) {
      ProposedStays(c, c', out, o.req.zxid);
    }
  }

  lemma {:induction false} OldTraffic(c: Cluster, c': Cluster, out: seq<Output>)
    requires After(c, c', out) && Numbered(c)
    requires forall o :: o in out ==> Traffic(c', o)
    ensures forall o :: o in c'.log ==> Traffic(c', o)
  {
    forall o | o in c'.log
      ensures Traffic(c', o)
    {
      if o in c.log {
        TrafficStays(c, c', out, o);
      } else {
        assert o in out;
      }
    }
  }

  lemma {:induction false} NumberedStays(c: Cluster, c': Cluster, out: seq<Output>)
    requires After(c, c', out) && Numbered(c)
    requires forall o :: o in out ==> Traffic(c', o)
    requires forall z :: c.leader.myZxid < z <= c'.leader.myZxid ==> ProposedToAll(c, z)
    requires SlotsFrom(c'.leader.acked, c'.leader.myZxid + 1) != {} ==> ProposedToAll(c, c'.leader.myZxid + 1)
    ensures Numbered(c')
  {
    OldTraffic(c, c', out);
    forall z | 1 <= z <= c'.leader.myZxid
      ensures ProposedToAll(c', z)
    {
      ProposedStays(c, c', out, z);
    }
    if SlotsFrom(c'.leader.acked, c'.leader.myZxid + 1) != {} {
      ProposedStays(c, c', out, c'.leader.myZxid + 1);
    }
  }

  /** Messages that are neither commits nor answers. */
  ghost predicate Quiet(out: seq<Output>) {
    forall o :: o in out ==> o.ToPeer? && o.req.opcode != OPCODE_COMMIT
  }

  lemma {:induction false} QuietHistory(out: seq<Output>, p: int)
    requires Quiet(out)
    ensures CommitsTo(out, p) == [] && Answers(out) == []
  {
    if out != [] {
      QuietHistory(out[..|out| - 1], p);
      assert out[|out| - 1] in out;
    }
  }

  lemma {:induction false} HistoriesStay(c: Cluster, c': Cluster, out: seq<Output>)
    requires After(c, c', out) && Histories(c) && Quiet(out)
    requires c'.leader.commited == c.leader.commited && c'.leader.myZxid == c.leader.myZxid
    ensures Histories(c')
  {
    forall p | p in c'.followers
      ensures CommitsTo(c'.log, p) == UpTo(c'.leader.commited[p])
    {
      CommitsToAppend(c.log, out, p);
      QuietHistory(out, p);
    }
    AnswersAppend(c.log, out);
    QuietHistory(out, 0);
  }

  // ----- the leader takes a write -----

  lemma {:induction false} WriteProposes(c: Cluster, c': Cluster, payload: seq<JByte>)
    requires Configured(c) && c'.followers == c.followers
    requires c'.log == c.log + ToPeers(c.leader.sockets, Proposal(c.leader, payload))
    ensures ProposedToAll(c', c.leader.myZxid + 1)
  {
    var sent := ToPeers(c.leader.sockets, Proposal(c.leader, payload));
    forall p | p in c'.followers
      ensures c.leader.myZxid + 1 in ProposedTo(c'.log, p)
    {
      ProposedToAppend(c.log, sent, p);
      MemberProposedTo(sent, ToPeer(p, Proposal(c.leader, payload)), p);
    }
  }

  lemma {:induction false} WriteAfter(c: Cluster, c': Cluster, out: seq<Output>, proposed: seq<int>, channel: Channel)
    requires Configured(c) && Tables(c) && Quorums(c) && |proposed| == PEERS
    requires c' == c.(leader := c.leader.(proposed := proposed,
          rsock := c.leader.rsock[c.leader.myZxid + 1 := channel]),
                      log := c.log + out)
    ensures Configured(c') && Tables(c') && Quorums(c') && After(c, c', out)
  {
    assert Configured(c');
    assert forall q :: q in c'.followers ==> InStep(c, q) && InStep(c', q);
  }

  lemma {:induction false} WriteQuiet(sockets: seq<bool>, prop: Request)
    requires prop.opcode == OPCODE_PROPOSAL
    ensures Quiet(ToPeers(sockets, prop))
  {
  }

  lemma {:induction false} WriteTraffic(c: Cluster, sockets: seq<bool>, prop: Request)
    requires Configured(c) && sockets == c.leader.sockets
    requires prop.opcode == OPCODE_PROPOSAL && prop.peerId == c.leaderId && 1 <= prop.zxid <= c.leader.myZxid + 1
    requires prop.zxid in c.leader.rsock && ProposedToAll(c, prop.zxid)
    ensures forall o :: o in ToPeers(sockets, prop) ==> Traffic(c, o)
  {
  }

  lemma {:induction false} WriteNumbered(c: Cluster, c': Cluster, payload: seq<JByte>)
    requires After(c, c', ToPeers(c.leader.sockets, Proposal(c.leader, payload)))
    requires Tables(c) && Numbered(c) && c'.followers == c.followers && c.leader.myZxid + 1 in c'.leader.rsock
    requires c'.leader.sockets == c.leader.sockets && c'.leader.myZxid == c.leader.myZxid
    ensures Numbered(c')
  {
    var out := ToPeers(c.leader.sockets, Proposal(c.leader, payload));
    WriteProposes(c, c', payload);
    WriteTraffic(c', c.leader.sockets, Proposal(c.leader, payload));
    OldTraffic(c, c', out);
    forall z | 1 <= z <= c'.leader.myZxid
      ensures ProposedToAll(c', z)
    {
      ProposedStays(c, c', out, z);
    }
  }

  lemma {:induction false} WriteHistories(c: Cluster, c': Cluster, prop: Request)
    requires After(c, c', ToPeers(c.leader.sockets, prop)) && Histories(c) && prop.opcode == OPCODE_PROPOSAL
    requires c'.leader.commited == c.leader.commited && c'.leader.myZxid == c.leader.myZxid
    ensures Histories(c')
  {
    WriteQuiet(c.leader.sockets, prop);
    HistoriesStay(c, c', ToPeers(c.leader.sockets, prop));
  }

  lemma {:induction false} LeaderWriteKeepsInv(c: Cluster, c': Cluster, r: Request, channel: Channel,
        proposed: seq<int>)
    requires Inv(c) && |proposed| == PEERS
    requires c' == c.(leader := c.leader.(proposed := proposed,
          rsock := c.leader.rsock[c.leader.myZxid + 1 := channel]),
                      log := c.log + ToPeers(c.leader.sockets, Proposal(c.leader, r.payload)))
    ensures Inv(c')
  {
    WriteAfter(c, c', ToPeers(c.leader.sockets, Proposal(c.leader, r.payload)), proposed, channel);
    assert Numbered(c') by {
      WriteNumbered(c, c', r.payload);
    }
    assert Histories(c') by {
      WriteHistories(c, c', Proposal(c.leader, r.payload));
    }
  }

  // ----- a follower takes a message -----

  lemma {:induction false} FollowerConfigured(c: Cluster, c': Cluster, p: int, f: NodeState)
    requires Configured(c) && p in c.followers && c'.followers == c.followers[p := f]
    requires c'.leader == c.leader && c'.leaderId == c.leaderId
    requires f.Valid() && f == c.followers[p].(myZxid := f.myZxid)
    ensures Configured(c') && c'.followers.Keys == c.followers.Keys
  {
    assert c'.followers.Keys == c.followers.Keys;
  }

  lemma {:induction false} MessageSent(c: Cluster, c': Cluster, out: seq<Output>)
    requires Inv(c) && c' == c.(log := c.log + out) && Quiet(out)
    requires forall o :: o in out ==> Traffic(c', o)
    ensures Inv(c')
  {
    hide Configured, Tables, Quorums, Histories, Traffic;
    SentAfter(c, c', out);
    NumberedStays(c, c', out);
    HistoriesStay(c, c', out);
  }

  lemma {:induction false} SentAfter(c: Cluster, c': Cluster, out: seq<Output>)
    requires Configured(c) && Tables(c) && Quorums(c) && c' == c.(log := c.log + out)
    ensures Configured(c') && Tables(c') && Quorums(c') && After(c, c', out)
  {
    assert forall q :: q in c.followers ==> InStep(c, q);
  }

  lemma {:induction false} ProposalKeepsInv(c: Cluster, c': Cluster, p: int, r: Request)
    requires Inv(c) && p in c.followers && r.opcode == OPCODE_PROPOSAL && ToPeer(p, r) in c.log
    requires c' == c.(log := c.log + ReceiveProposal(c.followers[p], r).out)
    ensures Inv(c')
  {
    var out := ReceiveProposal(c.followers[p], r).out;
    ProposalAnswered(c, c', p, r);
    MessageSent(c, c', out);
  }

  lemma {:induction false} ProposalAnswered(c: Cluster, c': Cluster, p: int, r: Request)
    requires Configured(c) && Tables(c) && Numbered(c)
    requires p in c.followers && r.opcode == OPCODE_PROPOSAL && ToPeer(p, r) in c.log
    requires c' == c.(log := c.log + ReceiveProposal(c.followers[p], r).out)
    ensures Quiet(ReceiveProposal(c.followers[p], r).out)
    ensures forall o :: o in ReceiveProposal(c.followers[p], r).out ==> Traffic(c', o)
  {
    assert Traffic(c, ToPeer(p, r));
    ProposedStays(c, c', ReceiveProposal(c.followers[p], r).out, r.zxid);
    assert InStep(c, p);
  }

  lemma {:induction false} FollowerAdvances(c: Cluster, c': Cluster, p: int)
    requires Configured(c) && Tables(c) && p in c.followers && c.followers[p].myZxid < c.leader.commited[p]
    requires c' == c.(followers := c.followers[p := c.followers[p].(myZxid := c.followers[p].myZxid + 1)])
    ensures Configured(c') && Tables(c') && After(c, c', [])
  {
    FollowerConfigured(c, c', p, c'.followers[p]);
    assert InStep(c, p);
    assert forall q :: q in c'.followers && q != p ==> InStep(c, q) && InStep(c', q);
    assert InStep(c', p);
    assert c'.log == c.log + [];
  }

  lemma {:induction false} FollowerNumbered(c: Cluster, c': Cluster, p: int)
    requires Configured(c) && Tables(c) && Numbered(c) && p in c.followers
          && c.followers[p].myZxid < c.leader.commited[p]
    requires c' == c.(followers := c.followers[p := c.followers[p].(myZxid := c.followers[p].myZxid + 1)])
    ensures Configured(c') && Numbered(c')
  {
    hide Configured, Tables, Traffic;
    FollowerAdvances(c, c', p);
    NumberedStays(c, c', []);
  }

  lemma {:induction false} FollowerAdvanceKeepsInv(c: Cluster, c': Cluster, p: int)
    requires Inv(c) && p in c.followers && c.followers[p].myZxid < c.leader.commited[p]
    requires c' == c.(followers := c.followers[p := c.followers[p].(myZxid := c.followers[p].myZxid + 1)])
    ensures Inv(c')
  {
    hide Configured, Tables, Numbered, Quorums, Histories;
    FollowerAdvances(c, c', p);
    FollowerNumbered(c, c', p);
    SameLeaderAndLog(c, c', p);
  }

  lemma {:induction false} SameLeaderAndLog(c: Cluster, c': Cluster, p: int)
    requires Configured(c) && Quorums(c) && Histories(c) && p in c.followers && Configured(c')
    requires c'.leader == c.leader && c'.log == c.log && c'.followers == c.followers[p := c'.followers[p]]
    ensures Quorums(c') && Histories(c')
  {
    assert forall q :: q in c'.followers ==> q in c.followers.Keys;
  }

  lemma {:induction false} CommitInSequence(c: Cluster, p: int, r: Request)
    requires Configured(c) && (forall o :: o in c.log ==> Traffic(c, o)) && p in c.followers
    requires r.opcode == OPCODE_COMMIT && ToPeer(p, r) in c.log
    ensures 1 <= r.zxid <= c.leader.commited[p]
  {
    assert Traffic(c, ToPeer(p, r));
  }

  lemma {:induction false} CommitKeepsInv(c: Cluster, c': Cluster, p: int, r: Request)
    requires Inv(c) && p in c.followers && r.opcode == OPCODE_COMMIT && ToPeer(p, r) in c.log
    requires c' == c.(followers := c.followers[p := Commit(c.followers[p], r).node])
    ensures Inv(c')
  {
    hide Tables, Quorums, Histories, Traffic;
    CommitInSequence(c, p, r);
    if r.zxid == c.followers[p].myZxid + 1 {
      FollowerAdvanceKeepsInv(c, c', p);
    } else {
      assert c'.followers == c.followers;
      assert c' == c;
    }
  }

  // ----- the leader takes an acknowledgement -----

  /** The count in the code, of the slots exactly at `z`, is the number of peers that acked `z`
      when nobody can be past it. */
  lemma {:induction false} VotesCounted(c: Cluster, p: int)
    requires Configured(c) && Tables(c) && p in c.followers && c.leader.acked[p] == c.leader.myZxid
    ensures var z := c.leader.myZxid + 1; var acked := c.leader.acked[p := z];
            |SlotsFrom(acked, z)| == |SlotsAt(c.leader.acked, z)| + 1
  {
    var z := c.leader.myZxid + 1;
    var acked := c.leader.acked[p := z];
    assert forall q :: q in c.followers ==> InStep(c, q);
    assert SlotsFrom(acked, z) == SlotsAt(c.leader.acked, z) + {p};
    assert p !in SlotsAt(c.leader.acked, z);
  }

  /** A zxid that the leader already committed has been committed to some peer. */
  lemma {:induction false} CommittedSomewhere(c: Cluster, z: int)
    requires Inv(c) && 0 < z <= c.leader.myZxid
    ensures |SlotsFrom(c.leader.commited, z)| > 0
  {
    var voters := SlotsFrom(c.leader.acked, c.leader.myZxid);
    assert voters != {};
    var x :| x in voters;
    assert InStep(c, x);
    assert x in SlotsFrom(c.leader.commited, z);
  }

  /** Nobody was told to commit a zxid beyond the leader's own. */
  lemma {:induction false} NotYetCommitted(c: Cluster)
    requires Configured(c) && Tables(c)
    ensures |SlotsFrom(c.leader.commited, c.leader.myZxid + 1)| == 0
  {
    assert forall q :: q in c.followers ==> InStep(c, q);
    assert SlotsFrom(c.leader.commited, c.leader.myZxid + 1) == {};
  }

  lemma {:induction false} AckTable(c: Cluster, c': Cluster, p: int)
    requires Configured(c) && p in c.followers && c.leader.acked[p] <= c.leader.myZxid
    requires c.leader.acked[p] <= c.followers[p].myZxid
    requires c'.followers == c.followers && c'.leaderId == c.leaderId
    requires var z := c.leader.acked[p] + 1;
             && c'.leader == c.leader.(myZxid := c'.leader.myZxid, acked := c.leader.acked[p := z],
                   commited := c'.leader.commited)
             && |c'.leader.commited| == PEERS
    ensures Configured(c')
  {
  }

  lemma {:induction false} MinorityAckTables(c: Cluster, c': Cluster, p: int)
    requires Configured(c) && Tables(c) && p in c.followers
    requires c.leader.acked[p] == c.leader.myZxid == c.followers[p].myZxid
    requires c' == c.(leader := c.leader.(acked := c.leader.acked[p := c.leader.myZxid + 1]))
    ensures Configured(c') && Tables(c')
  {
    AckTable(c, c', p);
    assert forall q :: q in c'.followers ==> InStep(c, q) && InStep(c', q);
  }

  lemma {:induction false} MinorityAckQuorums(c: Cluster, c': Cluster, p: int)
    requires Configured(c) && Tables(c) && Quorums(c) && p in c.followers && Configured(c')
    requires c.leader.acked[p] == c.leader.myZxid && !CompletesQuorum(c.leader, c.leader.myZxid + 1)
    requires c'.leader == c.leader.(acked := c.leader.acked[p := c.leader.myZxid + 1])
    ensures Quorums(c')
  {
    VotesCounted(c, p);
    NotYetCommitted(c);
    assert SlotsFrom(c'.leader.acked, c.leader.myZxid) == SlotsFrom(c.leader.acked, c.leader.myZxid);
  }

  /** An acknowledgement of the next zxid that leaves the vote short of a quorum. */
  lemma {:induction false} MinorityAckKeepsInv(c: Cluster, c': Cluster, p: int)
    requires Inv(c) && p in c.followers
    requires c.leader.acked[p] == c.leader.myZxid == c.followers[p].myZxid
    requires ProposedToAll(c, c.leader.myZxid + 1) && !CompletesQuorum(c.leader, c.leader.myZxid + 1)
    requires c' == c.(leader := c.leader.(acked := c.leader.acked[p := c.leader.myZxid + 1]))
    ensures Inv(c')
  {
    hide Configured, Tables, Numbered, Histories, Quorums, Traffic, ProposedToAll, Answers, CommitsTo, CompletesQuorum;
    MinorityAckTables(c, c', p);
    assert c'.log == c.log + [];
    assert Numbered(c') by {
      NumberedStays(c, c', []);
    }
    assert Histories(c') by {
      HistoriesStay(c, c', []);
    }
    MinorityAckQuorums(c, c', p);
  }

  /** The acknowledgement that completes the quorum for the next zxid. */
  lemma {:induction false} QuorumAckTables(c: Cluster, c': Cluster, p: int)
    requires Configured(c) && Tables(c) && p in c.followers
    requires c.leader.acked[p] == c.leader.myZxid == c.followers[p].myZxid
    requires var z := c.leader.myZxid + 1; var acked := c.leader.acked[p := z];
          var targets := Ackers(c.leader, acked, z);
             && c'.leader == c.leader.(acked := acked, myZxid := z, commited := Marked(c.leader.commited, targets, z))
             && c'.followers == c.followers && c'.leaderId == c.leaderId
    ensures Configured(c') && Tables(c')
    ensures forall q :: q in c'.followers ==>
              c'.leader.commited[q] == c.leader.commited[q] + if c'.leader.acked[q] == c'.leader.myZxid then 1 else 0
    ensures forall q :: q in c'.followers ==> c'.leader.acked[q] <= c'.leader.myZxid
  {
    AckTable(c, c', p);
    assert forall q :: q in c'.followers ==> InStep(c, q) && InStep(c', q);
  }

  /** What the leader writes when the quorum for `r.zxid` is complete. */
  function QuorumMessages(n: NodeState, targets: seq<bool>, r: Request): (out: seq<Output>) {
    ToPeers(targets, Request(OPCODE_COMMIT, n.myId, r.zxid, r.epoch, [])) + Reply(n, r)
  }

  lemma {:induction false} QuorumMessagesHistory(log: seq<Output>, n: NodeState, targets: seq<bool>, r: Request, q: int)
    requires r.zxid in n.rsock && 0 <= q < |targets|
    ensures CommitsTo(log + QuorumMessages(n, targets, r), q) == CommitsTo(log, q) + if targets[q] then [r.zxid] else []
    ensures Answers(log + QuorumMessages(n, targets, r)) == Answers(log) + [r.zxid]
  {
    hide CommitsTo, Answers, ToPeers, Reply;
    var com := Request(OPCODE_COMMIT, n.myId, r.zxid, r.epoch, []);
    var commits, reply := ToPeers(targets, com), Reply(n, r);
    HistoryOfBroadcast(targets, com, q);
    HistoryOfReply(n, r, q);
    CommitsToAppend(log, commits + reply, q);
    CommitsToAppend(commits, reply, q);
    AnswersAppend(log, commits + reply);
    AnswersAppend(commits, reply);
  }

  lemma {:induction false} HistoryOfReply(n: NodeState, r: Request, q: int)
    requires r.zxid in n.rsock
    ensures CommitsTo(Reply(n, r), q) == [] && Answers(Reply(n, r)) == [r.zxid]
  {
  }

  ghost predicate QuorumAck(c: Cluster, c': Cluster, p: int, r: Request)
    requires Configured(c) && p in c.followers
  {
    var z := r.zxid;
    var acked := c.leader.acked[p := z];
    var targets := Ackers(c.leader, acked, z);
    && z == c.leader.myZxid + 1 && z in c.leader.rsock
    && c.leader.acked[p] == c.leader.myZxid == c.followers[p].myZxid
    && c'.leader == c.leader.(acked := acked, myZxid := z, commited := Marked(c.leader.commited, targets, z))
    && c'.followers == c.followers && c'.leaderId == c.leaderId
    && c'.log == c.log + QuorumMessages(c.leader, targets, r)
  }

  lemma {:induction false} QuorumAckHistories(c: Cluster, c': Cluster, p: int, r: Request)
    requires Configured(c) && Tables(c) && Histories(c) && p in c.followers && QuorumAck(c, c', p, r) && Configured(c')
    requires forall q :: q in c'.followers ==>
               c'.leader.commited[q] == c.leader.commited[q] + if c'.leader.acked[q] == c'.leader.myZxid then 1 else 0
    requires forall q :: q in c'.followers ==> c'.leader.acked[q] <= c'.leader.myZxid
    ensures Histories(c')
  {
    var targets := Ackers(c.leader, c'.leader.acked, r.zxid);
    QuorumMessagesHistory(c.log, c.leader, targets, r, p);
    UpToNext(c.leader.myZxid);
    forall q | q in c'.followers
      ensures CommitsTo(c'.log, q) == UpTo(c'.leader.commited[q])
    {
      QuorumMessagesHistory(c.log, c.leader, targets, r, q);
      assert InStep(c, q);
      UpToNext(c.leader.commited[q]);
    }
  }

  lemma {:induction false} QuorumAckTraffic(c': Cluster, out: seq<Output>)
    requires Configured(c') && 1 <= c'.leader.myZxid
    requires forall o :: o in out ==>
               if o.ToChannel? then
                 o.req.zxid == c'.leader.myZxid && o.req.zxid in c'.leader.rsock
                       && o.channel == c'.leader.rsock[o.req.zxid]
               else
                 o.req.opcode == OPCODE_COMMIT && o.req.zxid == c'.leader.myZxid && o.peer in c'.followers
                 && c'.leader.commited[o.peer] == o.req.zxid
    ensures forall o :: o in out ==> Traffic(c', o)
  {
  }

  lemma {:induction false} QuorumAckAfter(c: Cluster, c': Cluster, p: int, r: Request)
    requires Configured(c) && Tables(c) && p in c.followers && QuorumAck(c, c', p, r) && Configured(c')
    ensures After(c, c', QuorumMessages(c.leader, Ackers(c.leader, c'.leader.acked, r.zxid), r))
  {
    assert forall q :: q in c.followers ==> InStep(c, q);
  }

  lemma {:induction false} QuorumAckNumbered(c: Cluster, c': Cluster, p: int, r: Request)
    requires Configured(c) && Tables(c) && Numbered(c) && p in c.followers && QuorumAck(c, c', p, r)
          && ProposedToAll(c, r.zxid)
    requires Configured(c')
    requires forall q :: q in c'.followers ==> c'.leader.acked[q] <= c'.leader.myZxid
    ensures Numbered(c')
  {
    hide Numbered, Traffic, ProposedToAll, After, SlotsAt, Marked;
    var targets := Ackers(c.leader, c'.leader.acked, r.zxid);
    var out := QuorumMessages(c.leader, targets, r);
    QuorumAckAfter(c, c', p, r);
    assert SlotsFrom(c'.leader.acked, c'.leader.myZxid + 1) == {};
    QuorumAckTraffic(c', out);
    NumberedStays(c, c', out);
  }

  lemma {:induction false} QuorumAckKeepsInv(c: Cluster, c': Cluster, p: int, r: Request)
    requires Inv(c) && p in c.followers && QuorumAck(c, c', p, r)
    requires ProposedToAll(c, r.zxid) && CompletesQuorum(c.leader, r.zxid)
    ensures Inv(c')
  {
    QuorumAckTables(c, c', p);
    QuorumAckHistories(c, c', p, r);
    QuorumAckNumbered(c, c', p, r);
    VotesCounted(c, p);
    assert SlotsFrom(c'.leader.acked, c'.leader.myZxid + 1) == {};
  }

  lemma {:induction false} LateAckTables(c: Cluster, c': Cluster, p: int, com: Request)
    requires Configured(c) && Tables(c) && p in c.followers && c.leader.acked[p] < c.leader.myZxid
    requires c.leader.acked[p] <= c.followers[p].myZxid
    requires com.opcode == OPCODE_COMMIT && com.zxid == c.leader.acked[p] + 1
    requires var z := com.zxid;
             c' == c.(leader := c.leader.(acked := c.leader.acked[p := z], commited := c.leader.commited[p := z]),
                      log := c.log + [ToPeer(p, com)])
    ensures Configured(c') && Tables(c') && After(c, c', [ToPeer(p, com)]) && Traffic(c', ToPeer(p, com))
  {
    AckTable(c, c', p);
    assert forall q :: q in c'.followers ==> InStep(c, q) && InStep(c', q);
  }

  /** A late acknowledgement, of a zxid the leader has already committed. */
  lemma {:induction false} SameAbove(table: seq<int>, p: nat, z: int)
    requires p < |table| && table[p] + 1 < z
    ensures SlotsFrom(table[p := table[p] + 1], z) == SlotsFrom(table, z)
  {
  }

  lemma {:induction false} LateAckKeepsInv(c: Cluster, c': Cluster, p: int, com: Request)
    requires Inv(c) && p in c.followers && c.leader.acked[p] < c.leader.myZxid
    requires c.leader.acked[p] <= c.followers[p].myZxid
    requires com.opcode == OPCODE_COMMIT && com.zxid == c.leader.acked[p] + 1
    requires var z := com.zxid;
             c' == c.(leader := c.leader.(acked := c.leader.acked[p := z], commited := c.leader.commited[p := z]),
                      log := c.log + [ToPeer(p, com)])
    ensures Inv(c')
  {
    hide Quorums, Histories, SlotsFrom, Traffic, ProposedToAll;
    var out := [ToPeer(p, com)];
    LateAckTables(c, c', p, com);
    SameAbove(c.leader.acked, p, c.leader.myZxid + 1);
    assert InStep(c, p);
    hide Tables, InStep;
    NumberedStays(c, c', out);
    LateAckHistories(c, c', p, com);
    LateAckQuorums(c, c', p);
  }

  lemma {:induction false} LateAckQuorums(c: Cluster, c': Cluster, p: int)
    requires Configured(c) && Quorums(c) && p in c.followers && c.leader.acked[p] < c.leader.myZxid
    requires Configured(c') && c'.leader.myZxid == c.leader.myZxid && c'.leader.peerCnt == c.leader.peerCnt
    requires c'.leader.acked == c.leader.acked[p := c.leader.acked[p] + 1]
    ensures Quorums(c')
  {
    var m := c.leader.myZxid;
    var before, now := SlotsFrom(c.leader.acked, m), SlotsFrom(c'.leader.acked, m);
    assert before <= now;
    SubsetSize(before, now);
    assert SlotsFrom(c.leader.acked, m + 1) == SlotsFrom(c'.leader.acked, m + 1);
  }

  lemma {:induction false} SubsetSize<T>(a: set<T>, b: set<T>)
    requires a <= b
    ensures |a| <= |b|
  {
    assert b == a + (b - a);
  }

  lemma {:induction false} CommitedNotNegative(c: Cluster, q: int)
    requires Configured(c) && Tables(c) && q in c.followers
    ensures c.leader.commited[q] >= 0
  {
    assert InStep(c, q);
  }

  lemma {:induction false} LateAckHistories(c: Cluster, c': Cluster, p: int, com: Request)
    requires Configured(c) && Tables(c) && Histories(c) && p in c.followers
    requires c.leader.commited[p] == com.zxid - 1 && com.opcode == OPCODE_COMMIT
    requires Configured(c') && c'.followers == c.followers && c'.leader.myZxid == c.leader.myZxid
    requires c'.leader.commited == c.leader.commited[p := com.zxid]
    requires c'.log == c.log + [ToPeer(p, com)]
    ensures Histories(c')
  {
    hide Tables, CommitsTo, Answers, UpTo;
    var out := [ToPeer(p, com)];
    forall q | q in c'.followers
      ensures CommitsTo(c'.log, q) == UpTo(c'.leader.commited[q])
    {
      CommitsToAppend(c.log, out, q);
      HistoryOfCommit(p, com, q);
      CommitedNotNegative(c, q);
      UpToNext(c.leader.commited[q]);
      assert CommitsTo(c.log, q) + [] == CommitsTo(c.log, q);
    }
    assert Answers(c.log) + [] == Answers(c.log);
    AnswersAppend(c.log, out);
    HistoryOfCommit(p, com, p);
  }

  lemma {:induction false} HistoryOfCommit(p: int, com: Request, q: int)
    requires com.opcode == OPCODE_COMMIT
    ensures CommitsTo([ToPeer(p, com)], q) == if q == p then [com.zxid] else []
    ensures Answers([ToPeer(p, com)]) == []
  {
  }

  /** An acknowledgement on its way is for a write that was proposed to all. */
  lemma {:induction false} AckArrives(c: Cluster, r: Request)
    requires Inv(c) && r.opcode == OPCODE_ACKPROPOSE && ToPeer(c.leaderId, r) in c.log
    ensures Configured(c) && Tables(c) && c.leader.Valid() && c.leader.iAmLeader && 0 <= r.peerId < PEERS
          && r.peerId in c.followers
    ensures c.leader.sockets[r.peerId] && InStep(c, r.peerId)
    ensures 1 <= r.zxid <= c.followers[r.peerId].myZxid + 1 && r.zxid <= c.leader.myZxid + 1
    ensures r.zxid in c.leader.rsock && ProposedToAll(c, r.zxid)
  {
    assert Traffic(c, ToPeer(c.leaderId, r));
    assert InStep(c, r.peerId);
  }

  lemma {:induction false} AckKeepsInv(c: Cluster, c': Cluster, r: Request)
    requires Inv(c) && r.opcode == OPCODE_ACKPROPOSE && ToPeer(c.leaderId, r) in c.log
    requires var o := AckPropose(c.leader, r); c' == c.(leader := o.node, log := c.log + o.out)
    ensures Inv(c')
  {
    hide Inv, Configured, Tables, Numbered, Histories, Quorums, Traffic, ProposedToAll, ToPeers, Marked, Ackers;
    AckArrives(c, r);
    var p := r.peerId;
    var z := r.zxid;
    if z != c.leader.acked[p] + 1 {
      assert c.log + [] == c.log;
      assert c' == c;
    } else if z <= c.leader.myZxid {
      CommittedSomewhere(c, z);
      LateAckKeepsInv(c, c', p, Request(OPCODE_COMMIT, c.leader.myId, z, r.epoch, []));
    } else if CompletesQuorum(c.leader, z) {
      QuorumAckKeepsInv(c, c', p, r);
    } else {
      assert c.log + [] == c.log;
      MinorityAckKeepsInv(c, c', p);
    }
  }

  // ----- every run -----

  lemma {:induction false} LeaderStep(n: NodeState, r: Request, channel: Channel)
    requires n.Valid() && n.iAmLeader
    ensures r.opcode == OPCODE_WRITEREQ && r.payload == [] ==> Step(n, r, channel, Refused) == Outcome(n, [], true)
    ensures r.opcode == OPCODE_WRITEREQ && r.payload != [] ==>
              Step(n, r, channel, Refused).node
                == n.(proposed := Marked(n.proposed, n.sockets, ToInt32(n.myZxid + 1)),
                      rsock := n.rsock[n.myZxid + 1 := channel])
              && Step(n, r, channel, Refused).out == ToPeers(n.sockets, Proposal(n, r.payload))
    ensures r.opcode == OPCODE_ACKPROPOSE ==> Step(n, r, channel, Refused) == AckPropose(n, r)
    ensures r.opcode == OPCODE_SYNCREQ ==> Step(n, r, channel, Refused) == Outcome(n, [], false)
  {
  }

  lemma {:induction false} LeaderEventKeepsInv(c: Cluster, e: Event, o: Outcome)
    requires Inv(c) && Enabled(c, e) && Target(e) == c.leaderId && o == Step(c.leader, Received(e), e.channel, Refused)
    ensures Inv(c.(leader := o.node, log := c.log + o.out))
  {
    var c' := c.(leader := o.node, log := c.log + o.out);
    LeaderStep(c.leader, Received(e), e.channel);
    if e.Write? {
      if e.req.payload == [] {
        assert c.log + [] == c.log;
        assert c' == c;
      } else {
        LeaderWriteKeepsInv(c, c', e.req, e.channel, o.node.proposed);
      }
    } else {
      LeaderReceives(c, e.packet.req);
      if e.packet.req.opcode == OPCODE_ACKPROPOSE {
        AckKeepsInv(c, c', e.packet.req);
      } else {
        assert c.log + [] == c.log;
        assert c' == c;
      }
    }
  }

  /** Nothing but acknowledgements and sync requests is ever sent to the leader. */
  lemma {:induction false} LeaderReceives(c: Cluster, r: Request)
    requires Configured(c) && (forall o :: o in c.log ==> Traffic(c, o)) && ToPeer(c.leaderId, r) in c.log
    ensures r.opcode == OPCODE_ACKPROPOSE || r.opcode == OPCODE_SYNCREQ
  {
    assert Traffic(c, ToPeer(c.leaderId, r));
  }

  lemma {:induction false} FollowerStep(f: NodeState, r: Request, channel: Channel)
    requires f.Valid() && !f.iAmLeader
    ensures r.opcode == OPCODE_WRITEREQ ==> Step(f, r, channel, Refused) == Outcome(f, [], false)
    ensures r.opcode == OPCODE_PROPOSAL ==> Step(f, r, channel, Refused) == ReceiveProposal(f, r)
    ensures r.opcode == OPCODE_PROPOSAL ==> Step(f, r, channel, Refused).node == f
    ensures r.opcode == OPCODE_COMMIT ==> Step(f, r, channel, Refused) == Commit(f, r)
    ensures r.opcode == OPCODE_COMMIT ==> Step(f, r, channel, Refused).out == []
  {
  }

  /** Nothing but proposals and commits is ever sent to a follower. */
  lemma {:induction false} FollowerReceives(c: Cluster, p: int, r: Request)
    requires Configured(c) && (forall o :: o in c.log ==> Traffic(c, o)) && p in c.followers && ToPeer(p, r) in c.log
    ensures r.opcode == OPCODE_PROPOSAL || r.opcode == OPCODE_COMMIT
  {
    assert Traffic(c, ToPeer(p, r));
  }

  lemma {:induction false} FollowerEventKeepsInv(c: Cluster, e: Event, t: int, o: Outcome)
    requires Inv(c) && Enabled(c, e) && Target(e) == t && t in c.followers
    requires o == Step(c.followers[t], Received(e), e.channel, Refused)
    ensures Inv(c.(followers := c.followers[t := o.node], log := c.log + o.out))
  {
    var c' := c.(followers := c.followers[t := o.node], log := c.log + o.out);
    assert c.log + [] == c.log;
    assert c.followers[t := c.followers[t]] == c.followers;
    FollowerStep(c.followers[t], Received(e), e.channel);
    if e.Write? {
      assert c' == c;
    } else {
      FollowerReceives(c, t, e.packet.req);
      if e.packet.req.opcode == OPCODE_PROPOSAL {
        ProposalKeepsInv(c, c', t, e.packet.req);
      } else {
        CommitKeepsInv(c, c', t, e.packet.req);
      }
    }
  }

  lemma {:induction false} EventKeepsInv(c: Cluster, e: Event)
    requires Inv(c) && Enabled(c, e)
    ensures Inv(Apply(c, e))
  {
    if Target(e) == c.leaderId {
      LeaderEventKeepsInv(c, e, Handle(c, e));
    } else {
      FollowerEventKeepsInv(c, e, Target(e), Handle(c, e));
    }
  }

  lemma {:induction false} RunKeepsInv(c: Cluster, es: seq<Event>)
    requires Inv(c) && IsRun(c, es)
    ensures Inv(Run(c, es))
    decreases |es|
  {
    if es != [] {
      EventKeepsInv(c, es[0]);
      RunKeepsInv(Apply(c, es[0]), es[1..]);
    }
  }
}
