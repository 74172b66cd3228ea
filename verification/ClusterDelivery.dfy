/** What a write comes to when no message is lost: every node takes it over, whatever the order. */
module ClusterDelivery {
  import opened Requests
  import opened NodeProtocol
  import opened ClusterModel
  import opened ClusterSafety
  import opened ClusterTheorems

  /** Every message to a node that is new in the run is delivered in it. A delivery needs the message
      in the log, so it comes after the sending; late, repeated and reordered deliveries are allowed,
      and so are further deliveries of older messages. */
  ghost predicate FailureFree(c: Cluster, es: seq<Event>)
    requires AllValid(c) && IsRun(c, es)
  {
    forall o :: o in Run(c, es).log && o !in c.log && o.ToPeer? ==> Delivered(es, o)
  }

  predicate Delivered(es: seq<Event>, o: Output) {
    exists e :: e in es && Delivers(e, o)
  }

  predicate Delivers(e: Event, o: Output) {
    e.Deliver? && e.packet == o
  }

  // ----- runs in two parts -----

  lemma {:induction false} RunSplit(c: Cluster, es: seq<Event>, j: nat)
    requires AllValid(c) && IsRun(c, es) && j <= |es|
    ensures IsRun(c, es[..j]) && IsRun(Run(c, es[..j]), es[j..])
    ensures Run(c, es) == Run(Run(c, es[..j]), es[j..])
    decreases j
  {
    hide Apply, Enabled;
    if j == 0 {
      assert es[..0] == [] && es[0..] == es;
    } else {
      RunSplit(Apply(c, es[0]), es[1..], j - 1);
      assert es[..j][0] == es[0] && es[..j][1..] == es[1..][..j - 1] && es[1..][j - 1..] == es[j..];
    }
  }

  lemma {:induction false} RunJoin(c: Cluster, a: seq<Event>, b: seq<Event>)
    requires AllValid(c) && IsRun(c, a) && IsRun(Run(c, a), b)
    ensures IsRun(c, a + b) && Run(c, a + b) == Run(Run(c, a), b)
    decreases |a|
  {
    hide Apply, Enabled;
    if a == [] {
      assert a + b == b;
    } else {
      RunJoin(Apply(c, a[0]), a[1..], b);
      assert (a + b)[1..] == a[1..] + b;
    }
  }

  // ----- nothing goes back -----

  ghost predicate NotBehind(c: Cluster, c': Cluster) {
    && AllValid(c) && AllValid(c') && c'.followers.Keys == c.followers.Keys && c'.leaderId == c.leaderId
    && (forall p :: p in c.followers ==> c.followers[p].myZxid <= c'.followers[p].myZxid)
    && (forall x :: 0 <= x < PEERS ==> c.leader.acked[x] <= c'.leader.acked[x])
  }

  lemma {:induction false} LeaderNotBehind(n: NodeState, r: Request, channel: Channel)
    requires n.Valid()
    requires r.opcode == OPCODE_WRITEREQ || r.opcode == OPCODE_ACKPROPOSE || r.opcode == OPCODE_SYNCREQ
    ensures forall x :: 0 <= x < PEERS ==> n.acked[x] <= Step(n, r, channel, Refused).node.acked[x]
  {
  }

  lemma {:induction false} FollowerNotBehind(f: NodeState, r: Request, channel: Channel)
    requires f.Valid() && !f.iAmLeader
    requires r.opcode == OPCODE_WRITEREQ || r.opcode == OPCODE_PROPOSAL || r.opcode == OPCODE_COMMIT
    ensures f.myZxid <= Step(f, r, channel, Refused).node.myZxid
  {
  }

  lemma {:induction false} EventNotBehind(c: Cluster, e: Event)
    requires Inv(c) && Enabled(c, e)
    ensures NotBehind(c, Apply(c, e))
  {
    hide Step, Tables, Quorums, Histories, Traffic;
    if Target(e) == c.leaderId {
      if e.Deliver? {
        LeaderReceives(c, Received(e));
      }
      LeaderNotBehind(c.leader, Received(e), e.channel);
    } else {
      if e.Deliver? {
        FollowerReceives(c, Target(e), Received(e));
      }
      FollowerNotBehind(c.followers[Target(e)], Received(e), e.channel);
    }
  }

  lemma {:induction false} RunNotBehind(c: Cluster, es: seq<Event>)
    requires Inv(c) && IsRun(c, es)
    ensures NotBehind(c, Run(c, es))
    decreases |es|
  {
    hide Apply, Enabled, Tables, Numbered, Quorums, Histories;
    if es != [] {
      EventKeepsInv(c, es[0]);
      EventNotBehind(c, es[0]);
      RunNotBehind(Apply(c, es[0]), es[1..]);
    }
  }

  /** The moment at which a new message is delivered. */
  lemma {:induction false} Delivery(c: Cluster, es: seq<Event>, o: Output)
    returns (before: Cluster, e: Event, after: Cluster)
    requires Inv(c) && IsRun(c, es) && FailureFree(c, es)
    requires o in Run(c, es).log && o !in c.log && o.ToPeer?
    ensures Inv(before) && Enabled(before, e) && Delivers(e, o) && after == Apply(before, e)
    ensures NotBehind(c, before) && NotBehind(after, Run(c, es)) && after.log <= Run(c, es).log
    ensures before.leaderId == c.leaderId && before.followers.Keys == c.followers.Keys
  {
    hide Apply, Enabled, Tables, Numbered, Quorums, Histories;
    assert Delivered(es, o);
    var d :| d in es && Delivers(d, o);
    var j :| 0 <= j < |es| && es[j] == d;
    RunSplit(c, es, j);
    before, e := Run(c, es[..j]), es[j];
    RunKeepsInv(c, es[..j]);
    RunNotBehind(c, es[..j]);
    assert es[j..][0] == e && es[j..][1..] == es[j + 1..];
    after := Apply(before, e);
    EventKeepsInv(before, e);
    RunNotBehind(after, es[j + 1..]);
  }

  // ----- one follower -----

  /** In a converged cluster no message is about a zxid above the leader's. */
  lemma {:induction false} NothingAhead(c: Cluster, o: Output)
    requires Inv(c) && Converged(c) && o in c.log && o.ToPeer? && |c.followers.Keys| > 0
    ensures o.req.opcode == OPCODE_PROPOSAL || o.req.opcode == OPCODE_ACKPROPOSE || o.req.opcode == OPCODE_COMMIT ==>
              o.req.zxid <= c.leader.myZxid
  {
    assert Traffic(c, o);
    if o.req.opcode == OPCODE_ACKPROPOSE {
      assert ProposedToAll(c, o.req.zxid);
      var q := o.req.peerId;
      var proposal := ProposedToMember(c.log, q, o.req.zxid);
    } else if o.req.opcode == OPCODE_COMMIT {
      assert InStep(c, o.peer);
    }
  }

  /** A follower that a proposal for the next zxid reaches has acknowledged it, now or before. */
  lemma {:induction false} ProposalReaches(c: Cluster, e: Event, p: int, z: int) returns (ack: Output)
    requires Inv(c) && Enabled(c, e) && e.Deliver? && IsProposalTo(e.packet, p) && p in c.followers
          && e.packet.req.zxid == z
    requires c.followers[p].myZxid >= z - 1
    ensures ack.ToPeer? && ack.peer == c.leaderId && ack.req.opcode == OPCODE_ACKPROPOSE && ack.req.peerId == p
          && ack.req.zxid == z
    ensures ack in Apply(c, e).log || c.leader.acked[p] >= z
  {
    hide Tables, Quorums, Histories, ProposedToAll;
    var r := e.packet.req;
    assert Traffic(c, e.packet);
    ack := ToPeer(c.leaderId, Request(OPCODE_ACKPROPOSE, p, z, r.epoch, []));
    if c.followers[p].myZxid == z - 1 {
      FollowerStep(c.followers[p], r, e.channel);
    } else {
      AckedAtLeast(c, p);
    }
  }

  lemma {:induction false} AckedAtLeast(c: Cluster, p: int)
    requires Configured(c) && Tables(c) && p in c.followers
    ensures c.followers[p].myZxid <= c.leader.acked[p]
  {
    assert InStep(c, p);
  }

  /** An acknowledgement that reaches the leader is counted, now or before. */
  lemma {:induction false} AckReaches(c: Cluster, e: Event, p: int, z: int)
    requires Inv(c) && Enabled(c, e) && e.Deliver? && e.packet.ToPeer? && e.packet.peer == c.leaderId
    requires var r := e.packet.req; r.opcode == OPCODE_ACKPROPOSE && r.peerId == p && r.zxid == z
    requires 0 <= p < PEERS && c.leader.acked[p] >= z - 1
    ensures Apply(c, e).leader.acked[p] >= z
  {
    hide Tables, Numbered, Quorums, Histories, CompletesQuorum;
    LeaderStep(c.leader, e.packet.req, e.channel);
  }

  /** A COMMIT that reaches a follower has moved it, now or before. */
  lemma {:induction false} CommitReaches(c: Cluster, e: Event, p: int, z: int)
    requires Inv(c) && Enabled(c, e) && e.Deliver? && IsCommitTo(e.packet, p) && p in c.followers
          && e.packet.req.zxid == z
    requires c.followers[p].myZxid >= z - 1
    ensures Apply(c, e).followers[p].myZxid >= z
  {
    hide Tables, Numbered, Quorums, Histories;
    FollowerStep(c.followers[p], e.packet.req, e.channel);
  }

  /** The follower's acknowledgement of the open zxid has been counted at the end of the run. */
  lemma {:induction false} AckCounted(c: Cluster, es: seq<Event>, p: int)
    requires Inv(c) && Converged(c) && IsRun(c, es) && FailureFree(c, es) && p in c.followers
    requires LeaderWrites(c, es) > 0 && Below(Run(c, es), c.leader.myZxid + 1)
    ensures Run(c, es).leader.acked[p] >= c.leader.myZxid + 1
  {
    hide FailureFree, IsRun, Run, Apply, Enabled, Tables, Numbered, Quorums, Histories, LeaderWrites, Delivers;
    var z := c.leader.myZxid + 1;
    var proposal := WriteIsProposed(c, es, p);
    assert proposal.req.zxid == z;
    NewSince(c, proposal);
    var s, e, t := Delivery(c, es, proposal);
    DeliveryOf(e, proposal);
    var ack := ProposalReaches(s, e, p, z);
    assert 0 <= p < PEERS;
    if ack in t.log {
      NewSince(c, ack);
      var s', e', t' := Delivery(c, es, ack);
      DeliveryOf(e', ack);
      StartsAcked(c, p);
      AckReaches(s', e', p, z);
    } else {
      EventNotBehind(s, e);
    }
  }

  lemma {:induction false} DeliveryOf(e: Event, o: Output)
    requires Delivers(e, o)
    ensures e.Deliver? && e.packet == o
  {
  }

  lemma {:induction false} NewSince(c: Cluster, o: Output)
    requires Inv(c) && Converged(c) && o.ToPeer? && |c.followers.Keys| > 0
    requires o.req.opcode == OPCODE_PROPOSAL || o.req.opcode == OPCODE_ACKPROPOSE || o.req.opcode == OPCODE_COMMIT
    requires o.req.zxid > c.leader.myZxid
    ensures o !in c.log
  {
    if o in c.log {
      NothingAhead(c, o);
    }
  }

  lemma {:induction false} StartsAcked(c: Cluster, p: int)
    requires Inv(c) && Converged(c) && p in c.followers
    ensures c.leader.acked[p] >= c.leader.myZxid
  {
    assert InStep(c, p);
  }

  /** A COMMIT that the leader has sent since has moved the follower at the end of the run. */
  lemma {:induction false} CommitCounted(c: Cluster, es: seq<Event>, p: int)
    requires Inv(c) && Converged(c) && IsRun(c, es) && FailureFree(c, es) && p in c.followers
    requires Run(c, es).leader.commited[p] >= c.leader.myZxid + 1
    ensures p in Run(c, es).followers && Run(c, es).followers[p].myZxid >= c.leader.myZxid + 1
  {
    hide FailureFree, IsRun, Run, Apply, Enabled, InStep, Numbered, Quorums, LeaderWrites, Delivers;
    var z := c.leader.myZxid + 1;
    var c' := Run(c, es);
    RunKeepsInv(c, es);
    SameMembers(c, es, p);
    UpToHolds(c'.leader.commited[p], z);
    var commit := CommitsToMember(c'.log, p, z);
    NewSince(c, commit);
    var s, e, t := Delivery(c, es, commit);
    DeliveryOf(e, commit);
    CommitReaches(s, e, p, z);
  }

  lemma {:induction false} UpToHolds(k: int, z: int)
    requires 1 <= z <= k
    ensures z in UpTo(k)
  {
    assert UpTo(k)[z - 1] == z;
  }

  /** When everybody acknowledged the next zxid, the leader has taken it and told everybody. */
  lemma {:induction false} AllAckedAllTold(c: Cluster, z: int, p: int)
    requires Inv(c) && |c.followers.Keys| >= 2 && c.leader.myZxid <= z && p in c.followers
    requires forall q :: q in c.followers ==> c.leader.acked[q] >= z
    ensures c.leader.myZxid == z && c.leader.commited[p] >= z
  {
    forall q | q in c.followers
      ensures c.leader.acked[q] <= c.leader.myZxid + 1
    {
      assert InStep(c, q);
    }
    if c.leader.myZxid < z {
      assert AllAcked(c, c.leader.myZxid + 1);
      SomebodyLags(c);
    }
    assert InStep(c, p);
  }

  /** With three nodes or more, when a converged cluster takes writes for one zxid and loses no
      message, it is converged again in the end, in whatever order and however late the messages
      arrive: every node is one zxid further, and every follower was sent one more COMMIT. */
  lemma {:induction false} OpenWriteConverges(c: Cluster, es: seq<Event>)
    requires Inv(c) && Converged(c) && |c.followers.Keys| >= 2 && IsRun(c, es) && FailureFree(c, es)
    requires LeaderWrites(c, es) > 0 && Below(Run(c, es), c.leader.myZxid + 1)
    ensures var c' := Run(c, es);
            Inv(c') && Converged(c') && c'.leader.myZxid == c.leader.myZxid + 1
  {
    hide FailureFree, IsRun, Run, Apply, Enabled, Numbered, Quorums, Histories, LeaderWrites;
    var z := c.leader.myZxid + 1;
    var c' := Run(c, es);
    RunKeepsInv(c, es);
    forall p | p in c'.followers
      ensures c'.leader.acked[p] >= z
    {
      assert p in c'.followers.Keys;
      AckCounted(c, es, p);
    }
    forall p | p in c'.followers
      ensures c'.followers[p].myZxid == z == c'.leader.myZxid
    {
      assert p in c'.followers.Keys;
      AllAckedAllTold(c', z, p);
      CommitCounted(c, es, p);
      assert InStep(c', p);
    }
    SomeFollower(c');
  }

  lemma {:induction false} SomeFollower(c: Cluster)
    requires |c.followers.Keys| >= 2
    ensures exists p :: p in c.followers
  {
    if forall p :: p !in c.followers {
      NoneIsEmpty(c.followers.Keys);
    }
  }

  lemma {:induction false} NoneIsEmpty<T(!new)>(keys: set<T>)
    requires forall p :: p !in keys
    ensures |keys| == 0
  {
    assert keys == {};
  }

  /** One write from a converged cluster of three nodes or more, no message lost: all nodes end at the
      same zxid, one higher, and each follower is sent exactly one COMMIT. */
  lemma {:induction false} OneWriteConverges(c: Cluster, es: seq<Event>)
    requires Inv(c) && Converged(c) && |c.followers.Keys| >= 2 && IsRun(c, es) && FailureFree(c, es)
    requires LeaderWrites(c, es) == 1
    ensures var c' := Run(c, es);
            && Converged(c') && c'.leader.myZxid == c.leader.myZxid + 1
            && c'.followers.Keys == c.followers.Keys
            && forall p :: p in c.followers ==>
                 p in c'.followers && c'.followers[p].myZxid == c.leader.myZxid + 1
                 && CommitsTo(c'.log, p) == CommitsTo(c.log, p) + [c.leader.myZxid + 1]
  {
    hide FailureFree, IsRun, Run, Numbered, Quorums, LeaderWrites, CommitsTo, UpTo;
    WritesBoundZxid(c, es, c.leader.myZxid);
    OpenWriteConverges(c, es);
    var c' := Run(c, es);
    forall p | p in c.followers
      ensures p in c'.followers && c'.followers[p].myZxid == c.leader.myZxid + 1
              && CommitsTo(c'.log, p) == CommitsTo(c.log, p) + [c.leader.myZxid + 1]
    {
      SameMembers(c, es, p);
      CommitsOfConverged(c, p);
      CommitsOfConverged(c', p);
      UpToNext(c.leader.myZxid);
    }
  }

  // ----- there are such runs -----

  function ProposalTo(c: Cluster, p: int, payload: seq<JByte>): (o: Output) {
    ToPeer(p, Proposal(c.leader, payload))
  }

  /** The acknowledgement of follower `p`. */
  function AckFrom(c: Cluster, p: JByte): (o: Output) {
    ToPeer(c.leaderId, Request(OPCODE_ACKPROPOSE, p, c.leader.myZxid + 1, c.leader.myEpoch, []))
  }

  function CommitFor(c: Cluster, p: int): (o: Output) {
    ToPeer(p, Request(OPCODE_COMMIT, c.leader.myId, c.leader.myZxid + 1, c.leader.myEpoch, []))
  }

  /** What the leader writes when it takes an acknowledgement. */
  lemma {:induction false} AckOutputs(n: NodeState, r: Request, o: Output)
    requires n.Valid() && o in AckPropose(n, r).out && o.ToPeer?
    ensures 0 <= o.peer < PEERS && n.sockets[o.peer] && o.req == Request(OPCODE_COMMIT, n.myId, r.zxid, r.epoch, [])
  {
  }

  lemma {:induction false} Listed(keys: set<int>) returns (ps: seq<int>)
    ensures forall p :: p in ps <==> p in keys
    decreases |keys|
  {
    if p: int :| p in keys {
      ps := Listed(keys - {p});
      ps := ps + [p];
    } else {
      ps := [];
    }
  }

  lemma {:induction false} RunFirst(s: Cluster, e: Event, rest: seq<Event>)
    requires AllValid(s) && Enabled(s, e) && IsRun(Apply(s, e), rest)
    ensures IsRun(s, [e] + rest) && Run(s, [e] + rest) == Run(Apply(s, e), rest)
  {
    assert ([e] + rest)[1..] == rest;
  }

  lemma {:induction false} DeliveredFirst(e: Event, rest: seq<Event>, o: Output)
    requires Delivers(e, o) || Delivered(rest, o)
    ensures Delivered([e] + rest, o)
  {
    if Delivers(e, o) {
      assert e in [e] + rest;
    } else {
      DeliveredMore(rest, [e] + rest, o);
    }
  }

  lemma {:induction false} PrefixHas<T>(a: seq<T>, b: seq<T>, x: T)
    requires a <= b && x in a
    ensures x in b
  {
    var i :| 0 <= i < |a| && a[i] == x;
    assert b[i] == x;
  }

  lemma {:induction false} NoRun(s: Cluster)
    requires AllValid(s)
    ensures IsRun(s, []) && Run(s, []) == s
  {
  }

  /** A cluster in the middle of the write that came up in `c`: its leader is the same but for its tables. */
  ghost predicate Amid(c: Cluster, s: Cluster) {
    && Configured(c) && AllValid(s) && s.leaderId == c.leaderId && s.followers.Keys == c.followers.Keys
    && s.leader.iAmLeader && s.leader.myId == c.leader.myId && s.leader.myEpoch == c.leader.myEpoch
    && s.leader.sockets == c.leader.sockets
    && forall p :: p in s.followers ==> !s.followers[p].iAmLeader
  }

  /** The proposals for the followers `ps` are delivered, and each is acknowledged. */
  lemma {:induction false} DeliverProposals(c: Cluster, s: Cluster, ps: seq<int>, payload: seq<JByte>)
    returns (es: seq<Event>)
    requires Inv(c) && Converged(c) && Amid(c, s) && s.followers == c.followers
    requires forall p :: p in ps ==> p in c.followers && ProposalTo(c, p, payload) in s.log
    ensures IsRun(s, es) && forall e :: e in es ==> e.Deliver?
    ensures var t := Run(s, es);
            && Amid(c, t) && t.followers == c.followers && t.leader == s.leader && s.log <= t.log
            && (forall o :: o in t.log && o !in s.log ==> exists p :: p in ps && IsAck(c, o, p))
            && (forall p: int :: p in ps ==>
                  -128 <= p < 128 && AckFrom(c, p) in t.log && Delivered(es, ProposalTo(c, p, payload)))
    decreases |ps|
  {
    hide Numbered, Quorums, Histories, Apply, Enabled, IsRun, Run, Delivered;
    if ps == [] {
      es := [];
      NoRun(s);
    } else {
      var p := ps[0];
      var packet := ProposalTo(c, p, payload);
      var e := Deliver(packet, 0);
      var s1 := s.(log := s.log + [AckFrom(c, p)]);
      AnswersProposal(c, s, p, payload);
      var rest := DeliverProposals(c, s1, ps[1..], payload);
      es := [e] + rest;
      RunFirst(s, e, rest);
      forall q: int | q in ps
        ensures -128 <= q < 128 && AckFrom(c, q) in Run(s, es).log && Delivered(es, ProposalTo(c, q, payload))
      {
        assert q == p || q in ps[1..];
        DeliveredFirst(e, rest, ProposalTo(c, q, payload));
        assert AckFrom(c, p) in s1.log;
        PrefixHas(s1.log, Run(s, es).log, AckFrom(c, p));
      }
      assert IsAck(c, AckFrom(c, p), p);
    }
  }

  predicate IsAck(c: Cluster, o: Output, p: int) {
    -128 <= p < 128 && o == AckFrom(c, p)
  }

  lemma {:induction false} AnswersProposal(c: Cluster, s: Cluster, p: int, payload: seq<JByte>)
    requires Inv(c) && Converged(c) && Amid(c, s) && s.followers == c.followers && p in c.followers
    requires ProposalTo(c, p, payload) in s.log
    ensures var e := Deliver(ProposalTo(c, p, payload), 0);
            Enabled(s, e) && Apply(s, e) == s.(log := s.log + [AckFrom(c, p)])
  {
    hide Numbered, Quorums, Histories;
    var f := c.followers[p];
    FollowerStep(f, Proposal(c.leader, payload), 0);
    assert s.followers[p := f] == s.followers;
  }

  lemma {:induction false} AckKeepsLeader(n: NodeState, r: Request)
    requires n.Valid()
    ensures var n' := AckPropose(n, r).node;
            && n'.Valid() && n'.iAmLeader == n.iAmLeader && n'.myId == n.myId && n'.myEpoch == n.myEpoch
                  && n'.sockets == n.sockets
  {
  }

  lemma {:induction false} TakesAck(c: Cluster, s: Cluster, p: JByte)
    requires Amid(c, s) && p in c.followers && AckFrom(c, p) in s.log
    ensures var e := Deliver(AckFrom(c, p), 0);
            && Enabled(s, e) && Amid(c, Apply(s, e)) && Apply(s, e).followers == s.followers
            && forall o :: o in Apply(s, e).log && o !in s.log && o.ToPeer? ==>
                  o.peer in c.followers && o == CommitFor(c, o.peer)
  {
    hide AckPropose;
    var e := Deliver(AckFrom(c, p), 0);
    var r := AckFrom(c, p).req;
    LeaderStep(s.leader, r, 0);
    AckKeepsLeader(s.leader, r);
    forall o | o in Apply(s, e).log && o !in s.log && o.ToPeer?
      ensures o.peer in c.followers && o == CommitFor(c, o.peer)
    {
      AckOutputs(s.leader, r, o);
    }
  }

  /** The acknowledgements of the followers `ps` are delivered; all the leader sends is COMMIT. */
  lemma {:induction false} DeliverAcks(c: Cluster, s: Cluster, ps: seq<int>) returns (es: seq<Event>)
    requires Amid(c, s) && forall p: int :: p in ps ==> p in c.followers && -128 <= p < 128 && AckFrom(c, p) in s.log
    ensures IsRun(s, es) && forall e :: e in es ==> e.Deliver?
    ensures var t := Run(s, es);
            && Amid(c, t) && t.followers == s.followers && s.log <= t.log
            && (forall o :: o in t.log && o !in s.log && o.ToPeer? ==>
                  o.peer in c.followers && o == CommitFor(c, o.peer))
            && (forall p: int :: p in ps ==> -128 <= p < 128 && Delivered(es, AckFrom(c, p)))
    decreases |ps|
  {
    hide Apply, Enabled, Amid, IsRun, Run, Delivered, AckFrom, CommitFor;
    AmidConfigured(c, s);
    if ps == [] {
      es := [];
      NoRun(s);
    } else {
      assert ps[0] in ps;
      var p: JByte := ps[0];
      var e := Deliver(AckFrom(c, p), 0);
      TakesAck(c, s, p);
      forall q: int | q in ps[1..]
        ensures q in c.followers && -128 <= q < 128 && AckFrom(c, q) in Apply(s, e).log
      {
        assert q in ps;
        PrefixHas(s.log, Apply(s, e).log, AckFrom(c, q));
      }
      var rest := DeliverAcks(c, Apply(s, e), ps[1..]);
      es := [e] + rest;
      RunFirst(s, e, rest);
      forall q: int | q in ps
        ensures -128 <= q < 128 && Delivered(es, AckFrom(c, q))
      {
        assert q == p || q in ps[1..];
        DeliveredFirst(e, rest, AckFrom(c, q));
      }
    }
  }

  lemma {:induction false} AmidConfigured(c: Cluster, s: Cluster)
    requires Amid(c, s)
    ensures Configured(c) && AllValid(s) && forall p :: p in c.followers ==> 0 <= p < PEERS
  {
  }

  lemma {:induction false} TakesCommit(c: Cluster, s: Cluster, p: int)
    requires Amid(c, s) && p in c.followers && CommitFor(c, p) in s.log
    ensures var e := Deliver(CommitFor(c, p), 0);
            Enabled(s, e) && Amid(c, Apply(s, e)) && Apply(s, e).log == s.log && Apply(s, e).leader == s.leader
  {
    FollowerStep(s.followers[p], CommitFor(c, p).req, 0);
  }

  /** The COMMITs that were sent to the followers `ps` are delivered; nothing more is sent. */
  lemma {:induction false} DeliverCommits(c: Cluster, s: Cluster, ps: seq<int>) returns (es: seq<Event>)
    requires Amid(c, s) && forall p :: p in ps ==> p in c.followers
    ensures IsRun(s, es) && forall e :: e in es ==> e.Deliver?
    ensures Run(s, es).log == s.log && Run(s, es).leader == s.leader
    ensures CommitsDelivered(c, s, ps, es)
    decreases |ps|
  {
    hide Apply, Enabled, Amid, IsRun, Run, CommitFor, CommitsDelivered;
    AmidConfigured(c, s);
    if ps == [] {
      es := [];
      NoRun(s);
      NoCommits(c, s, es);
    } else if CommitFor(c, ps[0]) in s.log {
      var e := Deliver(CommitFor(c, ps[0]), 0);
      TakesCommit(c, s, ps[0]);
      var rest := DeliverCommits(c, Apply(s, e), ps[1..]);
      es := [e] + rest;
      RunFirst(s, e, rest);
      CommitFirst(c, s, Apply(s, e), ps, rest);
    } else {
      es := DeliverCommits(c, s, ps[1..]);
      CommitSkipped(c, s, ps, es);
    }
  }

  ghost predicate CommitsDelivered(c: Cluster, s: Cluster, ps: seq<int>, es: seq<Event>) {
    forall p: int :: p in ps && CommitFor(c, p) in s.log ==> Delivered(es, CommitFor(c, p))
  }

  lemma {:induction false} NoCommits(c: Cluster, s: Cluster, es: seq<Event>)
    ensures CommitsDelivered(c, s, [], es)
  {
  }

  lemma {:induction false} CommitFirst(c: Cluster, s: Cluster, s': Cluster, ps: seq<int>, rest: seq<Event>)
    requires ps != [] && s'.log == s.log && CommitsDelivered(c, s', ps[1..], rest)
    ensures CommitsDelivered(c, s, ps, [Deliver(CommitFor(c, ps[0]), 0)] + rest)
  {
    hide CommitFor, Delivered;
    var e := Deliver(CommitFor(c, ps[0]), 0);
    forall q: int | q in ps && CommitFor(c, q) in s.log
      ensures Delivered([e] + rest, CommitFor(c, q))
    {
      assert q == ps[0] || q in ps[1..];
      DeliveredFirst(e, rest, CommitFor(c, q));
    }
  }

  lemma {:induction false} CommitSkipped(c: Cluster, s: Cluster, ps: seq<int>, es: seq<Event>)
    requires ps != [] && CommitFor(c, ps[0]) !in s.log && CommitsDelivered(c, s, ps[1..], es)
    ensures CommitsDelivered(c, s, ps, es)
  {
    hide CommitFor, Delivered;
    assert ps == [ps[0]] + ps[1..];
  }

  lemma {:induction false} DeliveriesWriteNothing(c: Cluster, es: seq<Event>)
    requires forall e :: e in es ==> e.Deliver?
    ensures LeaderWrites(c, es) == 0
  {
    if es != [] {
      DeliveriesWriteNothing(c, es[..|es| - 1]);
      assert es[|es| - 1] in es;
    }
  }

  lemma {:induction false} TakesWrite(c: Cluster, channel: Channel, req: Request)
    requires Configured(c) && req.opcode == OPCODE_WRITEREQ && req.payload != []
    ensures var e := Write(c.leaderId, channel, req); var s := Apply(c, e);
            && Enabled(c, e) && Amid(c, s) && s.followers == c.followers && c.log <= s.log
            && (forall o :: o in s.log && o !in c.log && o.ToPeer? ==>
                  o.peer in c.followers && o == ProposalTo(c, o.peer, req.payload))
            && (forall p :: p in c.followers ==> ProposalTo(c, p, req.payload) in s.log)
  {
    LeaderStep(c.leader, req, channel);
  }

  /** From every converged cluster, every write with a payload can be carried through without
      a lost message. */
  lemma {:induction false} FailureFreeRunExists(c: Cluster, channel: Channel, req: Request) returns (es: seq<Event>)
    requires Inv(c) && Converged(c) && req.opcode == OPCODE_WRITEREQ && req.payload != []
    ensures IsRun(c, es) && FailureFree(c, es) && LeaderWrites(c, es) == 1
    ensures es != [] && es[0] == Write(c.leaderId, channel, req)
  {
    hide Apply, Enabled, Amid, Tables, Numbered, Quorums, Histories, Delivered;
    var ps := Listed(c.followers.Keys);
    var payload := req.payload;
    var w := Write(c.leaderId, channel, req);
    TakesWrite(c, channel, req);
    var s1 := Apply(c, w);
    var a := DeliverProposals(c, s1, ps, payload);
    var s2 := Run(s1, a);
    var b := DeliverAcks(c, s2, ps);
    var s3 := Run(s2, b);
    var d := DeliverCommits(c, s3, ps);
    RunJoin(s1, a, b);
    RunJoin(s1, a + b, d);
    es := [w] + (a + b + d);
    assert es[1..] == a + b + d;
    forall o | o in Run(c, es).log && o !in c.log && o.ToPeer?
      ensures Delivered(es, o)
    {
      if o in s1.log {
        DeliveredMore(a, es, o);
      } else if o in s2.log {
        var p :| p in ps && IsAck(c, o, p);
        DeliveredMore(b, es, o);
      } else {
        DeliveredMore(d, es, o);
      }
    }
    DeliveriesWriteNothing(c, a + b + d);
    WritesSplit(c, es);
  }

  lemma {:induction false} DeliveredMore(part: seq<Event>, es: seq<Event>, o: Output)
    requires Delivered(part, o) && forall e :: e in part ==> e in es
    ensures Delivered(es, o)
  {
  }
}
