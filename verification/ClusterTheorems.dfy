/** What the invariant means for a cluster: how far nodes drift apart, what a committed zxid
    guarantees, what clients are told, and where a cluster comes to rest. */
module ClusterTheorems {
  import opened Requests
  import opened NodeProtocol
  import opened ClusterModel
  import opened ClusterSafety

  lemma {:induction false} Reachable(c0: Cluster, es: seq<Event>)
    requires Initial(c0) && IsRun(c0, es)
    ensures Inv(Run(c0, es))
  {
    InitialInv(c0);
    RunKeepsInv(c0, es);
  }

  /** The leader's tables are never more than one zxid away from the follower they describe. */
  lemma {:induction false} NodesStayClose(c0: Cluster, es: seq<Event>, p: int)
    requires Initial(c0) && IsRun(c0, es) && p in c0.followers && 0 <= p < PEERS
    ensures var c := Run(c0, es);
            var zxid, commited, acked := c.followers[p].myZxid, c.leader.commited[p], c.leader.acked[p];
            && zxid <= commited <= acked <= zxid + 1
            && commited <= c.leader.myZxid && acked <= c.leader.myZxid + 1
            && (acked <= c.leader.myZxid ==> commited == acked)
  {
    Reachable(c0, es);
    var c := Run(c0, es);
    assert p in c.followers.Keys;
    assert InStep(c, p);
  }

  /** Every follower is sent COMMIT 1, 2, 3, ... and clients are answered 1, 2, 3, ...: no gap, no repeat. */
  lemma {:induction false} CommitsAndAnswersInOrder(c0: Cluster, es: seq<Event>, p: int)
    requires Initial(c0) && IsRun(c0, es) && p in c0.followers && 0 <= p < PEERS
    ensures var c := Run(c0, es);
            && CommitsTo(c.log, p) == UpTo(c.leader.commited[p])
            && Answers(c.log) == UpTo(c.leader.myZxid)
  {
    Reachable(c0, es);
    assert p in Run(c0, es).followers.Keys;
  }

  // ----- quorums -----

  /** Followers that acknowledged `z` to the leader. */
  ghost function AckedBy(c: Cluster, z: int): (voters: set<int>) {
    SlotsFrom(c.leader.acked, z)
  }

  /** Every committed zxid was acked by more than half of the cluster, not counting the leader. */
  lemma {:induction false} CommittedHasQuorum(c0: Cluster, es: seq<Event>, z: int)
    requires Initial(c0) && IsRun(c0, es) && 1 <= z <= Run(c0, es).leader.myZxid
    ensures var c := Run(c0, es);
            && AckedBy(c, z) <= c.followers.Keys
            && 2 * |AckedBy(c, z)| > |c.followers.Keys| + 1
            && forall p :: p in AckedBy(c, z) ==> c.followers[p].myZxid >= z - 1
  {
    Reachable(c0, es);
    var c := Run(c0, es);
    var top := SlotsFrom(c.leader.acked, c.leader.myZxid);
    assert top <= AckedBy(c, z);
    SubsetSize(top, AckedBy(c, z));
    forall p | p in AckedBy(c, z)
      ensures p in c.followers && c.followers[p].myZxid >= z - 1
    {
      assert p in c.followers;
      assert InStep(c, p);
    }
  }

  /** A zxid is committed exactly when more than half of the cluster, not counting the leader, has acked it. */
  lemma {:induction false} CommittedIffQuorum(c0: Cluster, es: seq<Event>, z: int)
    requires Initial(c0) && IsRun(c0, es) && z >= 1
    ensures var c := Run(c0, es);
            var voters := set p | p in c.followers.Keys && 0 <= p < PEERS && c.leader.acked[p] >= z;
            z <= c.leader.myZxid <==> 2 * |voters| > |c.followers.Keys| + 1
  {
    hide Run, IsRun, Inv;
    Reachable(c0, es);
    FollowersVote(Run(c0, es), z);
    QuorumIff(Run(c0, es), z);
  }

  lemma {:induction false} QuorumIff(c: Cluster, z: int)
    requires Inv(c) && z >= 1
    ensures z <= c.leader.myZxid <==> 2 * |SlotsFrom(c.leader.acked, z)| > |c.followers.Keys| + 1
  {
    hide Tables, Numbered, Histories, InStep;
    var top := c.leader.myZxid;
    if z <= top {
      SubsetSize(SlotsFrom(c.leader.acked, top), SlotsFrom(c.leader.acked, z));
    } else {
      SubsetSize(SlotsFrom(c.leader.acked, z), SlotsFrom(c.leader.acked, top + 1));
    }
  }

  lemma {:induction false} FollowersVote(c: Cluster, z: int)
    requires Inv(c) && z >= 1
    ensures (set p | p in c.followers.Keys && 0 <= p < PEERS && c.leader.acked[p] >= z) == SlotsFrom(c.leader.acked, z)
  {
    hide Numbered, Quorums, Histories, InStep;
    forall p | p in SlotsFrom(c.leader.acked, z)
      ensures p in c.followers.Keys
    {
      assert 0 <= p < PEERS;
    }
  }

  /** Two strict majorities of the cluster made of followers only have a follower in common. */
  lemma {:induction false} MajoritiesMeet(followers: set<int>, a: set<int>, b: set<int>) returns (p: int)
    requires a <= followers && b <= followers
    requires 2 * |a| > |followers| + 1 && 2 * |b| > |followers| + 1
    ensures p in a && p in b
  {
    if forall q :: q in a ==> q !in b {
      assert a * b == {};
      SubsetSize(a + b, followers);
      assert false;
    }
    p :| p in a && p in b;
  }

  /** Whatever majority of followers survives, one of them has acked every committed zxid. */
  lemma {:induction false} CommittedSurvives(c0: Cluster, es: seq<Event>, alive: set<int>, z: int) returns (p: int)
    requires Initial(c0) && IsRun(c0, es) && 1 <= z <= Run(c0, es).leader.myZxid
    requires alive <= c0.followers.Keys && 2 * |alive| > |c0.followers.Keys| + 1
    ensures p in alive && p in AckedBy(Run(c0, es), z)
    ensures p in Run(c0, es).followers && Run(c0, es).followers[p].myZxid >= z - 1
  {
    CommittedHasQuorum(c0, es, z);
    p := MajoritiesMeet(c0.followers.Keys, alive, AckedBy(Run(c0, es), z));
  }

  /** The quorum needs two followers: a cluster of two nodes never commits anything. */
  lemma {:induction false} TwoNodesNeverCommit(c0: Cluster, es: seq<Event>)
    requires Initial(c0) && IsRun(c0, es) && |c0.followers.Keys| <= 1
    ensures Run(c0, es).leader.myZxid == 0 && Answers(Run(c0, es).log) == []
  {
    Reachable(c0, es);
    var c := Run(c0, es);
    if c.leader.myZxid > 0 {
      CommittedHasQuorum(c0, es, 1);
      SubsetSize(AckedBy(c, 1), c.followers.Keys);
    }
  }

  // ----- one commit per zxid -----

  /** The branch of the code that commits for the whole cluster. */
  predicate TakesQuorumBranch(c: Cluster, e: Event)
    requires AllValid(c) && Enabled(c, e)
  {
    var r := Received(e);
    && Target(e) == c.leaderId && r.opcode == OPCODE_ACKPROPOSE && c.leader.iAmLeader
    && 0 <= r.peerId < PEERS && r.zxid == c.leader.acked[r.peerId] + 1
    && CompletesQuorum(c.leader, r.zxid)
  }

  lemma {:induction false} QuorumIsForNext(c: Cluster, r: Request)
    requires Inv(c) && ToPeer(c.leaderId, r) in c.log && r.opcode == OPCODE_ACKPROPOSE
    requires CompletesQuorum(c.leader, r.zxid)
    ensures 0 <= r.peerId < PEERS && r.zxid == c.leader.myZxid + 1
  {
    assert Traffic(c, ToPeer(c.leaderId, r));
    if r.zxid <= c.leader.myZxid {
      CommittedSomewhere(c, r.zxid);
    }
  }

  lemma {:induction false} LeaderMovesOnQuorum(n: NodeState, r: Request, channel: Channel)
    requires n.Valid() && n.iAmLeader
    requires r.opcode == OPCODE_WRITEREQ || r.opcode == OPCODE_ACKPROPOSE || r.opcode == OPCODE_SYNCREQ
    ensures Step(n, r, channel, Refused).node.myZxid
         == if r.opcode == OPCODE_ACKPROPOSE && 0 <= r.peerId < PEERS && r.zxid == n.acked[r.peerId] + 1
                 && CompletesQuorum(n, r.zxid)
            then r.zxid else n.myZxid
  {
  }

  /** That branch is taken for the next zxid only, and nothing else moves the leader. */
  lemma {:induction false} LeaderAdvancesByOne(c: Cluster, e: Event)
    requires Inv(c) && Enabled(c, e)
    ensures TakesQuorumBranch(c, e) ==> Received(e).zxid == c.leader.myZxid + 1
    ensures Apply(c, e).leader.myZxid == c.leader.myZxid + if TakesQuorumBranch(c, e) then 1 else 0
  {
    var r := Received(e);
    if Target(e) == c.leaderId {
      if e.Deliver? {
        LeaderReceives(c, r);
      }
      LeaderMovesOnQuorum(c.leader, r, e.channel);
      if TakesQuorumBranch(c, e) {
        QuorumIsForNext(c, r);
      }
    }
  }

  // ----- who is answered -----

  /** A write that the leader proposes: one with a payload. */
  predicate IsLeaderWrite(c: Cluster, e: Event) {
    e.Write? && e.target == c.leaderId && e.req.payload != []
  }

  /** The clients whose write the leader proposed while `z` was the next zxid, in order. */
  ghost function Writers(c: Cluster, es: seq<Event>, z: int): (s: seq<Channel>)
    requires AllValid(c) && IsRun(c, es)
    decreases |es|
  {
    if es == [] then []
    else
      var later := Writers(Apply(c, es[0]), es[1..], z);
      if IsLeaderWrite(c, es[0]) && c.leader.myZxid + 1 == z then [es[0].channel] + later else later
  }

  /** The clients that were told `z` is done, in order. */
  function AnsweredOn(log: seq<Output>, z: int): (s: seq<Channel>) {
    if log == [] then []
    else
      var last := log[|log| - 1];
      AnsweredOn(log[..|log| - 1], z) + if last.ToChannel? && last.req.zxid == z then [last.channel] else []
  }

  lemma {:induction false} AnsweredCount(log: seq<Output>, z: int, channel: Channel)
    requires forall o :: o in log && o.ToChannel? && o.req.zxid == z ==> o.channel == channel
    ensures AnsweredOn(log, z) == seq(multiset(Answers(log))[z], _ => channel)
  {
    if log != [] {
      var last := log[|log| - 1];
      assert last in log;
      AnsweredCount(log[..|log| - 1], z, channel);
    }
  }

  lemma {:induction false} CountUpTo(k: int, z: int)
    ensures multiset(UpTo(k))[z] == if 1 <= z <= k then 1 else 0
    decreases k
  {
    if k > 0 {
      CountUpTo(k - 1, z);
      UpToNext(k - 1);
    }
  }

  lemma {:induction false} WriteTakesSlot(c: Cluster, e: Event, z: int)
    requires Configured(c) && (forall o :: o in c.log ==> Traffic(c, o)) && Enabled(c, e)
    ensures Apply(c, e).leader.rsock == if IsLeaderWrite(c, e) then c.leader.rsock[c.leader.myZxid + 1 := e.channel]
          else c.leader.rsock
  {
    hide Traffic;
    if Target(e) == c.leaderId && e.Deliver? {
      LeaderReceives(c, e.packet.req);
      LeaderKeepsSlots(c.leader, e.packet.req, e.channel);
    }
  }

  lemma {:induction false} LeaderKeepsSlots(n: NodeState, r: Request, channel: Channel)
    requires n.Valid() && (r.opcode == OPCODE_ACKPROPOSE || r.opcode == OPCODE_SYNCREQ)
    ensures Step(n, r, channel, Refused).node.rsock == n.rsock
  {
  }

  /** The slot of `z` after a run that started with `before` and in which `writers` asked for `z`. */
  ghost predicate SlotIsLast(before: map<int, Channel>, after: map<int, Channel>, writers: seq<Channel>, z: int) {
    if writers != [] then z in after && after[z] == writers[|writers| - 1]
    else (z in after <==> z in before) && (z in after ==> after[z] == before[z])
  }

  lemma {:induction false} SlotTwice(before: map<int, Channel>, mid: map<int, Channel>, after: map<int, Channel>,
        next: int,
                  channel: Channel, write: bool, later: seq<Channel>, z: int)
    requires mid == if write then before[next := channel] else before
    requires SlotIsLast(mid, after, later, z)
    ensures SlotIsLast(before, after, if write && next == z then [channel] + later else later, z)
  {
  }

  lemma {:induction false} LastWriterHoldsSlot(c: Cluster, es: seq<Event>, z: int)
    requires Inv(c) && IsRun(c, es)
    ensures SlotIsLast(c.leader.rsock, Run(c, es).leader.rsock, Writers(c, es, z), z)
    decreases |es|
  {
    if es != [] {
      var c1 := Apply(c, es[0]);
      var after, w1 := Run(c1, es[1..]).leader.rsock, Writers(c1, es[1..], z);
      WriteTakesSlot(c, es[0], z);
      assert SlotIsLast(c1.leader.rsock, after, w1, z) by {
        EventKeepsInv(c, es[0]);
        LastWriterHoldsSlot(c1, es[1..], z);
      }
      SlotTwice(c.leader.rsock, c1.leader.rsock, after, c.leader.myZxid + 1, es[0].channel, IsLeaderWrite(c, es[0]),
            w1, z);
    }
  }

  /** `answered` is the holder of the slot of `z`, once `z` is committed. */
  ghost predicate HolderAnswered(rsock: map<int, Channel>, zxid: int, answered: seq<Channel>, z: int) {
    if 1 <= z <= zxid then z in rsock && answered == [rsock[z]] else answered == []
  }

  lemma {:induction false} AnsweredFromSlot(c: Cluster, z: int)
    requires Inv(c)
    ensures HolderAnswered(c.leader.rsock, c.leader.myZxid, AnsweredOn(c.log, z), z)
  {
    CountUpTo(c.leader.myZxid, z);
    if 1 <= z <= c.leader.myZxid {
      SlotForCommitted(c, z);
    }
    var channel := if z in c.leader.rsock then c.leader.rsock[z] else 0;
    forall o | o in c.log && o.ToChannel? && o.req.zxid == z
      ensures o.channel == channel
    {
      assert Traffic(c, o);
    }
    AnsweredCount(c.log, z, channel);
  }

  lemma {:induction false} HolderIsLastWriter(rsock: map<int, Channel>, zxid: int, answered: seq<Channel>,
        w: seq<Channel>, z: int)
    requires SlotIsLast(map[], rsock, w, z) && HolderAnswered(rsock, zxid, answered, z)
    ensures if 1 <= z <= zxid then w != [] && answered == [w[|w| - 1]] else answered == []
  {
  }

  /** Of all clients whose write was proposed under `z`, exactly the last one is answered, exactly
      once, and only when `z` has been committed. */
  lemma {:induction false} LastWriterIsAnswered(c0: Cluster, es: seq<Event>, z: int)
    requires Initial(c0) && IsRun(c0, es)
    ensures var c := Run(c0, es); var w := Writers(c0, es, z);
            if 1 <= z <= c.leader.myZxid then w != [] && AnsweredOn(c.log, z) == [w[|w| - 1]]
            else AnsweredOn(c.log, z) == []
  {
    hide SlotIsLast, HolderAnswered, Writers, AnsweredOn, Run, IsRun, Tables, Numbered, Quorums, Histories;
    var c := Run(c0, es);
    assert SlotIsLast(map[], c.leader.rsock, Writers(c0, es, z), z) by {
      InitialInv(c0);
      LastWriterHoldsSlot(c0, es, z);
    }
    assert HolderAnswered(c.leader.rsock, c.leader.myZxid, AnsweredOn(c.log, z), z) by {
      Reachable(c0, es);
      AnsweredFromSlot(c, z);
    }
    HolderIsLastWriter(c.leader.rsock, c.leader.myZxid, AnsweredOn(c.log, z), Writers(c0, es, z), z);
  }

  /** A committed zxid came out of a write. */
  lemma {:induction false} SlotForCommitted(c: Cluster, z: int)
    requires Inv(c) && 1 <= z <= c.leader.myZxid
    ensures z in c.leader.rsock
  {
    var voters := SlotsFrom(c.leader.acked, c.leader.myZxid);
    assert voters != {};
    var p :| p in voters;
    assert ProposedToAll(c, z);
    var o := ProposedToMember(c.log, p, z);
    assert Traffic(c, o);
  }

  // ----- where a cluster comes to rest -----

  /** Delivering anything in the log again changes no node, and produces nothing new but sync requests. */
  ghost predicate Settled(c: Cluster)
    requires AllValid(c)
  {
    forall o :: o in c.log && Enabled(c, Deliver(o, 0)) ==> Absorbed(c, o)
  }

  ghost predicate Absorbed(c: Cluster, o: Output)
    requires AllValid(c) && Enabled(c, Deliver(o, 0))
  {
    var r := Handle(c, Deliver(o, 0));
    r.node == NodeAt(c, o.peer) && forall x :: x in r.out ==> x in c.log || x.req.opcode == OPCODE_SYNCREQ
  }

  /** All nodes are at the leader's zxid and no proposal is open. */
  ghost predicate Converged(c: Cluster) {
    && (forall p :: p in c.followers ==> c.followers[p].myZxid == c.leader.myZxid)
    && (forall o :: o in c.log && o.ToPeer? && o.req.opcode == OPCODE_PROPOSAL ==> o.req.zxid <= c.leader.myZxid)
  }

  lemma {:induction false} CommitsToMember(log: seq<Output>, p: int, z: int) returns (o: Output)
    requires z in CommitsTo(log, p)
    ensures o in log && IsCommitTo(o, p) && o.req.zxid == z
  {
    var last := |log| - 1;
    if IsCommitTo(log[last], p) && log[last].req.zxid == z {
      o := log[last];
    } else {
      o := CommitsToMember(log[..last], p, z);
    }
  }

  lemma {:induction false} SettledAt(c: Cluster, id: int, r: Request)
    requires AllValid(c) && Settled(c) && (id == c.leaderId || id in c.followers) && ToPeer(id, r) in c.log
    ensures var n := NodeAt(c, id); var o := Step(n, r, 0, Refused);
            o.node == n && forall x :: x in o.out ==> x in c.log || x.req.opcode == OPCODE_SYNCREQ
  {
    assert Enabled(c, Deliver(ToPeer(id, r), 0));
    assert Absorbed(c, ToPeer(id, r));
  }

  lemma {:induction false} CommitMoves(f: NodeState, r: Request)
    requires f.Valid() && !f.iAmLeader && r.opcode == OPCODE_COMMIT && r.zxid == f.myZxid + 1
    ensures Step(f, r, 0, Refused).node != f
  {
    assert Step(f, r, 0, Refused).node.myZxid == r.zxid;
  }

  lemma {:induction false} ProposalIsAcked(f: NodeState, r: Request)
    requires f.Valid() && r.opcode == OPCODE_PROPOSAL && r.zxid == f.myZxid + 1
    requires 0 <= r.peerId < PEERS && f.sockets[r.peerId]
    ensures Step(f, r, 0, Refused).out == [ToPeer(r.peerId, Request(OPCODE_ACKPROPOSE, f.myId, r.zxid, r.epoch, []))]
  {
  }

  lemma {:induction false} AckCounts(n: NodeState, r: Request)
    requires n.Valid() && n.iAmLeader && r.opcode == OPCODE_ACKPROPOSE
    requires 0 <= r.peerId < PEERS && r.zxid == n.acked[r.peerId] + 1
    ensures Step(n, r, 0, Refused).node != n
  {
    assert Step(n, r, 0, Refused).node.acked[r.peerId] == r.zxid;
  }

  lemma {:induction false} SettledCommits(c: Cluster, p: int)
    requires Configured(c) && Settled(c) && p in c.followers
    requires c.followers[p].myZxid >= 0 && CommitsTo(c.log, p) == UpTo(c.leader.commited[p])
    ensures c.followers[p].myZxid >= c.leader.commited[p]
  {
    var next := c.followers[p].myZxid + 1;
    if next <= c.leader.commited[p] {
      assert UpTo(c.leader.commited[p])[next - 1] == next;
      var o := CommitsToMember(c.log, p, next);
      CommitMoves(c.followers[p], o.req);
      SettledAt(c, p, o.req);
    }
  }

  /** Once settled, a follower that got a proposal for its next zxid has its acknowledgement counted. */
  lemma {:induction false} SettledAcks(c: Cluster, p: int, z: int)
    requires Configured(c) && Settled(c) && p in c.followers && c.followers[p].myZxid == z - 1
    requires z in ProposedTo(c.log, p) && forall o :: o in c.log ==> Traffic(c, o)
    ensures c.leader.acked[p] != z - 1
  {
    var o := ProposedToMember(c.log, p, z);
    assert o.req.peerId == c.leaderId by {
      assert Traffic(c, o);
    }
    var ack := Request(OPCODE_ACKPROPOSE, p, z, o.req.epoch, []);
    ProposalIsAcked(c.followers[p], o.req);
    assert ToPeer(c.leaderId, ack) in c.log by {
      SettledAt(c, p, o.req);
    }
    if c.leader.acked[p] == z - 1 {
      AckCounts(c.leader, ack);
      SettledAt(c, c.leaderId, ack);
    }
  }

  lemma {:induction false} SettledFollower(c: Cluster, p: int)
    requires Inv(c) && Settled(c) && p in c.followers
    ensures c.followers[p].myZxid == c.leader.myZxid
    ensures c.leader.myZxid + 1 in ProposedTo(c.log, p) ==> c.leader.acked[p] == c.leader.myZxid + 1
  {
    assert InStep(c, p);
    var z := c.followers[p].myZxid + 1;
    assert c.followers[p].myZxid >= c.leader.commited[p] by {
      SettledCommits(c, p);
    }
    assert z <= c.leader.myZxid ==> z in ProposedTo(c.log, p) by {
      assert z <= c.leader.myZxid ==> ProposedToAll(c, z);
    }
    assert z in ProposedTo(c.log, p) ==> c.leader.acked[p] != z - 1 by {
      if z in ProposedTo(c.log, p) {
        SettledAcks(c, p, z);
      }
    }
  }

  predicate AllAcked(c: Cluster, z: int)
    requires Configured(c)
  {
    forall p :: p in c.followers ==> c.leader.acked[p] == z
  }

  /** The leader would have committed a zxid that everybody acknowledged. */
  lemma {:induction false} SomebodyLags(c: Cluster)
    requires Configured(c) && Quorums(c) && |c.followers.Keys| >= 2
    ensures !AllAcked(c, c.leader.myZxid + 1)
  {
    if AllAcked(c, c.leader.myZxid + 1) {
      var voters := SlotsFrom(c.leader.acked, c.leader.myZxid + 1);
      assert c.followers.Keys <= voters;
      SubsetSize(c.followers.Keys, voters);
      assert false;
    }
  }

  lemma {:induction false} SettledConverges(c: Cluster)
    requires Inv(c) && Settled(c) && |c.followers.Keys| >= 2
    ensures Converged(c)
  {
    var z := c.leader.myZxid + 1;
    forall p | p in c.followers
      ensures c.followers[p].myZxid == c.leader.myZxid
      ensures z in ProposedTo(c.log, p) ==> c.leader.acked[p] == z
    {
      SettledFollower(c, p);
    }
    forall o | o in c.log && o.ToPeer? && o.req.opcode == OPCODE_PROPOSAL
      ensures o.req.zxid < z
    {
      assert Traffic(c, o);
      SomebodyLags(c);
      assert o.req.zxid == z ==> ProposedToAll(c, z) && AllAcked(c, z);
    }
  }

  lemma {:induction false} ConvergedAck(c: Cluster, r: Request)
    requires Inv(c) && Converged(c) && ToPeer(c.leaderId, r) in c.log && r.opcode == OPCODE_ACKPROPOSE
    ensures Step(c.leader, r, 0, Refused) == Outcome(c.leader, [], false)
  {
    assert Traffic(c, ToPeer(c.leaderId, r));
    assert InStep(c, r.peerId);
    var proposal := ProposedToMember(c.log, r.peerId, r.zxid);
    assert r.zxid <= c.leader.myZxid;
  }

  lemma {:induction false} ConvergedFollower(c: Cluster, p: int, r: Request)
    requires Inv(c) && Converged(c) && p in c.followers && ToPeer(p, r) in c.log
    ensures var f := c.followers[p]; var o := Step(f, r, 0, Refused);
            o.node == f && forall x :: x in o.out ==> x.req.opcode == OPCODE_SYNCREQ
  {
    assert Traffic(c, ToPeer(p, r));
    assert InStep(c, p);
  }

  lemma {:induction false} ConvergedAbsorbs(c: Cluster, o: Output)
    requires Inv(c) && Converged(c) && o in c.log && Enabled(c, Deliver(o, 0))
    ensures Absorbed(c, o)
  {
    if o.peer == c.leaderId {
      LeaderReceives(c, o.req);
      if o.req.opcode == OPCODE_ACKPROPOSE {
        ConvergedAck(c, o.req);
      }
    } else {
      ConvergedFollower(c, o.peer, o.req);
    }
  }

  /** With three nodes or more, the resting states are exactly those where every write has been
      committed by everybody; in whatever order the messages arrived. */
  lemma {:induction false} SettledIffConverged(c0: Cluster, es: seq<Event>)
    requires Initial(c0) && IsRun(c0, es) && |c0.followers.Keys| >= 2
    ensures Settled(Run(c0, es)) <==> Converged(Run(c0, es))
  {
    Reachable(c0, es);
    var c := Run(c0, es);
    if Settled(c) {
      SettledConverges(c);
    }
    if Converged(c) {
      forall o | o in c.log && Enabled(c, Deliver(o, 0))
        ensures Absorbed(c, o)
      {
        ConvergedAbsorbs(c, o);
      }
    }
  }

  ghost function LeaderWrites(c: Cluster, es: seq<Event>): (n: nat) {
    if es == [] then 0
    else LeaderWrites(c, es[..|es| - 1]) + if IsLeaderWrite(c, es[|es| - 1]) then 1 else 0
  }

  /** No node has seen a zxid above `top`. */
  ghost predicate Below(c: Cluster, top: int) {
    c.leader.myZxid <= top
    && forall o :: o in c.log && o.ToPeer? && o.req.opcode == OPCODE_PROPOSAL ==> o.req.zxid <= top
  }

  lemma {:induction false} EventRaisesTop(c: Cluster, e: Event, top: int)
    requires Inv(c) && Enabled(c, e) && Below(c, top)
    ensures Below(Apply(c, e), top + if IsLeaderWrite(c, e) then 1 else 0)
  {
    LeaderAdvancesByOne(c, e);
    if IsLeaderWrite(c, e) {
    } else if Target(e) == c.leaderId {
      if e.Deliver? {
        LeaderReceives(c, Received(e));
      }
      ProposesNothing(c.leader, Received(e), e.channel);
      if TakesQuorumBranch(c, e) {
        assert Traffic(c, e.packet);
        var o := ProposedToMember(c.log, Received(e).peerId, Received(e).zxid);
      }
    } else {
      ProposesNothing(c.followers[Target(e)], Received(e), e.channel);
    }
  }

  lemma {:induction false} ProposesNothing(n: NodeState, r: Request, channel: Channel)
    requires n.Valid() && (r.opcode == OPCODE_WRITEREQ ==> !n.iAmLeader || r.payload == [])
    ensures forall o :: o in Step(n, r, channel, Refused).out ==> o.req.opcode != OPCODE_PROPOSAL
  {
  }

  lemma {:induction false} WritesBoundZxid(c: Cluster, es: seq<Event>, top: int)
    requires Inv(c) && IsRun(c, es) && Below(c, top)
    ensures Below(Run(c, es), top + LeaderWrites(c, es))
    decreases |es|
  {
    if es != [] {
      var c1 := Apply(c, es[0]);
      EventKeepsInv(c, es[0]);
      EventRaisesTop(c, es[0], top);
      WritesBoundZxid(c1, es[1..], top + if IsLeaderWrite(c, es[0]) then 1 else 0);
      WritesSplit(c, es);
      SameLeaderSameWrites(c, c1, es[1..]);
    }
  }

  lemma {:induction false} WritesSplit(c: Cluster, es: seq<Event>)
    requires es != []
    ensures LeaderWrites(c, es) == LeaderWrites(c, es[1..]) + if IsLeaderWrite(c, es[0]) then 1 else 0
  {
    if |es| > 1 {
      var front := es[..|es| - 1];
      assert es[1..][..|es| - 2] == front[1..];
      WritesSplit(c, front);
    }
  }

  lemma {:induction false} SameLeaderSameWrites(c: Cluster, d: Cluster, es: seq<Event>)
    requires c.leaderId == d.leaderId
    ensures LeaderWrites(c, es) == LeaderWrites(d, es)
  {
    if es != [] {
      SameLeaderSameWrites(c, d, es[..|es| - 1]);
    }
  }

  lemma {:induction false} WriteSends(c: Cluster, e: Event, p: int) returns (o: Output)
    requires Configured(c) && Enabled(c, e) && IsLeaderWrite(c, e) && p in c.followers
    ensures o in Apply(c, e).log && IsProposalTo(o, p) && o.req.zxid > c.leader.myZxid
  {
    o := ToPeer(p, Proposal(c.leader, e.req.payload));
    assert o in ToPeers(c.leader.sockets, o.req);
  }

  lemma {:induction false} WriteIsProposed(c: Cluster, es: seq<Event>, p: int) returns (o: Output)
    requires Inv(c) && IsRun(c, es) && LeaderWrites(c, es) > 0 && p in c.followers.Keys
    ensures o in Run(c, es).log && IsProposalTo(o, p) && o.req.zxid > c.leader.myZxid
    decreases |es|
  {
    var c1 := Apply(c, es[0]);
    if IsLeaderWrite(c, es[0]) {
      o := WriteSends(c, es[0], p);
      assert o in Run(c1, es[1..]).log;
    } else {
      LeaderAdvancesByOne(c, es[0]);
      assert LeaderWrites(c1, es[1..]) > 0 by {
        WritesSplit(c, es);
        SameLeaderSameWrites(c, c1, es[1..]);
      }
      EventKeepsInv(c, es[0]);
      o := WriteIsProposed(c1, es[1..], p);
    }
  }

  lemma {:induction false} RestsAhead(c: Cluster, es: seq<Event>, p: int)
    requires Inv(c) && Converged(c) && IsRun(c, es) && Settled(Run(c, es))
    requires |c.followers.Keys| >= 2 && p in c.followers && LeaderWrites(c, es) > 0
    ensures var c' := Run(c, es);
            Inv(c') && Converged(c') && c.leader.myZxid < c'.leader.myZxid <= c.leader.myZxid + LeaderWrites(c, es)
  {
    hide Settled, Numbered, Quorums, Histories, LeaderWrites;
    RunKeepsInv(c, es);
    WritesBoundZxid(c, es, c.leader.myZxid);
    SettledConverges(Run(c, es));
    var o := WriteIsProposed(c, es, p);
  }

  /** From a resting cluster of three nodes or more, `n` writes move every node forward by at least
      one zxid and at most `n`; one write moves them by exactly one, with one COMMIT to each follower. */
  lemma {:induction false} WritesMoveEveryNode(c: Cluster, es: seq<Event>, p: int)
    requires Inv(c) && Converged(c) && IsRun(c, es) && Settled(Run(c, es))
    requires |c.followers.Keys| >= 2 && p in c.followers && LeaderWrites(c, es) > 0
    ensures var c' := Run(c, es); var m, n := c.leader.myZxid, LeaderWrites(c, es);
            && m < c'.leader.myZxid <= m + n
            && p in c'.followers && c'.followers[p].myZxid == c'.leader.myZxid
            && (n == 1 ==> CommitsTo(c'.log, p) == CommitsTo(c.log, p) + [m + 1])
  {
    hide Settled, Numbered, Quorums, Histories, LeaderWrites, CommitsTo, UpTo, IsRun, Run;
    var c' := Run(c, es);
    RestsAhead(c, es, p);
    SameMembers(c, es, p);
    CommitsOfConverged(c, p);
    CommitsOfConverged(c', p);
    UpToNext(c.leader.myZxid);
  }

  lemma {:induction false} SameMembers(c: Cluster, es: seq<Event>, p: int)
    requires Inv(c) && IsRun(c, es) && p in c.followers
    ensures p in Run(c, es).followers
  {
    RunKeepsInv(c, es);
    assert p in Run(c, es).followers.Keys;
  }

  lemma {:induction false} CommitsOfConverged(c: Cluster, p: int)
    requires Configured(c) && Tables(c) && Histories(c) && Converged(c) && p in c.followers
    ensures CommitsTo(c.log, p) == UpTo(c.leader.myZxid)
  {
    assert InStep(c, p);
  }
}
