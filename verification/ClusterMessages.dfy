/** What the messages carry, field by field: the data of every write reaches every follower, unchanged. */
module ClusterMessages {
  import opened Requests
  import opened NodeProtocol
  import opened ClusterModel
  import opened ClusterSafety
  import opened ClusterTheorems

  // ----- one step -----

  predicate InSlotOrder(out: seq<Output>) {
    forall i, j :: 0 <= i < j < |out| ==> out[i].ToPeer? && out[j].ToPeer? && out[i].peer < out[j].peer
  }

  lemma {:induction false} PeersInOrder(selected: seq<bool>, req: Request)
    ensures InSlotOrder(ToPeers(selected, req))
  {
    if selected != [] {
      var last := |selected| - 1;
      PeersInOrder(selected[..last], req);
      var front, out := ToPeers(selected[..last], req), ToPeers(selected, req);
      forall i | 0 <= i < |front|
        ensures front[i].ToPeer? && front[i].peer < last
      {
        assert front[i] in front;
      }
      forall i, j | 0 <= i < j < |out|
        ensures out[i].ToPeer? && out[j].ToPeer? && out[i].peer < out[j].peer
      {
        assert out[i] == front[i];
      }
    }
  }

  /** A write with a payload at the leader: one proposal with its payload to every connected peer, in slot order,
      and nothing else; its connection waits for the next zxid. */
  lemma {:induction false} WriteIsSent(n: NodeState, r: Request, source: Channel, opens: Connection)
    requires n.Valid() && n.iAmLeader && r.opcode == OPCODE_WRITEREQ && r.payload != []
    ensures var o := Step(n, r, source, opens);
            && !o.thrown
            && (forall x :: 0 <= x < PEERS && n.sockets[x] ==>
                  ToPeer(x, Request(OPCODE_PROPOSAL, n.myId, n.myZxid + 1, n.myEpoch, r.payload)) in o.out)
            && (forall m :: m in o.out ==>
                  && m.ToPeer? && 0 <= m.peer < PEERS && n.sockets[m.peer]
                  && m.req == Request(OPCODE_PROPOSAL, n.myId, n.myZxid + 1, n.myEpoch, r.payload))
            && InSlotOrder(o.out)
            && o.node == n.(proposed := o.node.proposed, rsock := n.rsock[n.myZxid + 1 := source])
            && forall x :: 0 <= x < PEERS ==>
                 o.node.proposed[x] == if n.sockets[x] then ToInt32(n.myZxid + 1) else n.proposed[x]
  {
    PeersInOrder(n.sockets, Request(OPCODE_PROPOSAL, n.myId, n.myZxid + 1, n.myEpoch, r.payload));
  }

  /** A message that adds a peer: the zxid, cast to an integer, is the port, and the sender is the slot. */
  lemma {:induction false} PeerIsAdded(n: NodeState, r: Request, source: Channel, opens: Connection)
    requires n.Valid() && r.opcode == OPCODE_ADDPEER
    ensures var o, port := Step(n, r, source, opens), ToInt32(r.zxid);
            && o.out == []
            && (o.thrown <==> port < 0 || port > 65535 || (!opens.Refused? && (r.peerId < 0 || r.peerId >= 32)))
            && o.node == n.(sockets := o.node.sockets, peerCnt := o.node.peerCnt)
            && (o.thrown || opens.Refused? ==> o.node == n)
            && (!o.thrown && !opens.Refused? ==>
                  && o.node.peerCnt == n.peerCnt + (if opens.Opened? then 1 else 0)
                  && forall x :: 0 <= x < 32 ==> (o.node.sockets[x] <==> n.sockets[x] || x == r.peerId))
  {
  }

  /** The messages that are never answered: setting up a node, naming the leader, a commit, and all unknown ones. */
  lemma {:induction false} SilentSteps(n: NodeState, r: Request, source: Channel, opens: Connection)
    requires n.Valid() && r.opcode !in {OPCODE_ADDPEER, OPCODE_WRITEREQ, OPCODE_PROPOSAL, OPCODE_ACKPROPOSE}
    ensures var o := Step(n, r, source, opens);
            && o.out == [] && !o.thrown
            && o.node == if r.opcode == OPCODE_SETUPPEER then
                           n.(myId := r.peerId, myZxid := r.zxid, myIpAddr := r.epoch)
                         else if r.opcode == OPCODE_SETLEADER then
                           n.(leaderId := r.peerId, knowLeader := true, iAmLeader := n.iAmLeader || n.myId == r.peerId)
                         else if r.opcode == OPCODE_COMMIT && !n.iAmLeader && r.zxid == n.myZxid + 1 then
                           n.(myZxid := r.zxid)
                         else n
  {
  }

  /** When an exception leaves `process`; then no field has changed and nothing was sent. */
  lemma {:induction false} StepThrowsIff(n: NodeState, r: Request, source: Channel, opens: Connection)
    requires n.Valid()
    ensures var o, peer := Step(n, r, source, opens), 0 <= r.peerId < 32;
            && (o.thrown <==>
                  || (r.opcode == OPCODE_ADDPEER
                      && (ToInt32(r.zxid) < 0 || ToInt32(r.zxid) > 65535 || (!opens.Refused? && !peer)))
                  || (r.opcode == OPCODE_WRITEREQ && n.iAmLeader && r.payload == [])
                  || (r.opcode == OPCODE_ACKPROPOSE && n.iAmLeader && !peer)
                  || (r.opcode == OPCODE_PROPOSAL && (!peer || !n.sockets[r.peerId])))
            && (o.thrown ==> o.node == n && o.out == [])
  {
    hide CompletesQuorum, Marked, Ackers, ToPeers;
    if r.opcode !in {OPCODE_ADDPEER, OPCODE_WRITEREQ, OPCODE_PROPOSAL, OPCODE_ACKPROPOSE} {
      SilentSteps(n, r, source, opens);
    }
  }

  /** Every message that a node writes: what it answers, to whom, and with which fields. */
  ghost predicate IsAnswer(n: NodeState, r: Request, m: Output)
    requires n.Valid()
  {
    if m.ToChannel? then
      && r.opcode == OPCODE_ACKPROPOSE && n.iAmLeader && r.zxid in n.rsock && m.channel == n.rsock[r.zxid]
      && m.req == Request(OPCODE_DONE, n.myId, r.zxid, r.epoch, [])
    else if !(0 <= m.peer < PEERS) || !n.sockets[m.peer] then false
    else if r.opcode == OPCODE_WRITEREQ then
      n.iAmLeader && r.payload != [] && m.req == Request(OPCODE_PROPOSAL, n.myId, n.myZxid + 1, n.myEpoch, r.payload)
    else if r.opcode == OPCODE_ACKPROPOSE then
      n.iAmLeader && m.req == Request(OPCODE_COMMIT, n.myId, r.zxid, r.epoch, [])
    else
      && r.opcode == OPCODE_PROPOSAL && m.peer == r.peerId
      && m.req == if r.zxid == n.myZxid + 1 then Request(OPCODE_ACKPROPOSE, n.myId, r.zxid, r.epoch, [])
                  else Request(OPCODE_SYNCREQ, n.myId, 1, 1, [])
  }

  lemma {:induction false} StepAnswers(n: NodeState, r: Request, source: Channel, opens: Connection, m: Output)
    requires n.Valid() && m in Step(n, r, source, opens).out
    ensures IsAnswer(n, r, m)
  {
    if r.opcode == OPCODE_ACKPROPOSE {
      AckAnswers(n, r, m);
    }
  }

  lemma {:induction false} AckAnswers(n: NodeState, r: Request, m: Output)
    requires n.Valid() && r.opcode == OPCODE_ACKPROPOSE && m in AckPropose(n, r).out
    ensures IsAnswer(n, r, m)
  {
    hide CompletesQuorum, Marked;
    assert n.iAmLeader && 0 <= r.peerId < PEERS && r.zxid == n.acked[r.peerId] + 1;
    var acked := n.acked[r.peerId := r.zxid];
    var commit := Request(OPCODE_COMMIT, n.myId, r.zxid, r.epoch, []);
    if CompletesQuorum(n, r.zxid) && m !in ToPeers(Ackers(n, acked, r.zxid), commit) {
      assert m in Reply(n, r);
    }
  }

  // ----- whole runs -----

  /** The payloads of the writes that the leader proposed while `z` was the next zxid, in order. */
  ghost function Payloads(c: Cluster, es: seq<Event>, z: int): (s: seq<seq<JByte>>)
    requires AllValid(c) && IsRun(c, es)
    decreases |es|
  {
    if es == [] then []
    else
      var later := Payloads(Apply(c, es[0]), es[1..], z);
      if IsLeaderWrite(c, es[0]) && c.leader.myZxid + 1 == z then [es[0].req.payload] + later else later
  }

  /** The payloads of the proposals of `z` sent to `p`, in sending order. */
  function DataSent(log: seq<Output>, p: int, z: int): (s: seq<seq<JByte>>) {
    if log == [] then []
    else
      var last := log[|log| - 1];
      DataSent(log[..|log| - 1], p, z)
      + if IsProposalTo(last, p) && last.req.zxid == z then [last.req.payload] else []
  }

  lemma {:induction false} DataAppend(a: seq<Output>, b: seq<Output>, p: int, z: int)
    ensures DataSent(a + b, p, z) == DataSent(a, p, z) + DataSent(b, p, z)
  {
    if b == [] {
      assert a + b == a;
    } else {
      assert (a + b)[..|a + b| - 1] == a + b[..|b| - 1];
      DataAppend(a, b[..|b| - 1], p, z);
    }
  }

  lemma {:induction false} NoData(out: seq<Output>, p: int, z: int)
    requires forall m :: m in out ==> !IsProposalTo(m, p) || m.req.zxid != z
    ensures DataSent(out, p, z) == []
  {
    if out != [] {
      NoData(out[..|out| - 1], p, z);
      assert out[|out| - 1] in out;
    }
  }

  /** A proposal sent to every selected peer is sent to `p` once. */
  lemma {:induction false} DataOfBroadcast(selected: seq<bool>, req: Request, p: int)
    requires req.opcode == OPCODE_PROPOSAL
    ensures DataSent(ToPeers(selected, req), p, req.zxid)
         == if 0 <= p < |selected| && selected[p] then [req.payload] else []
  {
    hide DataSent, ToPeers;
    NoPeers(req);
    NoData([], p, req.zxid);
    if selected != [] {
      var last := |selected| - 1;
      var front := ToPeers(selected[..last], req);
      DataOfBroadcast(selected[..last], req, p);
      NextPeer(selected, last, req);
      assert selected[..last + 1] == selected;
      if !selected[last] {
        assert front + [] == front;
      } else {
        DataAppend(front, [ToPeer(last, req)], p, req.zxid);
        DataOfOne(last, req, p);
      }
    }
  }

  lemma {:induction false} DataOfOne(peer: int, req: Request, p: int)
    requires req.opcode == OPCODE_PROPOSAL
    ensures DataSent([ToPeer(peer, req)], p, req.zxid) == if peer == p then [req.payload] else []
  {
    assert DataSent([], p, req.zxid) == [];
  }

  /** An event sends a follower the data of the write it is, and otherwise none. */
  lemma {:induction false} EventSendsData(c: Cluster, e: Event, p: int, z: int)
    requires Inv(c) && Enabled(c, e) && p in c.followers
    ensures DataSent(Apply(c, e).log, p, z)
         == DataSent(c.log, p, z) + if IsLeaderWrite(c, e) && c.leader.myZxid + 1 == z then [e.req.payload] else []
  {
    hide Step, Tables, Quorums, Histories, Traffic, DataSent, ToPeers;
    var out := Handle(c, e).out;
    DataAppend(c.log, out, p, z);
    if IsLeaderWrite(c, e) {
      LeaderStep(c.leader, e.req, e.channel);
      DataOfBroadcast(c.leader.sockets, Proposal(c.leader, e.req.payload), p);
      if c.leader.myZxid + 1 != z {
        NoData(out, p, z);
      }
    } else {
      forall m | m in out
        ensures !IsProposalTo(m, p)
      {
        StepAnswers(NodeAt(c, Target(e)), Received(e), e.channel, Refused, m);
        if Target(e) == c.leaderId && e.Deliver? {
          LeaderReceives(c, e.packet.req);
        }
      }
      NoData(out, p, z);
    }
  }

  lemma {:induction false} LeaderKeeps(c: Cluster, e: Event)
    requires Inv(c) && Enabled(c, e)
    ensures Apply(c, e).leader.myEpoch == c.leader.myEpoch && Apply(c, e).leaderId == c.leaderId
  {
    hide Tables, Quorums, Histories, Traffic;
    if Target(e) == c.leaderId {
      LeaderStep(c.leader, Received(e), e.channel);
      if e.Deliver? {
        LeaderReceives(c, e.packet.req);
      }
    }
  }

  /** The data sent in a run: one proposal of `z` to every follower for each write that came while `z` was the next
      zxid, with the payload of that write, in the order of the writes. */
  lemma {:induction false} RunSendsData(c: Cluster, es: seq<Event>, p: int, z: int)
    requires Inv(c) && IsRun(c, es) && p in c.followers.Keys
    ensures DataSent(Run(c, es).log, p, z) == DataSent(c.log, p, z) + Payloads(c, es, z)
    decreases |es|
  {
    hide Tables, Numbered, Quorums, Histories, Apply, Enabled, IsLeaderWrite, DataSent, Payloads;
    PayloadsStep(c, es, z, DataSent(c.log, p, z));
    if es != [] {
      EventKeepsInv(c, es[0]);
      EventSendsData(c, es[0], p, z);
      RunSendsData(Apply(c, es[0]), es[1..], p, z);
    }
  }

  lemma {:induction false} PayloadsStep(c: Cluster, es: seq<Event>, z: int, sent: seq<seq<JByte>>)
    requires Inv(c) && IsRun(c, es)
    ensures es == [] ==> Payloads(c, es, z) == []
    ensures es != [] ==>
              Enabled(c, es[0]) && IsRun(Apply(c, es[0]), es[1..])
              && (sent + if IsLeaderWrite(c, es[0]) && c.leader.myZxid + 1 == z then [es[0].req.payload] else [])
                 + Payloads(Apply(c, es[0]), es[1..], z)
                   == sent + Payloads(c, es, z)
  {
    hide Tables, Numbered, Quorums, Histories, Apply, Enabled;
  }

  /** The same from the start: exactly the payloads of the writes, each once and in order, to every follower. */
  lemma {:induction false} ProposalsCarryWrites(c0: Cluster, es: seq<Event>, p: int, z: int)
    requires Initial(c0) && IsRun(c0, es) && p in c0.followers.Keys
    ensures DataSent(Run(c0, es).log, p, z) == Payloads(c0, es, z)
  {
    hide IsRun, Run, Payloads, Inv;
    InitialInv(c0);
    RunSendsData(c0, es, p, z);
  }

  /** How a message is stamped: who sent it, in which epoch, and whether it carries data. */
  ghost predicate Stamped(c: Cluster, m: Output) {
    var r := m.req;
    if m.ToPeer? && r.opcode == OPCODE_PROPOSAL then r.peerId == c.leaderId && r.epoch == c.leader.myEpoch
    else if m.ToPeer? && r.opcode == OPCODE_COMMIT then
      r == Request(OPCODE_COMMIT, c.leaderId, r.zxid, c.leader.myEpoch, [])
    else if m.ToPeer? && r.opcode == OPCODE_ACKPROPOSE then
      m.peer == c.leaderId && r == Request(OPCODE_ACKPROPOSE, r.peerId, r.zxid, c.leader.myEpoch, [])
    else if m.ToPeer? then m.peer == c.leaderId && r == Request(OPCODE_SYNCREQ, r.peerId, 1, 1, [])
    else r == Request(OPCODE_DONE, c.leaderId, r.zxid, c.leader.myEpoch, [])
  }

  lemma {:induction false} EventStamps(c: Cluster, e: Event, m: Output)
    requires Inv(c) && (forall o :: o in c.log ==> Stamped(c, o)) && Enabled(c, e) && m in Handle(c, e).out
    ensures Stamped(c, m)
  {
    hide Step, Tables, Quorums, Histories;
    StepAnswers(NodeAt(c, Target(e)), Received(e), e.channel, Refused, m);
    if e.Deliver? {
      assert Traffic(c, e.packet) && Stamped(c, e.packet);
    }
  }

  /** Over every run all messages are in the leader's epoch but sync requests, and only proposals carry data. */
  lemma {:induction false} AllStamped(c: Cluster, es: seq<Event>)
    requires Inv(c) && IsRun(c, es) && forall m :: m in c.log ==> Stamped(c, m)
    ensures forall m :: m in Run(c, es).log ==> Stamped(c, m)
    decreases |es|
  {
    hide Tables, Numbered, Quorums, Histories, Handle;
    if es != [] {
      var c1 := Apply(c, es[0]);
      EventKeepsInv(c, es[0]);
      LeaderKeeps(c, es[0]);
      forall m | m in c1.log
        ensures Stamped(c, m) && Stamped(c1, m)
      {
        if m !in c.log {
          EventStamps(c, es[0], m);
        }
      }
      AllStamped(c1, es[1..]);
    }
  }
}
