/** One leader, its followers and an unreliable network. Every node runs `NodeProtocol.Step`.
    `log` holds everything ever written to a socket, in order; any entry may be delivered at any
    time, any number of times, or never, so messages are lost, duplicated and reordered at will. */
module ClusterModel {
  import opened Requests
  import opened NodeProtocol

  datatype Cluster = Cluster(leaderId: JByte, leader: NodeState, followers: map<int, NodeState>, log: seq<Output>)

  /** A client write reaching a node, or the delivery of a logged message. */
  datatype Event = Write(target: int, channel: Channel, req: Request) | Deliver(packet: Output, channel: Channel)

  function Target(e: Event): (id: int) {
    match e
    case Write(target, _, _) => target
    case Deliver(ToPeer(peer, _), _) => peer
    case Deliver(ToChannel(_, _), _) => -1
  }

  predicate Enabled(c: Cluster, e: Event) {
    && (Target(e) == c.leaderId || Target(e) in c.followers)
    && match e
       case Write(_, _, r) => r.opcode == OPCODE_WRITEREQ
       case Deliver(packet, _) => packet in c.log && packet.ToPeer?
  }

  predicate AllValid(c: Cluster) {
    c.leader.Valid() && forall p :: p in c.followers ==> c.followers[p].Valid()
  }

  function NodeAt(c: Cluster, id: int): (n: NodeState)
    requires id == c.leaderId || id in c.followers
  {
    if id == c.leaderId then c.leader else c.followers[id]
  }

  function WithNode(c: Cluster, id: int, n: NodeState): (c': Cluster)
    requires id == c.leaderId || id in c.followers
  {
    if id == c.leaderId then c.(leader := n) else c.(followers := c.followers[id := n])
  }

  function Received(e: Event): (r: Request)
    requires e.Write? || e.packet.ToPeer?
  {
    if e.Write? then e.req else e.packet.req
  }

  function Handle(c: Cluster, e: Event): (o: Outcome)
    requires AllValid(c) && Enabled(c, e)
  {
    Step(NodeAt(c, Target(e)), Received(e), e.channel, Refused)
  }

  function Apply(c: Cluster, e: Event): (c': Cluster)
    requires AllValid(c) && Enabled(c, e)
    ensures AllValid(c') && c'.followers.Keys == c.followers.Keys && c.log <= c'.log
  {
    var o := Handle(c, e);
    WithNode(c, Target(e), o.node).(log := c.log + o.out)
  }

  ghost predicate IsRun(c: Cluster, es: seq<Event>)
    requires AllValid(c)
    decreases |es|
  {
    es == [] || (Enabled(c, es[0]) && IsRun(Apply(c, es[0]), es[1..]))
  }

  /** The cluster after the events `es`. */
  ghost function Run(c: Cluster, es: seq<Event>): (c': Cluster)
    requires AllValid(c) && IsRun(c, es)
    ensures AllValid(c') && c'.followers.Keys == c.followers.Keys && c.log <= c'.log
    decreases |es|
  {
    if es == [] then c else Run(Apply(c, es[0]), es[1..])
  }

  // ----- the invariant -----

  ghost predicate Configured(c: Cluster) {
    && AllValid(c)
    && 0 <= c.leaderId < PEERS && c.leaderId !in c.followers
    && c.leader.iAmLeader && c.leader.myId == c.leaderId && c.leader.peerCnt == |c.followers.Keys|
    && (forall x :: 0 <= x < PEERS ==> (c.leader.sockets[x] <==> x in c.followers))
    && (forall p :: p in c.followers ==>
          0 <= p < PEERS && !c.followers[p].iAmLeader && c.followers[p].myId == p && c.followers[p].sockets[c.leaderId])
  }

  /** Just configured: every zxid is 0 and nothing was sent yet. */
  ghost predicate Initial(c: Cluster) {
    && Configured(c)
    && c.log == []
    && c.leader.myZxid == 0 && c.leader.rsock == map[]
    && (forall x :: 0 <= x < PEERS ==> c.leader.acked[x] == c.leader.commited[x] == 0)
    && (forall p :: p in c.followers ==> c.followers[p].myZxid == 0)
  }

  /** How far follower `p` and the leader's two entries about it can be apart. */
  ghost predicate InStep(c: Cluster, p: int)
    requires Configured(c) && p in c.followers
  {
    var n := c.leader;
    && 0 <= c.followers[p].myZxid <= n.commited[p] <= n.acked[p] <= c.followers[p].myZxid + 1
    && n.commited[p] <= n.myZxid
    && n.acked[p] <= n.myZxid + 1
    && (n.acked[p] <= n.myZxid ==> n.commited[p] == n.acked[p])
  }

  ghost predicate Tables(c: Cluster)
    requires Configured(c)
  {
    && c.leader.myZxid >= 0
    && (forall p :: p in c.followers ==> InStep(c, p))
    && (forall x :: 0 <= x < PEERS && x !in c.followers ==> c.leader.acked[x] == c.leader.commited[x] == 0)
  }

  predicate IsProposalTo(o: Output, p: int) {
    o.ToPeer? && o.peer == p && o.req.opcode == OPCODE_PROPOSAL
  }

  /** The zxids that have been proposed to `p`. */
  function ProposedTo(log: seq<Output>, p: int): (s: set<int>) {
    if log == [] then {}
    else ProposedTo(log[..|log| - 1], p) + if IsProposalTo(log[|log| - 1], p) then {log[|log| - 1].req.zxid} else {}
  }

  ghost predicate ProposedToAll(c: Cluster, z: int) {
    forall p :: p in c.followers ==> z in ProposedTo(c.log, p)
  }

  /** What a message in the log tells about the nodes. */
  ghost predicate Traffic(c: Cluster, o: Output)
    requires Configured(c)
  {
    var r := o.req;
    if o.ToChannel? then
      1 <= r.zxid <= c.leader.myZxid && r.zxid in c.leader.rsock && c.leader.rsock[r.zxid] == o.channel
    else if r.opcode == OPCODE_PROPOSAL then
      && o.peer in c.followers && r.peerId == c.leaderId
      && 1 <= r.zxid <= c.leader.myZxid + 1 && r.zxid in c.leader.rsock && ProposedToAll(c, r.zxid)
    else if r.opcode == OPCODE_ACKPROPOSE then
      && o.peer == c.leaderId && r.peerId in c.followers
      && 1 <= r.zxid <= c.followers[r.peerId].myZxid + 1
      && r.zxid <= c.leader.myZxid + 1 && r.zxid in c.leader.rsock && ProposedToAll(c, r.zxid)
    else if r.opcode == OPCODE_COMMIT then
      o.peer in c.followers && 1 <= r.zxid <= c.leader.commited[o.peer]
    else
      r.opcode == OPCODE_SYNCREQ && o.peer == c.leaderId
  }

  ghost predicate Numbered(c: Cluster)
    requires Configured(c)
  {
    && (forall o :: o in c.log ==> Traffic(c, o))
    && (forall z :: 1 <= z <= c.leader.myZxid ==> ProposedToAll(c, z))
    && (SlotsFrom(c.leader.acked, c.leader.myZxid + 1) != {} ==> ProposedToAll(c, c.leader.myZxid + 1))
  }

  /** The current zxid has a quorum of ackers, the next one does not. */
  ghost predicate Quorums(c: Cluster)
    requires Configured(c)
  {
    && (c.leader.myZxid > 0 ==> IsMajority(|SlotsFrom(c.leader.acked, c.leader.myZxid)|, c.leader.peerCnt))
    && !IsMajority(|SlotsFrom(c.leader.acked, c.leader.myZxid + 1)|, c.leader.peerCnt)
  }

  /** 1, 2, ..., k. */
  function UpTo(k: int): (s: seq<int>) {
    seq(if k < 0 then 0 else k, i => i + 1)
  }

  predicate IsCommitTo(o: Output, p: int) {
    o.ToPeer? && o.peer == p && o.req.opcode == OPCODE_COMMIT
  }

  /** The zxids of the COMMIT messages sent to `p`, in sending order. */
  function CommitsTo(log: seq<Output>, p: int): (s: seq<int>) {
    if log == [] then []
    else CommitsTo(log[..|log| - 1], p) + if IsCommitTo(log[|log| - 1], p) then [log[|log| - 1].req.zxid] else []
  }

  /** The zxids answered to clients, in sending order. */
  function Answers(log: seq<Output>): (s: seq<int>) {
    if log == [] then []
    else Answers(log[..|log| - 1]) + if log[|log| - 1].ToChannel? then [log[|log| - 1].req.zxid] else []
  }

  ghost predicate Histories(c: Cluster)
    requires Configured(c)
  {
    && (forall p :: p in c.followers ==> CommitsTo(c.log, p) == UpTo(c.leader.commited[p]))
    && Answers(c.log) == UpTo(c.leader.myZxid)
  }

  ghost predicate Inv(c: Cluster) {
    Configured(c) && Tables(c) && Numbered(c) && Quorums(c) && Histories(c)
  }
}
