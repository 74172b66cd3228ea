/** The configuration script (Configurator.java) brings freshly started nodes into the state from
    which the runs of `ClusterModel` begin. */
module ClusterSetup {
  import opened Requests
  import opened NodeProtocol
  import opened ClusterModel

  /** A node just after its constructor. */
  function Fresh(): (n: NodeState) {
    NodeState(0, 0, false, false, 0, 1, 0, 0, seq(PEERS, _ => false), seq(PEERS, _ => 0), seq(PEERS, _ => 0),
          seq(PEERS, _ => 0), map[])
  }

  /** The node after handling `rs` one by one, every connection attempt succeeding. */
  function StepAll(n: NodeState, rs: seq<Request>): (n': NodeState)
    requires n.Valid()
    ensures n'.Valid()
    decreases |rs|
  {
    if rs == [] then n else StepAll(Step(n, rs[0], 0, Opened).node, rs[1..])
  }

  function Introductions(peers: seq<JByte>): (rs: seq<Request>) {
    seq(|peers|, i requires 0 <= i < |peers| => Request(OPCODE_ADDPEER, peers[i], 0, 0, []))
  }

  /** The three phases of the script, as one node sees them. */
  function Script(id: JByte, peers: seq<JByte>, leader: JByte): (rs: seq<Request>) {
    [Request(OPCODE_SETUPPEER, id, 0, 0, [])] + Introductions(peers) + [Request(OPCODE_SETLEADER, leader, 0, 0, [])]
  }

  lemma {:induction false} StepAllSplit(n: NodeState, a: seq<Request>, b: seq<Request>)
    requires n.Valid()
    ensures StepAll(n, a + b) == StepAll(StepAll(n, a), b)
    decreases |a|
  {
    if a == [] {
      assert a + b == b;
    } else {
      assert (a + b)[1..] == a[1..] + b;
      StepAllSplit(Step(n, a[0], 0, Opened).node, a[1..], b);
    }
  }

  lemma {:induction false} PeersAdded(n: NodeState, peers: seq<JByte>)
    requires n.Valid() && forall i :: 0 <= i < |peers| ==> 0 <= peers[i] < PEERS
    ensures var n' := StepAll(n, Introductions(peers));
            && n' == n.(sockets := n'.sockets, peerCnt := n.peerCnt + |peers|)
            && forall x :: 0 <= x < PEERS ==> n'.sockets[x] == (n.sockets[x] || x in peers)
    decreases |peers|
  {
    if peers != [] {
      assert Introductions(peers)[1..] == Introductions(peers[1..]);
      var n1 := Step(n, Introductions(peers)[0], 0, Opened).node;
      PeersAdded(n1, peers[1..]);
      assert forall x :: x in peers <==> x == peers[0] || x in peers[1..];
    }
  }

  /** What the script leaves behind on one node. */
  lemma {:induction false} ScriptConfigures(id: JByte, peers: seq<JByte>, leader: JByte)
    requires forall i :: 0 <= i < |peers| ==> 0 <= peers[i] < PEERS
    ensures var n := StepAll(Fresh(), Script(id, peers, leader));
            && n.myId == id && n.iAmLeader == (id == leader) && n.peerCnt == |peers| && n.myZxid == 0 && n.myEpoch == 1
            && n.acked == n.commited == seq(PEERS, _ => 0) && n.rsock == map[]
            && forall x :: 0 <= x < PEERS ==> (n.sockets[x] <==> x in peers)
  {
    var first := [Request(OPCODE_SETUPPEER, id, 0, 0, [])];
    var last := [Request(OPCODE_SETLEADER, leader, 0, 0, [])];
    var n1 := Step(Fresh(), first[0], 0, Opened).node;
    StepAllSplit(Fresh(), first + Introductions(peers), last);
    StepAllSplit(Fresh(), first, Introductions(peers));
    assert first[1..] == [] && StepAll(Fresh(), first) == n1;
    PeersAdded(n1, peers);
    var n2 := StepAll(n1, Introductions(peers));
    assert last[1..] == [] && StepAll(n2, last) == Step(n2, last[0], 0, Opened).node;
  }

  /** Every id but `id`, as the script lists them. */
  ghost predicate Others(ids: set<int>, id: int, peers: seq<JByte>) {
    && (forall x: int :: x in peers <==> x in ids && x != id)
    && |peers| == |ids - {id}|
    && (forall i :: 0 <= i < |peers| ==> 0 <= peers[i] < PEERS)
  }

  /** The node `id` of a group led by `leader`, after its script. */
  function Member(id: JByte, peers: seq<JByte>, leader: JByte): (n: NodeState) {
    StepAll(Fresh(), Script(id, peers, leader))
  }

  lemma {:induction false} MemberIsConfigured(ids: set<int>, id: JByte, peers: seq<JByte>, leader: JByte)
    requires id in ids && leader in ids && 0 <= leader < PEERS && Others(ids, id, peers)
    ensures var n := Member(id, peers, leader);
            && n.Valid() && n.myId == id && n.iAmLeader == (id == leader) && n.peerCnt == |ids - {id}|
            && n.myZxid == 0 && n.rsock == map[]
            && (forall x :: 0 <= x < PEERS ==> (n.sockets[x] <==> x in ids && x != id))
            && (forall x :: 0 <= x < PEERS ==> n.acked[x] == n.commited[x] == 0)
  {
    ScriptConfigures(id, peers, leader);
  }

  /** A group whose members all ran the script is in an initial state of `ClusterModel`. */
  lemma {:induction false} ScriptsGiveInitial(ids: set<int>, leader: JByte, peersOf: map<int, seq<JByte>>, c: Cluster)
    requires leader in ids && ids == peersOf.Keys && forall id :: id in ids ==> 0 <= id < PEERS
    requires forall id :: id in ids ==> Others(ids, id, peersOf[id])
    requires c.leaderId == leader && c.leader == Member(leader, peersOf[leader], leader) && c.log == []
    requires c.followers.Keys == ids - {leader}
    requires forall id :: id in c.followers ==> c.followers[id] == Member(id, peersOf[id], leader)
    ensures Initial(c)
  {
    MemberIsConfigured(ids, leader, peersOf[leader], leader);
    forall p | p in c.followers
      ensures c.followers[p].Valid() && !c.followers[p].iAmLeader && c.followers[p].myId == p
      ensures c.followers[p].sockets[leader] && c.followers[p].myZxid == 0
    {
      assert p in c.followers.Keys;
      MemberIsConfigured(ids, p, peersOf[p], leader);
    }
    assert forall x :: x in c.followers <==> x in c.followers.Keys;
  }
}
