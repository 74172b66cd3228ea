/** What one node does with one message (Node.java, `process`), as a function from the node's
    fields and the message to its new fields and the messages it writes. */
module NodeProtocol {
  import opened Requests

  const PEERS := 32
  const MAX_PORT := 0xFFFF

  /** The connection a request came in on. */
  type Channel = int

  datatype Output = ToPeer(peer: int, req: Request) | ToChannel(channel: Channel, req: Request)

  datatype NodeState = NodeState(
    myId: JByte, leaderId: JByte, iAmLeader: bool, knowLeader: bool,
    myZxid: int, myEpoch: int, myIpAddr: int,
    peerCnt: nat, sockets: seq<bool>, proposed: seq<int>, acked: seq<int>, commited: seq<int>,
    rsock: map<int, Channel>)
  {
    predicate Valid() {
      |sockets| == |proposed| == |acked| == |commited| == PEERS
    }
  }

  /** What comes of opening a socket to a new peer: `Untuned` is one whose send buffer cannot be set. */
  datatype Connection = Refused | Opened | Untuned

  /** `thrown`: an exception other than those of input and output left `process`. */
  datatype Outcome = Outcome(node: NodeState, out: seq<Output>, thrown: bool)

  /** The slots whose entry equals `z`. */
  function SlotsAt(table: seq<int>, z: int): (s: set<int>) {
    set x | 0 <= x < |table| && table[x] == z
  }

  /** The slots whose entry is `z` or more. */
  function SlotsFrom(table: seq<int>, z: int): (s: set<int>) {
    set x | 0 <= x < |table| && table[x] >= z
  }

  /** `req` written to every selected peer, in slot order. */
  function ToPeers(selected: seq<bool>, req: Request): (out: seq<Output>)
    ensures forall x :: 0 <= x < |selected| && selected[x] ==> ToPeer(x, req) in out
    ensures forall o :: o in out ==> o.ToPeer? && o.req == req && 0 <= o.peer < |selected| && selected[o.peer]
  {
    if selected == [] then []
    else
      var last := |selected| - 1;
      ToPeers(selected[..last], req) + if selected[last] then [ToPeer(last, req)] else []
  }

  lemma {:induction false} NoPeers(req: Request)
    ensures ToPeers([], req) == []
  {
  }

  lemma {:induction false} NextPeer(selected: seq<bool>, x: nat, req: Request)
    requires x < |selected|
    ensures ToPeers(selected[..x + 1], req)
         == ToPeers(selected[..x], req) + if selected[x] then [ToPeer(x, req)] else []
  {
    assert selected[..x + 1][..x] == selected[..x];
  }

  /** `table` with `z` in every selected slot. */
  function Marked(table: seq<int>, selected: seq<bool>, z: int): (t: seq<int>)
    requires |table| == |selected|
    ensures |t| == |table|
    ensures forall x :: 0 <= x < |t| ==> t[x] == if selected[x] then z else table[x]
  {
    seq(|table|, x requires 0 <= x < |table| => if selected[x] then z else table[x])
  }

  /** The open sockets whose peer has acked `z`. */
  function Ackers(n: NodeState, acked: seq<int>, z: int): (s: seq<bool>)
    requires n.Valid() && |acked| == PEERS
    ensures |s| == PEERS
    ensures forall x :: 0 <= x < PEERS ==> s[x] == (n.sockets[x] && acked[x] >= z)
  {
    seq(PEERS, x requires 0 <= x < PEERS => n.sockets[x] && acked[x] >= z)
  }

  /** The quorum test: strictly more than half of the cluster, leader not counted. */
  predicate IsMajority(votes: int, peerCnt: nat) {
    votes > (peerCnt + 1) / 2
  }

  function Setup(n: NodeState, r: Request): (o: Outcome) {
    Outcome(n.(myId := r.peerId, myZxid := r.zxid, myIpAddr := r.epoch), [], false)
  }

  /** The zxid of the message is the port; an impossible one is refused before anything else. */
  function AddPeer(n: NodeState, r: Request, opens: Connection): (o: Outcome)
    requires n.Valid()
  {
    if !(0 <= ToInt32(r.zxid) <= MAX_PORT) then Outcome(n, [], true)
    else if opens.Refused? then Outcome(n, [], false)
    else if !(0 <= r.peerId < PEERS) then Outcome(n, [], true)
    else
      Outcome(n.(sockets := n.sockets[r.peerId := true], peerCnt := n.peerCnt + if opens.Opened? then 1 else 0),
              [], false)
  }

  function SetLeader(n: NodeState, r: Request): (o: Outcome) {
    Outcome(n.(leaderId := r.peerId, knowLeader := true, iAmLeader := n.iAmLeader || r.peerId == n.myId), [], false)
  }

  function Proposal(n: NodeState, payload: seq<JByte>): (r: Request) {
    Request(OPCODE_PROPOSAL, n.myId, n.myZxid + 1, n.myEpoch, payload)
  }

  /** The proposal copies the payload, which fails when there is none. */
  function WriteReq(n: NodeState, r: Request, source: Channel): (o: Outcome)
    requires n.Valid()
  {
    if !n.iAmLeader then Outcome(n, [], false)
    else if r.payload == [] then Outcome(n, [], true)
    else
      Outcome(n.(proposed := Marked(n.proposed, n.sockets, ToInt32(n.myZxid + 1)),
                 rsock := n.rsock[n.myZxid + 1 := source]),
              ToPeers(n.sockets, Proposal(n, r.payload)), false)
  }

  function Reply(n: NodeState, r: Request): (out: seq<Output>) {
    if r.zxid in n.rsock
    then [ToChannel(n.rsock[r.zxid], Request(OPCODE_DONE, n.myId, r.zxid, r.epoch, []))]
    else []
  }

  /** The acknowledgement that completes a quorum nobody has been told about yet. */
  predicate CompletesQuorum(n: NodeState, z: int)
    requires n.Valid()
  {
    IsMajority(|SlotsAt(n.acked, z)| + 1, n.peerCnt) && |SlotsFrom(n.commited, z)| == 0
  }

  function AckPropose(n: NodeState, r: Request): (o: Outcome)
    requires n.Valid()
  {
    if !n.iAmLeader then Outcome(n, [], false)
    else if !(0 <= r.peerId < PEERS) then Outcome(n, [], true)
    else if r.zxid != n.acked[r.peerId] + 1 then Outcome(n, [], false)
    else
      var acked := n.acked[r.peerId := r.zxid];
      var commit := Request(OPCODE_COMMIT, n.myId, r.zxid, r.epoch, []);
      if CompletesQuorum(n, r.zxid) then
        var targets := Ackers(n, acked, r.zxid);
        Outcome(n.(acked := acked, myZxid := r.zxid, commited := Marked(n.commited, targets, r.zxid)),
                ToPeers(targets, commit) + Reply(n, r), false)
      else if n.commited[r.peerId] == r.zxid - 1 && n.myZxid >= r.zxid && n.sockets[r.peerId] then
        Outcome(n.(acked := acked, commited := n.commited[r.peerId := r.zxid]),
                [ToPeer(r.peerId, commit)], false)
      else
        Outcome(n.(acked := acked), [], false)
  }

  function ReceiveProposal(n: NodeState, r: Request): (o: Outcome)
    requires n.Valid()
  {
    if !(0 <= r.peerId < PEERS) || !n.sockets[r.peerId] then Outcome(n, [], true)
    else if n.myZxid == r.zxid - 1 then
      Outcome(n, [ToPeer(r.peerId, Request(OPCODE_ACKPROPOSE, n.myId, r.zxid, r.epoch, []))], false)
    else
      Outcome(n, [ToPeer(r.peerId, Request(OPCODE_SYNCREQ, n.myId, 1, 1, []))], false)
  }

  function Commit(n: NodeState, r: Request): (o: Outcome) {
    if !n.iAmLeader && r.zxid == n.myZxid + 1 then Outcome(n.(myZxid := r.zxid), [], false)
    else Outcome(n, [], false)
  }

  function Step(n: NodeState, r: Request, source: Channel, opens: Connection): (o: Outcome)
    requires n.Valid()
    ensures o.node.Valid()
  {
    if r.opcode == OPCODE_SETUPPEER then Setup(n, r)
    else if r.opcode == OPCODE_ADDPEER then AddPeer(n, r, opens)
    else if r.opcode == OPCODE_SETLEADER then SetLeader(n, r)
    else if r.opcode == OPCODE_WRITEREQ then WriteReq(n, r, source)
    else if r.opcode == OPCODE_ACKPROPOSE then AckPropose(n, r)
    else if r.opcode == OPCODE_PROPOSAL then ReceiveProposal(n, r)
    else if r.opcode == OPCODE_COMMIT then Commit(n, r)
    else Outcome(n, [], false)
  }
}
