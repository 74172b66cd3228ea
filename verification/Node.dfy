/** The node object of Node.java: its fields and the method that handles one request. */
module ClusterNode {
  import opened Requests
  import opened NodeProtocol

  class Node {
    var myId: JByte
    var leaderId: JByte
    var peerCnt: nat
    const peerSockets: array<bool>
    const proposedZxid: array<int>
    const ackedZxid: array<int>
    const commitedZxid: array<int>
    var myZxid: int
    var myEpoch: int
    var myIpAddr: int
    var iAmLeader: bool
    var knowLeader: bool
    var rsockMap: map<int, Channel>

    ghost predicate Valid()
      reads this
    {
      && peerSockets.Length == PEERS && proposedZxid.Length == PEERS
      && ackedZxid.Length == PEERS && commitedZxid.Length == PEERS
      && proposedZxid != ackedZxid && proposedZxid != commitedZxid && ackedZxid != commitedZxid
    }

    ghost function State(): (n: NodeState)
      reads this, peerSockets, proposedZxid, ackedZxid, commitedZxid
      requires Valid()
      ensures n.Valid()
    {
      NodeState(myId, leaderId, iAmLeader, knowLeader, myZxid, myEpoch, myIpAddr,
                peerCnt, peerSockets[..], proposedZxid[..], ackedZxid[..], commitedZxid[..], rsockMap)
    }

    constructor ()
      ensures Valid()
      ensures fresh(peerSockets) && fresh(proposedZxid) && fresh(ackedZxid) && fresh(commitedZxid)
      ensures State() == NodeState(0, 0, false, false, 0, 1, 0, 0, seq(PEERS, _ => false),
                                   seq(PEERS, _ => 0), seq(PEERS, _ => 0), seq(PEERS, _ => 0), map[])
    {
      peerSockets := new bool[PEERS](_ => false);
      proposedZxid := new int[PEERS](_ => 0);
      ackedZxid := new int[PEERS](_ => 0);
      commitedZxid := new int[PEERS](_ => 0);
      myId, leaderId, iAmLeader, knowLeader := 0, 0, false, false;
      myZxid, myEpoch, myIpAddr, peerCnt, rsockMap := 0, 1, 0, 0, map[];
    }

    method Process(r: Request, source: Channel, opens: Connection) returns (out: seq<Output>, thrown: bool)
      requires Valid()
      modifies this, peerSockets, proposedZxid, ackedZxid, commitedZxid
      ensures Valid()
      ensures Outcome(State(), out, thrown) == Step(old(State()), r, source, opens)
    {
      hide AddPeer, WriteReq, AckPropose, ReceiveProposal;
      out, thrown := [], false;
      if r.opcode == OPCODE_SETUPPEER {
        myId, myZxid, myIpAddr := r.peerId, r.zxid, r.epoch;
      } else if r.opcode == OPCODE_ADDPEER {
        thrown := HandleAddPeer(r, opens);
      } else if r.opcode == OPCODE_SETLEADER {
        leaderId := r.peerId;
        if leaderId == myId {
          iAmLeader := true;
        }
        knowLeader := true;
      } else if r.opcode == OPCODE_WRITEREQ {
        out, thrown := HandleWrite(r, source);
      } else if r.opcode == OPCODE_ACKPROPOSE {
        if iAmLeader {
          out, thrown := HandleAck(r);
        } else {
          AckAtFollower(State(), r);
        }
      } else if r.opcode == OPCODE_PROPOSAL {
        out, thrown := HandleProposal(r);
      } else if r.opcode == OPCODE_COMMIT {
        if !iAmLeader && r.zxid == myZxid + 1 {
          myZxid := r.zxid;
        }
      }
    }

    method HandleAddPeer(r: Request, opens: Connection) returns (thrown: bool)
      requires Valid()
      modifies this`peerCnt, peerSockets
      ensures Outcome(State(), [], thrown) == AddPeer(old(State()), r, opens)
    {
      thrown := false;
      var port := ToInt32(r.zxid);
      if !(0 <= port <= MAX_PORT) {
        thrown := true;
      } else if !opens.Refused? {
        if 0 <= r.peerId < PEERS {
          peerSockets[r.peerId] := true;
          if opens.Opened? {
            peerCnt := peerCnt + 1;
          }
        } else {
          thrown := true;
        }
      }
    }

    method HandleWrite(r: Request, source: Channel) returns (out: seq<Output>, thrown: bool)
      requires Valid()
      modifies this`rsockMap, proposedZxid
      ensures Outcome(State(), out, thrown) == WriteReq(old(State()), r, source)
    {
      hide ToPeers, Marked;
      out, thrown := [], false;
      if iAmLeader {
        if r.payload == [] {
          thrown := true;
        } else {
          out := SendProposals(Request(OPCODE_PROPOSAL, myId, myZxid + 1, myEpoch, r.payload));
          rsockMap := rsockMap[myZxid + 1 := source];
        }
      }
    }

    method HandleProposal(r: Request) returns (out: seq<Output>, thrown: bool)
      requires Valid()
      ensures Outcome(State(), out, thrown) == ReceiveProposal(State(), r)
    {
      out, thrown := [], false;
      if !(0 <= r.peerId < PEERS) || !peerSockets[r.peerId] {
        thrown := true;
      } else if myZxid == r.zxid - 1 {
        out := [ToPeer(r.peerId, Request(OPCODE_ACKPROPOSE, myId, r.zxid, r.epoch, []))];
      } else {
        out := [ToPeer(r.peerId, Request(OPCODE_SYNCREQ, myId, 1, 1, []))];
      }
    }

    method SendProposals(prop: Request) returns (out: seq<Output>)
      requires Valid()
      modifies proposedZxid
      ensures out == ToPeers(peerSockets[..], prop)
      ensures proposedZxid[..] == Marked(old(proposedZxid[..]), peerSockets[..], ToInt32(myZxid + 1))
    {
      hide ToPeers, Marked;
      out := [];
      ghost var targets, before := peerSockets[..], proposedZxid[..];
      NoPeers(prop);
      assert targets[..0] == [];
      for x := 0 to peerSockets.Length
        invariant out == ToPeers(targets[..x], prop)
        invariant forall k :: 0 <= k < x ==> proposedZxid[k] == if targets[k] then ToInt32(myZxid + 1) else before[k]
        invariant forall k :: x <= k < PEERS ==> proposedZxid[k] == before[k]
      {
        NextPeer(targets, x, prop);
        if peerSockets[x] {
          out := out + [ToPeer(x, prop)];
          proposedZxid[x] := ToInt32(myZxid + 1);
        }
      }
      assert targets[..PEERS] == targets;
    }

    method CountVotes(acked: int) returns (cnt: nat, cntCmt: nat)
      requires Valid()
      ensures cnt == |SlotsAt(ackedZxid[..], acked)|
      ensures cntCmt == |SlotsFrom(commitedZxid[..], acked)|
    {
      hide SlotsAt, SlotsFrom;
      cnt, cntCmt := 0, 0;
      NoSlots(acked);
      assert ackedZxid[..0] == [] && commitedZxid[..0] == [];
      for x := 0 to PEERS
        invariant cnt == |SlotsAt(ackedZxid[..x], acked)|
        invariant cntCmt == |SlotsFrom(commitedZxid[..x], acked)|
      {
        assert ackedZxid[..][..x] == ackedZxid[..x] && ackedZxid[..][..x + 1] == ackedZxid[..x + 1];
        OneMoreSlot(ackedZxid[..], x, acked);
        if ackedZxid[x] == acked {
          cnt := cnt + 1;
        }
        assert commitedZxid[..][..x] == commitedZxid[..x] && commitedZxid[..][..x + 1] == commitedZxid[..x + 1];
        OneMoreSlot(commitedZxid[..], x, acked);
        if commitedZxid[x] >= acked {
          cntCmt := cntCmt + 1;
        }
      }
      assert ackedZxid[..PEERS] == ackedZxid[..] && commitedZxid[..PEERS] == commitedZxid[..];
    }

    method SendCommits(z: int, com: Request) returns (out: seq<Output>)
      requires Valid()
      modifies commitedZxid
      ensures out == ToPeers(Ackers(State(), ackedZxid[..], z), com)
      ensures commitedZxid[..] == Marked(old(commitedZxid[..]), Ackers(State(), ackedZxid[..], z), z)
    {
      hide ToPeers, Marked;
      out := [];
      ghost var targets := Ackers(State(), ackedZxid[..], z);
      ghost var before := commitedZxid[..];
      NoPeers(com);
      assert targets[..0] == [];
      for x := 0 to PEERS
        invariant out == ToPeers(targets[..x], com)
        invariant forall k :: 0 <= k < x ==> commitedZxid[k] == if targets[k] then z else before[k]
        invariant forall k :: x <= k < PEERS ==> commitedZxid[k] == before[k]
      {
        NextPeer(targets, x, com);
        if peerSockets[x] && ackedZxid[x] >= z {
          out := out + [ToPeer(x, com)];
          commitedZxid[x] := z;
        }
      }
      assert targets[..PEERS] == targets;
      assert targets == Ackers(State(), ackedZxid[..], z);
    }

    method HandleAck(r: Request) returns (out: seq<Output>, thrown: bool)
      requires Valid() && iAmLeader
      modifies this`myZxid, ackedZxid, commitedZxid
      ensures Valid()
      ensures Outcome(State(), out, thrown) == AckPropose(old(State()), r)
    {
      out, thrown := [], false;
      ghost var before := State();
      if !(0 <= r.peerId < PEERS) {
        thrown := true;
        return;
      }
      if r.zxid == ackedZxid[r.peerId] + 1 {
        var cnt, cntCmt := CountVotes(r.zxid);
        ackedZxid[r.peerId] := r.zxid;
        ghost var acked := ackedZxid[..];
        assert acked == before.acked[r.peerId := r.zxid];
        var com := Request(OPCODE_COMMIT, myId, r.zxid, r.epoch, []);
        if cnt + 1 > (peerCnt + 1) / 2 && cntCmt == 0 {
          myZxid := r.zxid;
          assert Ackers(State(), acked, r.zxid) == Ackers(before, acked, r.zxid);
          out := SendCommits(r.zxid, com);
          assert Ackers(State(), acked, r.zxid) == Ackers(before, acked, r.zxid);
          if r.zxid in rsockMap {
            out := out + [ToChannel(rsockMap[r.zxid], Request(OPCODE_DONE, myId, r.zxid, r.epoch, []))];
          }
        } else if commitedZxid[r.peerId] == r.zxid - 1 && myZxid >= r.zxid {
          if peerSockets[r.peerId] {
            out := [ToPeer(r.peerId, com)];
            commitedZxid[r.peerId] := r.zxid;
          }
        }
      }
    }
  }

  lemma {:induction false} AckAtFollower(n: NodeState, r: Request)
    requires n.Valid() && !n.iAmLeader
    ensures AckPropose(n, r) == Outcome(n, [], false)
  {
  }

  lemma {:induction false} NoSlots(z: int)
    ensures SlotsAt([], z) == {} && SlotsFrom([], z) == {}
  {
  }

  lemma {:induction false} OneMoreSlot(table: seq<int>, x: nat, z: int)
    requires x < |table|
    ensures |SlotsAt(table[..x + 1], z)| == |SlotsAt(table[..x], z)| + if table[x] == z then 1 else 0
    ensures |SlotsFrom(table[..x + 1], z)| == |SlotsFrom(table[..x], z)| + if table[x] >= z then 1 else 0
  {
    var at, upTo := SlotsAt(table[..x], z), SlotsFrom(table[..x], z);
    assert SlotsAt(table[..x + 1], z) == if table[x] == z then at + {x} else at;
    assert SlotsFrom(table[..x + 1], z) == if table[x] >= z then upTo + {x} else upTo;
  }
}
