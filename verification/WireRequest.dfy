/** The request object and its byte array (Request.java). */
module WireRequest {
  import opened Requests
  import opened Wire

  /** What a field or argument of array type holds. */
  datatype Reference = Null | Bytes(bytes: seq<JByte>)

  function HeaderBytes(opcode: JByte, peerid: JByte, zxid: int, epoch: int): (bs: seq<JByte>)
    ensures |bs| == HEADER
  {
    [-1, -1, peerid, opcode, 0, 0, 0, 0] + Four(zxid) + Four(epoch)
  }

  lemma {:induction false} EncodeParts(r: Request)
    ensures var w := Words(|r.payload|); var h := HeaderBytes(r.opcode, r.peerId, r.zxid, r.epoch);
            Encode(r) == h[4 := ToByte(w % 256)][5 := ToByte(w / 256)] + r.payload
  {
  }

  lemma {:induction false} EncodeEmpty(r: Request)
    requires r.payload == []
    ensures Encode(r) == HeaderBytes(r.opcode, r.peerId, r.zxid, r.epoch)
  {
  }

  lemma {:induction false} FourIs(v: int, x: nat)
    requires x < 4
    ensures Four(v)[x] == ByteOf(v, x) == ToByte(Rem(Shifted(v, x), 256))
          && Shifted(v, x + 1) == Quot(Shifted(v, x), 256)
  {
  }

  /** The value of the `r` highest of four digits. */
  function Highest(iarr: seq<nat>, r: nat): (n: nat)
    requires r <= 4 == |iarr|
  {
    if r == 0 then 0 else Highest(iarr, r - 1) * 256 + iarr[4 - r]
  }

  lemma {:induction false} HighestFour(iarr: seq<nat>)
    requires |iarr| == 4
    ensures Highest(iarr, 4) == iarr[0] + 256 * (iarr[1] + 256 * (iarr[2] + 256 * iarr[3]))
  {
    assert Highest(iarr, 1) == iarr[3] && Highest(iarr, 2) == Highest(iarr, 1) * 256 + iarr[2];
    assert Highest(iarr, 3) == Highest(iarr, 2) * 256 + iarr[1];
  }

  method ReadNumber(arr: array<JByte>, pos: nat) returns (number: nat)
    requires pos + 4 <= arr.Length
    ensures number == FromBytes(arr[..], pos)
  {
    var iarr: seq<nat> := [0, 0, 0, 0];
    for r := 0 to 4
      invariant |iarr| == 4 && forall k :: 0 <= k < r ==> iarr[k] == Unsigned(arr[pos + k])
    {
      var b: int := arr[pos + r];
      iarr := iarr[r := if b >= 0 then b else b + 256];
    }
    number := 0;
    for r := 0 to 4
      invariant number == Highest(iarr, r)
    {
      number := number * 256 + iarr[3 - r];
    }
    HighestFour(iarr);
  }

  class WireRequest {
    var data: array<JByte>
    var hasPayload: bool
    var payload: Reference
    const opCode: JByte
    const peerId: JByte
    const zxid: int
    const epoch: int
    var paylSize: nat

    /** The object stands for `r`: its fields and its bytes. */
    ghost predicate Represents(r: Request)
      reads this, data
    {
      && opCode == r.opcode && peerId == r.peerId && zxid == r.zxid && epoch == r.epoch && paylSize == |r.payload|
      && data[..] == Encode(r)
      && (payload.Null? <==> !hasPayload)
    }

    method FillFirst()
      requires data.Length >= HEADER
      modifies data
      ensures data[..8] == [-1, -1, peerId, opCode, 0, 0, 0, 0]
    {
      data[0], data[1] := -1, -1;
      data[3] := opCode;
      data[2] := peerId;
      data[4], data[5], data[6], data[7] := 0, 0, 0, 0;
    }

    method FillZxid()
      requires data.Length >= HEADER
      modifies data
      ensures data[..8] == old(data[..8]) && data[8..12] == Four(zxid)
    {
      hide Four, ByteOf, ToByte, Shifted, Quot, Rem;
      ghost var first := data[..8];
      var aux := zxid;
      ShiftedNone(zxid);
      for x := 0 to 4
        invariant aux == Shifted(zxid, x) && data[..8] == first
        invariant forall k :: 0 <= k < x ==> data[8 + k] == Four(zxid)[k]
      {
        FourIs(zxid, x);
        data[8 + x] := ToByte(Rem(aux, 256));
        aux := Quot(aux, 256);
      }
    }

    /** The digits of `epoch` are taken from exact decimal fractions. */
    method FillEpoch()
      requires data.Length >= HEADER
      modifies data
      ensures data[..12] == old(data[..12]) && data[12..16] == Four(epoch)
    {
      hide Four, ByteOf, ToByte, Shifted, Quot, Rem, Whole, Remainder256;
      ghost var first := data[..12];
      var bi := epoch as real;
      ShiftedNone(epoch);
      WholeOfWhole(epoch);
      for x := 0 to 4
        invariant Whole(bi) == Shifted(epoch, x) && data[..12] == first
        invariant forall k :: 0 <= k < x ==> data[12 + k] == Four(epoch)[k]
      {
        FourIs(epoch, x);
        DigitOfFraction(bi);
        data[12 + x] := ToByte(Whole(Remainder256(bi)));
        bi := bi / 256.0;
      }
    }

    /** Writes the sixteen header bytes. */
    method FillHeader()
      requires data.Length >= HEADER && forall k :: 0 <= k < data.Length ==> data[k] == 0
      modifies data
      ensures data[..HEADER] == HeaderBytes(opCode, peerId, zxid, epoch)
    {
      hide Four;
      FillFirst();
      ghost var first := data[..8];
      FillZxid();
      ghost var second := data[..12];
      assert second == first + Four(zxid);
      FillEpoch();
      assert data[..HEADER] == second + Four(epoch);
    }

    method FillSize(sizeInWords: nat)
      requires data.Length >= HEADER
      modifies data
      ensures data[..HEADER]
           == old(data[..HEADER])[4 := ToByte(sizeInWords % 256)][5 := ToByte(sizeInWords / 256)]
    {
      data[4] := ToByte(sizeInWords % 256);
      data[5] := ToByte(sizeInWords / 256);
    }

    method CopyPayload(paylsize: nat, payload: seq<JByte>)
      requires data.Length == HEADER + paylsize && paylsize <= |payload|
      modifies data
      ensures data[..HEADER] == old(data[..HEADER]) && data[HEADER..] == payload[..paylsize]
    {
      for x := 0 to paylsize
        invariant data[..HEADER] == old(data[..HEADER]) && data[HEADER..HEADER + x] == payload[..x]
      {
        data[HEADER + x] := payload[x];
        assert data[HEADER..HEADER + x + 1] == data[HEADER..HEADER + x] + [payload[x]];
      }
      assert data[HEADER..] == data[HEADER..HEADER + paylsize];
    }

    constructor Header(opcode: JByte, peerid: JByte, zxid: int, epoch: int)
      ensures Represents(Request(opcode, peerid, zxid, epoch, [])) && payload.Null?
      ensures fresh(data)
    {
      data := new JByte[HEADER](_ => 0);
      hasPayload, payload, paylSize := false, Null, 0;
      opCode, peerId, this.zxid, this.epoch := opcode, peerid, zxid, epoch;
      new;
      FillHeader();
      EncodeEmpty(Request(opcode, peerid, zxid, epoch, []));
      assert data[..] == data[..HEADER];
    }

    constructor WithPayload(opcode: JByte, peerid: JByte, zxid: int, epoch: int, paylsize: nat, payload: seq<JByte>)
      requires paylsize <= |payload|
      ensures Represents(Request(opcode, peerid, zxid, epoch, payload[..paylsize]))
            && this.payload == Bytes(payload)
      ensures fresh(data)
    {
      data := new JByte[HEADER + paylsize](_ => 0);
      hasPayload, this.payload, paylSize := true, Bytes(payload), paylsize;
      opCode, peerId, this.zxid, this.epoch := opcode, peerid, zxid, epoch;
      new;
      FillHeader();
      hide ToByte, HeaderBytes, Encode, Words;
      ghost var header := data[..HEADER];
      FillSize(Words(paylsize));
      ghost var full := data[..HEADER];
      CopyPayload(paylsize, payload);
      EncodeParts(Request(opcode, peerid, zxid, epoch, payload[..paylsize]));
      assert data[..] == full + data[HEADER..];
    }
  }

  lemma {:induction false} ShiftedNone(v: int)
    ensures Shifted(v, 0) == v
  {
  }

  lemma {:induction false} WholeOfWhole(v: int)
    ensures Whole(v as real) == v
  {
  }

  /** A request with payload from arguments that may be wrong: null is returned for the exception that a
      null payload or one shorter than announced ends in. */
  method NewRequest(opcode: JByte, peerid: JByte, zxid: int, epoch: int, paylsize: nat, payload: Reference)
    returns (req: WireRequest?)
    ensures req == null <==> payload.Null? || |payload.bytes| < paylsize
    ensures req != null ==>
              && fresh(req) && fresh(req.data) && req.payload == payload
              && req.Represents(Request(opcode, peerid, zxid, epoch, payload.bytes[..paylsize]))
  {
    if payload.Null? || |payload.bytes| < paylsize {
      req := null;
    } else {
      req := new WireRequest.WithPayload(opcode, peerid, zxid, epoch, paylsize, payload.bytes);
    }
  }

  /** What comes from the wire without payload holds a null, never an empty array. */
  method ParseRequest(indata: array<JByte>) returns (req: WireRequest?, crash: bool)
    ensures crash <==> Parse(indata[..]).Crash?
    ensures req != null <==> Parse(indata[..]).Parsed?
    ensures req != null ==> fresh(req) && fresh(req.data) && req.Represents(Parse(indata[..]).request)
                            && Parse(indata[..]).size == HEADER + req.paylSize
                            && (req.payload.Null? <==> Parse(indata[..]).request.payload == [])
  {
    req, crash := null, false;
    if indata.Length >= HEADER {
      if indata[0] == -1 && indata[1] == -1 {
        var n := ReadNumber(indata, 4);
        var paylsize := ToInt32(ToInt32(n) * 8);
        if paylsize >= 0 && indata.Length >= ToInt32(HEADER + paylsize) {
          var opcode, peerid := indata[3], indata[2];
          var zxid := ReadNumber(indata, 8);
          var epoch := ReadNumber(indata, 12);
          if paylsize == 0 {
            req := new WireRequest.Header(opcode, peerid, zxid, epoch);
          } else if HEADER + paylsize >= 0x8000_0000 {
            crash := true;
          } else {
            var pldata := new JByte[paylsize](_ => 0);
            for x := 0 to paylsize
              invariant pldata[..x] == indata[HEADER..HEADER + x]
            {
              pldata[x] := indata[HEADER + x];
              assert pldata[..x + 1] == pldata[..x] + [indata[HEADER + x]];
            }
            assert pldata[..] == pldata[..paylsize] == indata[..][HEADER..HEADER + paylsize];
            assert pldata[..][..paylsize] == pldata[..];
            req := new WireRequest.WithPayload(opcode, peerid, zxid, epoch, paylsize, pldata[..]);
          }
        }
      }
    }
  }
}
