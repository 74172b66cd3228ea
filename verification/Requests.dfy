/** The control message exchanged by cluster nodes (Request.java), as plain data. */
module Requests {

  /** A Java byte. */
  type JByte = b: int | -128 <= b < 128 witness 0

  const OPCODE_SETUPPEER: JByte := 17
  const OPCODE_ADDPEER: JByte := 18
  const OPCODE_SETLEADER: JByte := 20
  const OPCODE_DONE: JByte := 0
  const OPCODE_WRITEREQ: JByte := 1
  const OPCODE_PROPOSAL: JByte := 2
  const OPCODE_ACKPROPOSE: JByte := 3
  const OPCODE_COMMIT: JByte := 4
  const OPCODE_SYNCREQ: JByte := 5

  /** An empty `payload` is none at all: what comes from the wire without payload holds a null there,
      and no request that was parsed holds an empty array. */
  datatype Request = Request(opcode: JByte, peerId: JByte, zxid: int, epoch: int, payload: seq<JByte>)

  /** The cast `(int)` from a Java long. */
  function ToInt32(v: int): (r: int)
    ensures -0x8000_0000 <= r < 0x8000_0000
    ensures -0x8000_0000 <= v < 0x8000_0000 ==> r == v
  {
    (v + 0x8000_0000) % 0x1_0000_0000 - 0x8000_0000
  }

  /** The cast `(byte)` from a Java integer. */
  function ToByte(v: int): (b: JByte)
    ensures (b - v) % 256 == 0
  {
    (v + 128) % 256 - 128
  }
}
