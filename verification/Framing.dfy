/** The data-channel frame format: a big-endian uint32 sequence number, then the payload. */
module Framing {
  import opened Common

  const HEADER_BYTES := 4
  const UINT32 := 0x1_0000_0000

  datatype Decoded = Frame(seqNo: nat, payload: Bytes) | TooSmall

  /** The four header bytes that `DataView.setUint32` stores: the value modulo 2^32, most significant byte first. */
  function Header(seqNo: nat): (h: Bytes)
    ensures |h| == HEADER_BYTES
  {
    var n := seqNo % UINT32;
    var n1 := n / 0x100;
    var n2 := n1 / 0x100;
    [n2 / 0x100, n2 % 0x100, n1 % 0x100, n % 0x100]
  }

  function Value(b0: int, b1: int, b2: int, b3: int): int {
    b0 * 0x100_0000 + b1 * 0x1_0000 + b2 * 0x100 + b3
  }

  function Encode(seqNo: nat, payload: Bytes): Bytes {
    Header(seqNo) + payload
  }

  function Decode(data: Bytes): Decoded {
    if |data| < HEADER_BYTES then TooSmall
    else Frame(Value(data[0], data[1], data[2], data[3]), data[HEADER_BYTES..])
  }

  method EncodeFrame(seqNo: nat, payload: Bytes) returns (frame: array<Byte>)
    ensures fresh(frame) && frame[..] == Encode(seqNo, payload)
  {
    frame := new Byte[HEADER_BYTES + |payload|](_ => 0);
    Set(frame, 0, Header(seqNo));
    Set(frame, HEADER_BYTES, payload);
  }

  /** Decoding undoes encoding up to the header's width ... */
  lemma DecodeEncode(seqNo: nat, payload: Bytes)
    ensures Decode(Encode(seqNo, payload)) == Frame(seqNo % UINT32, payload)
  {
    var data := Encode(seqNo, payload);
    assert data[HEADER_BYTES..] == payload;
  }

  /** ... so a sequence number survives the wire exactly when it fits the header. */
  lemma SeqSurvivesIff(seqNo: nat, payload: Bytes)
    ensures Decode(Encode(seqNo, payload)) == Frame(seqNo, payload) <==> seqNo < UINT32
  {
    DecodeEncode(seqNo, payload);
  }

  lemma HeaderOfValue(b0: int, b1: int, b2: int, b3: int)
    requires 0 <= b0 < 256 && 0 <= b1 < 256 && 0 <= b2 < 256 && 0 <= b3 < 256
    ensures 0 <= Value(b0, b1, b2, b3) < UINT32
    ensures Header(Value(b0, b1, b2, b3)) == [b0, b1, b2, b3]
  {
    var n := Value(b0, b1, b2, b3);
    assert n == ((b0 * 0x100 + b1) * 0x100 + b2) * 0x100 + b3;
    assert n % UINT32 == n;
    assert n / 0x100 == (b0 * 0x100 + b1) * 0x100 + b2;
    assert n / 0x100 / 0x100 == b0 * 0x100 + b1;
  }

  /** Every buffer of at least four bytes is the encoding of what it decodes to. */
  lemma EncodeDecode(data: Bytes)
    ensures Decode(data).Frame? <==> |data| >= HEADER_BYTES
    ensures Decode(data).Frame? ==>
              Decode(data).seqNo < UINT32 && Encode(Decode(data).seqNo, Decode(data).payload) == data
  {
    if |data| >= HEADER_BYTES {
      HeaderOfValue(data[0], data[1], data[2], data[3]);
      assert data[..HEADER_BYTES] == [data[0], data[1], data[2], data[3]];
    }
  }
}
