/**
 * The scatter/gather wire packet: serialize_sg_packet and deserialize_sg_packet.
 *
 * Frame layout (little-endian integers):
 *   0 magic(4) | 4 loc(8) | 12 rem(8) | 20 blk(8) | 28 op(4) | 32 sseq(2) | 34 rseq(2)
 *   | 36 flag(1) | 37 payload(1024, only when flag = 1) | magic(4)
 * which is 41 bytes without a payload and 1065 bytes with one.
 */
module Codec {
  import opened Types

  const MAGIC_VALUE: uint32 := 0xfefe
  const BASE_PACKET_SIZE: nat := 41
  const DATA_PACKET_SIZE: nat := BASE_PACKET_SIZE + BLOCK_SIZE
  /** Offset of the payload-present flag; the payload follows it. */
  const FLAG_OFFSET: nat := 36
  const PAYLOAD_OFFSET: nat := 37

  /** Operation codes; every code above MAX_OP is invalid. */
  const INIT_ENDPOINT: uint32 := 0
  const STOP_ENDPOINT: uint32 := 1
  const CREATE_BLOCK: uint32 := 2
  const UPDATE_BLOCK: uint32 := 3
  const OBTAIN_BLOCK: uint32 := 4
  const DELETE_BLOCK: uint32 := 5
  const MAX_OP: uint32 := 6

  /** The buffer a response is received into: always SG_DATA_PACKET_SIZE bytes. */
  type Frame = s: seq<byte> | |s| == DATA_PACKET_SIZE witness seq(1065, _ => 0)

  /** The six numeric fields every packet carries. */
  datatype Header = Header(loc: uint64, rem: uint64, blk: uint64, op: uint32, sseq: uint16, rseq: uint16)

  /** SG_Packet_Status: 0 for success, 1..6 for the six validation failures, in checking order. */
  datatype PacketStatus =
    | PacketOk | BadLocal | BadRemote | BadBlock | BadOp | BadSenderSeq | BadReceiverSeq
  {
    function Code(): (c: nat)
      ensures c <= 6
      ensures c == 0 <==> this == PacketOk
    {
      match this
      case PacketOk => 0
      case BadLocal => 1
      case BadRemote => 2
      case BadBlock => 3
      case BadOp => 4
      case BadSenderSeq => 5
      case BadReceiverSeq => 6
    }
  }

  /** Whether `h` passes the one check whose failure is reported as `check`. */
  predicate Passes(h: Header, check: PacketStatus)
  {
    match check
    case PacketOk => true
    case BadLocal => h.loc != 0
    case BadRemote => h.rem != 0
    case BadBlock => h.blk != 0
    case BadOp => h.op <= MAX_OP
    case BadSenderSeq => h.sseq != 0
    case BadReceiverSeq => h.rseq != 0
  }

  /** The ordered validation shared by both directions of the codec. */
  function Validate(h: Header): (s: PacketStatus)
    ensures s == PacketOk <==> forall c :: Passes(h, c)
    ensures s != PacketOk ==> !Passes(h, s)
    ensures s != PacketOk ==> forall c: PacketStatus :: c.Code() < s.Code() ==> Passes(h, c)
  {
    assert (Passes(h, BadLocal) && Passes(h, BadRemote) && Passes(h, BadBlock) && Passes(h, BadOp)
            && Passes(h, BadSenderSeq) && Passes(h, BadReceiverSeq)) ==> forall c :: Passes(h, c);
    if h.loc == 0 then BadLocal
    else if h.rem == 0 then BadRemote
    else if h.blk == 0 then BadBlock
    else if h.op > MAX_OP then BadOp
    else if h.sseq == 0 then BadSenderSeq
    else if h.rseq == 0 then BadReceiverSeq
    else PacketOk
  }

  function Pow256(n: nat): (r: nat)
    ensures r > 0
  {
    if n == 0 then 1 else 256 * Pow256(n - 1)
  }

  /** `x` as `n` bytes, least significant first. */
  function LittleEndian(x: nat, n: nat): seq<byte>
    requires x < Pow256(n)
  {
    if n == 0 then [] else [x % 256] + LittleEndian(x / 256, n - 1)
  }

  /** The unsigned number whose little-endian bytes are `s`. */
  function FromLittleEndian(s: seq<byte>): (x: nat)
    ensures x < Pow256(|s|)
  {
    if |s| == 0 then 0 else s[0] + 256 * FromLittleEndian(s[1..])
  }

  lemma {:induction false} LittleEndianRoundTrip(x: nat, n: nat)
    requires x < Pow256(n)
    ensures |LittleEndian(x, n)| == n
    ensures FromLittleEndian(LittleEndian(x, n)) == x
  {
    if n > 0 {
      LittleEndianRoundTrip(x / 256, n - 1);
      assert LittleEndian(x, n)[1..] == LittleEndian(x / 256, n - 1);
    }
  }

  lemma {:induction false} FromLittleEndianRoundTrip(s: seq<byte>)
    ensures LittleEndian(FromLittleEndian(s), |s|) == s
  {
    if |s| > 0 {
      var t := FromLittleEndian(s[1..]);
      FromLittleEndianRoundTrip(s[1..]);
      LowByte(s[0], t);
      assert FromLittleEndian(s) == s[0] + 256 * t;
      assert LittleEndian(FromLittleEndian(s), |s|) == [s[0]] + LittleEndian(t, |s| - 1);
      assert s == [s[0]] + s[1..];
    }
  }

  /** The low byte and the rest of `b + 256 * t`. */
  lemma LowByte(b: byte, t: nat)
    ensures (b + 256 * t) % 256 == b
    ensures (b + 256 * t) / 256 == t
  {
  }

  lemma Pow256Widths()
    ensures Pow256(2) == 0x1_0000
    ensures Pow256(4) == 0x1_0000_0000
    ensures Pow256(8) == 0x1_0000_0000_0000_0000
  {
    assert Pow256(1) == 0x100;
    assert Pow256(2) == 0x1_0000;
    assert Pow256(3) == 0x100_0000;
    assert Pow256(4) == 0x1_0000_0000;
    assert Pow256(5) == 0x100_0000_0000;
    assert Pow256(6) == 0x1_0000_0000_0000;
    assert Pow256(7) == 0x100_0000_0000_0000;
  }

  function MagicBytes(): (m: seq<byte>)
    ensures |m| == 4
  {
    Pow256Widths();
    LittleEndianRoundTrip(MAGIC_VALUE, 4);
    LittleEndian(MAGIC_VALUE, 4)
  }

  /** Bytes 4..36 of a frame: the six fields at their fixed widths. */
  function HeaderBytes(h: Header): (b: seq<byte>)
    ensures |b| == 32
  {
    Pow256Widths();
    LittleEndianRoundTrip(h.loc, 8);
    LittleEndianRoundTrip(h.rem, 8);
    LittleEndianRoundTrip(h.blk, 8);
    LittleEndianRoundTrip(h.op, 4);
    LittleEndianRoundTrip(h.sseq, 2);
    LittleEndianRoundTrip(h.rseq, 2);
    LittleEndian(h.loc, 8) + LittleEndian(h.rem, 8) + LittleEndian(h.blk, 8)
    + LittleEndian(h.op, 4) + LittleEndian(h.sseq, 2) + LittleEndian(h.rseq, 2)
  }

  /** The six fields read back from the 32 bytes that follow the leading magic value. */
  function DecodeFields(b: seq<byte>): Header
    requires |b| == 32
  {
    Pow256Widths();
    Header(FromLittleEndian(b[0..8]), FromLittleEndian(b[8..16]), FromLittleEndian(b[16..24]),
           FromLittleEndian(b[24..28]), FromLittleEndian(b[28..30]), FromLittleEndian(b[30..32]))
  }

  /** The fields of frame `p`, read from its bytes 4..36. */
  function DecodeHeader(p: seq<byte>): Header
    requires |p| >= FLAG_OFFSET
  {
    DecodeFields(p[4..FLAG_OFFSET])
  }

  /** A serialized frame, or the status of the first check that failed (nothing written). */
  datatype Serialized = Packet(bytes: seq<byte>) | Rejected(status: PacketStatus)

  /** serialize_sg_packet: validate, then lay out the frame (payload when `data` is present). */
  function Serialize(h: Header, data: Option<Block>): (r: Serialized)
    ensures r.Rejected? <==> Validate(h) != PacketOk
    ensures r.Rejected? ==> r.status == Validate(h)
    ensures r.Packet? ==> |r.bytes| == if data.Some? then DATA_PACKET_SIZE else BASE_PACKET_SIZE
  {
    var status := Validate(h);
    if status != PacketOk then Rejected(status)
    else match data
      case None => Packet(MagicBytes() + HeaderBytes(h) + [0] + MagicBytes())
      case Some(d) => Packet(MagicBytes() + HeaderBytes(h) + [1] + d + MagicBytes())
  }

  /** What deserialize_sg_packet leaves in its out-parameters and returns. */
  datatype Unpacked = Unpacked(status: PacketStatus, header: Header, data: Option<Block>)

  /**
   * deserialize_sg_packet. The magic values and the flag byte are skipped, not checked.
   * Without a data buffer (`wantData` false) it succeeds without validating anything;
   * with one it first copies the payload and then applies the six checks in order.
   */
  function Deserialize(p: seq<byte>, wantData: bool): (r: Unpacked)
    requires |p| >= if wantData then PAYLOAD_OFFSET + BLOCK_SIZE else FLAG_OFFSET
    ensures r.header == DecodeFields(p[4..FLAG_OFFSET])
    ensures !wantData ==> r.status == PacketOk && r.data.None?
    ensures wantData ==> r.status == Validate(r.header) && r.data.Some? && r.data.value == p[PAYLOAD_OFFSET..PAYLOAD_OFFSET + BLOCK_SIZE]
  {
    var h := DecodeHeader(p);
    if !wantData then Unpacked(PacketOk, h, None)
    else Unpacked(Validate(h), h, Some(p[PAYLOAD_OFFSET..PAYLOAD_OFFSET + BLOCK_SIZE]))
  }

  /** Decoding six consecutive fields of the right widths reads each one back from its own bytes. */
  lemma DecodeConcatenation(a: seq<byte>, b: seq<byte>, c: seq<byte>, d: seq<byte>, e: seq<byte>, f: seq<byte>)
    requires |a| == 8 && |b| == 8 && |c| == 8 && |d| == 4 && |e| == 2 && |f| == 2
    ensures |a + b + c + d + e + f| == 32
    ensures DecodeFields(a + b + c + d + e + f)
      == Header(FromLittleEndian(a), FromLittleEndian(b), FromLittleEndian(c),
                FromLittleEndian(d), FromLittleEndian(e), FromLittleEndian(f))
  {
    var hb := a + b + c + d + e + f;
    assert hb[0..8] == a;
    assert hb[8..16] == b;
    assert hb[16..24] == c;
    assert hb[24..28] == d;
    assert hb[28..30] == e;
    assert hb[30..32] == f;
  }

  /** Encoding the six fields and decoding them again gives them back. */
  lemma HeaderRoundTrip(h: Header)
    ensures |HeaderBytes(h)| == 32
    ensures DecodeFields(HeaderBytes(h)) == h
  {
    Pow256Widths();
    LittleEndianRoundTrip(h.loc, 8);
    LittleEndianRoundTrip(h.rem, 8);
    LittleEndianRoundTrip(h.blk, 8);
    LittleEndianRoundTrip(h.op, 4);
    LittleEndianRoundTrip(h.sseq, 2);
    LittleEndianRoundTrip(h.rseq, 2);
    DecodeConcatenation(LittleEndian(h.loc, 8), LittleEndian(h.rem, 8), LittleEndian(h.blk, 8),
                        LittleEndian(h.op, 4), LittleEndian(h.sseq, 2), LittleEndian(h.rseq, 2));
  }

  /** Decoding 32 bytes and encoding the fields again gives the same bytes. */
  lemma FieldsRoundTrip(b: seq<byte>)
    requires |b| == 32
    ensures HeaderBytes(DecodeFields(b)) == b
  {
    Pow256Widths();
    FromLittleEndianRoundTrip(b[0..8]);
    FromLittleEndianRoundTrip(b[8..16]);
    FromLittleEndianRoundTrip(b[16..24]);
    FromLittleEndianRoundTrip(b[24..28]);
    FromLittleEndianRoundTrip(b[28..30]);
    FromLittleEndianRoundTrip(b[30..32]);
    SplitFields(b);
  }

  /** 32 bytes are the concatenation of their six field slices. */
  lemma SplitFields(b: seq<byte>)
    requires |b| == 32
    ensures b == b[0..8] + b[8..16] + b[16..24] + b[24..28] + b[28..30] + b[30..32]
  {
    assert b[0..16] == b[0..8] + b[8..16];
    assert b[0..24] == b[0..16] + b[16..24];
    assert b[0..28] == b[0..24] + b[24..28];
    assert b[0..30] == b[0..28] + b[28..30];
    assert b == b[0..30] + b[30..32];
  }

  /** Where serialize_sg_packet puts each field, read back through the decoder's view. */
  lemma SerializeLayout(h: Header, data: Option<Block>)
    requires Validate(h) == PacketOk
    ensures Serialize(h, data).Packet?
    ensures var p := Serialize(h, data).bytes;
      && FromLittleEndian(p[0..4]) == MAGIC_VALUE
      && FromLittleEndian(p[|p| - 4..]) == MAGIC_VALUE
      && p[4..FLAG_OFFSET] == HeaderBytes(h)
      && DecodeHeader(p) == h
      && p[FLAG_OFFSET] == (if data.Some? then 1 else 0)
      && (data.Some? ==> p[PAYLOAD_OFFSET..PAYLOAD_OFFSET + BLOCK_SIZE] == data.value)
  {
    match data
    case None =>
      FrameLayout(h, 0, []);
      assert MagicBytes() + HeaderBytes(h) + [0] + [] + MagicBytes() == Serialize(h, data).bytes;
    case Some(d) =>
      FrameLayout(h, 1, d);
  }

  /** The frame built from a header, a flag and a payload, read back through the decoder's view. */
  lemma FrameLayout(h: Header, flag: byte, d: seq<byte>)
    ensures var p := MagicBytes() + HeaderBytes(h) + [flag] + d + MagicBytes();
      && FromLittleEndian(p[0..4]) == MAGIC_VALUE
      && FromLittleEndian(p[|p| - 4..]) == MAGIC_VALUE
      && p[4..FLAG_OFFSET] == HeaderBytes(h)
      && DecodeHeader(p) == h
      && p[FLAG_OFFSET] == flag
      && p[PAYLOAD_OFFSET..PAYLOAD_OFFSET + |d|] == d
  {
    LittleEndianRoundTrip(MAGIC_VALUE, 4);
    HeaderRoundTrip(h);
    FrameSlices(MagicBytes(), HeaderBytes(h), flag, d);
  }

  /** Where each part of `magic + fields + flag + payload + magic` sits. */
  lemma FrameSlices(m: seq<byte>, hb: seq<byte>, flag: byte, d: seq<byte>)
    requires |m| == 4 && |hb| == 32
    ensures var p := m + hb + [flag] + d + m;
      && p[0..4] == m && p[|p| - 4..] == m && p[4..FLAG_OFFSET] == hb
      && p[FLAG_OFFSET] == flag && p[PAYLOAD_OFFSET..PAYLOAD_OFFSET + |d|] == d
  {
    var p := m + hb + [flag] + d + m;
    assert p[0..4] == m;
    assert p[|p| - 4..] == m;
    assert p[4..FLAG_OFFSET] == hb;
    assert p[PAYLOAD_OFFSET..PAYLOAD_OFFSET + |d|] == d;
  }

  /** Deserializing a serialized data packet reproduces every field and all payload bytes. */
  lemma RoundTripWithData(h: Header, d: Block)
    requires Validate(h) == PacketOk
    ensures Serialize(h, Some(d)).Packet?
    ensures Deserialize(Serialize(h, Some(d)).bytes, true) == Unpacked(PacketOk, h, Some(d))
  {
    SerializeLayout(h, Some(d));
  }

  /** The same for a frame without payload, decoded without a data buffer. */
  lemma RoundTripHeaderOnly(h: Header)
    requires Validate(h) == PacketOk
    ensures Serialize(h, None).Packet?
    ensures Deserialize(Serialize(h, None).bytes, false) == Unpacked(PacketOk, h, None)
  {
    SerializeLayout(h, None);
  }

  /**
   * The other direction: a frame that decodes successfully is re-serialized to the same
   * bytes everywhere except the magic values and the flag, which the decoder never reads.
   */
  lemma ReserializeAgrees(p: Frame)
    requires Deserialize(p, true).status == PacketOk
    ensures var u := Deserialize(p, true);
      var q := Serialize(u.header, u.data).bytes;
      && Serialize(u.header, u.data).Packet?
      && |q| == |p|
      && q[4..FLAG_OFFSET] == p[4..FLAG_OFFSET]
      && q[PAYLOAD_OFFSET..PAYLOAD_OFFSET + BLOCK_SIZE] == p[PAYLOAD_OFFSET..PAYLOAD_OFFSET + BLOCK_SIZE]
  {
    var u := Deserialize(p, true);
    FieldsRoundTrip(p[4..FLAG_OFFSET]);
    SerializeLayout(u.header, u.data);
    assert u.header == DecodeFields(p[4..FLAG_OFFSET]);
  }

  /** Bytes the decoder skips (both magic values, the flag) never affect its result. */
  lemma DeserializeIgnoresFraming(p: seq<byte>, q: seq<byte>, wantData: bool)
    requires |p| >= PAYLOAD_OFFSET + BLOCK_SIZE && |q| >= PAYLOAD_OFFSET + BLOCK_SIZE
    requires p[4..FLAG_OFFSET] == q[4..FLAG_OFFSET]
    requires wantData ==> p[PAYLOAD_OFFSET..PAYLOAD_OFFSET + BLOCK_SIZE] == q[PAYLOAD_OFFSET..PAYLOAD_OFFSET + BLOCK_SIZE]
    ensures Deserialize(p, wantData) == Deserialize(q, wantData)
  {
  }
}
