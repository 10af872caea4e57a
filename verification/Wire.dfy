/**
 The wire format of src/lib/protocol.rs: big-endian integers, the seven-byte
 header, NACK payloads, and the limits both endpoints share.

 Rust's fixed-width integers are subset types; `as u16` is written out as a
 remainder. SHA-256 is any function from bytes to 32-byte digests.
 */
module Wire {
  import opened Options

  type byte = b: int | 0 <= b < 0x100
  type u16 = n: int | 0 <= n < 0x1_0000
  type u32 = n: int | 0 <= n < 0x1_0000_0000
  type u64 = n: int | 0 <= n < 0x1_0000_0000_0000_0000
  type Bytes = seq<byte>

  const DIGEST_SIZE: nat := 32
  type Digest = d: Bytes | |d| == DIGEST_SIZE witness seq(DIGEST_SIZE, _ => 0)
  type Sha = Bytes -> Digest

  // Peers and paths are opaque to the protocol.
  type Addr = nat
  type Path = Bytes

  datatype Outgoing = Outgoing(to: Addr, datagram: Bytes)

  const HEADER_SIZE: nat := 7
  const MAX_UDP_PAYLOAD: nat := 65507
  const MAX_CHUNK_SIZE: nat := MAX_UDP_PAYLOAD - HEADER_SIZE
  const SEQUENCE_BYTES: nat := 4
  const MAX_NACKS_PER_PACKET: nat := (MAX_UDP_PAYLOAD - HEADER_SIZE) / SEQUENCE_BYTES
  const MAX_TOTAL_CHUNKS: nat := 0x100_0000
  const NACK_REISSUE_INTERVAL: nat := 3000  // milliseconds
  const FEEDBACK_DRAIN_INTERVAL: nat := 16

  // Two different inputs with one digest. A theorem that concludes equal
  // contents names the single pair it needs not to collide.
  ghost predicate Collide(sha: Sha, a: Bytes, b: Bytes) {
    a != b && sha(a) == sha(b)
  }

  // ---------- Big-endian integers ----------

  function Pow256(width: nat): (p: nat)
    ensures p > 0
  {
    if width == 0 then 1 else 0x100 * Pow256(width - 1)
  }

  function BigEndian(n: nat, width: nat): (bs: Bytes)
    ensures |bs| == width
  {
    if width == 0 then [] else BigEndian(n / 0x100, width - 1) + [n % 0x100]
  }

  function FromBigEndian(bs: Bytes): nat {
    if |bs| == 0 then 0 else 0x100 * FromBigEndian(bs[..|bs| - 1]) + bs[|bs| - 1]
  }

  // The decoder inverts the encoder on every value that fits the width.
  lemma {:induction false} BigEndianRoundTrip(n: nat, width: nat)
    requires n < Pow256(width)
    ensures FromBigEndian(BigEndian(n, width)) == n
  {
    if width > 0 {
      BigEndianRoundTrip(n / 0x100, width - 1);
      var bs := BigEndian(n, width);
      assert bs[..width - 1] == BigEndian(n / 0x100, width - 1);
    }
  }

  // And the encoder inverts the decoder on every byte string of the width.
  lemma {:induction false} FromBigEndianFits(bs: Bytes)
    ensures FromBigEndian(bs) < Pow256(|bs|)
    ensures BigEndian(FromBigEndian(bs), |bs|) == bs
  {
    if |bs| > 0 {
      var front := bs[..|bs| - 1];
      FromBigEndianFits(front);
      assert FromBigEndian(bs) / 0x100 == FromBigEndian(front);
      assert front + [bs[|bs| - 1]] == bs;
    }
  }

  // The value of a byte string whose first byte weighs most.
  function Weighed(bs: Bytes): nat {
    if bs == [] then 0 else bs[0] * Pow256(|bs| - 1) + Weighed(bs[1..])
  }

  lemma {:induction false} WeighedSnoc(bs: Bytes, b: byte)
    ensures Weighed(bs + [b]) == 0x100 * Weighed(bs) + b
  {
    if bs == [] {
      assert ([] + [b])[1..] == [];
    } else {
      assert (bs + [b])[1..] == bs[1..] + [b];
      WeighedSnoc(bs[1..], b);
      ShiftWeight(bs[0], |bs| - 1);
    }
  }

  lemma ShiftWeight(b: byte, width: nat)
    ensures b * Pow256(width + 1) == 0x100 * (b * Pow256(width))
  {}

  lemma {:induction false} FirstByteWeighsMost(bs: Bytes)
    ensures FromBigEndian(bs) == Weighed(bs)
  {
    if bs != [] {
      var front := bs[..|bs| - 1];
      FirstByteWeighsMost(front);
      WeighedSnoc(front, bs[|bs| - 1]);
      assert front + [bs[|bs| - 1]] == bs;
    }
  }

  function U16(bs: Bytes): u16
    requires |bs| == 2
  {
    FromBigEndianFits(bs);
    FromBigEndian(bs)
  }

  function U32(bs: Bytes): u32
    requires |bs| == 4
  {
    FromBigEndianFits(bs);
    assert Pow256(4) == 0x1_0000_0000;
    FromBigEndian(bs)
  }

  function U64(bs: Bytes): u64
    requires |bs| == 8
  {
    FromBigEndianFits(bs);
    assert Pow256(8) == 0x1_0000_0000_0000_0000;
    FromBigEndian(bs)
  }

  // Rust's `as u16` on a length.
  function CastU16(n: nat): u16 {
    n % 0x1_0000
  }

  // ---------- Header ----------

  datatype PacketType = Init | Ack | Data | Done | Nack | Fin | FinAck

  function TypeByte(kind: PacketType): byte {
    match kind
    case Init => 1
    case Ack => 2
    case Data => 3
    case Done => 4
    case Nack => 5
    case Fin => 6
    case FinAck => 7
  }

  function TypeOf(b: byte): Option<PacketType> {
    match b
    case 1 => Some(Init)
    case 2 => Some(Ack)
    case 3 => Some(Data)
    case 4 => Some(Done)
    case 5 => Some(Nack)
    case 6 => Some(Fin)
    case 7 => Some(FinAck)
    case _ => None
  }

  datatype Header = Header(kind: PacketType, seqNo: u32, payloadLen: u16)

  function HeaderBytes(h: Header): (bs: Bytes)
    ensures |bs| == HEADER_SIZE
  {
    [TypeByte(h.kind)] + BigEndian(h.seqNo, 4) + BigEndian(h.payloadLen, 2)
  }

  // The packet types in the order of their numbers, from 1.
  const TYPES: seq<PacketType> := [Init, Ack, Data, Done, Nack, Fin, FinAck]

  // The bytes on the wire: the type's number, the sequence number and the payload
  // length, most significant byte first.
  lemma HeaderLayout(h: Header)
    ensures var bs := HeaderBytes(h);
            |bs| == 7 && 1 <= bs[0] <= 7 && TYPES[bs[0] - 1] == h.kind &&
            Weighed(bs[1..5]) == h.seqNo && Weighed(bs[5..7]) == h.payloadLen
  {
    var bs := HeaderBytes(h);
    assert Pow256(4) == 0x1_0000_0000 && Pow256(2) == 0x1_0000;
    assert bs[1..5] == BigEndian(h.seqNo, 4) && bs[5..7] == BigEndian(h.payloadLen, 2);
    BigEndianRoundTrip(h.seqNo, 4);
    BigEndianRoundTrip(h.payloadLen, 2);
    FirstByteWeighsMost(bs[1..5]);
    FirstByteWeighsMost(bs[5..7]);
  }

  // And no other type byte is known.
  lemma TypesExactly(b: byte)
    ensures TypeOf(b) == if 1 <= b <= 7 then Some(TYPES[b - 1]) else None
  {}

  method EncodeHeader(h: Header, buf: array<byte>)
    requires buf.Length >= HEADER_SIZE
    modifies buf
    ensures buf[..] == HeaderBytes(h) + old(buf[HEADER_SIZE..])
  {
    var s, l := BigEndian(h.seqNo, 4), BigEndian(h.payloadLen, 2);
    buf[0] := TypeByte(h.kind);
    buf[1], buf[2], buf[3], buf[4] := s[0], s[1], s[2], s[3];
    buf[5], buf[6] := l[0], l[1];
    assert buf[..HEADER_SIZE] == HeaderBytes(h);
    assert buf[HEADER_SIZE..] == old(buf[HEADER_SIZE..]);
    assert buf[..] == buf[..HEADER_SIZE] + buf[HEADER_SIZE..];
  }

  function DecodeHeader(buf: Bytes): Option<Header> {
    if |buf| < HEADER_SIZE then None
    else match TypeOf(buf[0])
      case None => None
      case Some(kind) => Some(Header(kind, U32(buf[1..5]), U16(buf[5..7])))
  }

  lemma SliceOfPrefix(prefix: Bytes, whole: Bytes, from: nat, to: nat)
    requires prefix <= whole && from <= to <= |prefix|
    ensures whole[from..to] == prefix[from..to]
  {}

  // Decoding succeeds exactly on the byte strings that start with some
  // encoded header, and returns that header.
  lemma DecodeHeaderExact(buf: Bytes, h: Header)
    ensures DecodeHeader(buf) == Some(h) <==> HeaderBytes(h) <= buf
  {
    if |buf| >= HEADER_SIZE {
      FromBigEndianFits(buf[1..5]);
      FromBigEndianFits(buf[5..7]);
      assert Pow256(4) == 0x1_0000_0000 && Pow256(2) == 0x1_0000;
      BigEndianRoundTrip(h.seqNo, 4);
      BigEndianRoundTrip(h.payloadLen, 2);
      var bs := HeaderBytes(h);
      assert bs[1..5] == BigEndian(h.seqNo, 4) && bs[5..7] == BigEndian(h.payloadLen, 2);
      if HeaderBytes(h) <= buf {
        SliceOfPrefix(bs, buf, 0, 1);
        SliceOfPrefix(bs, buf, 1, 5);
        SliceOfPrefix(bs, buf, 5, 7);
        assert buf[0] == buf[0..1][0];
      }
      if DecodeHeader(buf) == Some(h) {
        assert buf[..HEADER_SIZE] == [buf[0]] + buf[1..5] + buf[5..7];
      }
    }
  }

  // The type a datagram announces, if it has a header at all.
  function KindOf(datagram: Bytes): Option<PacketType> {
    if |datagram| < HEADER_SIZE then None else TypeOf(datagram[0])
  }

  lemma KindOfIsDecoded(datagram: Bytes)
    ensures KindOf(datagram) == match DecodeHeader(datagram) case None => None case Some(h) => Some(h.kind)
  {}

  // ---------- Packets ----------

  // The receive buffer holds `n` fresh bytes followed by stale ones.
  function ParsePacket(buf: Bytes, n: nat): (r: Option<(Header, nat)>)
    requires n <= |buf|
    ensures r.Some? ==> HEADER_SIZE <= r.value.1 <= n
  {
    match DecodeHeader(buf[..n])
    case None => None
    case Some(header) =>
      var payloadEnd := HEADER_SIZE + header.payloadLen;
      if payloadEnd > n then None else Some((header, payloadEnd))
  }

  datatype Message = Message(kind: PacketType, seqNo: u32, payload: Bytes)

  // What a handler sees of a datagram: its header fields and the payload.
  function Parse(datagram: Bytes): Option<Message> {
    match ParsePacket(datagram, |datagram|)
    case None => None
    case Some((h, payloadEnd)) => Some(Message(h.kind, h.seqNo, datagram[HEADER_SIZE..payloadEnd]))
  }

  // Stale bytes behind a datagram never show through.
  lemma StaleBytesIgnored(datagram: Bytes, stale: Bytes)
    ensures ParsePacket(datagram + stale, |datagram|) == ParsePacket(datagram, |datagram|)
    ensures var r := ParsePacket(datagram, |datagram|);
            r.Some? ==> (datagram + stale)[HEADER_SIZE..r.value.1] == datagram[HEADER_SIZE..r.value.1]
  {
    assert (datagram + stale)[..|datagram|] == datagram == datagram[..|datagram|];
  }

  // The datagram that `send_packet` puts on the wire.
  function Packet(kind: PacketType, seqNo: u32, payload: Bytes): Bytes {
    HeaderBytes(Header(kind, seqNo, CastU16(|payload|))) + payload
  }

  function Control(kind: PacketType, seqNo: u32): Bytes {
    Packet(kind, seqNo, [])
  }

  // `send_packet` up to the socket: the header into a buffer, the payload behind it.
  method Frame(h: Header, payload: Bytes) returns (datagram: Bytes)
    ensures h.payloadLen == CastU16(|payload|) ==> datagram == Packet(h.kind, h.seqNo, payload)
    ensures datagram == HeaderBytes(h) + payload
  {
    var head := new byte[HEADER_SIZE](_ => 0);
    EncodeHeader(h, head);
    datagram := head[..] + payload;
  }

  // A framed packet parses back to exactly what was framed, whatever bytes
  // follow it in the datagram, if and only if the length survived the cast.
  lemma FramingRoundTrip(kind: PacketType, seqNo: u32, payload: Bytes, trailing: Bytes)
    ensures Parse(Packet(kind, seqNo, payload) + trailing) == Some(Message(kind, seqNo, payload))
      <==> |payload| < 0x1_0000
  {
    var h := Header(kind, seqNo, CastU16(|payload|));
    var datagram := Packet(kind, seqNo, payload) + trailing;
    DecodeHeaderExact(datagram, h);
    assert datagram[..|datagram|] == datagram;
    if |payload| < 0x1_0000 {
      assert datagram[HEADER_SIZE..HEADER_SIZE + |payload|] == payload;
    } else {
      assert |payload| != h.payloadLen;
      if Parse(datagram).Some? {
        assert |Parse(datagram).value.payload| == h.payloadLen;
      }
    }
  }

  lemma ParsePacketOf(kind: PacketType, seqNo: u32, payload: Bytes)
    requires |payload| <= MAX_CHUNK_SIZE
    ensures Parse(Packet(kind, seqNo, payload)) == Some(Message(kind, seqNo, payload))
    ensures |Packet(kind, seqNo, payload)| <= MAX_UDP_PAYLOAD
  {
    FramingRoundTrip(kind, seqNo, payload, []);
    assert Packet(kind, seqNo, payload) + [] == Packet(kind, seqNo, payload);
  }

  lemma KindOfPacket(kind: PacketType, seqNo: u32, payload: Bytes)
    ensures KindOf(Packet(kind, seqNo, payload)) == Some(kind)
  {}

  // ---------- NACK payloads ----------

  function EncodeNacks(seqs: seq<u32>): (bs: Bytes)
    ensures |bs| == SEQUENCE_BYTES * |seqs|
  {
    if |seqs| == 0 then [] else BigEndian(seqs[0], 4) + EncodeNacks(seqs[1..])
  }

  // At most `count` whole four-byte groups; a trailing fragment is dropped.
  function DecodeNacks(count: nat, payload: Bytes): (seqs: seq<u32>)
    ensures |seqs| == if count <= |payload| / SEQUENCE_BYTES then count else |payload| / SEQUENCE_BYTES
  {
    if count == 0 || |payload| < SEQUENCE_BYTES then []
    else [U32(payload[..4])] + DecodeNacks(count - 1, payload[4..])
  }

  lemma {:induction false} NackRoundTrip(seqs: seq<u32>)
    ensures DecodeNacks(|seqs|, EncodeNacks(seqs)) == seqs
  {
    if |seqs| > 0 {
      var bs := EncodeNacks(seqs);
      assert bs[..4] == BigEndian(seqs[0], 4) && bs[4..] == EncodeNacks(seqs[1..]);
      assert Pow256(4) == 0x1_0000_0000;
      BigEndianRoundTrip(seqs[0], 4);
      NackRoundTrip(seqs[1..]);
    }
  }

  // Each number takes four bytes, most significant first, in the order of the list.
  lemma {:induction false} NackLayout(seqs: seq<u32>, i: nat)
    requires i < |seqs|
    ensures Weighed(EncodeNacks(seqs)[4 * i..4 * i + 4]) == seqs[i]
  {
    var bs := EncodeNacks(seqs);
    if i == 0 {
      assert Pow256(4) == 0x1_0000_0000;
      assert bs[0..4] == BigEndian(seqs[0], 4);
      BigEndianRoundTrip(seqs[0], 4);
      FirstByteWeighsMost(bs[0..4]);
    } else {
      NackLayout(seqs[1..], i - 1);
      assert bs[4..] == EncodeNacks(seqs[1..]);
      assert bs[4 * i..4 * i + 4] == bs[4..][4 * (i - 1)..4 * (i - 1) + 4];
    }
  }

  // ---------- Versions and limits ----------

  datatype Version = V1 | V2 {
    predicate Verifies() { V2? }
  }

  function VersionByte(v: Version): byte { if v == V1 then 1 else 2 }

  function VersionOf(b: byte): Option<Version> {
    if b == 1 then Some(V1) else if b == 2 then Some(V2) else None
  }

  predicate ValidChunkSize(chunkSize: nat, version: Version) {
    0 < chunkSize <= if version.Verifies() then MAX_CHUNK_SIZE - DIGEST_SIZE else MAX_CHUNK_SIZE
  }
}
