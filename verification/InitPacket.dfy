/**
 The INIT payload: what `handshake` in src/lib/send.rs lays out and what
 `parse_init` in src/lib/recv.rs makes of any bytes it is given.

   version (1) | size (8) | chunk size (4) | SHA-256 (32) | name, NUL-terminated
 */
module InitPacket {
  import opened Options
  import opened Wire
  import opened Chunks
  import opened Paths

  const SIZE_OFFSET: nat := 1
  const CHUNK_SIZE_OFFSET: nat := 9
  const HASH_OFFSET: nat := 13
  const NAME_OFFSET: nat := 45

  const NUL: byte := 0

  datatype InitInfo = InitInfo(version: Version, size: u64, chunkSize: u32, total: nat, hash: Digest, path: Path) {
    // What parse_init guarantees of every header it returns.
    predicate Valid() {
      ValidChunkSize(chunkSize, version) && total == ChunkCount(size, chunkSize) && total <= MAX_TOTAL_CHUNKS
    }
  }

  datatype InitError = TooShort | BadVersion | BadChunkSize | TooLarge | BadEncoding | BadName | ControlCharacters

  // Both endpoints refuse files they cannot number.
  predicate Transferable(size: nat, chunkSize: nat, version: Version) {
    ValidChunkSize(chunkSize, version) && ChunkCount(size, chunkSize) <= MAX_TOTAL_CHUNKS
  }

  // In terms of the wire: a chunk fits a datagram, and 2^24 chunks hold the file.
  lemma TransferableExactly(sha: Sha, size: nat, chunkSize: u32, version: Version)
    ensures Transferable(size, chunkSize, version)
      <==> FramesFit(sha, version, chunkSize) && size <= 0x100_0000 * chunkSize
  {
    ChunkSizeExact(sha, version, chunkSize);
    if chunkSize > 0 {
      ChunkCountFits(size, chunkSize, MAX_TOTAL_CHUNKS);
    }
  }

  function InitPayload(version: Version, size: u64, chunkSize: u32, hash: Digest, name: Bytes): Bytes {
    [VersionByte(version)] + BigEndian(size, 8) + BigEndian(chunkSize, 4) + hash + name + [NUL]
  }

  // The same, filled in field by field as `handshake` does.
  method LayOutInit(version: Version, size: u64, chunkSize: u32, hash: Digest, name: Bytes) returns (payload: Bytes)
    ensures payload == InitPayload(version, size, chunkSize, hash, name)
  {
    var buf := new byte[NAME_OFFSET + |name| + 1](_ => 0);
    buf[0] := VersionByte(version);
    CopyInto(buf, SIZE_OFFSET, BigEndian(size, 8));
    CopyInto(buf, CHUNK_SIZE_OFFSET, BigEndian(chunkSize, 4));
    CopyInto(buf, HASH_OFFSET, hash);
    CopyInto(buf, NAME_OFFSET, name);
    payload := buf[..];
    InSixPieces(payload, NAME_OFFSET + |name|);
    assert payload[..SIZE_OFFSET] == [VersionByte(version)];
    assert payload[NAME_OFFSET + |name|..] == [NUL];
  }

  lemma InSixPieces(p: Bytes, end: nat)
    requires NAME_OFFSET <= end <= |p|
    ensures p == p[..SIZE_OFFSET] + p[SIZE_OFFSET..CHUNK_SIZE_OFFSET] + p[CHUNK_SIZE_OFFSET..HASH_OFFSET]
               + p[HASH_OFFSET..NAME_OFFSET] + p[NAME_OFFSET..end] + p[end..]
  {
    assert p[..CHUNK_SIZE_OFFSET] == p[..SIZE_OFFSET] + p[SIZE_OFFSET..CHUNK_SIZE_OFFSET];
    assert p[..HASH_OFFSET] == p[..CHUNK_SIZE_OFFSET] + p[CHUNK_SIZE_OFFSET..HASH_OFFSET];
    assert p[..NAME_OFFSET] == p[..HASH_OFFSET] + p[HASH_OFFSET..NAME_OFFSET];
    assert p[..end] == p[..NAME_OFFSET] + p[NAME_OFFSET..end];
  }

  method CopyInto(buf: array<byte>, offset: nat, bytes: Bytes)
    requires offset + |bytes| <= buf.Length
    modifies buf
    ensures buf[offset..offset + |bytes|] == bytes
    ensures forall i | 0 <= i < buf.Length && !(offset <= i < offset + |bytes|) :: buf[i] == old(buf[i])
  {
    forall i | 0 <= i < |bytes| {
      buf[offset + i] := bytes[i];
    }
  }

  // ---------- File names ----------

  function NulPosition(bs: Bytes): (end: nat)
    ensures end <= |bs| && NUL !in bs[..end]
    ensures end < |bs| ==> bs[end] == NUL
  {
    if |bs| == 0 || bs[0] == NUL then 0 else
      var rest := NulPosition(bs[1..]);
      assert bs[..1 + rest] == [bs[0]] + bs[1..][..rest];
      1 + rest
  }

  predicate Continuation(b: byte) { 0x80 <= b < 0xC0 }

  // Length of the UTF-8 sequence at the front, 0 when there is none. Overlong
  // forms, surrogates and values past U+10FFFF are not sequences.
  function Utf8Width(bs: Bytes): (width: nat)
    requires |bs| > 0
    ensures width <= |bs|
  {
    var b := bs[0];
    if b < 0x80 then 1
    else if |bs| >= 2 && 0xC2 <= b < 0xE0 && Continuation(bs[1]) then 2
    else if |bs| >= 3 && 0xE0 <= b < 0xF0 && Continuation(bs[1]) && Continuation(bs[2])
            && (b == 0xE0 ==> bs[1] >= 0xA0) && (b == 0xED ==> bs[1] < 0xA0) then 3
    else if |bs| >= 4 && 0xF0 <= b < 0xF5 && Continuation(bs[1]) && Continuation(bs[2]) && Continuation(bs[3])
            && (b == 0xF0 ==> bs[1] >= 0x90) && (b == 0xF4 ==> bs[1] < 0x90) then 4
    else 0
  }

  predicate Utf8(bs: Bytes) {
    |bs| == 0 || (Utf8Width(bs) > 0 && Utf8(bs[Utf8Width(bs)..]))
  }

  // char::is_control on valid UTF-8: U+0000-U+001F, U+007F and U+0080-U+009F.
  predicate HasControl(bs: Bytes) {
    exists i | 0 <= i < |bs| :: ControlAt(bs, i)
  }

  predicate ControlAt(bs: Bytes, i: nat)
    requires i < |bs|
  {
    bs[i] < 0x20 || bs[i] == 0x7F || (bs[i] == 0xC2 && i + 1 < |bs| && bs[i + 1] < 0xA0)
  }

  predicate PlainName(name: Bytes) {
    Utf8(name) && !HasControl(name) && SLASH !in name && name !in [[], [DOT], [DOT, DOT]]
  }

  function OutputPath(nameField: Bytes, out: Option<Path>): Result<Path, InitError> {
    if out.Some? then Ok(out.value) else
      var raw := nameField[..NulPosition(nameField)];
      if !Utf8(raw) then Err(BadEncoding) else
        var name := match FileName(raw) case Some(n) => n case None => [];
        if name in [[], [DOT], [DOT, DOT]] then Err(BadName)
        else if HasControl(name) then Err(ControlCharacters)
        else Ok(name)
  }

  function ParseInit(payload: Bytes, out: Option<Path>): (r: Result<InitInfo, InitError>)
    ensures r.Ok? ==> r.value.Valid()
  {
    if |payload| < NAME_OFFSET then Err(TooShort) else
    match VersionOf(payload[0])
    case None => Err(BadVersion)
    case Some(version) =>
      var size := U64(payload[SIZE_OFFSET..CHUNK_SIZE_OFFSET]);
      var chunkSize := U32(payload[CHUNK_SIZE_OFFSET..HASH_OFFSET]);
      if !ValidChunkSize(chunkSize, version) then Err(BadChunkSize) else
      var hash := payload[HASH_OFFSET..NAME_OFFSET];
      ChunkCountIsDivCeil(size, chunkSize);
      var total := DivCeil(size, chunkSize);
      if total > MAX_TOTAL_CHUNKS then Err(TooLarge) else
      match OutputPath(payload[NAME_OFFSET..], out)
      case Err(e) => Err(e)
      case Ok(path) => Ok(InitInfo(version, size, chunkSize, total, hash, path))
  }

  // The fields of a laid-out payload sit where the parser looks for them.
  lemma InitFields(version: Version, size: u64, chunkSize: u32, hash: Digest, name: Bytes)
    ensures var p := InitPayload(version, size, chunkSize, hash, name);
            |p| == NAME_OFFSET + |name| + 1 && VersionOf(p[0]) == Some(version) &&
            U64(p[SIZE_OFFSET..CHUNK_SIZE_OFFSET]) == size &&
            U32(p[CHUNK_SIZE_OFFSET..HASH_OFFSET]) == chunkSize &&
            p[HASH_OFFSET..NAME_OFFSET] == hash && p[NAME_OFFSET..] == name + [NUL]
  {
    var p := InitPayload(version, size, chunkSize, hash, name);
    assert p[SIZE_OFFSET..CHUNK_SIZE_OFFSET] == BigEndian(size, 8);
    assert p[CHUNK_SIZE_OFFSET..HASH_OFFSET] == BigEndian(chunkSize, 4);
    assert p[HASH_OFFSET..NAME_OFFSET] == hash;
    assert p[NAME_OFFSET..] == name + [NUL];
    assert Pow256(8) == 0x1_0000_0000_0000_0000 && Pow256(4) == 0x1_0000_0000;
    BigEndianRoundTrip(size, 8);
    BigEndianRoundTrip(chunkSize, 4);
  }

  // The bytes on the wire: each field at its place, numbers most significant byte
  // first, and a NUL behind the name.
  lemma InitLayout(version: Version, size: u64, chunkSize: u32, hash: Digest, name: Bytes)
    ensures var p := InitPayload(version, size, chunkSize, hash, name);
            |p| == 46 + |name| && p[0] == (if version == V1 then 1 else 2) &&
            Weighed(p[1..9]) == size && Weighed(p[9..13]) == chunkSize &&
            p[13..45] == hash && p[45..45 + |name|] == name && p[45 + |name|] == 0
  {
    var p := InitPayload(version, size, chunkSize, hash, name);
    InitFields(version, size, chunkSize, hash, name);
    FirstByteWeighsMost(p[1..9]);
    FirstByteWeighsMost(p[9..13]);
  }

  // Which payloads are accepted, and how they are read.
  ghost predicate Reads(p: Bytes, info: InitInfo) {
    |p| >= 45 && p[0] == (if info.version == V1 then 1 else 2) &&
    info.size == Weighed(p[1..9]) && info.chunkSize == Weighed(p[9..13]) && info.hash == p[13..45] &&
    0 < info.chunkSize <= (if info.version == V1 then 65500 else 65468) &&
    info.size <= 0x100_0000 * info.chunkSize && info.total == ChunkCount(info.size, info.chunkSize)
  }

  lemma ParsesExactly(p: Bytes, out: Option<Path>, info: InitInfo)
    ensures ParseInit(p, out) == Ok(info)
      <==> Reads(p, info) && OutputPath(p[45..], out) == Ok(info.path)
  {
    if |p| >= 45 {
      FirstByteWeighsMost(p[1..9]);
      FirstByteWeighsMost(p[9..13]);
      var size, chunkSize := U64(p[1..9]), U32(p[9..13]);
      if chunkSize > 0 {
        ChunkCountIsDivCeil(size, chunkSize);
        ChunkCountFits(size, chunkSize, 0x100_0000);
      }
    }
  }

  predicate LastIs(steps: seq<Bytes>, name: Bytes) {
    steps != [] && steps[|steps| - 1] == name
  }

  // Of a name with directories only the last component is used; it must be a name,
  // and what comes before the NUL must be text.
  lemma OutputNameExactly(field: Bytes, name: Path)
    ensures OutputPath(field, None) == Ok(name)
      <==> Utf8(field[..NulPosition(field)]) && LastIs(Components(field[..NulPosition(field)]), name) &&
           name != [DOT, DOT] && !HasControl(name)
  {
    var raw := field[..NulPosition(field)];
    FileNameIsLast(raw);
    if Components(raw) != [] {
      ComponentsCount(raw);
    }
  }

  lemma {:induction false} NulTerminates(name: Bytes)
    ensures NulPosition(name + [NUL]) <= |name|
    ensures NulPosition(name + [NUL]) == |name| <==> NUL !in name
  {
    if name != [] && name[0] != NUL {
      NulTerminates(name[1..]);
      assert (name + [NUL])[1..] == name[1..] + [NUL];
    }
  }

  // The name survives exactly when it is one plain path component.
  lemma NameRoundTrip(name: Bytes)
    ensures OutputPath(name + [NUL], None) == Ok(name) <==> PlainName(name)
  {
    var field := name + [NUL];
    var end := NulPosition(field);
    var raw := field[..end];
    NulTerminates(name);
    assert raw == name[..end];
    if PlainName(name) {
      assert forall i | 0 <= i < |name| :: !ControlAt(name, i) && name[i] != NUL;
      assert raw == name;
      PlainNameIsFileName(name);
    }
    if OutputPath(field, None) == Ok(name) {
      assert FileName(raw) == Some(name);
      assert raw == name;
    }
  }

  // Sender and receiver agree on a transfer, field for field, if and only if
  // the sender accepts the file and its name is one plain component.
  lemma InitRoundTrip(version: Version, size: u64, chunkSize: u32, hash: Digest, name: Bytes)
    requires chunkSize > 0
    ensures ParseInit(InitPayload(version, size, chunkSize, hash, name), None)
        == Ok(InitInfo(version, size, chunkSize, ChunkCount(size, chunkSize), hash, name))
      <==> Transferable(size, chunkSize, version) && PlainName(name)
  {
    InitFields(version, size, chunkSize, hash, name);
    ChunkCountIsDivCeil(size, chunkSize);
    NameRoundTrip(name);
  }

  // With an explicit output path the name does not matter at all.
  lemma InitRoundTripToPath(version: Version, size: u64, chunkSize: u32, hash: Digest, name: Bytes, out: Path)
    requires chunkSize > 0
    ensures ParseInit(InitPayload(version, size, chunkSize, hash, name), Some(out))
        == Ok(InitInfo(version, size, chunkSize, ChunkCount(size, chunkSize), hash, out))
      <==> Transferable(size, chunkSize, version)
  {
    InitFields(version, size, chunkSize, hash, name);
    ChunkCountIsDivCeil(size, chunkSize);
  }
}
