/**
 Chunk geometry shared by both endpoints: how a file of `size` bytes is cut into
 chunks, what writing one chunk into the output does, and what a DATA payload
 carries in each protocol version.
 */
module Chunks {
  import opened Options
  import opened Wire

  // Rust's div_ceil, as src/lib/send.rs and src/lib/recv.rs compute the total.
  function DivCeil(n: nat, k: nat): nat
    requires k > 0
  {
    if n % k > 0 then n / k + 1 else n / k
  }

  // The same numbers without multiplication or division: the definitions the
  // proofs work with.
  function ChunkCount(size: nat, chunkSize: nat): nat
    requires chunkSize > 0
  {
    if size == 0 then 0 else if size <= chunkSize then 1 else 1 + ChunkCount(size - chunkSize, chunkSize)
  }

  function ChunkStart(chunkSize: nat, chunk: nat): nat {
    if chunk == 0 then 0 else ChunkStart(chunkSize, chunk - 1) + chunkSize
  }

  lemma {:induction false} ChunkCountIsDivCeil(size: nat, chunkSize: nat)
    requires chunkSize > 0
    ensures ChunkCount(size, chunkSize) == DivCeil(size, chunkSize)
  {
    if size > chunkSize {
      ChunkCountIsDivCeil(size - chunkSize, chunkSize);
      DivCeilStep(size, chunkSize);
    } else {
      DivCeilSmall(size, chunkSize);
    }
  }

  lemma DivCeilSmall(n: nat, k: nat)
    requires n <= k && k > 0
    ensures DivCeil(n, k) == if n == 0 then 0 else 1
  {}

  lemma DivCeilStep(n: nat, k: nat)
    requires 0 < k < n
    ensures DivCeil(n, k) == DivCeil(n - k, k) + 1
  {
    var q, r := (n - k) / k, (n - k) % k;
    QuotientStep(n, k, n / k, n % k, q, r);
  }

  lemma QuotientStep(n: nat, k: nat, q: nat, r: nat, q1: nat, r1: nat)
    requires k > 0 && n == q * k + r && r < k && n - k == q1 * k + r1 && r1 < k
    ensures q == q1 + 1 && r == r1
  {
    if q > q1 + 1 {
      assert (q - q1 - 1) * k == r1 - r;
      MulAtLeast(q - q1 - 1, k);
    } else if q < q1 + 1 {
      assert (q1 + 1 - q) * k == r - r1;
      MulAtLeast(q1 + 1 - q, k);
    }
  }

  lemma {:induction false} MulAtLeast(n: nat, k: nat)
    requires n > 0
    ensures n * k >= k
  {
    if n > 1 {
      MulAtLeast(n - 1, k);
      assert n * k == (n - 1) * k + k;
    }
  }

  lemma {:induction false} ChunkStartIsProduct(chunkSize: nat, chunk: nat)
    ensures ChunkStart(chunkSize, chunk) == chunk * chunkSize
  {
    if chunk > 0 {
      ChunkStartIsProduct(chunkSize, chunk - 1);
      assert (chunk - 1) * chunkSize + chunkSize == chunk * chunkSize;
    }
  }

  // The chunk numbers are exactly those whose offset lies inside the file, so
  // `size - offset` never underflows and no chunk is empty.
  lemma {:induction false} ChunkStartsInside(size: nat, chunkSize: nat, chunk: nat)
    requires chunkSize > 0
    ensures chunk < ChunkCount(size, chunkSize) <==> ChunkStart(chunkSize, chunk) < size
  {
    if chunk > 0 && size > chunkSize {
      ChunkStartsInside(size - chunkSize, chunkSize, chunk - 1);
    }
  }

  lemma {:induction false} ChunkStartMonotone(chunkSize: nat, a: nat, b: nat)
    requires a <= b
    ensures ChunkStart(chunkSize, a) <= ChunkStart(chunkSize, b)
  {
    if a < b {
      ChunkStartMonotone(chunkSize, a, b - 1);
    }
  }

  function ChunkLen(size: nat, chunkSize: nat, chunk: nat): (len: nat)
    requires chunkSize > 0 && chunk < ChunkCount(size, chunkSize)
    ensures 0 < len <= chunkSize && ChunkStart(chunkSize, chunk) + len <= size
  {
    ChunkStartsInside(size, chunkSize, chunk);
    if size - ChunkStart(chunkSize, chunk) < chunkSize then size - ChunkStart(chunkSize, chunk) else chunkSize
  }

  ghost predicate InChunk(size: nat, chunkSize: nat, chunk: nat, offset: nat)
    requires chunkSize > 0
  {
    chunk < ChunkCount(size, chunkSize) &&
    ChunkStart(chunkSize, chunk) <= offset < ChunkStart(chunkSize, chunk) + ChunkLen(size, chunkSize, chunk)
  }

  lemma QuotientBounds(n: nat, k: nat)
    requires k > 0
    ensures n / k * k <= n < (n / k + 1) * k
  {}

  // The chunks partition the file: each offset below `size` lies in one chunk
  // and no other, and no chunk reaches past `size`.
  lemma ChunksPartitionFile(size: nat, chunkSize: nat, chunk: nat, offset: nat)
    requires chunkSize > 0
    ensures InChunk(size, chunkSize, chunk, offset) <==> offset < size && chunk == offset / chunkSize
  {
    var q := offset / chunkSize;
    QuotientBounds(offset, chunkSize);
    ChunkStartIsProduct(chunkSize, q);
    ChunkStartIsProduct(chunkSize, q + 1);
    OffsetInChunk(size, chunkSize, chunk, offset, q);
  }

  lemma OffsetInChunk(size: nat, chunkSize: nat, chunk: nat, offset: nat, q: nat)
    requires chunkSize > 0 && ChunkStart(chunkSize, q) <= offset < ChunkStart(chunkSize, q + 1)
    ensures InChunk(size, chunkSize, chunk, offset) <==> offset < size && chunk == q
  {
    ChunkStartsInside(size, chunkSize, q);
    if chunk < q {
      ChunkStartMonotone(chunkSize, chunk + 1, q);
    } else if chunk > q {
      ChunkStartMonotone(chunkSize, q + 1, chunk);
    }
  }

  // Two different chunks occupy separate ranges.
  lemma ChunksDisjoint(size: nat, chunkSize: nat, a: nat, b: nat)
    requires chunkSize > 0 && a < b < ChunkCount(size, chunkSize)
    ensures ChunkStart(chunkSize, a) + ChunkLen(size, chunkSize, a) <= ChunkStart(chunkSize, b)
  {
    ChunkStartMonotone(chunkSize, a + 1, b);
  }

  function Slice(file: Bytes, offset: nat, len: nat): Bytes
    requires offset + len <= |file|
  {
    file[offset..offset + len]
  }

  function ChunkOf(file: Bytes, chunkSize: nat, chunk: nat): Bytes
    requires chunkSize > 0 && chunk < ChunkCount(|file|, chunkSize)
  {
    Slice(file, ChunkStart(chunkSize, chunk), ChunkLen(|file|, chunkSize, chunk))
  }

  function Splice(file: Bytes, offset: nat, body: Bytes): (r: Bytes)
    requires offset + |body| <= |file|
    ensures |r| == |file|
  {
    file[..offset] + body + file[offset + |body|..]
  }

  // Writing one chunk sets that chunk and leaves every other one alone.
  lemma SpliceOneChunk(file: Bytes, chunkSize: nat, chunk: nat, body: Bytes, other: nat)
    requires chunkSize > 0 && chunk < ChunkCount(|file|, chunkSize) && other < ChunkCount(|file|, chunkSize)
    requires |body| == ChunkLen(|file|, chunkSize, chunk)
    ensures ChunkOf(Splice(file, ChunkStart(chunkSize, chunk), body), chunkSize, other)
      == if other == chunk then body else ChunkOf(file, chunkSize, other)
  {
    var start, from := ChunkStart(chunkSize, chunk), ChunkStart(chunkSize, other);
    if other < chunk {
      ChunksDisjoint(|file|, chunkSize, other, chunk);
    } else if chunk < other {
      ChunksDisjoint(|file|, chunkSize, chunk, other);
    }
    SliceOfSplice(file, start, body, from, ChunkLen(|file|, chunkSize, other));
  }

  lemma SliceOfSplice(file: Bytes, offset: nat, body: Bytes, from: nat, len: nat)
    requires offset + |body| <= |file| && from + len <= |file|
    ensures from + len <= offset || offset + |body| <= from
      ==> Slice(Splice(file, offset, body), from, len) == Slice(file, from, len)
    ensures from == offset && len == |body| ==> Slice(Splice(file, offset, body), from, len) == body
  {}

  lemma ByteOfChunk(file: Bytes, chunkSize: nat, chunk: nat, i: nat)
    requires chunkSize > 0 && InChunk(|file|, chunkSize, chunk, i)
    ensures file[i] == ChunkOf(file, chunkSize, chunk)[i - ChunkStart(chunkSize, chunk)]
  {}

  // Chunk by chunk agreement is agreement, down to the empty file and the
  // short last chunk.
  lemma ChunksDetermineFile(a: Bytes, b: Bytes, chunkSize: nat)
    requires chunkSize > 0 && |a| == |b|
    requires forall c | 0 <= c < ChunkCount(|a|, chunkSize) :: ChunkOf(a, chunkSize, c) == ChunkOf(b, chunkSize, c)
    ensures a == b
  {
    forall i | 0 <= i < |a| ensures a[i] == b[i] {
      var c := i / chunkSize;
      ChunksPartitionFile(|a|, chunkSize, c, i);
      ByteOfChunk(a, chunkSize, c, i);
      ByteOfChunk(b, chunkSize, c, i);
    }
  }

  // ---------- DATA payloads ----------

  function DataPayload(sha: Sha, version: Version, body: Bytes): Bytes {
    if version.Verifies() then sha(body) + body else body
  }

  function VerifiedBody(sha: Sha, version: Version, payload: Bytes): Option<Bytes> {
    if !version.Verifies() then Some(payload)
    else if |payload| < DIGEST_SIZE then None
    else if sha(payload[DIGEST_SIZE..]) == payload[..DIGEST_SIZE] then Some(payload[DIGEST_SIZE..])
    else None
  }

  // The bytes on the wire: under V2 the digest first, then the body.
  lemma DataLayout(sha: Sha, version: Version, body: Bytes)
    ensures var payload := DataPayload(sha, version, body);
            if version == V1 then payload == body
            else |payload| == 32 + |body| && payload[..32] == sha(body) && payload[32..] == body
  {}

  // A chunk of this size, and so each shorter one, goes into one UDP datagram.
  ghost predicate FramesFit(sha: Sha, version: Version, chunkSize: u32) {
    chunkSize > 0 &&
    forall body: Bytes, chunk: u32 | |body| == chunkSize ::
      |Packet(Data, chunk, DataPayload(sha, version, body))| <= 65507
  }

  // The chunk sizes both ends accept are exactly those that can be framed.
  lemma ChunkSizeExact(sha: Sha, version: Version, chunkSize: u32)
    ensures ValidChunkSize(chunkSize, version) <==> FramesFit(sha, version, chunkSize)
  {
    var body: Bytes := seq(chunkSize, _ => 0);
    assert |Packet(Data, 0, DataPayload(sha, version, body))| == HEADER_SIZE + |DataPayload(sha, version, body)|;
  }

  // So many chunks are enough exactly if so many full ones are.
  lemma ChunkCountFits(size: nat, chunkSize: nat, limit: nat)
    requires chunkSize > 0
    ensures ChunkCount(size, chunkSize) <= limit <==> size <= limit * chunkSize
  {
    ChunkStartsInside(size, chunkSize, limit);
    ChunkStartIsProduct(chunkSize, limit);
  }

  // The receiver recovers exactly the body the sender wrapped, and a chunk of
  // an accepted size always fits one datagram.
  lemma DataPayloadRoundTrip(sha: Sha, version: Version, chunkSize: nat, body: Bytes)
    ensures VerifiedBody(sha, version, DataPayload(sha, version, body)) == Some(body)
    ensures ValidChunkSize(chunkSize, version) && |body| <= chunkSize
      ==> |DataPayload(sha, version, body)| <= MAX_CHUNK_SIZE
  {
    if version.Verifies() {
      var payload := sha(body) + body;
      assert payload[DIGEST_SIZE..] == body && payload[..DIGEST_SIZE] == sha(body);
    }
  }

  // Under V2 a payload whose digest survived is refused or carries the
  // original body, unless the digests collide.
  lemma TamperedBodyRefused(sha: Sha, body: Bytes, tampered: Bytes)
    requires sha(body) <= tampered
    ensures var got := VerifiedBody(sha, V2, tampered);
            got.Some? ==> got.value == body || Collide(sha, got.value, body)
  {
    assert tampered[..DIGEST_SIZE] == sha(body);
  }
}
