/**
 One transfer as the receiver sees it, with its redundant fields stripped away:
 its temp file, the set of chunks that arrived, the bytes written so far, and since
 when some gap has been open. The class `ReceiveState` is proved against this.
 */
module Sessions {
  import opened Options
  import opened Wire
  import opened Chunks
  import opened InitPacket
  import Paths
  import opened ChunkSets

  datatype Session = Session(init: InitInfo, tmp: Path, got: set<nat>, data: Bytes, gapSince: Option<nat>) {

    ghost predicate Valid() {
      init.Valid() && Paths.IsTmp(tmp) && tmp != init.path &&
      |data| == init.size && got <= Below(init.total) && (gapSince.Some? <==> GapOpen(got))
    }

    predicate Storable(chunk: nat, body: Bytes)
      requires init.Valid()
    {
      chunk < init.total && |body| == ChunkLen(init.size, init.chunkSize, chunk)
    }

    ghost predicate Full() {
      got == Below(init.total)
    }

    // One past the greatest stored chunk.
    ghost function Edge(): (f: u32)
      requires Valid()
      ensures IsFrontier(got, f) && f <= init.total
    {
      Frontier(got)
    }

    // The stored chunks agree with a source file.
    ghost predicate Authentic(source: Bytes)
      requires init.Valid() && |data| == init.size
    {
      |source| == init.size &&
      forall c | c in got && c < init.total ::
        ChunkOf(data, init.chunkSize, c) == ChunkOf(source, init.chunkSize, c)
    }
  }

  ghost function Fresh(init: InitInfo): (s: Session)
    requires init.Valid()
    ensures s.Valid() && s.init == init && s.tmp == Paths.TmpPath(init.path) && s.got == {} && s.gapSince == None
  {
    Paths.TmpPathIsTmp(init.path);
    Session(init, Paths.TmpPath(init.path), {}, seq(init.size, _ => 0), None)
  }

  // `store` at time `now`: a new chunk of the right length is written and
  // recorded; anything else changes nothing.
  ghost function Store(s: Session, chunk: nat, body: Bytes, now: nat): (r: Session)
    requires s.Valid()
    ensures r.Valid() && r.init == s.init && r.tmp == s.tmp
  {
    if !s.Storable(chunk, body) || chunk in s.got then s
    else
      var got := s.got + {chunk};
      var since := if !GapOpen(got) then None else if s.gapSince.Some? then s.gapSince else Some(now);
      Session(s.init, s.tmp, got, Splice(s.data, ChunkStart(s.init.chunkSize, chunk), body), since)
  }

  // `accept_data`: the digest check of V2 comes first.
  ghost function Accept(sha: Sha, s: Session, chunk: nat, payload: Bytes, now: nat): (r: Session)
    requires s.Valid()
    ensures r.Valid() && r.init == s.init && r.tmp == s.tmp
  {
    match VerifiedBody(sha, s.init.version, payload)
    case None => s
    case Some(body) => Store(s, chunk, body, now)
  }

  // ---------- One store ----------

  // A store adds at most its own chunk, never loses one, and leaves the bytes
  // of every other chunk alone.
  lemma StoreEffect(s: Session, chunk: nat, body: Bytes, now: nat, other: nat)
    requires s.Valid() && other < s.init.total
    ensures var r := Store(s, chunk, body, now);
            (other in r.got <==> other in s.got || (other == chunk && s.Storable(chunk, body))) &&
            ChunkOf(r.data, s.init.chunkSize, other) ==
              if other == chunk && other !in s.got && s.Storable(chunk, body) then body
              else ChunkOf(s.data, s.init.chunkSize, other)
  {
    if s.Storable(chunk, body) && chunk !in s.got {
      SpliceOneChunk(s.data, s.init.chunkSize, chunk, body, other);
    }
  }

  // ---------- Many stores ----------

  datatype Arrival = Arrival(chunk: nat, body: Bytes, at: nat)

  ghost function StoreAll(s: Session, arrivals: seq<Arrival>): (r: Session)
    requires s.Valid()
    ensures r.Valid() && r.init == s.init && r.tmp == s.tmp
    decreases |arrivals|
  {
    if arrivals == [] then s
    else StoreAll(Store(s, arrivals[0].chunk, arrivals[0].body, arrivals[0].at), arrivals[1..])
  }

  // Every storable arrival carries the source's bytes; what is out of range or
  // of the wrong length may carry anything.
  ghost predicate Faithful(init: InitInfo, source: Bytes, arrivals: seq<Arrival>)
    requires init.Valid()
  {
    |source| == init.size &&
    forall a | a in arrivals && Storable(init, a) :: a.body == ChunkOf(source, init.chunkSize, a.chunk)
  }

  predicate Storable(init: InitInfo, a: Arrival)
    requires init.Valid()
  {
    a.chunk < init.total && |a.body| == ChunkLen(init.size, init.chunkSize, a.chunk)
  }

  ghost predicate Delivers(init: InitInfo, arrivals: seq<Arrival>, chunk: nat)
    requires init.Valid()
  {
    exists a :: a in arrivals && a.chunk == chunk && Storable(init, a)
  }

  // Closed form of any number of faithful arrivals, chunk by chunk.
  lemma {:induction false} StoreAllChunk(s: Session, source: Bytes, arrivals: seq<Arrival>, chunk: nat)
    requires s.Valid() && Faithful(s.init, source, arrivals) && chunk < s.init.total
    ensures var r := StoreAll(s, arrivals);
            (chunk in r.got <==> chunk in s.got || Delivers(s.init, arrivals, chunk)) &&
            ChunkOf(r.data, s.init.chunkSize, chunk) ==
              if chunk !in s.got && Delivers(s.init, arrivals, chunk)
              then ChunkOf(source, s.init.chunkSize, chunk)
              else ChunkOf(s.data, s.init.chunkSize, chunk)
    decreases |arrivals|
  {
    if arrivals != [] {
      var a, rest := arrivals[0], arrivals[1..];
      var s1 := Store(s, a.chunk, a.body, a.at);
      StoreEffect(s, a.chunk, a.body, a.at, chunk);
      assert forall b :: b in arrivals <==> b == a || b in rest by { assert arrivals == [a] + rest; }
      StoreAllChunk(s1, source, rest, chunk);
      assert Delivers(s.init, arrivals, chunk)
        <==> (a.chunk == chunk && Storable(s.init, a)) || Delivers(s.init, rest, chunk);
    }
  }

  // Order, repetition and interleaved junk do not matter: two runs that
  // deliver the same chunk numbers end with the same set and the same file.
  lemma OrderIndependence(s: Session, source: Bytes, a: seq<Arrival>, b: seq<Arrival>)
    requires s.Valid() && Faithful(s.init, source, a) && Faithful(s.init, source, b)
    requires forall c | 0 <= c < s.init.total :: Delivers(s.init, a, c) <==> Delivers(s.init, b, c)
    ensures StoreAll(s, a).got == StoreAll(s, b).got
    ensures StoreAll(s, a).data == StoreAll(s, b).data
  {
    var ra, rb := StoreAll(s, a), StoreAll(s, b);
    forall c: nat | c < s.init.total
      ensures c in ra.got <==> c in rb.got
      ensures ChunkOf(ra.data, s.init.chunkSize, c) == ChunkOf(rb.data, s.init.chunkSize, c)
    {
      StoreAllChunk(s, source, a, c);
      StoreAllChunk(s, source, b, c);
    }
    forall c ensures c in ra.got <==> c in rb.got {
      if c < s.init.total {}
    }
    ChunksDetermineFile(ra.data, rb.data, s.init.chunkSize);
  }

  // A session all of whose chunks are authentic holds the source once full.
  lemma FullAuthenticIsSource(s: Session, source: Bytes)
    requires s.Valid() && s.Full() && s.Authentic(source)
    ensures s.data == source
  {
    ChunksDetermineFile(s.data, source, s.init.chunkSize);
  }

  // Faithful arrivals keep a session authentic.
  lemma StoreAuthentic(s: Session, source: Bytes, chunk: nat, body: Bytes, now: nat)
    requires s.Valid() && s.Authentic(source)
    requires s.Storable(chunk, body) ==> body == ChunkOf(source, s.init.chunkSize, chunk)
    ensures Store(s, chunk, body, now).Authentic(source)
  {
    var r := Store(s, chunk, body, now);
    forall c | c in r.got && c < s.init.total
      ensures ChunkOf(r.data, s.init.chunkSize, c) == ChunkOf(source, s.init.chunkSize, c)
    {
      StoreEffect(s, chunk, body, now, c);
    }
  }

  // ---------- NACK timing ----------

  function NackDeadline(gapSince: Option<nat>, holdoff: nat, lastNackAt: Option<nat>): Option<nat> {
    match gapSince
    case None => None
    case Some(since) =>
      var at := since + holdoff;
      if lastNackAt.Some? && lastNackAt.value + NACK_REISSUE_INTERVAL > at
      then Some(lastNackAt.value + NACK_REISSUE_INTERVAL)
      else Some(at)
  }
}
