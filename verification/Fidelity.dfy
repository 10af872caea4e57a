/**
 What more can be said when the network keeps more than headers: with intact
 INITs the saved file is the source; with guarded chunk bodies every stored chunk
 is right long before the final hash is checked.
 */
module Fidelity {
  import opened Options
  import opened Wire
  import opened Chunks
  import opened InitPacket
  import Sessions
  import opened ReceiverMachine
  import opened SenderMachine
  import opened Network
  import EndToEnd
  import SenderHonesty
  import ReceiverHistory

  // The session is for this job: same version, size, chunking and hash.
  ghost predicate FromJob(job: Job, init: InitInfo)
    requires job.Valid()
  {
    init.version == job.version && init.size == |job.file| && init.chunkSize == job.chunkSize &&
    init.total == job.Total() && init.hash == job.sha(job.file)
  }

  // Whatever of the payload is left behind a header length that may have been
  // cut, an accepted INIT of the job carries the job's fields.
  lemma AcceptedInitIsJob(job: Job, out: Option<Path>, payload: Bytes)
    requires job.Valid() && ParseInit(payload, out).Ok?
    requires payload <= InitPayload(job.version, |job.file|, job.chunkSize, job.sha(job.file), job.name)
    ensures FromJob(job, ParseInit(payload, out).value)
  {
    var whole := InitPayload(job.version, |job.file|, job.chunkSize, job.sha(job.file), job.name);
    InitFields(job.version, |job.file|, job.chunkSize, job.sha(job.file), job.name);
    ChunkCountIsDivCeil(|job.file|, job.chunkSize);
    assert payload[SIZE_OFFSET..CHUNK_SIZE_OFFSET] == whole[SIZE_OFFSET..CHUNK_SIZE_OFFSET];
    assert payload[CHUNK_SIZE_OFFSET..HASH_OFFSET] == whole[CHUNK_SIZE_OFFSET..HASH_OFFSET];
    assert payload[HASH_OFFSET..NAME_OFFSET] == whole[HASH_OFFSET..NAME_OFFSET];
  }

  // Carried over the wire, the handshake opens a session under the sender's own
  // file name if and only if that name is one plain component.
  lemma HandshakeAgreement(job: Job)
    requires job.Valid() && NAME_OFFSET + |job.name| + 1 <= MAX_CHUNK_SIZE
    ensures Parse(job.InitDatagram()).Some?
    ensures ParseInit(Parse(job.InitDatagram()).value.payload, None)
        == Ok(InitInfo(job.version, |job.file|, job.chunkSize, job.Total(), job.sha(job.file), job.name))
      <==> PlainName(job.name)
    ensures |job.InitDatagram()| <= MAX_UDP_PAYLOAD
  {
    var payload := InitPayload(job.version, |job.file|, job.chunkSize, job.sha(job.file), job.name);
    InitFields(job.version, |job.file|, job.chunkSize, job.sha(job.file), job.name);
    ParsePacketOf(Init, 0, payload);
    InitRoundTrip(job.version, |job.file|, job.chunkSize, job.sha(job.file), job.name);
  }

  lemma ParsedPayloadIsPrefix(kind: PacketType, seqNo: u32, payload: Bytes)
    ensures var m := Parse(Packet(kind, seqNo, payload));
            m.Some? ==> m.value.kind == kind && m.value.seqNo == seqNo && m.value.payload <= payload
  {
    var d := Packet(kind, seqNo, payload);
    DecodeHeaderExact(d, Header(kind, seqNo, CastU16(|payload|)));
    assert d[..|d|] == d;
    assert d[HEADER_SIZE..] == payload;
    if Parse(d).Some? {
      var n := CastU16(|payload|);
      assert d[HEADER_SIZE..HEADER_SIZE + n] == payload[..n];
    }
  }

  // ---------- Intact INITs ----------

  // Every session and every save for this sender is for this job.
  ghost predicate OnJob(u: Setup, w: World) {
    Sane(u, w) && SenderHonesty.AllHonest(u.job, w.s.sent) &&
    (w.r.session.Some? && w.r.sender == Some(u.from) ==> FromJob(u.job, w.r.session.value.init)) &&
    (forall a | a in w.r.log && a.Committed? && a.peer == u.from :: FromJob(u.job, a.init))
  }

  // A session for the sender is opened by the job's own INIT.
  lemma OpenedByJob(u: Setup, ch: Channel, w: World, e: Event, init: InitInfo)
    requires OnJob(u, w) && KindKept(ch, Init) && InitsIntact(ch) && Possible(u, ch, w, ReceiverTurn(e))
    requires Opens(u.c, e, init, Some(u.from))
    ensures FromJob(u.job, init)
  {
    var d := e.input.datagram;
    var o :| o in w.s.sent && o.to == u.job.target && ch(o.datagram, d);
    ParsedKind(d);
    assert d == o.datagram == u.job.InitDatagram();
    var payload := InitPayload(u.job.version, |u.job.file|, u.job.chunkSize, u.job.sha(u.job.file), u.job.name);
    ParsedPayloadIsPrefix(Init, 0, payload);
    AcceptedInitIsJob(u.job, u.c.out, Parse(d).value.payload);
  }

  lemma TakeOnJob(u: Setup, ch: Channel, w: World, t: Turn)
    requires KindKept(ch, Init) && InitsIntact(ch) && OnJob(u, w) && Possible(u, ch, w, t)
    ensures OnJob(u, Take(u, w, t))
  {
    match t
    case SenderTurn(m) => SenderHonesty.NextHonest(u.job, w.s, m);
    case ReceiverTurn(e) =>
      var r' := Step(u.c, w.r, e);
      StepSession(u.c, w.r, e);
      if r'.session.Some? && r'.sender == Some(u.from) && w.r.session.None? {
        OpenedByJob(u, ch, w, e, r'.session.value.init);
      }
      forall a | a in r'.log && a.Committed? && a.peer == u.from ensures FromJob(u.job, a.init) {
        ReceiverHistory.NewCommit(u.c, w.r, e, a);
      }
  }

  lemma {:induction false} PlayOnJob(u: Setup, ch: Channel, w: World, turns: seq<Turn>)
    requires KindKept(ch, Init) && InitsIntact(ch) && OnJob(u, w) && Legal(u, ch, w, turns)
    ensures OnJob(u, Play(u, w, turns))
    decreases |turns|
  {
    if turns != [] {
      var front := turns[..|turns| - 1];
      PlayOnJob(u, ch, w, front);
      TakeOnJob(u, ch, Play(u, w, front), turns[|turns| - 1]);
    }
  }

  lemma BeginOnJob(u: Setup, budget: nat, now: nat, files: Files)
    requires u.Valid()
    ensures OnJob(u, Begin(u, budget, now, files)) && EndToEnd.DoneIsSaved(u, Begin(u, budget, now, files))
  {
    SenderHonesty.StartHonest(u.job, budget);
  }

  // With intact INITs and no packet passing for an INIT or a FIN, a completed transfer has saved the source,
  // whatever happened to the chunks and the other packets, short of a collision.
  lemma CompletionMeansDelivered(
    u: Setup, ch: Channel, budget: nat, now: nat, files: Files, turns: seq<Turn>, w: World) returns (saved: Action)
    requires u.Valid() && KindKept(ch, Fin) && KindKept(ch, Init) && InitsIntact(ch)
    requires Reached(u, ch, Begin(u, budget, now, files), turns, w)
    requires w.s.stage.Completed? && w.s.peer == u.job.target
    ensures saved in w.r.log && saved.Committed? && saved.peer == u.from && FromJob(u.job, saved.init)
    ensures saved.file == u.job.file || Collide(u.c.sha, saved.file, u.job.file)
  {
    var k, n;
    saved, k, n := EndToEnd.CompletionMeansSaved(u, ch, budget, now, files, turns, w);
    BeginOnJob(u, budget, now, files);
    PlayOnJob(u, ch, Begin(u, budget, now, files), turns);
  }

  // ---------- Guarded bodies ----------

  // V1 needs intact bodies; for V2 it is enough that the chunk's digest survives.
  ghost predicate BodiesGuarded(ch: Channel, job: Job)
    requires job.Valid()
  {
    forall chunk: u32, d | chunk < job.Total() && ch(job.DataDatagram(chunk), d) && Parse(d).Some? ::
      var body, payload := ChunkOf(job.file, job.chunkSize, chunk), Parse(d).value.payload;
      if job.version == V2 then job.sha(body) <= payload else payload == body
  }

  // The turn delivers a body that shares a chunk's digest without being it.
  ghost predicate Colliding(u: Setup, t: Turn)
    requires u.Valid()
  {
    t.ReceiverTurn? && t.e.input.Arrives? && Parse(t.e.input.datagram).Some? &&
    var m := Parse(t.e.input.datagram).value;
    m.seqNo < u.job.Total() &&
    var v := VerifiedBody(u.job.sha, u.job.version, m.payload);
    v.Some? && Collide(u.job.sha, v.value, ChunkOf(u.job.file, u.job.chunkSize, m.seqNo))
  }

  // Every chunk stored for this sender is the source's.
  ghost predicate ChunksRight(u: Setup, w: World) {
    OnJob(u, w) &&
    (w.r.session.Some? && w.r.sender == Some(u.from) ==> w.r.session.value.Authentic(u.job.file))
  }

  lemma SameHeaderSameFields(o: Bytes, d: Bytes)
    requires |o| >= HEADER_SIZE && |d| >= HEADER_SIZE && o[..HEADER_SIZE] == d[..HEADER_SIZE]
    ensures DecodeHeader(o) == DecodeHeader(d)
  {
    assert o[1..5] == o[..HEADER_SIZE][1..5] && d[1..5] == d[..HEADER_SIZE][1..5];
    assert o[5..7] == o[..HEADER_SIZE][5..7] && d[5..7] == d[..HEADER_SIZE][5..7];
    assert o[0] == o[..HEADER_SIZE][0] && d[0] == d[..HEADER_SIZE][0];
  }

  lemma DamagedKeepsNumber(kind: PacketType, seqNo: u32, payload: Bytes, d: Bytes)
    requires |d| >= HEADER_SIZE && Packet(kind, seqNo, payload)[..HEADER_SIZE] == d[..HEADER_SIZE] && Parse(d).Some?
    ensures Parse(d).value.kind == kind && Parse(d).value.seqNo == seqNo
  {
    var o := Packet(kind, seqNo, payload);
    SameHeaderSameFields(o, d);
    DecodeHeaderExact(o, Header(kind, seqNo, CastU16(|payload|)));
    assert d[..|d|] == d;
  }

  // What a DATA from the sender passes on to `store` is its chunk's own body.
  lemma AcceptedBodyRight(u: Setup, ch: Channel, w: World, e: Event)
    requires OnJob(u, w) && HeadersIntact(ch) && BodiesGuarded(ch, u.job)
    requires Possible(u, ch, w, ReceiverTurn(e)) && e.input.Arrives? && e.input.from == u.from
    requires Parse(e.input.datagram).Some? && Parse(e.input.datagram).value.kind == Data
    requires !Colliding(u, ReceiverTurn(e))
    ensures var m := Parse(e.input.datagram).value;
            m.seqNo < u.job.Total() &&
            var v := VerifiedBody(u.job.sha, u.job.version, m.payload);
            v.Some? ==> v.value == ChunkOf(u.job.file, u.job.chunkSize, m.seqNo)
  {
    var d := e.input.datagram;
    var o :| o in w.s.sent && o.to == u.job.target && ch(o.datagram, d);
    ParsedKind(d);
    SameHeaderSameKind(o.datagram, d);
    var chunk: u32 :| chunk < u.job.Total() && o.datagram == u.job.DataDatagram(chunk);
    var payload := DataPayload(u.job.sha, u.job.version, ChunkOf(u.job.file, u.job.chunkSize, chunk));
    DamagedKeepsNumber(Data, chunk, payload, d);
    if u.job.version == V2 {
      TamperedBodyRefused(u.job.sha, ChunkOf(u.job.file, u.job.chunkSize, chunk), Parse(d).value.payload);
    }
  }

  lemma TakeChunksRight(u: Setup, ch: Channel, w: World, t: Turn)
    requires ChunksRight(u, w) && HeadersIntact(ch) && InitsIntact(ch) && BodiesGuarded(ch, u.job)
    requires Possible(u, ch, w, t) && !Colliding(u, t)
    ensures ChunksRight(u, Take(u, w, t))
  {
    HeadersKeepKinds(ch, Init);
    TakeOnJob(u, ch, w, t);
    if t.ReceiverTurn? {
      var r' := Step(u.c, w.r, t.e);
      StepSession(u.c, w.r, t.e);
      if r'.session.Some? && r'.sender == Some(u.from) && w.r.session.Some? && r'.session != w.r.session {
        var s, m := w.r.session.value, Parse(t.e.input.datagram).value;
        AcceptedBodyRight(u, ch, w, t.e);
        var v := VerifiedBody(u.job.sha, u.job.version, m.payload);
        if v.Some? {
          Sessions.StoreAuthentic(s, u.job.file, m.seqNo, v.value, t.e.done);
        }
      }
    }
  }

  // Over every run: each chunk the receiver holds for this sender is the
  // source's, unless some datagram of the run exhibits a collision.
  lemma {:induction false} StoredChunksAreRight(u: Setup, ch: Channel, w: World, turns: seq<Turn>)
    requires ChunksRight(u, w) && HeadersIntact(ch) && InitsIntact(ch) && BodiesGuarded(ch, u.job)
    requires Legal(u, ch, w, turns)
    ensures ChunksRight(u, Play(u, w, turns)) || exists t :: t in turns && Colliding(u, t)
    decreases |turns|
  {
    if turns != [] {
      var front, t := turns[..|turns| - 1], turns[|turns| - 1];
      StoredChunksAreRight(u, ch, w, front);
      if ChunksRight(u, Play(u, w, front)) {
        if Colliding(u, t) {
          assert t in turns;
        } else {
          TakeChunksRight(u, ch, Play(u, w, front), t);
        }
      } else {
        var t' :| t' in front && Colliding(u, t');
        assert t' in turns;
      }
    }
  }

  // So a full session for this sender never fails its final hash check.
  lemma RightChunksPassTheCheck(u: Setup, w: World, env: Env)
    requires ChunksRight(u, w) && w.r.session.Some? && w.r.sender == Some(u.from) && w.r.session.value.Full()
    ensures w.r.session.value.data == u.job.file
    ensures FinalizeError(u.c.sha, w.r.session.value, env) != Some(HashMismatch)
  {
    Sessions.FullAuthenticIsSource(w.r.session.value, u.job.file);
  }
}
