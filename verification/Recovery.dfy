/**
 Recovery after loss: one full round of DONE, NACKs, retransmission and DONE makes
 the receiver complete, however much was lost before and in whatever order and
 number the round's datagrams arrive.
 */
module Recovery {
  import opened Options
  import opened Wire
  import opened Chunks
  import opened ChunkSets
  import opened Nacks
  import opened Sessions
  import opened ReceiverMachine
  import ReceiverSessions
  import opened SenderMachine
  import opened SenderQueue
  import SenderPasses
  import opened Network
  import Fidelity

  // The receiver holds an open session for this sender, with only right chunks.
  ghost predicate Receiving(u: Setup, r: Receiver) {
    u.Valid() && r.Valid() && r.phase.Active? && r.session.Some? && r.sender == Some(u.from) &&
    Fidelity.FromJob(u.job, r.session.value.init) && r.session.value.Authentic(u.job.file)
  }

  // ---------- Chunks arriving ----------

  lemma DataParses(job: Job, chunk: u32)
    requires job.Valid() && chunk < job.Total()
    ensures var body := ChunkOf(job.file, job.chunkSize, chunk);
            Parse(job.DataDatagram(chunk)) == Some(Message(Data, chunk, DataPayload(job.sha, job.version, body))) &&
            VerifiedBody(job.sha, job.version, DataPayload(job.sha, job.version, body)) == Some(body) &&
            |job.DataDatagram(chunk)| <= MAX_UDP_PAYLOAD
  {
    var body := ChunkOf(job.file, job.chunkSize, chunk);
    DataPayloadRoundTrip(job.sha, job.version, job.chunkSize, body);
    ParsePacketOf(Data, chunk, DataPayload(job.sha, job.version, body));
  }

  lemma DataStep(c: Config, r: Receiver, e: Event, from: Addr, d: Bytes, chunk: u32, payload: Bytes)
    requires r.Valid() && r.phase.Active? && r.session.Some? && r.sender == Some(from)
    requires e.input == Arrives(from, d) && e.env.writes == None && Parse(d) == Some(Message(Data, chunk, payload))
    ensures var s' := Accept(c.sha, r.session.value, chunk, payload, e.done);
            var r' := Step(c, r, e);
            r'.phase.Active? && r'.session == Some(s') && r'.sender == r.sender &&
            r'.sent == r.sent && r'.log == r.log
  {
    assert Step(c, r, e) == OnData(c, r.(lastDataAt := e.at), chunk, payload, e);
  }

  lemma AcceptChunk(job: Job, s: Session, chunk: u32, now: nat)
    requires job.Valid() && s.Valid() && Fidelity.FromJob(job, s.init) && s.Authentic(job.file) && chunk < job.Total()
    ensures var payload := DataPayload(job.sha, job.version, ChunkOf(job.file, job.chunkSize, chunk));
            var s' := Accept(job.sha, s, chunk, payload, now);
            s'.init == s.init && s'.Authentic(job.file) && s'.got == s.got + {chunk as nat}
  {
    var body := ChunkOf(job.file, job.chunkSize, chunk);
    DataPayloadRoundTrip(job.sha, job.version, job.chunkSize, body);
    assert s.Storable(chunk, body);
    StoreAuthentic(s, job.file, chunk, body, now);
  }

  // No chunk the sender builds is refused: each one is stored, or already there.
  lemma ChunkArrives(u: Setup, r: Receiver, e: Event, chunk: u32)
    requires Receiving(u, r) && chunk < u.job.Total()
    requires e.input == Arrives(u.from, u.job.DataDatagram(chunk)) && e.env.writes == None
    ensures var r' := Step(u.c, r, e);
            Receiving(u, r') && r'.session.value.init == r.session.value.init &&
            r'.sent == r.sent && r'.log == r.log &&
            r'.session.value.got == r.session.value.got + {chunk as nat}
  {
    var payload := DataPayload(u.job.sha, u.job.version, ChunkOf(u.job.file, u.job.chunkSize, chunk));
    DataParses(u.job, chunk);
    DataStep(u.c, r, e, u.from, u.job.DataDatagram(chunk), chunk, payload);
    AcceptChunk(u.job, r.session.value, chunk, e.done);
  }

  // The event brings this chunk from the sender, unharmed, and it can be written.
  ghost predicate Brings(u: Setup, e: Event, chunk: u32)
    requires u.Valid()
  {
    chunk < u.job.Total() && e.input == Arrives(u.from, u.job.DataDatagram(chunk)) && e.env.writes == None
  }

  // If the event is a DATA that can be stored, its body is the source's.
  ghost predicate RightBody(u: Setup, e: Event)
    requires u.Valid()
  {
    e.input.Arrives? && e.input.from == u.from && Parse(e.input.datagram).Some? ==>
      var m := Parse(e.input.datagram).value;
      var v := VerifiedBody(u.job.sha, u.job.version, m.payload);
      m.kind == Data && m.seqNo < u.job.Total() && v.Some? &&
      |v.value| == ChunkLen(|u.job.file|, u.job.chunkSize, m.seqNo) ==>
        v.value == ChunkOf(u.job.file, u.job.chunkSize, m.seqNo)
  }

  // Whatever happens in these events - timeouts, NACK rounds, strangers, repeated
  // or refused packets - the session survives and no wrong body gets in.
  ghost predicate Survives(u: Setup, r: Receiver, events: seq<Event>)
    requires u.Valid() && r.Valid()
  {
    ReceiverSessions.StaysOpen(u.c, r, events) && forall e | e in events :: RightBody(u, e)
  }

  ghost predicate Gained(u: Setup, r: Receiver, r': Receiver)
    requires Receiving(u, r)
  {
    Receiving(u, r') && r'.session.value.init == r.session.value.init &&
    r.session.value.got <= r'.session.value.got
  }

  lemma SurvivesOne(u: Setup, r: Receiver, e: Event)
    requires Receiving(u, r) && RightBody(u, e) && Step(u.c, r, e).session.Some?
    ensures Gained(u, r, Step(u.c, r, e))
  {
    var s, r' := r.session.value, Step(u.c, r, e);
    StepSession(u.c, r, e);
    if r'.session != r.session {
      var m := Parse(e.input.datagram).value;
      var v := VerifiedBody(u.job.sha, u.job.version, m.payload);
      if v.Some? {
        StoreAuthentic(s, u.job.file, m.seqNo, v.value, e.done);
      }
    }
  }

  lemma SurvivesRest(u: Setup, r: Receiver, events: seq<Event>)
    requires u.Valid() && r.Valid() && Survives(u, r, events) && events != []
    ensures RightBody(u, events[0]) && Step(u.c, r, events[0]).session.Some?
    ensures Survives(u, Step(u.c, r, events[0]), events[1..])
  {
    assert events[0] in events;
    assert ReceiverSessions.StaysOpen(u.c, Step(u.c, r, events[0]), events[1..]);
  }

  lemma {:induction false} SurvivesAll(u: Setup, r: Receiver, events: seq<Event>)
    requires Receiving(u, r) && Survives(u, r, events)
    ensures Gained(u, r, ReceiverMachine.Run(u.c, r, events))
    decreases |events|
  {
    if events != [] {
      SurvivesRest(u, r, events);
      SurvivesOne(u, r, events[0]);
      SurvivesAll(u, Step(u.c, r, events[0]), events[1..]);
    }
  }

  // A chunk brought at any moment is there at the end.
  lemma {:induction false} ChunkGetsThrough(u: Setup, r: Receiver, events: seq<Event>, i: nat, chunk: u32)
    requires Receiving(u, r) && Survives(u, r, events) && i < |events| && Brings(u, events[i], chunk)
    ensures var r' := ReceiverMachine.Run(u.c, r, events);
            Gained(u, r, r') && chunk as nat in r'.session.value.got
    decreases i
  {
    SurvivesRest(u, r, events);
    SurvivesOne(u, r, events[0]);
    if i == 0 {
      ChunkArrives(u, r, events[0], chunk);
      SurvivesAll(u, Step(u.c, r, events[0]), events[1..]);
    } else {
      ChunkGetsThrough(u, Step(u.c, r, events[0]), events[1..], i - 1, chunk);
    }
  }

  lemma AuthenticIsRight(u: Setup, e: Event, chunk: u32)
    requires u.Valid() && Brings(u, e, chunk)
    ensures RightBody(u, e)
  {
    DataParses(u.job, chunk);
  }

  lemma SurvivesCons(u: Setup, r: Receiver, events: seq<Event>)
    requires Receiving(u, r) && events != [] && RightBody(u, events[0])
    requires Survives(u, Step(u.c, r, events[0]), events[1..])
    ensures Survives(u, r, events)
  {
    assert events == [events[0]] + events[1..];
  }

  // Chunks alone, in any order and number, never end the session: they add up to
  // exactly their set.
  lemma {:induction false} ChunksArrive(u: Setup, r: Receiver, events: seq<Event>, chunks: seq<u32>)
    requires Receiving(u, r) && |events| == |chunks|
    requires forall i | 0 <= i < |events| :: Brings(u, events[i], chunks[i])
    ensures Survives(u, r, events) && Gained(u, r, ReceiverMachine.Run(u.c, r, events))
    ensures var r' := ReceiverMachine.Run(u.c, r, events);
            r'.session.value.got == r.session.value.got + Elements(chunks) && r'.sent == r.sent && r'.log == r.log
    decreases |events|
  {
    if events != [] {
      ChunkArrives(u, r, events[0], chunks[0]);
      AuthenticIsRight(u, events[0], chunks[0]);
      ChunksArrive(u, Step(u.c, r, events[0]), events[1..], chunks[1..]);
      SurvivesCons(u, r, events);
      ElementsCons(chunks);
    }
  }

  // ---------- Order and repetition ----------

  // The event brings a body for this chunk that can be stored.
  ghost predicate Bears(u: Setup, e: Event, chunk: nat)
    requires u.Valid()
  {
    e.input.Arrives? && e.input.from == u.from && Parse(e.input.datagram).Some? &&
    var m := Parse(e.input.datagram).value;
    m.kind == Data && m.seqNo == chunk && chunk < u.job.Total() &&
    var v := VerifiedBody(u.job.sha, u.job.version, m.payload);
    v.Some? && |v.value| == ChunkLen(|u.job.file|, u.job.chunkSize, chunk)
  }

  ghost predicate Borne(u: Setup, events: seq<Event>, chunk: nat)
    requires u.Valid()
  {
    exists i :: 0 <= i < |events| && Bears(u, events[i], chunk)
  }

  // What became of one chunk between two states of a session: it is there if it
  // was or was borne, and a chunk still missing has the bytes it had.
  ghost predicate ChunkBecame(u: Setup, r: Receiver, r': Receiver, chunk: nat, borne: bool)
    requires Receiving(u, r) && Receiving(u, r') && chunk < u.job.Total()
  {
    var s, s' := r.session.value, r'.session.value;
    (chunk in s'.got <==> chunk in s.got || borne) &&
    (chunk !in s'.got ==> ChunkOf(s'.data, u.job.chunkSize, chunk) == ChunkOf(s.data, u.job.chunkSize, chunk))
  }

  // DATA from the sender that does not end the session was handed to the store.
  lemma DataAccepted(c: Config, r: Receiver, e: Event, from: Addr, d: Bytes, chunk: u32, payload: Bytes)
    requires r.Valid() && r.session.Some? && r.sender == Some(from) && Step(c, r, e).session.Some?
    requires e.input == Arrives(from, d) && Parse(d) == Some(Message(Data, chunk, payload))
    ensures Step(c, r, e).session == Some(Accept(c.sha, r.session.value, chunk, payload, e.done))
  {
    assert Step(c, r, e) == OnData(c, r.(lastDataAt := e.at), chunk, payload, e);
  }

  lemma AcceptEffect(u: Setup, r: Receiver, chunk: u32, payload: Bytes, now: nat, other: nat)
    requires Receiving(u, r) && other < u.job.Total()
    ensures var s := r.session.value;
            var s' := Accept(u.job.sha, s, chunk, payload, now);
            var v := VerifiedBody(u.job.sha, u.job.version, payload);
            (other in s'.got <==>
              (other in s.got ||
               (chunk == other && v.Some? && |v.value| == ChunkLen(|u.job.file|, u.job.chunkSize, other)))) &&
            (other !in s'.got ==> ChunkOf(s'.data, u.job.chunkSize, other) == ChunkOf(s.data, u.job.chunkSize, other))
  {
    var v := VerifiedBody(u.job.sha, u.job.version, payload);
    if v.Some? {
      StoreEffect(r.session.value, chunk, v.value, now, other);
    }
  }

  lemma StepChunk(u: Setup, r: Receiver, e: Event, chunk: nat)
    requires Receiving(u, r) && RightBody(u, e) && Step(u.c, r, e).session.Some? && chunk < u.job.Total()
    ensures Receiving(u, Step(u.c, r, e)) && ChunkBecame(u, r, Step(u.c, r, e), chunk, Bears(u, e, chunk))
  {
    SurvivesOne(u, r, e);
    StepSession(u.c, r, e);
    if e.input.Arrives? && e.input.from == u.from && Parse(e.input.datagram).Some? &&
       Parse(e.input.datagram).value.kind == Data {
      var m := Parse(e.input.datagram).value;
      DataAccepted(u.c, r, e, u.from, e.input.datagram, m.seqNo, m.payload);
      AcceptEffect(u, r, m.seqNo, m.payload, e.done, chunk);
    }
  }

  lemma BorneCons(u: Setup, events: seq<Event>, chunk: nat)
    requires u.Valid() && events != []
    ensures Borne(u, events, chunk) <==> Bears(u, events[0], chunk) || Borne(u, events[1..], chunk)
  {
    if Borne(u, events[1..], chunk) {
      var i :| 0 <= i < |events[1..]| && Bears(u, events[1..][i], chunk);
      assert events[i + 1] == events[1..][i];
    }
    if Borne(u, events, chunk) && !Bears(u, events[0], chunk) {
      var i :| 0 <= i < |events| && Bears(u, events[i], chunk);
      assert events[1..][i - 1] == events[i];
    }
  }

  lemma ChunkBecameTwice(u: Setup, a: Receiver, b: Receiver, r: Receiver, chunk: nat, first: bool, rest: bool)
    requires Receiving(u, a) && Receiving(u, b) && Receiving(u, r) && chunk < u.job.Total()
    requires ChunkBecame(u, a, b, chunk, first) && ChunkBecame(u, b, r, chunk, rest)
    ensures ChunkBecame(u, a, r, chunk, first || rest)
  {}

  lemma {:induction false} RunChunk(u: Setup, r: Receiver, events: seq<Event>, chunk: nat)
    requires Receiving(u, r) && Survives(u, r, events) && chunk < u.job.Total()
    ensures Receiving(u, ReceiverMachine.Run(u.c, r, events))
    ensures ChunkBecame(u, r, ReceiverMachine.Run(u.c, r, events), chunk, Borne(u, events, chunk))
    decreases |events|
  {
    if events != [] {
      var mid := Step(u.c, r, events[0]);
      SurvivesRest(u, r, events);
      StepChunk(u, r, events[0], chunk);
      RunChunk(u, mid, events[1..], chunk);
      BorneCons(u, events, chunk);
      ChunkBecameTwice(u, r, mid, ReceiverMachine.Run(u.c, mid, events[1..]), chunk,
                       Bears(u, events[0], chunk), Borne(u, events[1..], chunk));
    }
  }

  lemma SameChunkSameBytes(u: Setup, r: Receiver, a: Receiver, b: Receiver, chunk: nat, borne: bool)
    requires Receiving(u, r) && Receiving(u, a) && Receiving(u, b) && chunk < u.job.Total()
    requires ChunkBecame(u, r, a, chunk, borne) && ChunkBecame(u, r, b, chunk, borne)
    ensures chunk in a.session.value.got <==> chunk in b.session.value.got
    ensures ChunkOf(a.session.value.data, u.job.chunkSize, chunk)
      == ChunkOf(b.session.value.data, u.job.chunkSize, chunk)
  {}

  // Order, repetition and everything else that happened do not matter: two runs of
  // one session that bear the same chunk numbers end with the same chunks and the
  // same bytes in the temp file.
  lemma RunOrderIndependence(u: Setup, r: Receiver, a: seq<Event>, b: seq<Event>)
    requires Receiving(u, r) && Survives(u, r, a) && Survives(u, r, b)
    requires forall chunk: nat | chunk < u.job.Total() :: Borne(u, a, chunk) <==> Borne(u, b, chunk)
    ensures var ra, rb := ReceiverMachine.Run(u.c, r, a), ReceiverMachine.Run(u.c, r, b);
            Receiving(u, ra) && Receiving(u, rb) &&
            ra.session.value.got == rb.session.value.got && ra.session.value.data == rb.session.value.data
  {
    var ra, rb := ReceiverMachine.Run(u.c, r, a), ReceiverMachine.Run(u.c, r, b);
    SurvivesAll(u, r, a);
    SurvivesAll(u, r, b);
    forall chunk: nat | chunk < u.job.Total()
      ensures chunk in ra.session.value.got <==> chunk in rb.session.value.got
      ensures ChunkOf(ra.session.value.data, u.job.chunkSize, chunk)
        == ChunkOf(rb.session.value.data, u.job.chunkSize, chunk)
    {
      RunChunk(u, r, a, chunk);
      RunChunk(u, r, b, chunk);
      SameChunkSameBytes(u, r, ra, rb, chunk, Borne(u, a, chunk));
    }
    SameChunks(u.job, ra.session.value, rb.session.value);
  }

  lemma SameChunks(job: Job, a: Session, b: Session)
    requires job.Valid() && a.Valid() && b.Valid() && Fidelity.FromJob(job, a.init) && Fidelity.FromJob(job, b.init)
    requires forall c: nat | c < job.Total() :: c in a.got <==> c in b.got
    requires forall c: nat | c < job.Total() :: ChunkOf(a.data, job.chunkSize, c) == ChunkOf(b.data, job.chunkSize, c)
    ensures a.got == b.got && a.data == b.data
  {
    ChunksDetermineFile(a.data, b.data, job.chunkSize);
    forall c: nat ensures c in a.got <==> c in b.got {
      if c < job.Total() {}
    }
  }

  // ---------- Finishing ----------

  ghost predicate Saved(u: Setup, r: Receiver, path: Path) {
    r.phase.Lingering? && path in r.files && r.files[path] == u.job.file
  }

  // From `r` to `r'` the source was saved and reported: one save more, one FIN more.
  ghost predicate Reports(u: Setup, r: Receiver, r': Receiver)
    requires Receiving(u, r)
  {
    var init := r.session.value.init;
    Saved(u, r', init.path) && r'.log == r.log + [Committed(u.from, init, u.job.file)] &&
    r'.sent == r.sent + [Outgoing(u.from, Control(Fin, 0))]
  }

  ghost predicate SmoothDone(u: Setup, e: Event) {
    u.Valid() && e.input == Arrives(u.from, u.job.DoneDatagram()) &&
    e.env.syncs && e.env.rereads && e.env.renames && e.env.sends > 0
  }

  lemma DoneStep(u: Setup, r: Receiver, e: Event)
    requires Receiving(u, r) && e.input == Arrives(u.from, u.job.DoneDatagram())
    ensures Step(u.c, r, e) == OnDone(u.c, r.(lastDataAt := e.at), e)
  {
    ParsePacketOf(Done, u.job.Total(), []);
  }

  lemma DoneCommits(u: Setup, r: Receiver, e: Event)
    requires Receiving(u, r) && r.session.value.Full() && e.input == Arrives(u.from, u.job.DoneDatagram())
    requires e.env.syncs && e.env.rereads && e.env.renames
    ensures r.session.value.data == u.job.file && Step(u.c, r, e) == Commit(u.c, r.(lastDataAt := e.at), e)
  {
    FullAuthenticIsSource(r.session.value, u.job.file);
    DoneStep(u, r, e);
    assert FinalizeError(u.c.sha, r.session.value, e.env) == None;
  }

  lemma DoneFinishes(u: Setup, r: Receiver, e: Event)
    requires Receiving(u, r) && r.session.value.Full() && SmoothDone(u, e)
    ensures Reports(u, r, Step(u.c, r, e))
  {
    DoneCommits(u, r, e);
    assert FirstOf([Control(Fin, 0)], e.env.sends) == [Control(Fin, 0)];
    assert Sends(u.from, [Control(Fin, 0)]) == [Outgoing(u.from, Control(Fin, 0))];
  }

  // Every chunk still missing is brought by some event.
  ghost predicate BringsMissing(u: Setup, r: Receiver, events: seq<Event>)
    requires Receiving(u, r)
  {
    forall chunk: u32 | chunk < u.job.Total() && chunk !in r.session.value.got ::
      exists i :: 0 <= i < |events| && Brings(u, events[i], chunk)
  }

  // Once every missing chunk has arrived, in any order and any number of times,
  // the next DONE commits. With nothing received before, this is a loss-free
  // first pass.
  lemma CompletePassDelivers(u: Setup, r: Receiver, events: seq<Event>, e: Event)
    requires Receiving(u, r) && Survives(u, r, events) && BringsMissing(u, r, events) && SmoothDone(u, e)
    ensures var r' := ReceiverMachine.Run(u.c, r, events);
            Gained(u, r, r') && Reports(u, r', Step(u.c, r', e))
  {
    var r' := ReceiverMachine.Run(u.c, r, events);
    SurvivesAll(u, r, events);
    forall c: nat | c < u.job.Total() ensures c in r'.session.value.got {
      var chunk: u32 := c;
      if chunk !in r.session.value.got {
        var i :| 0 <= i < |events| && Brings(u, events[i], chunk);
        ChunkGetsThrough(u, r, events, i, chunk);
      }
    }
    assert r'.session.value.got == Below(u.job.Total());
    DoneFinishes(u, r', e);
  }

  // ---------- Asking ----------

  // A DONE that finds chunks missing is answered with NACKs for all of them.
  lemma DoneAsks(u: Setup, r: Receiver, e: Event)
    requires Receiving(u, r) && !r.session.value.Full() && e.input == Arrives(u.from, u.job.DoneDatagram())
    requires e.env.sends >= |NackPackets(MissingBelow(r.session.value.got, u.job.Total()))|
    ensures var r' := Step(u.c, r, e);
            Receiving(u, r') && r'.session == r.session &&
            r'.sent == r.sent + Sends(u.from, NackPackets(MissingBelow(r.session.value.got, u.job.Total()))) &&
            r'.log == r.log + [Nacked(e.done, false, MissingBelow(r.session.value.got, u.job.Total()))]
  {
    DoneStep(u, r, e);
  }

  // ---------- The feedback window ----------

  // The sender waits for feedback and hears these, from whatever hosts: NACKs of
  // this round or of others, once or often, and anything else.
  ghost predicate HearsOnly(fb: seq<Move>) {
    forall i | 0 <= i < |fb| :: fb[i].Some? && fb[i].value.Heard?
  }

  // What the peer's NACKs among them ask for, in the order they came.
  function Answers(peer: Addr, fb: seq<Move>): seq<u32> {
    if fb == [] then []
    else
      match fb[|fb| - 1]
      case Some(Heard(from, d)) =>
        Answers(peer, fb[..|fb| - 1]) + if from == peer then Requested(d) else []
      case _ => Answers(peer, fb[..|fb| - 1])
  }

  lemma AnswersSnoc(peer: Addr, fb: seq<Move>, from: Addr, d: Bytes)
    ensures Answers(peer, fb + [Some(Heard(from, d))])
      == Answers(peer, fb) + if from == peer then Requested(d) else []
  {
    assert (fb + [Some(Heard(from, d))])[..|fb|] == fb;
  }

  ghost predicate AskedFor(peer: Addr, fb: seq<Move>, chunk: u32) {
    exists d: Bytes :: Some(Heard(peer, d)) in fb && chunk in Requested(d)
  }

  // The answers are the union of what the peer's NACKs ask for.
  lemma {:induction false} AnswersExact(peer: Addr, fb: seq<Move>, x: u32)
    ensures x in Answers(peer, fb) <==> AskedFor(peer, fb, x)
    decreases |fb|
  {
    if fb != [] {
      var front, last := fb[..|fb| - 1], fb[|fb| - 1];
      AnswersExact(peer, front, x);
      assert fb == front + [last];
    }
  }

  // From `s` to `s'` the sender kept waiting, and was asked for these chunks.
  ghost predicate Waited(s: Sender, s': Sender, asked: seq<u32>) {
    s.stage.Feedback? && s' == s.(stage := Feedback(s.stage.missing + asked))
  }

  lemma HearOne(job: Job, s: Sender, from: Addr, d: Bytes)
    requires s.Valid(job) && Next(job, s, Some(Heard(from, d))).stage.Feedback?
    ensures Waited(s, Next(job, s, Some(Heard(from, d))), if from == s.peer then Requested(d) else [])
  {
    if s.stage.Feedback? {
      assert s.stage.missing + [] == s.stage.missing;
    }
  }

  lemma WaitedLonger(s: Sender, mid: Sender, s': Sender, asked: seq<u32>, more: seq<u32>)
    requires Waited(s, mid, asked) && Waited(mid, s', more)
    ensures Waited(s, s', asked + more)
  {
    assert s.stage.missing + asked + more == s.stage.missing + (asked + more);
  }

  // As long as it waits, the sender remembers what every NACK of its peer asks for,
  // and nothing else changes.
  lemma {:induction false} FeedbackCollects(job: Job, s: Sender, fb: seq<Move>)
    requires s.Valid(job) && s.stage.Feedback? && HearsOnly(fb) && Walk(job, s, fb).stage.Feedback?
    ensures Waited(s, Walk(job, s, fb), Answers(s.peer, fb))
    decreases |fb|
  {
    if fb == [] {
      assert s.stage.missing + [] == s.stage.missing;
    } else {
      var front, from, d := fb[..|fb| - 1], fb[|fb| - 1].value.from, fb[|fb| - 1].value.datagram;
      assert fb == front + [Some(Heard(from, d))];
      WalkSnoc(job, s, front, Some(Heard(from, d)));
      HearOne(job, Walk(job, s, front), from, d);
      FeedbackCollects(job, s, front);
      WaitedLonger(s, Walk(job, s, front), Walk(job, s, fb), Answers(s.peer, front),
        if from == s.peer then Requested(d) else []);
      AnswersSnoc(s.peer, front, from, d);
    }
  }

  lemma QuietQueues(job: Job, s: Sender)
    requires s.Valid(job) && s.stage.Feedback? && s.pending == [] && s.pass + 1 <= job.passes
    ensures Next(job, s, Some(Quiet))
      == s.(stage := Blasting(0), pass := s.pass + 1, pending := PushAll([], job.Total(), s.stage.missing))
  {
    DedupAgrees([], job.Total(), s.stage.missing);
  }

  // And queues it, repetitions aside, when the socket falls quiet.
  lemma FeedbackQueues(job: Job, s: Sender, fb: seq<Move>)
    requires s.Valid(job) && s.stage == Feedback([]) && s.pending == [] && s.pass + 1 <= job.passes
    requires HearsOnly(fb) && Walk(job, s, fb).stage.Feedback?
    ensures Next(job, Walk(job, s, fb), Some(Quiet))
      == s.(stage := Blasting(0), pass := s.pass + 1, pending := PushAll([], job.Total(), Answers(s.peer, fb)))
  {
    FeedbackCollects(job, s, fb);
    assert [] + Answers(s.peer, fb) == Answers(s.peer, fb);
    QuietQueues(job, s.(stage := Feedback(Answers(s.peer, fb))));
  }

  // So the next pass starts with exactly those chunks of the file that some NACK of
  // the peer asked for meanwhile.
  lemma FeedbackQueuesExactly(job: Job, s: Sender, fb: seq<Move>, x: u32)
    requires s.Valid(job) && s.stage == Feedback([]) && s.pending == [] && s.pass + 1 <= job.passes
    requires HearsOnly(fb) && Walk(job, s, fb).stage.Feedback?
    ensures var s' := Next(job, Walk(job, s, fb), Some(Quiet));
            s'.stage == Blasting(0) &&
            (x in s'.pending <==> x < job.Total() && AskedFor(s.peer, fb, x))
  {
    FeedbackQueues(job, s, fb);
    PushAllExact([], job.Total(), Answers(s.peer, fb));
    AnswersExact(s.peer, fb, x);
    var queued := PushAll([], job.Total(), Answers(s.peer, fb));
    assert x as nat in Elements(queued) <==> x in queued;
    assert x as nat in Elements(Answers(s.peer, fb)) <==> x in Answers(s.peer, fb);
  }

  // If all the NACKs for a missing list are among them, every chunk of it is queued.
  lemma FeedbackQueuesMissing(job: Job, s: Sender, missing: seq<u32>, fb: seq<Move>, x: u32)
    requires s.Valid(job) && s.stage == Feedback([]) && s.pending == [] && s.pass + 1 <= job.passes
    requires HearsOnly(fb) && Walk(job, s, fb).stage.Feedback?
    requires forall d | d in NackPackets(missing) :: Some(Heard(s.peer, d)) in fb
    requires x in missing && x < job.Total()
    ensures x in Next(job, Walk(job, s, fb), Some(Quiet)).pending
  {
    NackPipelineRoundTrip(missing);
    RequestedUnion(NackPackets(missing), x);
    FeedbackQueuesExactly(job, s, fb, x);
  }

  // If there are no others among them, nothing else is.
  lemma FeedbackQueuesOnlyMissing(job: Job, s: Sender, missing: seq<u32>, fb: seq<Move>, x: u32)
    requires s.Valid(job) && s.stage == Feedback([]) && s.pending == [] && s.pass + 1 <= job.passes
    requires HearsOnly(fb) && Walk(job, s, fb).stage.Feedback?
    requires forall d: Bytes | Some(Heard(s.peer, d)) in fb && Requested(d) != [] :: d in NackPackets(missing)
    ensures x in Next(job, Walk(job, s, fb), Some(Quiet)).pending ==> x in missing
  {
    FeedbackQueuesExactly(job, s, fb, x);
    NackPipelineRoundTrip(missing);
    RequestedUnion(NackPackets(missing), x);
  }

  // A chunk asked for while the sender waits goes out in the pass that follows.
  lemma CollectedNackIsAnswered(job: Job, s: Sender, fb: seq<Move>, chunk: u32, moves: seq<Move>)
    requires Inv(job, s) && s.stage == Feedback([]) && s.pending == [] && s.pass + 1 <= job.passes
    requires HearsOnly(fb) && Walk(job, s, fb).stage.Feedback?
    requires chunk < job.Total() && AskedFor(s.peer, fb, chunk)
    ensures var pass := Next(job, Walk(job, s, fb), Some(Quiet));
            var after := Walk(job, pass, moves);
            !after.stage.Stopped? && after.pending == [] ==>
              pass.sent <= after.sent &&
              Outgoing(job.target, job.DataDatagram(chunk)) in after.sent[|pass.sent|..]
  {
    WalkInv(job, s, fb + [Some(Quiet)]);
    WalkSnoc(job, s, fb, Some(Quiet));
    FeedbackQueuesExactly(job, s, fb, chunk);
    SenderPasses.EverythingOwedIsSent(job, Next(job, Walk(job, s, fb), Some(Quiet)), moves);
  }

  // ---------- Only this round's NACKs ----------

  function Hearing(peer: Addr, heard: seq<Bytes>): (moves: seq<Move>)
    ensures |moves| == |heard| && forall i | 0 <= i < |heard| :: moves[i] == Some(Heard(peer, heard[i]))
  {
    seq(|heard|, i requires 0 <= i < |heard| => Some(Heard(peer, heard[i])))
  }

  lemma HearingSnoc(peer: Addr, front: seq<Bytes>, d: Bytes)
    ensures Hearing(peer, front + [d]) == Hearing(peer, front) + [Some(Heard(peer, d))]
  {}

  lemma HearNack(job: Job, s: Sender, d: Bytes)
    requires s.Valid(job) && s.stage.Feedback? && IsNack(d)
    ensures Next(job, s, Some(Heard(s.peer, d))).stage.Feedback? && Next(job, s, Some(Heard(s.peer, d))).peer == s.peer
  {}

  // NACKs alone keep the sender waiting, and are all it then remembers.
  lemma {:induction false} NacksKeepWaiting(job: Job, s: Sender, heard: seq<Bytes>)
    requires s.Valid(job) && s.stage.Feedback? && forall d | d in heard :: IsNack(d)
    ensures Walk(job, s, Hearing(s.peer, heard)).stage.Feedback?
    ensures Walk(job, s, Hearing(s.peer, heard)).peer == s.peer
    ensures Answers(s.peer, Hearing(s.peer, heard)) == RequestedByAll(heard)
    decreases |heard|
  {
    if heard == [] {
      assert Hearing(s.peer, heard) == [];
    } else {
      var front, d := heard[..|heard| - 1], heard[|heard| - 1];
      NacksKeepWaiting(job, s, front);
      assert heard == front + [d];
      HearingSnoc(s.peer, front, d);
      WalkSnoc(job, s, Hearing(s.peer, front), Some(Heard(s.peer, d)));
      HearNack(job, Walk(job, s, Hearing(s.peer, front)), d);
      AnswersSnoc(s.peer, Hearing(s.peer, front), s.peer, d);
      RequestedByAllSnoc(front, d);
    }
  }

  // Heard in order and once each, the NACKs leave the queue equal to the list.
  lemma FeedbackInOrder(job: Job, s: Sender, missing: seq<u32>)
    requires s.Valid(job) && s.stage == Feedback([]) && s.pending == [] && s.pass + 1 <= job.passes
    requires StrictlyIncreasing(missing) && forall x | x in missing :: x < job.Total()
    ensures Next(job, Walk(job, s, Hearing(s.peer, NackPackets(missing))), Some(Quiet)).pending == missing
  {
    NackPacketsParse(missing);
    NacksKeepWaiting(job, s, NackPackets(missing));
    FeedbackQueues(job, s, Hearing(s.peer, NackPackets(missing)));
    NackPipelineRoundTrip(missing);
    DrainedQueue(job.Total(), missing);
  }

  lemma DrainedQueue(total: nat, missing: seq<u32>)
    requires StrictlyIncreasing(missing) && forall x | x in missing :: x < total
    ensures PushAll([], total, missing) == missing
  {
    assert [] + missing == missing;
    PushAllDrained([], total, missing);
  }

  // ---------- A round ----------

  // The sender at the start of its next pass, after a DONE and all it heard.
  ghost function NextPass(job: Job, s: Sender, fb: seq<Move>): (s': Sender)
    requires s.Valid(job) && s.stage.Blasting?
    ensures s'.Valid(job)
  {
    Next(job, Walk(job, Act(job, s), fb), Some(Quiet))
  }

  // The sender says DONE; the receiver hears it and can answer in full; while the
  // sender waits it hears each of these answers, and whatever else.
  ghost predicate Asked(u: Setup, s: Sender, r: Receiver, asked: Event, fb: seq<Move>) {
    Receiving(u, r) && Inv(u.job, s) && s.stage.Blasting? && s.pending == [] && s.budget > 0 &&
    s.pass + 1 <= u.job.passes &&
    asked.input == Arrives(u.from, u.job.DoneDatagram()) &&
    asked.env.sends >= |NackPackets(MissingBelow(r.session.value.got, u.job.Total()))| &&
    HearsOnly(fb) && Walk(u.job, Act(u.job, s), fb).stage.Feedback? &&
    var sent := Step(u.c, r, asked).sent;
    r.sent <= sent && forall d | Outgoing(u.from, d) in sent[|r.sent|..] :: Some(Heard(s.peer, d)) in fb
  }

  ghost predicate Gets(u: Setup, events: seq<Event>, d: Bytes) {
    exists i :: 0 <= i < |events| && events[i].input == Arrives(u.from, d) && events[i].env.writes == None
  }

  // The sender makes its next pass, whatever it hears meanwhile, and each DATA of
  // that pass that the receiver lacks arrives at least once and can be written.
  ghost predicate Resent(u: Setup, r: Receiver, pass: Sender, moves: seq<Move>, events: seq<Event>)
    requires Receiving(u, r) && pass.Valid(u.job)
  {
    var after := Walk(u.job, pass, moves);
    !after.stage.Stopped? && after.pending == [] && pass.sent <= after.sent &&
    forall chunk: u32 |
      chunk < u.job.Total() && chunk !in r.session.value.got &&
      Outgoing(u.job.target, u.job.DataDatagram(chunk)) in after.sent[|pass.sent|..] ::
      Gets(u, events, u.job.DataDatagram(chunk))
  }

  lemma NewlySent(r: Receiver, r': Receiver, to: Addr, packets: seq<Bytes>)
    requires r'.sent == r.sent + Sends(to, packets)
    ensures forall d :: Outgoing(to, d) in r'.sent[|r.sent|..] <==> d in packets
  {
    assert r'.sent[|r.sent|..] == Sends(to, packets);
    forall d | d in packets ensures Outgoing(to, d) in Sends(to, packets) {
      var i :| 0 <= i < |packets| && packets[i] == d;
      assert Sends(to, packets)[i] == Outgoing(to, d);
    }
  }

  lemma PassInv(job: Job, s: Sender, fb: seq<Move>)
    requires Inv(job, s) && s.stage.Blasting?
    ensures Inv(job, NextPass(job, s, fb))
  {
    ActInv(job, s);
    WalkInv(job, Act(job, s), fb + [Some(Quiet)]);
    WalkSnoc(job, Act(job, s), fb, Some(Quiet));
  }

  // The next pass owes every missing chunk.
  lemma PassOwesMissing(u: Setup, s: Sender, r: Receiver, asked: Event, fb: seq<Move>, chunk: u32)
    requires Asked(u, s, r, asked, fb) && !r.session.value.Full()
    requires chunk < u.job.Total() && chunk !in r.session.value.got
    ensures chunk in NextPass(u.job, s, fb).pending
  {
    var missing := MissingBelow(r.session.value.got, u.job.Total());
    MissingMember(r.session.value.got, u.job.Total(), chunk);
    DoneAsks(u, r, asked);
    NewlySent(r, Step(u.c, r, asked), u.from, NackPackets(missing));
    FeedbackQueuesMissing(u.job, Act(u.job, s), missing, fb, chunk);
  }

  lemma RoundCoversMissing(
    u: Setup, s: Sender, r: Receiver, asked: Event, fb: seq<Move>, moves: seq<Move>, events: seq<Event>)
    requires Asked(u, s, r, asked, fb) && Resent(u, r, NextPass(u.job, s, fb), moves, events)
    requires !r.session.value.Full()
    ensures BringsMissing(u, r, events)
  {
    var pass := NextPass(u.job, s, fb);
    PassInv(u.job, s, fb);
    SenderPasses.EverythingOwedIsSent(u.job, pass, moves);
    forall chunk: u32 | chunk < u.job.Total() && chunk !in r.session.value.got
      ensures exists i :: 0 <= i < |events| && Brings(u, events[i], chunk)
    {
      PassOwesMissing(u, s, r, asked, fb, chunk);
      assert Gets(u, events, u.job.DataDatagram(chunk));
      var i :| 0 <= i < |events| &&
        events[i].input == Arrives(u.from, u.job.DataDatagram(chunk)) && events[i].env.writes == None;
      assert Brings(u, events[i], chunk);
    }
  }

  // From any state with the sender's queue drained and any chunks missing: one
  // round in which these datagrams arrive ends with the file saved and a FIN out,
  // whatever else either end hears meanwhile.
  lemma RoundRecovers(
    u: Setup, s: Sender, r: Receiver, asked: Event, fb: seq<Move>, moves: seq<Move>, events: seq<Event>,
    last: Event)
    requires Asked(u, s, r, asked, fb) && Resent(u, r, NextPass(u.job, s, fb), moves, events)
    requires Survives(u, Step(u.c, r, asked), events) && SmoothDone(u, last) && !r.session.value.Full()
    ensures var r' := ReceiverMachine.Run(u.c, Step(u.c, r, asked), events);
            Gained(u, r, r') && Reports(u, r', Step(u.c, r', last))
  {
    DoneAsks(u, r, asked);
    RoundCoversMissing(u, s, r, asked, fb, moves, events);
    CompletePassDelivers(u, Step(u.c, r, asked), events, last);
  }

  // And that FIN, wherever it reaches the sender, ends its run.
  lemma FinCompletes(job: Job, s: Sender, seqNo: u32)
    requires s.Valid(job) && (s.stage.Draining? || s.stage.Feedback?)
    ensures Next(job, s, Some(Heard(s.peer, Control(Fin, seqNo)))).stage.Completed?
  {
    ParsePacketOf(Fin, seqNo, []);
  }
}
