/**
 The other side of safety: when completion is within reach. Every file both ends
 accept has a run without loss; a round of recovery is possible whenever passes and
 sends are left; and from any reached world with an open session, or with the linger
 window open, some continuation completes. All of these runs keep to the clock.
 */
module Completion {
  import opened Options
  import opened Wire
  import opened InitPacket
  import opened ChunkSets
  import opened Sessions
  import opened ReceiverMachine
  import ReceiverSessions
  import opened SenderMachine
  import opened SenderQueue
  import SenderPasses
  import opened Nacks
  import opened Network
  import Fidelity
  import opened Recovery
  import opened Blasting
  import Lingering

  const SMOOTH: Env := Env(1, true, true, None, true, true, true)

  function At(now: nat, from: Addr, d: Bytes): Event {
    Event(now, now, now, Arrives(from, d), SMOOTH)
  }

  // The receiver can make sense of the sender's INIT: it has a path of its own,
  // or the file name is plain.
  predicate Understood(u: Setup) {
    (u.c.out.Some? || PlainName(u.job.name)) && NAME_OFFSET + |u.job.name| + 1 <= MAX_CHUNK_SIZE
  }

  function TheInit(u: Setup): (init: InitInfo)
    requires u.Valid()
    ensures init.Valid() && Fidelity.FromJob(u.job, init)
  {
    var job := u.job;
    var path := if u.c.out.Some? then u.c.out.value else job.name;
    InitInfo(job.version, |job.file|, job.chunkSize, job.Total(), job.sha(job.file), path)
  }

  lemma InitUnderstood(u: Setup)
    requires u.Valid() && Understood(u)
    ensures var job := u.job;
            var payload := InitPayload(job.version, |job.file|, job.chunkSize, job.sha(job.file), job.name);
            Parse(job.InitDatagram()) == Some(Message(Init, 0, payload)) &&
            ParseInit(payload, u.c.out) == Ok(TheInit(u))
  {
    var job := u.job;
    var payload := InitPayload(job.version, |job.file|, job.chunkSize, job.sha(job.file), job.name);
    InitFields(job.version, |job.file|, job.chunkSize, job.sha(job.file), job.name);
    ParsePacketOf(Init, 0, payload);
    if u.c.out.Some? {
      InitRoundTripToPath(job.version, |job.file|, job.chunkSize, job.sha(job.file), job.name, u.c.out.value);
    } else {
      InitRoundTrip(job.version, |job.file|, job.chunkSize, job.sha(job.file), job.name);
    }
  }

  // The receiver hears this at the moment the run has got to.
  lemma HearNow(u: Setup, ch: Channel, start: World, turns: seq<Turn>, w: World, since: nat, now: nat, e: Event)
    returns (turns': seq<Turn>, w': World)
    requires Sane(u, start) && Reached(u, ch, start, turns, w) && PassesOn(ch) && Elapses(since, Events(turns), now)
    requires e.before == e.at == e.done == now && e.input.Arrives? && e.input.from == u.from
    requires Outgoing(u.job.target, e.input.datagram) in w.s.sent && |e.input.datagram| >= HEADER_SIZE
    ensures Sane(u, w) && w' == World(w.s, Step(u.c, w.r, e))
    ensures Reached(u, ch, start, turns', w') && Elapses(since, Events(turns'), now)
  {
    Unharmed(ch, w.s.sent, u.job.target, e.input.datagram);
    Extend(u, ch, start, turns, w, ReceiverTurn(e));
    ElapsesNow(since, turns, now, e);
    turns', w' := turns + [ReceiverTurn(e)], Take(u, w, ReceiverTurn(e));
  }

  lemma ElapsesNow(since: nat, turns: seq<Turn>, now: nat, e: Event)
    requires Elapses(since, Events(turns), now) && e.before == e.at == e.done == now
    ensures Elapses(since, Events(turns + [ReceiverTurn(e)]), now)
  {
    SplitSnoc(turns, ReceiverTurn(e));
    ElapsesFurther(since, Events(turns), now, [e], now);
  }

  // ---------- Handshake ----------

  ghost predicate FreshlyOpen(u: Setup, r: Receiver)
    requires u.Valid()
  {
    Receiving(u, r) && r.session == Some(Fresh(TheInit(u)))
  }

  lemma FreshIsReceiving(u: Setup, r: Receiver)
    requires u.Valid() && r.Valid() && r.phase.Active?
    requires r.session == Some(Fresh(TheInit(u))) && r.sender == Some(u.from)
    ensures FreshlyOpen(u, r)
  {}

  lemma InitOpensFresh(u: Setup, r: Receiver, e: Event)
    requires u.Valid() && Understood(u) && e == At(e.at, u.from, u.job.InitDatagram())
    requires r == ReceiverMachine.Start(e.at, r.files)
    ensures FreshlyOpen(u, Step(u.c, r, e)) && Step(u.c, r, e).sent == [Outgoing(u.from, Control(Ack, 0))]
    ensures Step(u.c, r, e).log == [ReceiverMachine.Opened(u.from, TheInit(u))]
  {
    var job := u.job;
    var payload := InitPayload(job.version, |job.file|, job.chunkSize, job.sha(job.file), job.name);
    InitUnderstood(u);
    ReceiverSessions.InitOpens(u.c, r, e, u.from, job.InitDatagram(), 0, payload, TheInit(u));
    FreshIsReceiving(u, Step(u.c, r, e));
  }

  lemma InitHeard(u: Setup, ch: Channel, start: World, now: nat) returns (turns: seq<Turn>, w: World)
    requires u.Valid() && Understood(u) && PassesOn(ch) && Sane(u, start)
    requires start.r == ReceiverMachine.Start(now, start.r.files)
    requires Outgoing(u.job.target, u.job.InitDatagram()) in start.s.sent
    ensures Reached(u, ch, start, turns, w) && w.s == start.s && Elapses(now, Events(turns), now)
    ensures FreshlyOpen(u, w.r) && w.r.sent == [Outgoing(u.from, Control(Ack, 0))]
    ensures w.r.log == [ReceiverMachine.Opened(u.from, TheInit(u))]
  {
    var e := At(now, u.from, u.job.InitDatagram());
    InitOpensFresh(u, start.r, e);
    turns, w := HearNow(u, ch, start, [], start, now, now, e);
  }

  // ---------- Delivery ----------

  // The receiver's session has gained these chunks, and nothing else happened.
  ghost predicate Delivered(u: Setup, w: World, w': World, chunks: seq<u32>)
    requires Receiving(u, w.r)
  {
    w'.s == w.s && w'.r.sent == w.r.sent && w'.r.log == w.r.log && Gained(u, w.r, w'.r) &&
    w'.r.session.value.got == w.r.session.value.got + Elements(chunks)
  }

  ghost predicate AllOut(job: Job, s: Sender, chunks: seq<u32>)
    requires job.Valid()
  {
    forall c | c in chunks :: c < job.Total() && ChunkOut(job, s, c)
  }

  ghost predicate InFile(job: Job, chunks: seq<u32>)
    requires job.Valid()
  {
    forall i | 0 <= i < |chunks| :: chunks[i] < job.Total()
  }

  // The events that bring these chunks, one by one.
  ghost function Bringing(u: Setup, chunks: seq<u32>, now: nat): (events: seq<Event>)
    requires u.Valid() && InFile(u.job, chunks)
    ensures |events| == |chunks|
    ensures forall i | 0 <= i < |chunks| :: events[i] == At(now, u.from, u.job.DataDatagram(chunks[i]))
  {
    seq(|chunks|, i requires 0 <= i < |chunks| => At(now, u.from, u.job.DataDatagram(chunks[i])))
  }

  lemma BringingArrives(u: Setup, r: Receiver, chunks: seq<u32>, now: nat)
    requires Receiving(u, r) && InFile(u.job, chunks)
    ensures var events := Bringing(u, chunks, now);
            var r' := ReceiverMachine.Run(u.c, r, events);
            Survives(u, r, events) && Gained(u, r, r') && r'.sent == r.sent && r'.log == r.log &&
            r'.session.value.got == r.session.value.got + Elements(chunks)
  {
    ChunksArrive(u, r, Bringing(u, chunks, now), chunks);
  }

  lemma BringingPasses(u: Setup, ch: Channel, s: Sender, chunks: seq<u32>, now: nat)
    requires u.Valid() && PassesOn(ch) && AllOut(u.job, s, chunks)
    ensures InFile(u.job, chunks) && AllCarried(u, ch, s, Bringing(u, chunks, now))
  {
    forall i | 0 <= i < |chunks|
      ensures chunks[i] < u.job.Total() && Carries(ch, s.sent, u.job.target, u.job.DataDatagram(chunks[i]))
    {
      assert chunks[i] in chunks;
      Unharmed(ch, s.sent, u.job.target, u.job.DataDatagram(chunks[i]));
    }
  }

  lemma ElapsesBringing(u: Setup, since: nat, events: seq<Event>, chunks: seq<u32>, now: nat)
    requires u.Valid() && Elapses(since, events, now) && InFile(u.job, chunks)
    ensures Elapses(since, events + Bringing(u, chunks, now), now)
  {
    ElapsesFurther(since, events, now, Bringing(u, chunks, now), now);
  }

  // Old or new, all chunks on the wire can still be passed on, or any of them.
  lemma DeliverAll(
    u: Setup, ch: Channel, start: World, turns: seq<Turn>, w: World, since: nat, now: nat, chunks: seq<u32>)
    returns (turns': seq<Turn>, w': World)
    requires Sane(u, start) && Reached(u, ch, start, turns, w) && PassesOn(ch) && Elapses(since, Events(turns), now)
    requires Receiving(u, w.r) && AllOut(u.job, w.s, chunks)
    ensures Reached(u, ch, start, turns', w') && Elapses(since, Events(turns'), now)
    ensures Delivered(u, w, w', chunks)
  {
    BringingPasses(u, ch, w.s, chunks, now);
    var events := Bringing(u, chunks, now);
    BringingArrives(u, w.r, chunks, now);
    ReceiverGoes(u, ch, start, turns, w, events);
    ElapsesBringing(u, since, Events(turns), chunks, now);
    turns', w' := turns + TurnsOn(events), World(w.s, ReceiverMachine.Run(u.c, w.r, events));
  }

  lemma FullOnce(job: Job, s: Session)
    requires job.Valid() && s.Valid() && Fidelity.FromJob(job, s.init) && Below(job.Total()) <= s.got
    ensures s.Full()
  {}

  lemma DoneHeard(u: Setup, ch: Channel, start: World, turns: seq<Turn>, w: World, since: nat, now: nat)
    returns (turns': seq<Turn>, w': World)
    requires Sane(u, start) && Reached(u, ch, start, turns, w) && PassesOn(ch) && Elapses(since, Events(turns), now)
    requires Receiving(u, w.r) && w.r.session.value.Full()
    requires Outgoing(u.job.target, u.job.DoneDatagram()) in w.s.sent
    ensures Reached(u, ch, start, turns', w') && Elapses(since, Events(turns'), now)
    ensures w'.s == w.s && Reports(u, w.r, w'.r)
  {
    var e := At(now, u.from, u.job.DoneDatagram());
    DoneFinishes(u, w.r, e);
    turns', w' := HearNow(u, ch, start, turns, w, since, now, e);
  }

  // ---------- Completion within reach ----------

  // With the whole file on the wire and the session open, the rest of it is a
  // matter of the network passing things on.
  lemma Fill(u: Setup, ch: Channel, start: World, turns: seq<Turn>, w: World, since: nat, now: nat)
    returns (turns': seq<Turn>, w': World)
    requires Sane(u, start) && Reached(u, ch, start, turns, w) && PassesOn(ch) && Elapses(since, Events(turns), now)
    requires Receiving(u, w.r) && Owing(u.job, w.s) && w.s.stage.Feedback?
    ensures Reached(u, ch, start, turns', w') && Elapses(since, Events(turns'), now)
    ensures w'.s == w.s && Gained(u, w.r, w'.r) && w'.r.sent == w.r.sent && w'.r.session.value.Full()
  {
    turns', w' := DeliverAll(u, ch, start, turns, w, since, now, Everything(u.job.Total()));
    EverythingDistinct(u.job.Total());
    FullOnce(u.job, w'.r.session.value);
  }

  lemma Finish(u: Setup, ch: Channel, start: World, turns: seq<Turn>, w: World, since: nat, now: nat)
    returns (turns': seq<Turn>, w': World)
    requires Sane(u, start) && Reached(u, ch, start, turns, w) && PassesOn(ch) && Elapses(since, Events(turns), now)
    requires Receiving(u, w.r) && Owing(u.job, w.s) && w.s.stage.Feedback? && w.s.peer == u.job.target
    ensures Reached(u, ch, start, turns', w') && Elapses(since, Events(turns'), now)
    ensures w'.s.stage.Completed? && w'.s.peer == u.job.target
    ensures Saved(u, w'.r, w.r.session.value.init.path)
  {
    var ts, v := Fill(u, ch, start, turns, w, since, now);
    var ts1, v1 := DoneHeard(u, ch, start, ts, v, since, now);
    FinIsOut(u, ch, v.r, v1.r);
    ParsePacketOf(Fin, 0, []);
    turns', w' := FinHeard(u, ch, start, ts1, v1, Control(Fin, 0));
  }

  lemma FinIsOut(u: Setup, ch: Channel, r: Receiver, r': Receiver)
    requires Receiving(u, r) && Reports(u, r, r') && PassesOn(ch)
    ensures Carries(ch, r'.sent, u.from, Control(Fin, 0))
  {
    assert r'.sent[|r.sent|] == Outgoing(u.from, Control(Fin, 0));
    Unharmed(ch, r'.sent, u.from, Control(Fin, 0));
  }

  // The sender follows its target, has not given up, and has sends left for its
  // queue and a DONE.
  ghost predicate GoesOn(u: Setup, s: Sender) {
    s.peer == u.job.target &&
    (s.stage.Feedback? || ((s.stage.Blasting? || s.stage.Draining?) && s.budget > |s.pending|))
  }

  // From every reached world in which the sender goes on and the receiver has an
  // open session for it with only right chunks - however much was lost so far, and
  // however late it is - some continuation of the run completes with the source saved.
  lemma CompletionStaysPossible(
    u: Setup, ch: Channel, budget: nat, now: nat, files: Files, turns: seq<Turn>, w: World, later: nat)
    returns (more: seq<Turn>, w': World)
    requires u.Valid() && PassesOn(ch) && Reached(u, ch, Begin(u, budget, now, files), turns, w)
    requires Elapses(now, Events(turns), later) && GoesOn(u, w.s) && Receiving(u, w.r)
    ensures Reached(u, ch, Begin(u, budget, now, files), turns + more, w') && Reached(u, ch, w, more, w')
    ensures Elapses(now, Events(turns + more), later) && Elapses(later, Events(more), later)
    ensures w'.s.stage.Completed? && w'.s.peer == u.job.target
    ensures Saved(u, w'.r, w.r.session.value.init.path)
  {
    ReachedStanding(u, ch, budget, now, files, turns, w);
    var v;
    more, v := ToFeedback(u, ch, w, [], w);
    more, w' := Finish(u, ch, w, more, v, later, later);
    Continues(u, ch, budget, now, files, turns, w, more, w', later);
  }

  lemma ReachedStanding(u: Setup, ch: Channel, budget: nat, now: nat, files: Files, turns: seq<Turn>, w: World)
    requires u.Valid() && Reached(u, ch, Begin(u, budget, now, files), turns, w)
    ensures Standing(u.job, w.s)
  {
    PlayIsRuns(u, Begin(u, budget, now, files), turns);
    WalkStanding(u.job, SenderMachine.Start(u.job, budget), Moves(turns));
  }

  lemma Continues(
    u: Setup, ch: Channel, budget: nat, now: nat, files: Files, turns: seq<Turn>, w: World,
    more: seq<Turn>, w': World, later: nat)
    requires u.Valid() && Sane(u, w) && Reached(u, ch, Begin(u, budget, now, files), turns, w)
    requires Reached(u, ch, w, more, w')
    requires Elapses(now, Events(turns), later) && Elapses(later, Events(more), later)
    ensures Reached(u, ch, Begin(u, budget, now, files), turns + more, w') && Elapses(now, Events(turns + more), later)
  {
    ReachedFurther(u, ch, Begin(u, budget, now, files), turns, w, more, w');
    EventsAppend(turns, more);
    ElapsesFurther(now, Events(turns), later, Events(more), later);
  }

  // The same if the receiver has saved the file and lingers, its FIN lost, as long
  // as the window is open.
  lemma CompletionAfterSave(
    u: Setup, ch: Channel, budget: nat, now: nat, files: Files, turns: seq<Turn>, w: World, later: nat)
    returns (more: seq<Turn>, w': World)
    requires u.Valid() && PassesOn(ch) && Reached(u, ch, Begin(u, budget, now, files), turns, w)
    requires Elapses(now, Events(turns), later) && GoesOn(u, w.s)
    requires w.r.phase.Lingering? && w.r.sender == Some(u.from) && later < w.r.phase.deadline
    ensures Reached(u, ch, Begin(u, budget, now, files), turns + more, w') && Reached(u, ch, w, more, w')
    ensures Elapses(now, Events(turns + more), later) && Elapses(later, Events(more), later)
    ensures w'.s.stage.Completed? && w'.s.peer == u.job.target && w'.r.files == w.r.files
  {
    ReachedStanding(u, ch, budget, now, files, turns, w);
    var ts, v := ToFeedback(u, ch, w, [], w);
    AnotherFin(u, v.r, later);
    var ts1, v1 := HearNow(u, ch, w, ts, v, later, later, At(later, u.from, u.job.DoneDatagram()));
    Unharmed(ch, v1.r.sent, u.from, Control(Fin, 0));
    ParsePacketOf(Fin, 0, []);
    more, w' := FinHeard(u, ch, w, ts1, v1, Control(Fin, 0));
    Continues(u, ch, budget, now, files, turns, w, more, w', later);
  }

  lemma AnotherFin(u: Setup, r: Receiver, now: nat)
    requires u.Valid() && r.Valid() && r.phase.Lingering? && r.sender == Some(u.from) && now < r.phase.deadline
    ensures var r' := Step(u.c, r, At(now, u.from, u.job.DoneDatagram()));
            Outgoing(u.from, Control(Fin, 0)) in r'.sent && r'.files == r.files
  {
    var e := At(now, u.from, u.job.DoneDatagram());
    ParsePacketOf(Done, u.job.Total(), []);
    Lingering.LingersExactly(u.c, r, e);
    Lingering.DoneRenews(u.c, r, e);
    assert Step(u.c, r, e).sent[|r.sent|] == Outgoing(u.from, Control(Fin, 0));
  }

  // ---------- A round of recovery is always possible ----------

  ghost function AllChunks(u: Setup, now: nat): seq<Event>
    requires u.Valid()
  {
    Bringing(u, Everything(u.job.Total()), now)
  }

  lemma AllChunksBring(u: Setup, r: Receiver, now: nat)
    requires Receiving(u, r)
    ensures Survives(u, r, AllChunks(u, now))
  {
    BringingArrives(u, r, Everything(u.job.Total()), now);
  }

  lemma AllChunksGot(u: Setup, chunk: u32, now: nat)
    requires u.Valid() && chunk < u.job.Total()
    ensures Gets(u, AllChunks(u, now), u.job.DataDatagram(chunk))
  {
    assert AllChunks(u, now)[chunk] == At(now, u.from, u.job.DataDatagram(chunk));
  }

  ghost function Question(u: Setup, r: Receiver, now: nat): Event
    requires Receiving(u, r)
  {
    var n := |NackPackets(MissingBelow(r.session.value.got, u.job.Total()))|;
    Event(now, now, now, Arrives(u.from, u.job.DoneDatagram()), SMOOTH.(sends := n))
  }

  lemma SaysDone(job: Job, s: Sender)
    requires s.Valid(job) && s.stage.Blasting? && s.pending == [] && s.budget > 0
    ensures var s1 := Act(job, s);
            s1.stage == Feedback([]) && s1.pending == [] && s1.peer == s.peer && s1.pass == s.pass &&
            s1.budget == s.budget - 1
  {}

  lemma QuestionAnswered(u: Setup, r: Receiver, packets: seq<Bytes>, now: nat)
    requires Receiving(u, r) && !r.session.value.Full()
    requires packets == NackPackets(MissingBelow(r.session.value.got, u.job.Total()))
    ensures var r' := Step(u.c, r, Question(u, r, now));
            Receiving(u, r') && r.sent <= r'.sent &&
            forall d | Outgoing(u.from, d) in r'.sent[|r.sent|..] :: d in packets
  {
    DoneAsks(u, r, Question(u, r, now));
    NewlySent(r, Step(u.c, r, Question(u, r, now)), u.from, packets);
  }

  lemma AllHeard(peer: Addr, packets: seq<Bytes>)
    ensures HearsOnly(Hearing(peer, packets))
    ensures forall d | d in packets :: Some(Heard(peer, d)) in Hearing(peer, packets)
  {
    forall d | d in packets ensures Some(Heard(peer, d)) in Hearing(peer, packets) {
      var i :| 0 <= i < |packets| && packets[i] == d;
      assert Hearing(peer, packets)[i] == Some(Heard(peer, d));
    }
  }

  lemma QuestionAsked(u: Setup, s: Sender, r: Receiver, packets: seq<Bytes>, now: nat)
    requires Receiving(u, r) && Inv(u.job, s) && s.stage.Blasting? && s.pending == [] && s.budget > 0
    requires s.pass + 1 <= u.job.passes && !r.session.value.Full()
    requires packets == NackPackets(MissingBelow(r.session.value.got, u.job.Total()))
    ensures Asked(u, s, r, Question(u, r, now), Hearing(s.peer, packets))
    ensures Receiving(u, Step(u.c, r, Question(u, r, now)))
  {
    QuestionAnswered(u, r, packets, now);
    AllHeard(s.peer, packets);
    SaysDone(u.job, s);
    NackPacketsParse(MissingBelow(r.session.value.got, u.job.Total()));
    NacksKeepWaiting(u.job, Act(u.job, s), packets);
  }

  // The pass after the question can be sent to its end.
  lemma PassIsSending(u: Setup, s: Sender, r: Receiver, fb: seq<Move>, now: nat)
    requires Receiving(u, r) && Asked(u, s, r, Question(u, r, now), fb)
    requires Owing(u.job, s) && s.budget > u.job.Total() + 1
    ensures Inv(u.job, NextPass(u.job, s, fb)) && Sending(u.job, NextPass(u.job, s, fb))
  {
    var job, s1 := u.job, Act(u.job, s);
    SaysDone(job, s);
    ActOwing(job, s);
    FeedbackQueues(job, s1, fb);
    PassInv(job, s, fb);
    PendingFits(job, NextPass(job, s, fb));
    WalkStanding(job, s1, fb);
    NextStanding(job, Walk(job, s1, fb), Some(Quiet));
  }

  lemma EverythingResent(u: Setup, s: Sender, r: Receiver, now: nat) returns (moves: seq<Move>)
    requires Receiving(u, r) && Inv(u.job, s) && Sending(u.job, s)
    ensures Resent(u, r, s, moves, AllChunks(u, now))
  {
    moves := BlastOut(u.job, s);
    SenderPasses.WalkAdvances(u.job, s, moves);
    forall chunk: u32 | chunk < u.job.Total()
      ensures Gets(u, AllChunks(u, now), u.job.DataDatagram(chunk))
    {
      AllChunksGot(u, chunk, now);
    }
  }

  lemma RoundAtOnce(u: Setup, r: Receiver, now: nat)
    requires Receiving(u, r)
    ensures var events, last := AllChunks(u, now), At(now, u.from, u.job.DoneDatagram());
            Elapses(now, [Question(u, r, now)] + events + [last], now)
  {
    ElapsesFurther(now, [Question(u, r, now)], now, AllChunks(u, now), now);
    ElapsesFurther(now, [Question(u, r, now)] + AllChunks(u, now), now,
      [At(now, u.from, u.job.DoneDatagram())], now);
  }

  // Whenever chunks are missing and a pass and enough sends are left, there is a
  // round as `RoundRecovers` speaks of, at any time.
  lemma RoundIsPossible(u: Setup, s: Sender, r: Receiver, now: nat)
    returns (asked: Event, fb: seq<Move>, moves: seq<Move>, events: seq<Event>, last: Event)
    requires Receiving(u, r) && !r.session.value.Full()
    requires Inv(u.job, s) && Owing(u.job, s) && s.stage.Blasting? && s.pending == []
    requires s.pass + 1 <= u.job.passes && s.budget > u.job.Total() + 1
    ensures Asked(u, s, r, asked, fb) && Resent(u, r, NextPass(u.job, s, fb), moves, events)
    ensures Survives(u, Step(u.c, r, asked), events) && SmoothDone(u, last)
    ensures Elapses(now, [asked] + events + [last], now)
  {
    var packets := NackPackets(MissingBelow(r.session.value.got, u.job.Total()));
    asked, fb := Question(u, r, now), Hearing(s.peer, packets);
    events, last := AllChunks(u, now), At(now, u.from, u.job.DoneDatagram());
    QuestionAsked(u, s, r, packets, now);
    PassIsSending(u, s, r, fb, now);
    moves := EverythingResent(u, NextPass(u.job, s, fb), r, now);
    AllChunksBring(u, Step(u.c, r, asked), now);
    RoundAtOnce(u, r, now);
  }

  // ---------- A run without loss ----------

  lemma StartGreets(u: Setup, budget: nat, now: nat, files: Files)
    requires u.Valid() && u.job.attempts > 0 && budget > 0
    ensures var w := Begin(u, budget, now, files);
            w.s.stage.Greeting? && w.s.budget == budget - 1 && w.r == ReceiverMachine.Start(now, files) &&
            Outgoing(u.job.target, u.job.InitDatagram()) in w.s.sent
  {
    assert Begin(u, budget, now, files).s.sent == [] + [Outgoing(u.job.target, u.job.InitDatagram())];
  }

  // Every file that both ends accept has a loss-free run: one pass, one DONE,
  // and the sender is complete with the source at the receiver's path.
  lemma CleanRunCompletes(u: Setup, ch: Channel, budget: nat, now: nat, files: Files)
    returns (turns: seq<Turn>, w: World)
    requires u.Valid() && Understood(u) && u.job.attempts > 0 && budget >= u.job.Total() + 2 && PassesOn(ch)
    ensures Reached(u, ch, Begin(u, budget, now, files), turns, w)
    ensures Elapses(now, Events(turns), now)
    ensures w.s.stage.Completed? && w.s.peer == u.job.target && Saved(u, w.r, TheInit(u).path)
  {
    var start := Begin(u, budget, now, files);
    StartGreets(u, budget, now, files);
    turns, w := InitHeard(u, ch, start, now);
    Unharmed(ch, w.r.sent, u.from, Control(Ack, 0));
    turns, w := AckHeard(u, ch, start, turns, w, u.job.target);
    turns, w := ToFeedback(u, ch, start, turns, w);
    turns, w := Finish(u, ch, start, turns, w, now, now);
  }
}
