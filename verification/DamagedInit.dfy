/**
 Why the end-to-end claim speaks of the hash in the INIT that arrived: nothing
 protects an INIT's own payload. In the run below its size and hash fields are
 damaged, every header is intact, and the sender completes although an empty file
 was saved in place of a one-byte source.
 */
module DamagedInit {
  import opened Options
  import opened Wire
  import opened InitPacket
  import ChunkSets
  import Sessions
  import opened ReceiverMachine
  import opened SenderMachine
  import opened SenderQueue
  import opened Network
  import ReceiverSessions

  const SENDER: Addr := 2
  const RECEIVER: Addr := 1
  const FILE: Bytes := [7]
  const NAME: Bytes := [0x66]
  const SMOOTH: Env := Env(1, true, true, None, true, true, true)

  function TheJob(sha: Sha): (job: Job)
    ensures job.Valid() && job.Total() == 1
  {
    Job(sha, FILE, NAME, 1, V1, RECEIVER, 1, 1)
  }

  function TheSetup(sha: Sha): Setup {
    Setup(TheJob(sha), Config(sha, false, 0, 30000, 20, None), SENDER)
  }

  // Anything may happen to a payload, nothing to a header.
  function Damaging(): Channel {
    (o: Bytes, d: Bytes) => |o| >= HEADER_SIZE && |d| >= HEADER_SIZE && o[..HEADER_SIZE] == d[..HEADER_SIZE]
  }

  function Forged(sha: Sha): Bytes {
    Packet(Init, 0, InitPayload(V1, 0, 1, sha([]), NAME))
  }

  function Happens(input: Input): Event {
    Event(0, 0, 0, input, SMOOTH)
  }

  lemma NameIsPlain()
    ensures PlainName(NAME)
  {
    assert NAME[1..] == [];
    assert Utf8(NAME[1..]);
  }

  lemma SameLengthSameHeader(kind: PacketType, seqNo: u32, a: Bytes, b: Bytes)
    requires |a| == |b|
    ensures Damaging()(Packet(kind, seqNo, a), Packet(kind, seqNo, b))
  {
    assert Packet(kind, seqNo, a)[..HEADER_SIZE] == HeaderBytes(Header(kind, seqNo, CastU16(|a|)));
    assert Packet(kind, seqNo, b)[..HEADER_SIZE] == HeaderBytes(Header(kind, seqNo, CastU16(|b|)));
  }

  lemma ForgedParses(sha: Sha)
    ensures ParseInit(InitPayload(V1, 0, 1, sha([]), NAME), None) == Ok(InitInfo(V1, 0, 1, 0, sha([]), NAME))
    ensures Parse(Forged(sha)) == Some(Message(Init, 0, InitPayload(V1, 0, 1, sha([]), NAME)))
  {
    NameIsPlain();
    InitRoundTrip(V1, 0, 1, sha([]), NAME);
    InitFields(V1, 0, 1, sha([]), NAME);
    ParsePacketOf(Init, 0, InitPayload(V1, 0, 1, sha([]), NAME));
  }

  lemma ForgedPasses(sha: Sha)
    ensures Damaging()(TheJob(sha).InitDatagram(), Forged(sha))
  {
    InitFields(V1, 0, 1, sha([]), NAME);
    InitFields(V1, 1, 1, sha(FILE), NAME);
    SameLengthSameHeader(Init, 0, InitPayload(V1, 1, 1, sha(FILE), NAME), InitPayload(V1, 0, 1, sha([]), NAME));
  }

  // ---------- The receiver's two turns ----------

  function OpenInit(sha: Sha): InitInfo {
    InitInfo(V1, 0, 1, 0, sha([]), NAME)
  }

  lemma ReceiverOpens(sha: Sha)
    ensures var r := Step(TheSetup(sha).c, ReceiverMachine.Start(0, map[]), Happens(Arrives(SENDER, Forged(sha))));
            r.Valid() && r.phase.Active? &&
            r.session == Some(Sessions.Fresh(OpenInit(sha))) && r.sender == Some(SENDER) &&
            r.sent == [Outgoing(SENDER, Control(Ack, 0))] && r.log == [Opened(SENDER, OpenInit(sha))]
  {
    ForgedParses(sha);
    var payload := InitPayload(V1, 0, 1, sha([]), NAME);
    ReceiverSessions.InitOpens(TheSetup(sha).c, ReceiverMachine.Start(0, map[]), Happens(Arrives(SENDER, Forged(sha))),
              SENDER, Forged(sha), 0, payload, OpenInit(sha));
  }

  lemma ReceiverSavesNothing(sha: Sha, r: Receiver)
    requires r.Valid() && r.phase.Active?
    requires r.session == Some(Sessions.Fresh(OpenInit(sha))) && r.sender == Some(SENDER)
    ensures var r' := Step(TheSetup(sha).c, r, Happens(Arrives(SENDER, Control(Done, 1))));
            Committed(SENDER, OpenInit(sha), []) in r'.log && NAME in r'.files && r'.files[NAME] == [] &&
            Outgoing(SENDER, Control(Fin, 0)) in r'.sent
  {
    ParsePacketOf(Done, 1, []);
    var s := r.session.value;
    assert s.got == ChunkSets.Below(0);
    assert s.data == [];
    assert FinalizeError(sha, s, SMOOTH) == None;
    assert FirstOf([Control(Fin, 0)], 1) == [Control(Fin, 0)];
    assert Sends(SENDER, [Control(Fin, 0)])[0] == Outgoing(SENDER, Control(Fin, 0));
  }

  // ---------- The sender's turns ----------

  lemma SenderGreets(sha: Sha)
    ensures var job := TheJob(sha);
            SenderMachine.Start(job, 9)
              == Sender(Greeting(1), 0, [], 1, 0, 8, [Outgoing(RECEIVER, job.InitDatagram())], [])
  {}

  // The ACK queues chunk 0.
  lemma SenderHears(sha: Sha, s: Sender, s': Sender)
    requires s == SenderMachine.Start(TheJob(sha), 9)
    requires s' == Next(TheJob(sha), s, Some(Heard(RECEIVER, Control(Ack, 0))))
    ensures s'.stage == Blasting(0) && s'.peer == RECEIVER && s'.pending == [0] && s'.budget == 8
  {
    SenderGreets(sha);
    KindOfPacket(Ack, 0, []);
  }

  // One turn sends it, the next says DONE.
  lemma SenderBlasts(sha: Sha, s: Sender, s': Sender, s'': Sender)
    requires s.Valid(TheJob(sha)) && s'.Valid(TheJob(sha))
    requires s.stage == Blasting(0) && s.peer == RECEIVER && s.pending == [0] && s.budget == 8
    requires s' == Next(TheJob(sha), s, None) && s'' == Next(TheJob(sha), s', None)
    ensures s''.stage == Feedback([]) && s''.peer == RECEIVER && Outgoing(RECEIVER, Control(Done, 1)) in s''.sent
  {
    assert s'.stage == Blasting(1) && s'.pending == [] && s'.budget == 7;
    assert s''.sent == s'.sent + [Outgoing(RECEIVER, TheJob(sha).DoneDatagram())];
  }

  lemma SenderCompletes(sha: Sha, s: Sender)
    requires s.Valid(TheJob(sha)) && s.stage == Feedback([]) && s.peer == RECEIVER
    ensures var s' := Next(TheJob(sha), s, Some(Heard(RECEIVER, Control(Fin, 0))));
            s'.stage.Completed? && s'.peer == RECEIVER
  {
    ParsePacketOf(Fin, 0, []);
  }

  // ---------- The run ----------

  ghost function TheStart(sha: Sha): (w: World)
    ensures Sane(TheSetup(sha), w)
  {
    Begin(TheSetup(sha), 9, 0, map[])
  }

  ghost predicate Leads(sha: Sha, turns: seq<Turn>, w: World) {
    Reached(TheSetup(sha), Damaging(), TheStart(sha), turns, w) && Elapses(0, Events(turns), 0)
  }

  lemma Further(sha: Sha, turns: seq<Turn>, w: World, t: Turn)
    requires Leads(sha, turns, w) && Possible(TheSetup(sha), Damaging(), w, t)
    requires t.ReceiverTurn? ==> t.e == Happens(t.e.input)
    ensures Sane(TheSetup(sha), w) && Leads(sha, turns + [t], Take(TheSetup(sha), w, t))
  {
    Extend(TheSetup(sha), Damaging(), TheStart(sha), turns, w, t);
    SplitSnoc(turns, t);
  }

  lemma Alone(sha: Sha, turns: seq<Turn>, w: World)
    requires Leads(sha, turns, w)
    ensures w.s.Valid(TheJob(sha))
    ensures Leads(sha, turns + [SenderTurn(None)], w.(s := Next(TheJob(sha), w.s, None)))
  {
    Further(sha, turns, w, SenderTurn(None));
  }

  lemma DeliveredAsSent(ch: Channel, sent: seq<Outgoing>, o: Outgoing)
    requires ch == Damaging() && o in sent && |o.datagram| >= HEADER_SIZE
    ensures Carries(ch, sent, o.to, o.datagram)
  {
    assert ch(o.datagram, o.datagram);
  }

  ghost predicate SessionOpen(sha: Sha, r: Receiver) {
    r.Valid() && r.phase.Active? && r.session == Some(Sessions.Fresh(OpenInit(sha))) && r.sender == Some(SENDER)
  }

  lemma InitHeard(sha: Sha) returns (turns: seq<Turn>, w: World)
    ensures Leads(sha, turns, w) && SessionOpen(sha, w.r) && Outgoing(SENDER, Control(Ack, 0)) in w.r.sent
    ensures w.s == SenderMachine.Start(TheJob(sha), 9)
  {
    var start := TheStart(sha);
    var t := ReceiverTurn(Happens(Arrives(SENDER, Forged(sha))));
    SenderGreets(sha);
    ForgedPasses(sha);
    assert Carries(Damaging(), start.s.sent, RECEIVER, Forged(sha)) by {
      assert Outgoing(RECEIVER, TheJob(sha).InitDatagram()) in start.s.sent;
    }
    turns, w := [] + [t], Take(TheSetup(sha), start, t);
    Further(sha, [], start, t);
    ReceiverOpens(sha);
  }

  lemma AckHeard(sha: Sha) returns (turns: seq<Turn>, w: World)
    ensures Leads(sha, turns, w) && SessionOpen(sha, w.r)
    ensures w.s.stage == Blasting(0) && w.s.peer == RECEIVER && w.s.pending == [0] && w.s.budget == 8
  {
    turns, w := InitHeard(sha);
    var t := SenderTurn(Some(Heard(RECEIVER, Control(Ack, 0))));
    DeliveredAsSent(Damaging(), w.r.sent, Outgoing(SENDER, Control(Ack, 0)));
    Further(sha, turns, w, t);
    SenderHears(sha, w.s, Take(TheSetup(sha), w, t).s);
    turns, w := turns + [t], Take(TheSetup(sha), w, t);
  }

  lemma BlastDone(sha: Sha) returns (turns: seq<Turn>, w: World)
    ensures Leads(sha, turns, w) && SessionOpen(sha, w.r)
    ensures w.s.stage == Feedback([]) && w.s.peer == RECEIVER && Outgoing(RECEIVER, Control(Done, 1)) in w.s.sent
  {
    var ts, w0 := AckHeard(sha);
    Alone(sha, ts, w0);
    var w1 := w0.(s := Next(TheJob(sha), w0.s, None));
    Alone(sha, ts + [SenderTurn(None)], w1);
    var w2 := w1.(s := Next(TheJob(sha), w1.s, None));
    SenderBlasts(sha, w0.s, w1.s, w2.s);
    turns, w := ts + [SenderTurn(None)] + [SenderTurn(None)], w2;
  }

  lemma DoneHeard(sha: Sha) returns (turns: seq<Turn>, w: World)
    ensures Leads(sha, turns, w) && w.s.stage == Feedback([]) && w.s.peer == RECEIVER
    ensures NAME in w.r.files && w.r.files[NAME] == [] && Outgoing(SENDER, Control(Fin, 0)) in w.r.sent
  {
    turns, w := BlastDone(sha);
    var t := ReceiverTurn(Happens(Arrives(SENDER, Control(Done, 1))));
    DeliveredAsSent(Damaging(), w.s.sent, Outgoing(RECEIVER, Control(Done, 1)));
    Further(sha, turns, w, t);
    ReceiverSavesNothing(sha, w.r);
    turns, w := turns + [t], Take(TheSetup(sha), w, t);
  }

  // With headers intact but an INIT's payload damaged, the sender can complete
  // while the saved file is not the source.
  lemma DamagedInitDefeatsDelivery(sha: Sha) returns (turns: seq<Turn>, w: World)
    ensures TheSetup(sha).Valid() && HeadersIntact(Damaging())
    ensures Reached(TheSetup(sha), Damaging(), Begin(TheSetup(sha), 9, 0, map[]), turns, w)
    ensures Elapses(0, Events(turns), 0)
    ensures w.s.stage.Completed? && w.s.peer == TheJob(sha).target
    ensures NAME in w.r.files && w.r.files[NAME] != TheJob(sha).file
  {
    turns, w := DoneHeard(sha);
    var t := SenderTurn(Some(Heard(RECEIVER, Control(Fin, 0))));
    DeliveredAsSent(Damaging(), w.r.sent, Outgoing(SENDER, Control(Fin, 0)));
    Further(sha, turns, w, t);
    SenderCompletes(sha, w.s);
    turns, w := turns + [t], Take(TheSetup(sha), w, t);
  }
}
