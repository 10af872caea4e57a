/**
 How a transfer lives and ends at the receiver: what a step may do to an open
 session, to the other host's datagrams, and to the files on disk.
 */
module ReceiverSessions {
  import opened Options
  import opened Wire
  import Chunks
  import opened InitPacket
  import opened ChunkSets
  import opened Nacks
  import opened Sessions
  import opened ReceiverMachine
  import ReceiverSafety

  // ---------- Sessions ----------

  // A listening receiver answers an acceptable INIT with a fresh session and an ACK.
  lemma InitOpens(c: Config, r: Receiver, e: Event, from: Addr, d: Bytes, seqNo: u32, payload: Bytes, init: InitInfo)
    requires r.Valid() && r.phase.Active? && r.session.None? && e.input == Arrives(from, d)
    requires Parse(d) == Some(Message(Init, seqNo, payload)) && ParseInit(payload, c.out) == Ok(init)
    requires e.env.creates && e.env.sizes && e.env.sends > 0
    ensures var r' := Step(c, r, e);
            r'.phase.Active? && r'.session == Some(Fresh(init)) && r'.sender == Some(from) &&
            r'.sent == r.sent + [Outgoing(from, Control(Ack, 0))] && r'.log == r.log + [Opened(from, init)] &&
            r'.files == r.files[Fresh(init).tmp := Fresh(init).data]
  {
    assert Step(c, r, e) == Acknowledge(c, Open(r.(lastDataAt := e.at), from, init), from, e);
  }

  // Only the host that opened the transfer can affect it.
  lemma StrangersIgnored(c: Config, r: Receiver, e: Event)
    requires r.Valid() && r.sender.Some?
    requires e.input.Arrives? && e.input.from != r.sender.value
    requires r.phase.Lingering? ==> e.before < r.phase.deadline
    ensures Step(c, r, e) == r
  {}

  // While it stays open a session keeps its INIT and its peer and loses no
  // chunk: the missing set never grows.
  lemma StepKeepsChunks(c: Config, r: Receiver, e: Event)
    requires r.Valid() && r.session.Some? && Step(c, r, e).session.Some?
    ensures var s, s' := r.session.value, Step(c, r, e).session.value;
            s'.init == s.init && s.got <= s'.got && Step(c, r, e).sender == r.sender
  {
    StepSession(c, r, e);
  }

  ghost predicate StaysOpen(c: Config, r: Receiver, events: seq<Event>)
    requires r.Valid()
    decreases |events|
  {
    r.session.Some? && (events == [] || StaysOpen(c, Step(c, r, events[0]), events[1..]))
  }

  lemma {:induction false} MissingNeverGrows(c: Config, r: Receiver, events: seq<Event>)
    requires r.Valid() && StaysOpen(c, r, events)
    ensures var r' := Run(c, r, events);
            r'.session.Some? && r'.session.value.init == r.session.value.init && r'.sender == r.sender &&
            r.session.value.got <= r'.session.value.got
    decreases |events|
  {
    if events != [] {
      StepKeepsChunks(c, r, events[0]);
      MissingNeverGrows(c, Step(c, r, events[0]), events[1..]);
    }
  }

  // ---------- When a session ends ----------

  // DATA that would have to be written.
  ghost predicate NeedsWrite(c: Config, s: Session, chunk: u32, payload: Bytes)
    requires s.Valid()
  {
    var v := Chunks.VerifiedBody(c.sha, s.init.version, payload);
    v.Some? && s.Storable(chunk, v.value) && chunk !in s.got
  }

  ghost predicate MessageEnds(c: Config, s: Session, m: Message, env: Env)
    requires s.Valid()
  {
    match m
    case Message(Init, _, _) => env.sends == 0
    case Message(Data, chunk, payload) => NeedsWrite(c, s, chunk, payload) && env.writes.Some?
    case Message(Done, _, _) => s.Full() || env.sends < |NackPackets(MissingBelow(s.got, s.init.total))|
    case _ => false
  }

  // The socket breaks, the sender has been silent too long, a chunk cannot be
  // written, a datagram due cannot be sent, or a DONE finds everything there.
  ghost predicate Ends(c: Config, r: Receiver, e: Event)
    requires r.Valid() && r.session.Some?
  {
    var s := r.session.value;
    match e.input
    case Interrupted => false
    case Broken => true
    case TimedOut =>
      e.at >= r.lastDataAt + c.idleTimeout ||
      (NackDue(c, r, e.at) && e.env.sends < |NackPackets(MissingBelow(s.got, s.Edge()))|)
    case Arrives(from, d) =>
      r.sender == Some(from) && Parse(d).Some? && MessageEnds(c, s, Parse(d).value, e.env)
  }

  lemma NeedsWriteExactly(c: Config, s: Session, chunk: u32, payload: Bytes, now: nat)
    requires s.Valid()
    ensures Accept(c.sha, s, chunk, payload, now) != s <==> NeedsWrite(c, s, chunk, payload)
  {
    if NeedsWrite(c, s, chunk, payload) {
      assert chunk as nat in Accept(c.sha, s, chunk, payload, now).got;
    }
  }

  lemma RoundEndsExactly(c: Config, r: Receiver, upto: u32, byTimer: bool, at: nat, e: Event)
    requires r.Valid() && r.phase.Active? && r.session.Some?
    ensures NackRound(c, r, upto, byTimer, at, e).session.None?
      <==> e.env.sends < |NackPackets(MissingBelow(r.session.value.got, upto))|
  {}

  lemma MessageEndsExactly(c: Config, r: Receiver, from: Addr, m: Message, e: Event)
    requires r.Valid() && r.phase.Active? && r.session.Some?
    ensures OnMessage(c, r, from, m, e).session.None? <==> MessageEnds(c, r.session.value, m, e.env)
  {
    match m
    case Message(Data, chunk, payload) => NeedsWriteExactly(c, r.session.value, chunk, payload, e.done);
    case Message(Done, _, _) =>
      if !r.session.value.Full() {
        RoundEndsExactly(c, r, r.session.value.init.total, false, e.done, e);
      }
    case _ =>
  }

  // An open session ends exactly then.
  lemma EndsExactly(c: Config, r: Receiver, e: Event)
    requires r.Valid() && r.session.Some?
    ensures Step(c, r, e).session.None? <==> Ends(c, r, e)
  {
    if e.input.Arrives? && r.sender == Some(e.input.from) && Parse(e.input.datagram).Some? {
      MessageEndsExactly(c, r.(lastDataAt := e.at), e.input.from, Parse(e.input.datagram).value, e);
    } else if e.input.TimedOut? {
      RoundEndsExactly(c, r, r.session.value.Edge(), true, e.at, e);
    }
  }

  // A session ends in exactly one of two ways. Either a DONE from its sender
  // found it full, with the declared hash, and its file is now at the final
  // path; or nothing was saved, no FIN was sent, and only its temp file went.
  ghost predicate EndsSaved(c: Config, r: Receiver, r': Receiver)
    requires r.Valid() && r.session.Some?
  {
    var s := r.session.value;
    s.Full() && c.sha(s.data) == s.init.hash && r'.phase.Lingering? && r'.sender == r.sender &&
    r'.log == r.log + [Committed(r.sender.value, s.init, s.data)] &&
    r'.files == (r.files - {s.tmp})[s.init.path := s.data]
  }

  ghost predicate EndsEmptyHanded(c: Config, r: Receiver, r': Receiver)
    requires r.Valid() && r.session.Some?
  {
    !r'.phase.Lingering? && (c.serve ==> r'.phase.Active? || r'.phase == Exited(Some(SocketFailed))) &&
    (exists why :: r'.log == r.log + [Dropped(why)]) &&
    r.sent <= r'.sent && ReceiverSafety.NoFins(r'.sent[|r.sent|..]) &&
    r'.files == r.files - {r.session.value.tmp}
  }

  ghost predicate EndsOneWay(c: Config, r: Receiver, r': Receiver)
    requires r.Valid() && r.session.Some?
  {
    EndsSaved(c, r, r') != EndsEmptyHanded(c, r, r')
  }

  // A DONE from the locked host finds the session full and nothing in the way of
  // saving it.
  ghost predicate DoneSaves(c: Config, r: Receiver, e: Event)
    requires r.Valid() && r.session.Some?
  {
    e.input.Arrives? && r.sender == Some(e.input.from) && Parse(e.input.datagram).Some? &&
    Parse(e.input.datagram).value.kind == Done &&
    r.session.value.Full() && e.env.syncs && e.env.rereads && e.env.renames &&
    c.sha(r.session.value.data) == r.session.value.init.hash
  }

  lemma MessageSaves(c: Config, r: Receiver, from: Addr, m: Message, e: Event)
    requires r.Valid() && r.phase.Active? && r.session.Some?
    ensures OnMessage(c, r, from, m, e).phase.Lingering?
      <==> m.kind == Done && r.session.value.Full() && FinalizeError(c.sha, r.session.value, e.env) == None
    ensures OnMessage(c, r, from, m, e).phase.Lingering? ==>
      OnMessage(c, r, from, m, e).phase == Lingering(e.done + c.lingerTimeout)
  {}

  // Exactly then a session ends in a save.
  lemma SavesExactly(c: Config, r: Receiver, e: Event)
    requires r.Valid() && r.session.Some?
    ensures Step(c, r, e).phase.Lingering? <==> DoneSaves(c, r, e)
    ensures DoneSaves(c, r, e) ==> Step(c, r, e).phase == Lingering(e.done + c.lingerTimeout)
  {
    if e.input.Arrives? && r.sender == Some(e.input.from) && Parse(e.input.datagram).Some? {
      MessageSaves(c, r.(lastDataAt := e.at), e.input.from, Parse(e.input.datagram).value, e);
    }
  }

  lemma SessionEnds(c: Config, r: Receiver, e: Event)
    requires r.Valid() && r.session.Some? && Step(c, r, e).session.None?
    ensures EndsOneWay(c, r, Step(c, r, e))
  {
    match e.input
    case Interrupted =>
    case Broken => assert Step(c, r, e).log == r.log + [Dropped(SocketFailed)];
    case TimedOut => TickEnds(c, r, e);
    case Arrives(from, datagram) => DatagramEnds(c, r, from, datagram, e);
  }

  lemma AbandonEnds(c: Config, r: Receiver, sent: seq<Outgoing>, why: Failure)
    requires r.Valid() && r.phase.Active? && r.session.Some?
    requires r.sent <= sent && ReceiverSafety.NoFins(sent[|r.sent|..])
    ensures EndsOneWay(c, r, Abandon(c, r.(sent := sent), why))
  {
    assert Abandon(c, r.(sent := sent), why).log == r.log + [Dropped(why)];
  }

  lemma NackRoundEnds(c: Config, r: Receiver, upto: u32, byTimer: bool, at: nat, e: Event)
    requires r.Valid() && r.phase.Active? && r.session.Some?
    ensures var r' := NackRound(c, r, upto, byTimer, at, e);
            r'.session == r.session || EndsOneWay(c, r, r')
  {
    var packets := NackPackets(MissingBelow(r.session.value.got, upto));
    NackPacketsAreNacks(MissingBelow(r.session.value.got, upto));
    ReceiverSafety.SentKind(r.sender.value, packets, e.env.sends, Nack);
    AbandonEnds(c, r, r.sent + Sends(r.sender.value, FirstOf(packets, e.env.sends)), SendFailed);
  }

  lemma TickEnds(c: Config, r: Receiver, e: Event)
    requires r.Valid() && r.phase.Active? && r.session.Some?
    ensures OnTick(c, r, e).session == r.session || EndsOneWay(c, r, OnTick(c, r, e))
  {
    AbandonEnds(c, r, r.sent, IdleTimeout);
    NackRoundEnds(c, r, r.session.value.Edge(), true, e.at, e);
  }

  lemma DoneEnds(c: Config, r: Receiver, e: Event)
    requires r.Valid() && r.phase.Active? && r.session.Some?
    ensures OnDone(c, r, e).session == r.session || EndsOneWay(c, r, OnDone(c, r, e))
  {
    var s := r.session.value;
    if !s.Full() {
      NackRoundEnds(c, r, s.init.total, false, e.done, e);
    } else if FinalizeError(c.sha, s, e.env).Some? {
      AbandonEnds(c, r, r.sent, FinalizeError(c.sha, s, e.env).value);
    }
  }

  lemma InitEnds(c: Config, r: Receiver, from: Addr, payload: Bytes, e: Event)
    requires r.Valid() && r.phase.Active? && r.session.Some?
    ensures OnInit(c, r, from, payload, e).session.Some? || EndsOneWay(c, r, OnInit(c, r, from, payload, e))
  {
    AbandonEnds(c, r, r.sent, SendFailed);
  }

  lemma DataEnds(c: Config, r: Receiver, chunk: u32, payload: Bytes, e: Event)
    requires r.Valid() && r.phase.Active? && r.session.Some?
    ensures OnData(c, r, chunk, payload, e).session.Some? || EndsOneWay(c, r, OnData(c, r, chunk, payload, e))
  {
    AbandonEnds(c, r, r.sent, WriteFailed);
  }

  lemma MessageEndsOneWay(c: Config, r: Receiver, from: Addr, m: Message, e: Event)
    requires r.Valid() && r.phase.Active? && r.session.Some?
    ensures OnMessage(c, r, from, m, e).session.Some? || EndsOneWay(c, r, OnMessage(c, r, from, m, e))
  {
    match m
    case Message(Init, _, payload) => InitEnds(c, r, from, payload, e);
    case Message(Data, chunk, payload) => DataEnds(c, r, chunk, payload, e);
    case Message(Done, _, _) => DoneEnds(c, r, e);
    case _ =>
  }

  // When the last datagram came makes no difference to how a session ends.
  lemma EndsIgnoreClock(c: Config, r: Receiver, at: nat, r': Receiver)
    requires r.Valid() && r.session.Some?
    ensures EndsOneWay(c, r.(lastDataAt := at), r') == EndsOneWay(c, r, r')
  {}

  lemma DatagramEnds(c: Config, r: Receiver, from: Addr, datagram: Bytes, e: Event)
    requires r.Valid() && r.phase.Active? && r.session.Some?
    ensures var r' := OnDatagram(c, r, from, datagram, e);
            r'.session.Some? || EndsOneWay(c, r, r')
  {
    if Parse(datagram).Some? && r.sender == Some(from) {
      MessageEndsOneWay(c, r.(lastDataAt := e.at), from, Parse(datagram).value, e);
      EndsIgnoreClock(c, r, e.at, OnDatagram(c, r, from, datagram, e));
    }
  }
}
