/**
 What the receiver answers and how it goes on: to an INIT, listening or not, and when
 a session or the linger after it is over.
 */
module ReceiverAnswers {
  import opened Options
  import opened Wire
  import opened InitPacket
  import opened Sessions
  import opened ReceiverMachine
  import opened ReceiverSessions
  import opened ReceiverFiles
  import Lingering

  ghost predicate Says(e: Event, kind: PacketType) {
    e.input.Arrives? && Parse(e.input.datagram).Some? && Parse(e.input.datagram).value.kind == kind
  }

  // ---------- INITs ----------

  // In an open session every INIT of its host, whatever its payload, is answered by
  // another ACK: the first may have been lost.
  lemma RepeatedInitAcked(c: Config, r: Receiver, e: Event)
    requires r.Valid() && r.session.Some? && Says(e, Init) && r.sender == Some(e.input.from) && e.env.sends > 0
    ensures Step(c, r, e) == r.(lastDataAt := e.at, sent := r.sent + [Outgoing(e.input.from, Control(Ack, 0))])
  {}

  // The receiver is listening when the event is handled.
  ghost predicate Listens(c: Config, r: Receiver, e: Event)
    requires r.Valid()
  {
    Woken(c, r, e).phase.Active? && Woken(c, r, e).session.None?
  }

  ghost predicate Acceptable(c: Config, e: Event) {
    Says(e, Init) && ParseInit(Parse(e.input.datagram).value.payload, c.out).Ok?
  }

  // It opens a session exactly on an acceptable INIT whose temp file can be created
  // and sized and whose ACK can be sent. Nothing else it hears while listening makes
  // it say or log anything, or stop.
  ghost predicate ListensRight(c: Config, r: Receiver, e: Event, r': Receiver)
    requires r.Valid()
  {
    var starts := Acceptable(c, e) && e.env.creates && e.env.sizes;
    (r'.session.Some? <==> starts && e.env.sends > 0) &&
    r'.phase == (if e.input.Broken? then Exited(Some(SocketFailed))
                 else if starts && e.env.sends == 0 && !c.serve then Exited(Some(SendFailed)) else Active) &&
    (r'.session.Some? ==> OpenedFor(c, r, e, r')) &&
    (r'.session.None? ==> r'.sender == None && r'.sent == r.sent) &&
    (!starts && !e.input.Broken? ==> r'.log == r.log) &&
    (!(Acceptable(c, e) && e.env.creates) ==> r'.files == r.files)
  }

  ghost predicate OpenedFor(c: Config, r: Receiver, e: Event, r': Receiver)
    requires Acceptable(c, e)
  {
    var init := ParseInit(Parse(e.input.datagram).value.payload, c.out).value;
    r'.session == Some(Fresh(init)) && r'.sender == Some(e.input.from) && r'.lastNackAt == None &&
    r'.log == r.log + [Opened(e.input.from, init)] &&
    r'.sent == r.sent + [Outgoing(e.input.from, Control(Ack, 0))]
  }

  lemma ReceiveListens(c: Config, r: Receiver, e: Event)
    requires r.Valid() && r.phase.Active? && r.session.None?
    ensures ListensRight(c, r, e, Receive(c, r, e))
  {
    if Says(e, Init) {
      InitListens(c, r, e);
    }
  }

  lemma InitListens(c: Config, r: Receiver, e: Event)
    requires r.Valid() && r.phase.Active? && r.session.None? && Says(e, Init)
    ensures ListensRight(c, r, e, Receive(c, r, e))
  {
    var payload := Parse(e.input.datagram).value.payload;
    assert Receive(c, r, e) == OnInit(c, r.(lastDataAt := e.at), e.input.from, payload, e);
  }

  lemma ListeningExactly(c: Config, r: Receiver, e: Event)
    requires r.Valid() && Listens(c, r, e)
    ensures ListensRight(c, r, e, Step(c, r, e))
  {
    ReceiveListens(c, Woken(c, r, e), e);
    assert Step(c, r, e) == Receive(c, Woken(c, r, e), e);
  }

  // ---------- After a session ----------

  // Why a session that ends unsaved has failed.
  ghost function Reason(c: Config, r: Receiver, e: Event): Failure
    requires r.Valid() && r.session.Some?
  {
    var s := r.session.value;
    if e.input.Broken? then SocketFailed
    else if e.input.TimedOut? && e.at >= r.lastDataAt + c.idleTimeout then IdleTimeout
    else if Says(e, Data) then WriteFailed
    else if !(Says(e, Done) && s.Full()) then SendFailed
    else if !e.env.syncs then SyncFailed
    else if !e.env.rereads then ReadFailed
    else if c.sha(s.data) != s.init.hash then HashMismatch
    else RenameFailed
  }

  // A serving receiver goes on listening whatever went wrong, unless it was the
  // socket; a one-shot receiver returns the reason.
  ghost predicate Failed(c: Config, r: Receiver, r': Receiver, why: Failure) {
    r'.session.None? && r'.sender == None && r'.log == r.log + [Dropped(why)] &&
    r'.phase == if c.serve && why != SocketFailed then Active else Exited(Some(why))
  }

  lemma RoundFails(c: Config, r: Receiver, upto: u32, byTimer: bool, at: nat, e: Event)
    requires r.Valid() && r.phase.Active? && r.session.Some?
    ensures var r' := NackRound(c, r, upto, byTimer, at, e);
            r'.session.None? ==> Failed(c, r, r', SendFailed)
  {}

  lemma MessageFails(c: Config, r: Receiver, m: Message, e: Event)
    requires r.Valid() && r.phase.Active? && r.session.Some?
    requires e.input.Arrives? && Parse(e.input.datagram) == Some(m)
    ensures var r' := OnMessage(c, r, e.input.from, m, e);
            r'.session.None? ==> r'.phase.Lingering? || Failed(c, r, r', Reason(c, r, e))
  {
    match m
    case Message(Done, _, _) =>
      if !r.session.value.Full() {
        RoundFails(c, r, r.session.value.init.total, false, e.done, e);
      }
    case _ =>
  }

  // An open session that ends is saved, or the receiver fails with that reason.
  lemma EndsFor(c: Config, r: Receiver, e: Event)
    requires r.Valid() && r.session.Some? && Ends(c, r, e)
    ensures if DoneSaves(c, r, e) then Step(c, r, e).phase.Lingering? else Failed(c, r, Step(c, r, e), Reason(c, r, e))
  {
    EndsExactly(c, r, e);
    SavesExactly(c, r, e);
    match e.input
    case Arrives(from, d) => MessageFails(c, r.(lastDataAt := e.at), Parse(d).value, e);
    case TimedOut => RoundFails(c, r, r.session.value.Edge(), true, e.at, e);
    case _ =>
  }

  // ---------- After the linger ----------

  // When the linger is over a serving receiver listens again, and a one-shot receiver
  // returns: the transfer succeeded. An event past the window is heard by the
  // listening receiver.
  lemma LingerOver(c: Config, r: Receiver, e: Event)
    requires r.Valid() && r.phase.Lingering? && Lingering.Closes(r, e)
    ensures c.serve && e.before >= r.phase.deadline ==> Listens(c, r, e)
    ensures !(c.serve && e.before >= r.phase.deadline) ==>
      Step(c, r, e) == r.(phase := if c.serve then Active else Exited(None), sender := None, lastNackAt := None)
  {}
}
