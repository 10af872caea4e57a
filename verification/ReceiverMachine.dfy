/**
 `receive_loop` and `linger` of src/lib/recv.rs as a state machine. One step
 handles one event: a datagram, a read timeout, an interrupted read or a broken
 socket. What the operating system does with the calls made while handling the
 event is part of the event.
 */
module ReceiverMachine {
  import opened Options
  import opened Wire
  import opened InitPacket
  import Paths
  import ChunkSets
  import Nacks
  import opened Sessions

  // Times are in milliseconds.
  datatype Config = Config(
    sha: Sha, serve: bool, lingerTimeout: nat, idleTimeout: nat, nackHoldoff: nat, out: Option<Path>)

  // The outcome of every call that can fail: the first `sends` sends succeed,
  // and a failing write may still have stored `writes.value` bytes.
  datatype Env = Env(
    sends: nat, creates: bool, sizes: bool, writes: Option<nat>, syncs: bool, rereads: bool, renames: bool)

  datatype Input = Arrives(from: Addr, datagram: Bytes) | TimedOut | Interrupted | Broken

  // Clock readings before the blocking read, on its return, and at the end of
  // the handling.
  datatype Event = Event(before: nat, at: nat, done: nat, input: Input, env: Env)

  ghost predicate ClockRuns(events: seq<Event>) {
    (forall i | 0 <= i < |events| :: events[i].before <= events[i].at <= events[i].done) &&
    (forall i, j | 0 <= i < j < |events| :: events[i].done <= events[j].before)
  }

  // The clock runs over these events, none before `now` and none after `later`.
  ghost predicate Elapses(now: nat, events: seq<Event>, later: nat) {
    now <= later && ClockRuns(events) &&
    forall i | 0 <= i < |events| :: now <= events[i].before && events[i].done <= later
  }

  lemma ElapsesFurther(now: nat, a: seq<Event>, mid: nat, b: seq<Event>, later: nat)
    requires Elapses(now, a, mid) && Elapses(mid, b, later)
    ensures Elapses(now, a + b, later)
  {}

  datatype Failure =
    | IdleTimeout | SendFailed | WriteFailed | SyncFailed | ReadFailed | HashMismatch | RenameFailed | SocketFailed

  type Files = map<Path, Bytes>

  datatype Phase = Active | Lingering(deadline: nat) | Exited(why: Option<Failure>)

  // What happened to the transfers, in order.
  datatype Action =
    | Opened(peer: Addr, init: InitInfo)
    | Nacked(at: nat, byTimer: bool, missing: seq<u32>)
    | Committed(peer: Addr, init: InitInfo, file: Bytes)
    | Dropped(why: Failure)

  datatype Receiver = Receiver(
    phase: Phase, session: Option<Session>, sender: Option<Addr>,
    lastDataAt: nat, lastNackAt: Option<nat>, files: Files, sent: seq<Outgoing>, log: seq<Action>)
  {
    // At every head of the loop: a session is open exactly while a sender is
    // locked in, and an open session's file is its `.tmp` on disk.
    ghost predicate Valid() {
      (phase.Active? ==> (session.Some? <==> sender.Some?)) &&
      (phase.Lingering? ==> session == None && sender.Some?) &&
      (phase.Exited? ==> session == None && sender == None) &&
      (session.Some? ==>
        session.value.Valid() &&
        session.value.tmp in files &&
        files[session.value.tmp] == session.value.data)
    }
  }

  function Start(now: nat, files: Files): Receiver {
    Receiver(Active, None, None, now, None, files, [], [])
  }

  // ---------- Pieces of a step ----------

  function Sends(to: Addr, packets: seq<Bytes>): seq<Outgoing> {
    seq(|packets|, i requires 0 <= i < |packets| => Outgoing(to, packets[i]))
  }

  function FirstOf(packets: seq<Bytes>, n: nat): seq<Bytes> {
    if n < |packets| then packets[..n] else packets
  }

  // Dropping a ReceiveState removes its temp file.
  ghost function Drop(r: Receiver): Receiver {
    match r.session
    case None => r.(sender := None, lastNackAt := None)
    case Some(s) => r.(session := None, sender := None, lastNackAt := None, files := r.files - {s.tmp})
  }

  ghost function Abandon(c: Config, r: Receiver, why: Failure): (r': Receiver)
    requires !r.phase.Exited?
    ensures r'.Valid()
  {
    Drop(r).(phase := if c.serve then Active else Exited(Some(why)), log := r.log + [Dropped(why)])
  }

  ghost function Acknowledge(c: Config, r: Receiver, from: Addr, e: Event): (r': Receiver)
    requires r.Valid() && r.phase.Active?
    ensures r'.Valid()
  {
    if e.env.sends == 0 then Abandon(c, r, SendFailed)
    else r.(sent := r.sent + [Outgoing(from, Control(Ack, 0))])
  }

  ghost function OnInit(c: Config, r: Receiver, from: Addr, payload: Bytes, e: Event): (r': Receiver)
    requires r.Valid() && r.phase.Active?
    ensures r'.Valid()
  {
    if r.session.Some? then Acknowledge(c, r, from, e)
    else match ParseInit(payload, c.out)
      case Err(_) => r
      case Ok(init) =>
        if !e.env.creates then r
        else if !e.env.sizes then r.(files := r.files[Paths.TmpPath(init.path) := []])
        else Acknowledge(c, Open(r, from, init), from, e)
  }

  ghost function Open(r: Receiver, from: Addr, init: InitInfo): (r': Receiver)
    requires r.phase.Active? && init.Valid()
    ensures r'.Valid()
  {
    var s := Fresh(init);
    r.(session := Some(s), sender := Some(from), lastNackAt := None,
       files := r.files[s.tmp := s.data], log := r.log + [Opened(from, init)])
  }

  ghost function OnData(c: Config, r: Receiver, chunk: u32, payload: Bytes, e: Event): (r': Receiver)
    requires r.Valid() && r.phase.Active?
    ensures r'.Valid()
  {
    match r.session
    case None => r
    case Some(s) =>
      var s' := Accept(c.sha, s, chunk, payload, e.done);
      if s' == s then r
      else if e.env.writes.Some? then Abandon(c, r, WriteFailed)
      else r.(session := Some(s'), files := r.files[s.tmp := s'.data])
  }

  function FinalizeError(sha: Sha, s: Session, env: Env): Option<Failure> {
    if !env.syncs then Some(SyncFailed)
    else if !env.rereads then Some(ReadFailed)
    else if sha(s.data) != s.init.hash then Some(HashMismatch)
    else if !env.renames then Some(RenameFailed)
    else None
  }

  ghost function Commit(c: Config, r: Receiver, e: Event): (r': Receiver)
    requires r.Valid() && r.phase.Active? && r.session.Some?
    ensures r'.Valid()
  {
    var s, peer := r.session.value, r.sender.value;
    r.(phase := Lingering(e.done + c.lingerTimeout), session := None,
       files := (r.files - {s.tmp})[s.init.path := s.data],
       log := r.log + [Committed(peer, s.init, s.data)],
       sent := r.sent + Sends(peer, FirstOf([Control(Fin, 0)], e.env.sends)))
  }

  // A NACK round up to chunk `upto`. The round is recorded once all of its
  // datagrams are out; a failing send abandons the transfer part way.
  ghost function NackRound(c: Config, r: Receiver, upto: u32, byTimer: bool, at: nat, e: Event): (r': Receiver)
    requires r.Valid() && r.phase.Active? && r.session.Some?
    ensures r'.Valid()
  {
    var missing := ChunkSets.MissingBelow(r.session.value.got, upto);
    SendRound(c, r, Nacks.NackPackets(missing), e.env.sends, byTimer, at, missing)
  }

  ghost function SendRound(
    c: Config, r: Receiver, packets: seq<Bytes>, sends: nat, byTimer: bool, at: nat, missing: seq<u32>): (r': Receiver)
    requires r.Valid() && r.phase.Active? && r.session.Some?
    ensures r'.Valid()
  {
    var r1 := r.(sent := r.sent + Sends(r.sender.value, FirstOf(packets, sends)));
    if sends < |packets| then Abandon(c, r1, SendFailed)
    else r1.(lastNackAt := Some(at), log := r1.log + [Nacked(at, byTimer, missing)])
  }

  ghost function OnDone(c: Config, r: Receiver, e: Event): (r': Receiver)
    requires r.Valid() && r.phase.Active?
    ensures r'.Valid()
  {
    match r.session
    case None => r
    case Some(s) =>
      if !s.Full() then NackRound(c, r, s.init.total, false, e.done, e)
      else match FinalizeError(c.sha, s, e.env)
        case Some(why) => Abandon(c, r, why)
        case None => Commit(c, r, e)
  }

  ghost predicate NackDue(c: Config, r: Receiver, now: nat) {
    r.session.Some? &&
    var deadline := NackDeadline(r.session.value.gapSince, c.nackHoldoff, r.lastNackAt);
    deadline.Some? && now >= deadline.value
  }

  ghost function OnTick(c: Config, r: Receiver, e: Event): (r': Receiver)
    requires r.Valid() && r.phase.Active?
    ensures r'.Valid()
  {
    match r.session
    case None => r
    case Some(s) =>
      if e.at >= r.lastDataAt + c.idleTimeout then Abandon(c, r, IdleTimeout)
      else if NackDue(c, r, e.at) then NackRound(c, r, s.Edge(), true, e.at, e)
      else r
  }

  ghost function OnMessage(c: Config, r: Receiver, from: Addr, m: Message, e: Event): (r': Receiver)
    requires r.Valid() && r.phase.Active?
    ensures r'.Valid()
  {
    match m
    case Message(Init, _, payload) => OnInit(c, r, from, payload, e)
    case Message(Data, chunk, payload) => OnData(c, r, chunk, payload, e)
    case Message(Done, _, _) => OnDone(c, r, e)
    case _ => r
  }

  ghost function OnDatagram(c: Config, r: Receiver, from: Addr, datagram: Bytes, e: Event): (r': Receiver)
    requires r.Valid() && r.phase.Active?
    ensures r'.Valid()
  {
    if r.sender.Some? && from != r.sender.value then r
    else
      var r1 := r.(lastDataAt := e.at);
      match Parse(datagram)
      case Some(m) => OnMessage(c, r1, from, m, e)
      case None => r1
  }

  ghost function Receive(c: Config, r: Receiver, e: Event): (r': Receiver)
    requires r.Valid() && r.phase.Active?
    ensures r'.Valid()
  {
    match e.input
    case Arrives(from, datagram) => OnDatagram(c, r, from, datagram, e)
    case TimedOut => OnTick(c, r, e)
    case Interrupted => r
    case Broken => Drop(r).(phase := Exited(Some(SocketFailed)), log := r.log + [Dropped(SocketFailed)])
  }

  ghost function EndLinger(c: Config, r: Receiver): (r': Receiver)
    requires r.Valid() && r.phase.Lingering?
    ensures r'.Valid() && !r'.phase.Lingering?
  {
    r.(phase := if c.serve then Active else Exited(None), sender := None, lastNackAt := None)
  }

  ghost function Linger(c: Config, r: Receiver, e: Event): (r': Receiver)
    requires r.Valid() && r.phase.Lingering?
    ensures r'.Valid()
  {
    match e.input
    case Interrupted => r
    case TimedOut => EndLinger(c, r)
    case Broken => EndLinger(c, r)
    case Arrives(from, datagram) =>
      if from != r.sender.value then r
      else match Parse(datagram)
        case Some(Message(FinAck, _, _)) => EndLinger(c, r)
        case Some(Message(Done, _, _)) =>
          r.(phase := Lingering(e.done + c.lingerTimeout),
             sent := r.sent + Sends(from, FirstOf([Control(Fin, 0)], e.env.sends)))
        case _ => r
  }

  // ---------- Steps and runs ----------

  // The linger loop looks at the clock before it reads: once the window is
  // over the event already belongs to the listening receiver.
  ghost function Step(c: Config, r: Receiver, e: Event): (r': Receiver)
    requires r.Valid()
    ensures r'.Valid()
  {
    if r.phase.Exited? then r
    else if r.phase.Active? then Receive(c, r, e)
    else if e.before < r.phase.deadline then Linger(c, r, e)
    else
      var r1 := EndLinger(c, r);
      if r1.phase.Exited? then r1 else Receive(c, r1, e)
  }

  ghost function Run(c: Config, r: Receiver, events: seq<Event>): (r': Receiver)
    requires r.Valid()
    ensures r'.Valid()
    decreases |events|
  {
    if events == [] then r else Run(c, Step(c, r, events[0]), events[1..])
  }

  // ---------- States along a run ----------

  ghost function StateAt(c: Config, r: Receiver, events: seq<Event>, n: nat): (r': Receiver)
    requires r.Valid() && n <= |events|
    ensures r'.Valid()
  {
    Run(c, r, events[..n])
  }

  lemma {:induction false} RunSnoc(c: Config, r: Receiver, events: seq<Event>, e: Event)
    requires r.Valid()
    ensures Run(c, r, events + [e]) == Step(c, Run(c, r, events), e)
    decreases |events|
  {
    if events == [] {
      assert Run(c, Step(c, r, e), []) == Step(c, r, e);
      assert (events + [e])[0] == e && (events + [e])[1..] == [];
    } else {
      assert (events + [e])[1..] == events[1..] + [e];
      RunSnoc(c, Step(c, r, events[0]), events[1..], e);
    }
  }

  lemma StateAtNext(c: Config, r: Receiver, events: seq<Event>, n: nat)
    requires r.Valid() && n < |events|
    ensures StateAt(c, r, events, n + 1) == Step(c, StateAt(c, r, events, n), events[n])
  {
    assert events[..n + 1] == events[..n] + [events[n]];
    RunSnoc(c, r, events[..n], events[n]);
  }

  // ---------- What a step makes of the session ----------

  // The session after `e` when `e` delivers DATA.
  ghost predicate Stores(c: Config, r: Receiver, e: Event, s': Session)
    requires r.Valid() && r.session.Some?
  {
    e.input.Arrives? && r.sender == Some(e.input.from) && Parse(e.input.datagram).Some? &&
    var m := Parse(e.input.datagram).value;
    m.kind == Data && s' == Accept(c.sha, r.session.value, m.seqNo, m.payload, e.done)
  }

  // A session is opened by an acceptable INIT, for the host it came from.
  ghost predicate Opens(c: Config, e: Event, init: InitInfo, sender: Option<Addr>) {
    e.input.Arrives? && sender == Some(e.input.from) && Parse(e.input.datagram).Some? &&
    var m := Parse(e.input.datagram).value;
    m.kind == Init && ParseInit(m.payload, c.out) == Ok(init)
  }

  // Nothing but DATA changes an open session, whose files come and go only with
  // it; a new one starts empty.
  ghost predicate SessionStep(c: Config, r: Receiver, e: Event, r': Receiver)
    requires r.Valid()
  {
    match r'.session
    case None => true
    case Some(s') =>
      if r.session.None? then s'.init.Valid() && s' == Fresh(s'.init) && Opens(c, e, s'.init, r'.sender)
      else
        (s' == r.session.value || Stores(c, r, e, s')) &&
        r'.sender == r.sender && r'.files.Keys == r.files.Keys
  }

  lemma DatagramSession(c: Config, r: Receiver, from: Addr, datagram: Bytes, e: Event)
    requires r.Valid() && r.phase.Active? && e.input == Arrives(from, datagram)
    ensures SessionStep(c, r, e, OnDatagram(c, r, from, datagram, e))
  {
    if r.sender.Some? && from != r.sender.value {
      return;
    }
    var r1 := r.(lastDataAt := e.at);
    match Parse(datagram)
    case Some(Message(Init, _, payload)) =>
      InitSession(c, r1, from, payload, e);
    case Some(Message(Data, chunk, payload)) =>
      DataSession(c, r1, chunk, payload, e);
    case Some(Message(Done, _, _)) =>
      DoneSession(c, r1, e);
    case _ =>
  }

  lemma InitSession(c: Config, r: Receiver, from: Addr, payload: Bytes, e: Event)
    requires r.Valid() && r.phase.Active?
    requires e.input.Arrives? && e.input.from == from
    requires Parse(e.input.datagram).Some? && Parse(e.input.datagram).value.kind == Init
    requires Parse(e.input.datagram).value.payload == payload
    ensures SessionStep(c, r, e, OnInit(c, r, from, payload, e))
  {}

  lemma DataSession(c: Config, r: Receiver, chunk: u32, payload: Bytes, e: Event)
    requires r.Valid() && r.phase.Active?
    requires e.input.Arrives? && (r.sender.Some? ==> r.sender.value == e.input.from)
    requires Parse(e.input.datagram) == Some(Message(Data, chunk, payload))
    ensures SessionStep(c, r, e, OnData(c, r, chunk, payload, e))
  {
    var r' := OnData(c, r, chunk, payload, e);
    if r.session.Some? && r'.session.Some? {
      assert r'.files.Keys == r.files.Keys;
    }
  }

  lemma NackRoundSession(c: Config, r: Receiver, upto: u32, byTimer: bool, at: nat, e: Event)
    requires r.Valid() && r.phase.Active? && r.session.Some?
    ensures SessionStep(c, r, e, NackRound(c, r, upto, byTimer, at, e))
  {}

  lemma DoneSession(c: Config, r: Receiver, e: Event)
    requires r.Valid() && r.phase.Active?
    ensures SessionStep(c, r, e, OnDone(c, r, e))
  {
    if r.session.Some? && !r.session.value.Full() {
      NackRoundSession(c, r, r.session.value.init.total, false, e.done, e);
    }
  }

  lemma TickSession(c: Config, r: Receiver, e: Event)
    requires r.Valid() && r.phase.Active?
    ensures SessionStep(c, r, e, OnTick(c, r, e))
  {
    if r.session.Some? {
      NackRoundSession(c, r, r.session.value.Edge(), true, e.at, e);
    }
  }

  lemma ReceiveSession(c: Config, r: Receiver, e: Event)
    requires r.Valid() && r.phase.Active?
    ensures SessionStep(c, r, e, Receive(c, r, e))
  {
    match e.input
    case Interrupted =>
    case Broken =>
    case TimedOut => TickSession(c, r, e);
    case Arrives(from, datagram) => DatagramSession(c, r, from, datagram, e);
  }

  lemma OpeningStep(c: Config, r: Receiver, listening: Receiver, e: Event, r': Receiver)
    requires r.Valid() && listening.Valid() && r.session.None? && listening.session.None?
    requires SessionStep(c, listening, e, r')
    ensures SessionStep(c, r, e, r')
  {}

  lemma IdleStep(c: Config, r: Receiver, e: Event)
    requires r.Valid() && (r.phase.Exited? || (r.phase.Lingering? && (e.before < r.phase.deadline || !c.serve)))
    ensures Step(c, r, e).session == None
  {}

  lemma WakingStep(c: Config, r: Receiver, e: Event)
    requires r.Valid() && r.phase.Lingering? && e.before >= r.phase.deadline && c.serve
    ensures EndLinger(c, r).phase.Active? && Step(c, r, e) == Receive(c, EndLinger(c, r), e)
  {}

  lemma StepSession(c: Config, r: Receiver, e: Event)
    requires r.Valid()
    ensures SessionStep(c, r, e, Step(c, r, e))
  {
    if r.phase.Active? {
      ReceiveSession(c, r, e);
    } else if r.phase.Lingering? && e.before >= r.phase.deadline && c.serve {
      WakingStep(c, r, e);
      ReceiveSession(c, EndLinger(c, r), e);
      OpeningStep(c, r, EndLinger(c, r), e, Step(c, r, e));
    } else {
      IdleStep(c, r, e);
    }
  }
}
