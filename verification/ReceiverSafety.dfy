/**
 What every run of the receiver keeps: a saved file hashes to what the INIT that
 opened its session declared, and a FIN only ever goes to a peer whose file has
 been saved.
 */
module ReceiverSafety {
  import opened Options
  import opened Wire
  import InitPacket
  import ChunkSets
  import opened Nacks
  import opened Sessions
  import opened ReceiverMachine

  ghost predicate IsFin(o: Outgoing) {
    KindOf(o.datagram) == Some(Fin)
  }

  ghost predicate CommittedTo(log: seq<Action>, peer: Addr) {
    exists a :: a in log && a.Committed? && a.peer == peer
  }

  ghost predicate CommitSound(c: Config, a: Action) {
    a.Committed? ==> c.sha(a.file) == a.init.hash && |a.file| == a.init.size
  }

  // The last thing that happened to any transfer is a save for this host.
  ghost predicate JustSaved(log: seq<Action>, peer: Addr) {
    log != [] && log[|log| - 1].Committed? && log[|log| - 1].peer == peer
  }

  ghost predicate Sound(c: Config, r: Receiver) {
    r.Valid() &&
    (forall a | a in r.log :: CommitSound(c, a)) &&
    (forall o | o in r.sent && IsFin(o) :: CommittedTo(r.log, o.to)) &&
    (r.phase.Lingering? ==> JustSaved(r.log, r.sender.value))
  }

  // ---------- Extending the two records ----------

  ghost predicate LogSound(c: Config, sent: seq<Outgoing>, log: seq<Action>) {
    (forall a | a in log :: CommitSound(c, a)) &&
    (forall o | o in sent && IsFin(o) :: CommittedTo(log, o.to))
  }

  lemma LogMore(c: Config, sent: seq<Outgoing>, log: seq<Action>, a: Action)
    requires LogSound(c, sent, log) && CommitSound(c, a)
    ensures LogSound(c, sent, log + [a])
    ensures a.Committed? ==> CommittedTo(log + [a], a.peer)
    ensures forall peer | CommittedTo(log, peer) :: CommittedTo(log + [a], peer)
  {
    assert (log + [a])[|log|] == a;
    forall peer | CommittedTo(log, peer) ensures CommittedTo(log + [a], peer) {
      var b :| b in log && b.Committed? && b.peer == peer;
      assert b in log + [a];
    }
  }

  lemma SendMore(c: Config, sent: seq<Outgoing>, log: seq<Action>, more: seq<Outgoing>)
    requires LogSound(c, sent, log)
    requires forall o | o in more && IsFin(o) :: CommittedTo(log, o.to)
    ensures LogSound(c, sent + more, log)
  {}

  lemma SentKind(to: Addr, packets: seq<Bytes>, n: nat, kind: PacketType)
    requires forall p | p in packets :: KindOf(p) == Some(kind)
    ensures forall o | o in Sends(to, FirstOf(packets, n)) :: o.to == to && KindOf(o.datagram) == Some(kind)
  {
    var shown := FirstOf(packets, n);
    forall o | o in Sends(to, shown) ensures o.to == to && KindOf(o.datagram) == Some(kind) {
      var i :| 0 <= i < |shown| && Sends(to, shown)[i] == o;
      assert shown[i] in packets;
    }
  }

  // ---------- Soundness of a step ----------

  lemma AbandonSound(c: Config, r: Receiver, why: Failure)
    requires LogSound(c, r.sent, r.log) && !r.phase.Exited?
    ensures Sound(c, Abandon(c, r, why))
  {
    LogMore(c, r.sent, r.log, Dropped(why));
  }

  lemma AcknowledgeSound(c: Config, r: Receiver, from: Addr, e: Event)
    requires Sound(c, r) && r.phase.Active?
    ensures Sound(c, Acknowledge(c, r, from, e))
  {
    KindOfPacket(Ack, 0, []);
    SendMore(c, r.sent, r.log, [Outgoing(from, Control(Ack, 0))]);
    AbandonSound(c, r, SendFailed);
  }

  lemma InitSound(c: Config, r: Receiver, from: Addr, payload: Bytes, e: Event)
    requires Sound(c, r) && r.phase.Active?
    ensures Sound(c, OnInit(c, r, from, payload, e))
  {
    if r.session.Some? {
      AcknowledgeSound(c, r, from, e);
    } else if InitPacket.ParseInit(payload, c.out).Ok? && e.env.creates && e.env.sizes {
      var init := InitPacket.ParseInit(payload, c.out).value;
      LogMore(c, r.sent, r.log, Opened(from, init));
      AcknowledgeSound(c, Open(r, from, init), from, e);
    }
  }

  lemma NackRoundSound(c: Config, r: Receiver, upto: u32, byTimer: bool, at: nat, e: Event)
    requires Sound(c, r) && r.phase.Active? && r.session.Some?
    ensures Sound(c, NackRound(c, r, upto, byTimer, at, e))
  {
    var missing := ChunkSets.MissingBelow(r.session.value.got, upto);
    var packets := NackPackets(missing);
    var shown := Sends(r.sender.value, FirstOf(packets, e.env.sends));
    NackPacketsAreNacks(missing);
    SentKind(r.sender.value, packets, e.env.sends, Nack);
    SendMore(c, r.sent, r.log, shown);
    LogMore(c, r.sent + shown, r.log, Nacked(at, byTimer, missing));
    AbandonSound(c, r.(sent := r.sent + shown), SendFailed);
  }

  lemma FinSound(c: Config, sent: seq<Outgoing>, log: seq<Action>, peer: Addr, n: nat)
    requires LogSound(c, sent, log) && CommittedTo(log, peer)
    ensures LogSound(c, sent + Sends(peer, FirstOf([Control(Fin, 0)], n)), log)
  {
    KindOfPacket(Fin, 0, []);
    SentKind(peer, [Control(Fin, 0)], n, Fin);
    SendMore(c, sent, log, Sends(peer, FirstOf([Control(Fin, 0)], n)));
  }

  lemma DoneSound(c: Config, r: Receiver, e: Event)
    requires Sound(c, r) && r.phase.Active?
    ensures Sound(c, OnDone(c, r, e))
  {
    if r.session.Some? {
      var s := r.session.value;
      if !s.Full() {
        NackRoundSound(c, r, s.init.total, false, e.done, e);
      } else if FinalizeError(c.sha, s, e.env).Some? {
        AbandonSound(c, r, FinalizeError(c.sha, s, e.env).value);
      } else {
        var a := Committed(r.sender.value, s.init, s.data);
        LogMore(c, r.sent, r.log, a);
        FinSound(c, r.sent, r.log + [a], r.sender.value, e.env.sends);
      }
    }
  }

  lemma DataSound(c: Config, r: Receiver, chunk: u32, payload: Bytes, e: Event)
    requires Sound(c, r) && r.phase.Active?
    ensures Sound(c, OnData(c, r, chunk, payload, e))
  {
    AbandonSound(c, r, WriteFailed);
  }

  lemma ReceiveSound(c: Config, r: Receiver, e: Event)
    requires Sound(c, r) && r.phase.Active?
    ensures Sound(c, Receive(c, r, e))
  {
    match e.input
    case Interrupted =>
    case Broken => LogMore(c, r.sent, r.log, Dropped(SocketFailed));
    case TimedOut =>
      if r.session.Some? {
        AbandonSound(c, r, IdleTimeout);
        NackRoundSound(c, r, r.session.value.Edge(), true, e.at, e);
      }
    case Arrives(from, datagram) =>
      var r1 := r.(lastDataAt := e.at);
      match Parse(datagram) {
        case Some(Message(Init, _, payload)) => InitSound(c, r1, from, payload, e);
        case Some(Message(Data, chunk, payload)) => DataSound(c, r1, chunk, payload, e);
        case Some(Message(Done, _, _)) => DoneSound(c, r1, e);
        case _ =>
      }
  }

  lemma StepSound(c: Config, r: Receiver, e: Event)
    requires Sound(c, r)
    ensures Sound(c, Step(c, r, e))
  {
    if r.phase.Active? {
      ReceiveSound(c, r, e);
    } else if r.phase.Lingering? {
      if e.before < r.phase.deadline {
        FinSound(c, r.sent, r.log, r.sender.value, e.env.sends);
      } else if c.serve {
        ReceiveSound(c, EndLinger(c, r), e);
      }
    }
  }

  // ---------- What goes out, and when ----------

  ghost predicate NoFins(more: seq<Outgoing>) {
    forall o | o in more :: !IsFin(o)
  }

  // Part of a report of what the session misses, up to some chunk.
  ghost predicate AsksFor(s: Session, d: Bytes) {
    exists upto: u32 :: upto <= s.init.total && d in NackPackets(ChunkSets.MissingBelow(s.got, upto))
  }

  // An ACK; or the FIN that reports the latest save, nothing having been opened,
  // dropped or saved for another host since; or a NACK to the locked host.
  ghost predicate Meant(r: Receiver, r': Receiver, o: Outgoing) {
    o.datagram == Control(Ack, 0) ||
    (o.datagram == Control(Fin, 0) && JustSaved(r'.log, o.to)) ||
    (r.session.Some? && r.sender == Some(o.to) && AsksFor(r.session.value, o.datagram))
  }

  // Nothing else is sent between the two states.
  ghost predicate SendsMeant(r: Receiver, r': Receiver) {
    r.sent <= r'.sent && forall o | o in r'.sent[|r.sent|..] :: Meant(r, r', o)
  }

  lemma MeantAfter(r: Receiver, r': Receiver, more: seq<Outgoing>)
    requires r'.sent == r.sent + more && forall o | o in more :: Meant(r, r', o)
    ensures SendsMeant(r, r')
  {
    assert r'.sent[|r.sent|..] == more;
  }

  lemma SentFrom(to: Addr, packets: seq<Bytes>, n: nat)
    ensures forall o | o in Sends(to, FirstOf(packets, n)) :: o.to == to && o.datagram in packets
  {
    var shown := FirstOf(packets, n);
    forall o | o in Sends(to, shown) ensures o.to == to && o.datagram in packets {
      var i :| 0 <= i < |shown| && Sends(to, shown)[i] == o;
      assert shown[i] in packets;
    }
  }

  lemma NackRoundMeant(c: Config, r: Receiver, upto: u32, byTimer: bool, at: nat, e: Event)
    requires r.Valid() && r.phase.Active? && r.session.Some? && upto <= r.session.value.init.total
    ensures SendsMeant(r, NackRound(c, r, upto, byTimer, at, e))
  {
    var packets := NackPackets(ChunkSets.MissingBelow(r.session.value.got, upto));
    SentFrom(r.sender.value, packets, e.env.sends);
    assert forall d | d in packets :: AsksFor(r.session.value, d);
    MeantAfter(r, NackRound(c, r, upto, byTimer, at, e), Sends(r.sender.value, FirstOf(packets, e.env.sends)));
  }

  lemma AcknowledgeSends(c: Config, r: Receiver, from: Addr, e: Event)
    requires r.Valid() && r.phase.Active?
    ensures var r' := Acknowledge(c, r, from, e);
            r'.sent == r.sent + if e.env.sends == 0 then [] else [Outgoing(from, Control(Ack, 0))]
  {}

  lemma AckMeant(r: Receiver, r': Receiver, from: Addr, sent: bool)
    requires r'.sent == r.sent + if sent then [Outgoing(from, Control(Ack, 0))] else []
    ensures SendsMeant(r, r')
  {
    MeantAfter(r, r', if sent then [Outgoing(from, Control(Ack, 0))] else []);
  }

  lemma InitMeant(c: Config, r: Receiver, from: Addr, payload: Bytes, e: Event)
    requires r.Valid() && r.phase.Active?
    ensures SendsMeant(r, OnInit(c, r, from, payload, e))
  {
    if r.session.Some? {
      AcknowledgeSends(c, r, from, e);
      AckMeant(r, OnInit(c, r, from, payload, e), from, e.env.sends > 0);
    } else if InitPacket.ParseInit(payload, c.out).Ok? && e.env.creates && e.env.sizes {
      AcknowledgeSends(c, Open(r, from, InitPacket.ParseInit(payload, c.out).value), from, e);
      AckMeant(r, OnInit(c, r, from, payload, e), from, e.env.sends > 0);
    }
  }

  lemma FinMeant(r: Receiver, r': Receiver, peer: Addr, n: nat)
    requires r'.sent == r.sent + Sends(peer, FirstOf([Control(Fin, 0)], n)) && JustSaved(r'.log, peer)
    ensures SendsMeant(r, r')
  {
    SentFrom(peer, [Control(Fin, 0)], n);
    MeantAfter(r, r', Sends(peer, FirstOf([Control(Fin, 0)], n)));
  }

  lemma DoneMeant(c: Config, r: Receiver, e: Event)
    requires r.Valid() && r.phase.Active?
    ensures SendsMeant(r, OnDone(c, r, e))
  {
    if r.session.Some? {
      if !r.session.value.Full() {
        NackRoundMeant(c, r, r.session.value.init.total, false, e.done, e);
      } else if FinalizeError(c.sha, r.session.value, e.env).None? {
        FinMeant(r, OnDone(c, r, e), r.sender.value, e.env.sends);
      }
    }
  }

  lemma MessageMeant(c: Config, r: Receiver, from: Addr, m: Message, e: Event)
    requires r.Valid() && r.phase.Active?
    ensures SendsMeant(r, OnMessage(c, r, from, m, e))
  {
    match m
    case Message(Init, _, payload) => InitMeant(c, r, from, payload, e);
    case Message(Data, _, _) =>
    case Message(Done, _, _) => DoneMeant(c, r, e);
    case _ =>
  }

  lemma DatagramMeant(c: Config, r: Receiver, from: Addr, m: Message, e: Event)
    requires r.Valid() && r.phase.Active?
    ensures SendsMeant(r, OnMessage(c, r.(lastDataAt := e.at), from, m, e))
  {
    var r1 := r.(lastDataAt := e.at);
    MessageMeant(c, r1, from, m, e);
    var r' := OnMessage(c, r1, from, m, e);
    assert forall o | Meant(r1, r', o) :: Meant(r, r', o);
  }

  lemma ReceiveMeant(c: Config, r: Receiver, e: Event)
    requires r.Valid() && r.phase.Active?
    ensures SendsMeant(r, Receive(c, r, e))
  {
    match e.input
    case Interrupted =>
    case Broken =>
    case TimedOut =>
      if r.session.Some? {
        NackRoundMeant(c, r, r.session.value.Edge(), true, e.at, e);
      }
    case Arrives(from, datagram) =>
      if Parse(datagram).Some? {
        DatagramMeant(c, r, from, Parse(datagram).value, e);
      }
  }

  lemma LingerMeant(c: Config, r: Receiver, e: Event)
    requires r.Valid() && r.phase.Lingering? && JustSaved(r.log, r.sender.value)
    ensures SendsMeant(r, Linger(c, r, e))
  {
    if Linger(c, r, e).sent != r.sent {
      FinMeant(r, Linger(c, r, e), r.sender.value, e.env.sends);
    }
  }

  lemma StepMeant(c: Config, r: Receiver, e: Event)
    requires Sound(c, r)
    ensures SendsMeant(r, Step(c, r, e))
  {
    if r.phase.Active? {
      ReceiveMeant(c, r, e);
    } else if r.phase.Lingering? {
      if e.before < r.phase.deadline {
        LingerMeant(c, r, e);
      } else if c.serve {
        var r1 := EndLinger(c, r);
        ReceiveMeant(c, r1, e);
        assert forall o | Meant(r1, Step(c, r, e), o) :: Meant(r, Step(c, r, e), o);
      }
    }
  }

  // Over every run: whatever arrives, and whatever fails.
  lemma {:induction false} RunSound(c: Config, r: Receiver, events: seq<Event>)
    requires Sound(c, r)
    ensures Sound(c, Run(c, r, events))
    decreases |events|
  {
    if events != [] {
      StepSound(c, r, events[0]);
      RunSound(c, Step(c, r, events[0]), events[1..]);
    }
  }

  // Over every run: nothing goes out but ACKs, FINs that report the latest save, and
  // NACKs for what the open session misses.
  lemma RunMeant(c: Config, r: Receiver, events: seq<Event>, n: nat)
    requires Sound(c, r) && n < |events|
    ensures SendsMeant(StateAt(c, r, events, n), StateAt(c, r, events, n + 1))
  {
    RunSound(c, r, events[..n]);
    StateAtNext(c, r, events, n);
    StepMeant(c, StateAt(c, r, events, n), events[n]);
  }

  // In particular, whenever a FIN goes out it reports the latest save.
  lemma RunFins(c: Config, r: Receiver, events: seq<Event>, n: nat, o: Outgoing)
    requires Sound(c, r) && n < |events| && IsFin(o)
    ensures var before, after := StateAt(c, r, events, n), StateAt(c, r, events, n + 1);
            before.sent <= after.sent && (o in after.sent[|before.sent|..] ==> JustSaved(after.log, o.to))
  {
    RunMeant(c, r, events, n);
    var before, after := StateAt(c, r, events, n), StateAt(c, r, events, n + 1);
    if o in after.sent[|before.sent|..] {
      assert Meant(before, after, o);
      FinIsNoNack(before, after, o);
    }
  }

  lemma FinIsNoNack(r: Receiver, r': Receiver, o: Outgoing)
    requires Meant(r, r', o) && IsFin(o)
    ensures JustSaved(r'.log, o.to)
  {
    KindOfPacket(Ack, 0, []);
    if r.session.Some? && AsksFor(r.session.value, o.datagram) {
      var upto: u32 :|
        upto <= r.session.value.init.total &&
        o.datagram in NackPackets(ChunkSets.MissingBelow(r.session.value.got, upto));
      NackPacketsAreNacks(ChunkSets.MissingBelow(r.session.value.got, upto));
    }
  }
}
