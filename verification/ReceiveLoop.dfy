/**
 `receive_loop`, `linger`, `reset_listening` and `abandon_transfer` of
 src/lib/recv.rs, with the loop's mutable locals as fields. The nested loops over
 the socket are proved to run the receiver's state machine.
 */
module ReceiveLoops {
  import opened Options
  import opened Wire
  import opened InitPacket
  import ChunkSets
  import opened Sessions
  import opened ReceiverMachine
  import opened ReceiveStates
  import opened Sockets

  datatype LoopEnd = Waiting | Finished | FailedWith(why: Failure)

  class Listener {
    const c: Config
    const sock: Socket<Event>
    const disk: Disk
    var state: ReceiveState?
    var sender: Option<Addr>
    var lastDataAt: nat
    var lastNackAt: Option<nat>
    ghost var phase: Phase
    ghost var log: seq<Action>

    ghost predicate Valid()
      reads this, sock, disk, state
    {
      (state != null ==> state.disk == disk && state.sha == c.sha && state.Valid()) &&
      Machine().Valid()
    }

    // The machine state these fields stand for.
    ghost function Machine(): Receiver
      requires state != null ==> state.disk == disk && state.Valid()
      reads this, sock, disk, state
    {
      var session := if state == null then None else Some(state.View());
      Receiver(phase, session, sender, lastDataAt, lastNackAt, disk.files, sock.sent, log)
    }

    constructor (c: Config, sock: Socket<Event>, disk: Disk, now: nat)
      requires sock.sent == []
      ensures Valid() && Machine() == Start(now, disk.files) && state == null
      ensures this.c == c && this.sock == sock && this.disk == disk
    {
      this.c, this.sock, this.disk := c, sock, disk;
      state, sender, lastDataAt, lastNackAt := null, None, now, None;
      phase, log := Active, [];
    }

    // The next event. How many sends succeed while it is handled is part of it.
    method Receive() returns (e: Event)
      requires sock.inbox != []
      modifies sock
      ensures e == old(sock.inbox)[0] && sock.inbox == old(sock.inbox)[1..]
      ensures sock.sent == old(sock.sent) && sock.budget == e.env.sends
    {
      e := sock.Take();
      sock.budget := e.env.sends;
    }

    // Dropping the ReceiveState removes its temp file.
    method DropState()
      modifies this, disk
      ensures state == null && sender == None && lastNackAt == None && unchanged(`lastDataAt, `phase, `log)
      ensures disk.files == if old(state) == null then old(disk.files)
                            else old(disk.files) - {old(state).tmp}
    {
      if state != null {
        disk.Remove(state.tmp);
      }
      state, sender, lastNackAt := null, None, None;
    }

    // In a one-shot receiver the error ends the loop, which drops its locals.
    method AbandonTransfer(why: Failure) returns (failure: Option<Failure>)
      modifies this, disk
      ensures state == null && sender == None && lastNackAt == None && unchanged(`lastDataAt)
      ensures disk.files == if old(state) == null then old(disk.files)
                            else old(disk.files) - {old(state).tmp}
      ensures log == old(log) + [Dropped(why)]
      ensures failure == if c.serve then None else Some(why)
      ensures phase == if c.serve then Active else Exited(Some(why))
    {
      DropState();
      log := log + [Dropped(why)];
      phase := if c.serve then Active else Exited(Some(why));
      failure := if c.serve then None else Some(why);
    }

    method SendAck(to: Addr, e: Event) returns (failure: Option<Failure>)
      requires Valid() && phase.Active? && sock.budget == e.env.sends
      modifies this, sock, disk
      ensures Valid() && (state == null || state == old(state)) && sock.inbox == old(sock.inbox)
      ensures Machine() == Acknowledge(c, old(Machine()), to, e)
      ensures if failure.Some? then phase == Exited(failure) else phase.Active?
    {
      var ok := sock.SendControl(to, Ack, 0);
      failure := None;
      if !ok {
        failure := AbandonTransfer(SendFailed);
      }
    }

    method OnInit(from: Addr, payload: Bytes, e: Event) returns (failure: Option<Failure>)
      requires Valid() && phase.Active? && sock.budget == e.env.sends
      modifies this, sock, disk
      ensures Valid() && (state == null || state == old(state) || fresh(state)) && sock.inbox == old(sock.inbox)
      ensures Machine() == ReceiverMachine.OnInit(c, old(Machine()), from, payload, e)
      ensures if failure.Some? then phase == Exited(failure) else phase.Active?
    {
      if state == null {
        var opening := ReceiveState.New(payload, c.out, disk, c.sha, e.env);
        if opening == null {
          return None;
        }
        state, sender, lastNackAt := opening, Some(from), None;
        log := log + [Opened(from, opening.init)];
      }
      failure := SendAck(from, e);
    }

    method StoreData(chunk: u32, payload: Bytes, e: Event) returns (ok: bool)
      requires Valid() && phase.Active? && state != null
      modifies disk, state
      ensures Valid() && disk.files - {state.tmp} == old(disk.files) - {state.tmp}
      ensures ok ==> Machine() == ReceiverMachine.OnData(c, old(Machine()), chunk, payload, e)
      ensures !ok ==>
        ReceiverMachine.OnData(c, old(Machine()), chunk, payload, e) == Abandon(c, old(Machine()), WriteFailed)
    {
      ghost var r, s := Machine(), state.View();
      ok := state.AcceptData(chunk, payload, e.done, e.env.writes);
      if ok {
        StoredFiles(r, s, state.View(), disk.files);
        StoredOrSame(c, r, chunk, payload, e, s, state.View(), disk.files);
      } else {
        WriteFails(c, r, chunk, payload, e, s);
      }
    }

    method OnData(chunk: u32, payload: Bytes, e: Event) returns (failure: Option<Failure>)
      requires Valid() && phase.Active?
      modifies this, disk, state
      ensures Valid() && (state == null || state == old(state))
      ensures Machine() == ReceiverMachine.OnData(c, old(Machine()), chunk, payload, e)
      ensures if failure.Some? then phase == Exited(failure) else phase.Active?
    {
      failure := None;
      if state != null {
        var ok := StoreData(chunk, payload, e);
        if !ok {
          failure := AbandonTransfer(WriteFailed);
        }
      }
    }

    // After the datagrams of a round: record it, or give up if a send failed.
    method EndRound(ok: bool, at: nat, ghost round: Action) returns (failure: Option<Failure>)
      modifies this, disk
      ensures unchanged(`lastDataAt) && log == old(log) + [if ok then round else Dropped(SendFailed)]
      ensures ok ==> unchanged(disk, `state, `sender, `phase) && lastNackAt == Some(at)
      ensures !ok ==> state == null && sender == None && lastNackAt == None
      ensures !ok ==> phase == if c.serve then Active else Exited(Some(SendFailed))
      ensures !ok ==> disk.files == if old(state) == null then old(disk.files)
                                    else old(disk.files) - {old(state).tmp}
      ensures failure == if ok || c.serve then None else Some(SendFailed)
    {
      if ok {
        lastNackAt := Some(at);
        log := log + [round];
        failure := None;
      } else {
        failure := AbandonTransfer(SendFailed);
      }
    }

    method OnTimeout(e: Event) returns (failure: Option<Failure>)
      requires Valid() && phase.Active? && sock.budget == e.env.sends
      modifies this, sock, disk
      ensures Valid() && (state == null || state == old(state)) && sock.inbox == old(sock.inbox)
      ensures Machine() == OnTick(c, old(Machine()), e)
      ensures if failure.Some? then phase == Exited(failure) else phase.Active?
    {
      failure := None;
      if state != null && sender.Some? {
        if e.at >= lastDataAt + c.idleTimeout {
          failure := AbandonTransfer(IdleTimeout);
        } else {
          var deadline := NackDeadline(state.oldestGapAt, c.nackHoldoff, lastNackAt);
          if deadline.Some? && e.at >= deadline.value {
            ChunkSets.FrontierUnique(state.got, state.frontier);
            failure := ReportGaps(e);
          }
        }
      }
    }

    // A DONE: report what is missing, or finish and say so.
    method OnDone(e: Event) returns (failure: Option<Failure>, complete: bool)
      requires Valid() && phase.Active? && sock.budget == e.env.sends
      modifies this, sock, disk
      ensures Valid() && (state == null || state == old(state)) && sock.inbox == old(sock.inbox)
      ensures Machine() == ReceiverMachine.OnDone(c, old(Machine()), e)
      ensures complete <==> phase.Lingering?
      ensures complete ==> phase.deadline == e.done + c.lingerTimeout
      ensures if failure.Some? then phase == Exited(failure) else !phase.Exited?
    {
      failure, complete := None, false;
      if sender.Some? && state != null {
        if !state.Full() {
          failure := ReportMissing(e);
        } else {
          failure, complete := FlushAndFinish(e);
        }
      }
    }

    method ReportGaps(e: Event) returns (failure: Option<Failure>)
      requires Valid() && phase.Active? && sock.budget == e.env.sends && state != null
      modifies this, sock, disk
      ensures Valid() && (state == null || state == old(state)) && sock.inbox == old(sock.inbox)
      ensures Machine() == NackRound(c, old(Machine()), old(state.frontier), true, e.at, e)
      ensures if failure.Some? then phase == Exited(failure) else phase.Active?
    {
      ghost var missing := ChunkSets.MissingBelow(state.got, state.frontier);
      var ok := state.NackGaps(sock, sender.value);
      failure := EndRound(ok, e.at, Nacked(e.at, true, missing));
    }

    method ReportMissing(e: Event) returns (failure: Option<Failure>)
      requires Valid() && phase.Active? && sock.budget == e.env.sends && state != null
      modifies this, sock, disk
      ensures Valid() && (state == null || state == old(state)) && sock.inbox == old(sock.inbox)
      ensures Machine() == NackRound(c, old(Machine()), old(state.init.total), false, e.done, e)
      ensures if failure.Some? then phase == Exited(failure) else phase.Active?
    {
      ghost var missing := ChunkSets.MissingBelow(state.got, state.init.total);
      var ok := state.SendNacks(sock, sender.value);
      failure := EndRound(ok, e.done, Nacked(e.done, false, missing));
    }

    method FlushAndFinish(e: Event) returns (failure: Option<Failure>, complete: bool)
      requires Valid() && phase.Active? && sock.budget == e.env.sends && state != null
      modifies this, sock, disk
      ensures Valid() && state == null && sock.inbox == old(sock.inbox)
      ensures Machine() == match FinalizeError(c.sha, old(state.View()), e.env)
                           case Some(why) => Abandon(c, old(Machine()), why)
                           case None => Commit(c, old(Machine()), e)
      ensures complete <==> phase.Lingering?
      ensures complete ==> phase.deadline == e.done + c.lingerTimeout
      ensures if failure.Some? then phase == Exited(failure) else !phase.Exited?
    {
      ghost var r, s, files := Machine(), state.View(), disk.files;
      var flushed := state.Flush(e.env);
      if flushed.Some? {
        failure := AbandonTransfer(flushed.value);
        assert disk.files == files - {s.tmp};
        Abandoned(c, r, Machine(), s, flushed.value);
      } else {
        Finish(e, s.init, s.data);
        failure := None;
      }
      complete := flushed.None?;
    }

    method Finish(e: Event, ghost init: InitInfo, ghost data: Bytes)
      requires sender.Some? && sock.budget == e.env.sends
      modifies this, sock
      ensures state == null && unchanged(`sender, `lastNackAt, `lastDataAt) && sock.inbox == old(sock.inbox)
      ensures log == old(log) + [Committed(sender.value, init, data)]
      ensures sock.sent == old(sock.sent) + Sends(sender.value, FirstOf([Control(Fin, 0)], e.env.sends))
      ensures phase == Lingering(e.done + c.lingerTimeout)
    {
      state := null;
      log := log + [Committed(sender.value, init, data)];
      TrySendFin(sender.value);
      phase := Lingering(e.done + c.lingerTimeout);
    }

    // `let _ = send_control(..)`: a FIN that cannot be sent is not an error.
    method TrySendFin(to: Addr)
      modifies sock`sent, sock`budget
      ensures sock.sent == old(sock.sent) + Sends(to, FirstOf([Control(Fin, 0)], old(sock.budget)))
    {
      var sent := sock.SendControl(to, Fin, 0);
      assert Sends(to, FirstOf([Control(Fin, 0)], old(sock.budget)))
        == if sent then [Outgoing(to, Control(Fin, 0))] else [];
    }

    method OnDatagram(from: Addr, datagram: Bytes, e: Event) returns (failure: Option<Failure>, complete: bool)
      requires Valid() && phase.Active? && sock.budget == e.env.sends
      modifies this, sock, disk, state
      ensures Valid() && (state == null || state == old(state) || fresh(state)) && sock.inbox == old(sock.inbox)
      ensures Machine() == ReceiverMachine.OnDatagram(c, old(Machine()), from, datagram, e)
      ensures complete <==> phase.Lingering?
      ensures complete ==> phase.deadline == e.done + c.lingerTimeout
      ensures if failure.Some? then phase == Exited(failure) else !phase.Exited?
    {
      failure, complete := None, false;
      if sender.Some? && from != sender.value {
        return;
      }
      lastDataAt := e.at;
      match Parse(datagram)
      case Some(Message(Init, _, payload)) => failure := OnInit(from, payload, e);
      case Some(Message(Data, chunk, payload)) => failure := OnData(chunk, payload, e);
      case Some(Message(Done, _, _)) => failure, complete := OnDone(e);
      case _ =>
    }

    method OnBroken()
      requires Valid() && phase.Active?
      modifies this, disk
      ensures Valid() && state == null
      ensures Machine()
        == Drop(old(Machine())).(phase := Exited(Some(SocketFailed)), log := old(log) + [Dropped(SocketFailed)])
    {
      DropState();
      log := log + [Dropped(SocketFailed)];
      phase := Exited(Some(SocketFailed));
    }

    // After the linger: listen again, or return and let go of the locals.
    method ResetListening()
      requires Valid() && phase.Lingering?
      modifies this
      ensures Valid() && state == null && Machine() == EndLinger(c, old(Machine()))
      ensures phase == if c.serve then Active else Exited(None)
    {
      sender, lastNackAt := None, None;
      phase := if c.serve then Active else Exited(None);
    }

    // Answer repeated DONEs until the sender confirms or the window closes.
    // Stops early only when there is nothing left to read.
    method Linger(until: nat) returns (over: bool)
      requires Valid() && phase == Lingering(until)
      modifies this, sock
      ensures Valid() && phase.Lingering? && state == null
      ensures !over ==> sock.inbox == [] && Machine() == Run(c, old(Machine()), old(sock.inbox))
      ensures over ==> Run(c, old(Machine()), old(sock.inbox)) == Run(c, EndLinger(c, Machine()), sock.inbox)
      ensures |sock.inbox| <= |old(sock.inbox)|
    {
      var deadline: nat := until;
      while sock.inbox != []
        invariant Valid() && phase == Lingering(deadline) && state == null
        invariant Run(c, old(Machine()), old(sock.inbox)) == Run(c, Machine(), sock.inbox)
        invariant |sock.inbox| <= |old(sock.inbox)|
        decreases |sock.inbox|
      {
        ghost var r, events := Machine(), sock.inbox;
        if sock.inbox[0].before >= deadline {
          WindowOver(c, r, events);
          return true;
        }
        var e := Receive();
        RunOne(c, r, events);
        over, deadline := LingerOn(e, deadline);
        if over {
          return true;
        }
      }
      over := false;
    }

    // One event of the linger loop.
    method LingerOn(e: Event, until: nat) returns (over: bool, deadline: nat)
      requires Valid() && phase == Lingering(until) && sock.budget == e.env.sends && e.before < until
      modifies this, sock
      ensures Valid() && phase == Lingering(deadline) && state == null && sock.inbox == old(sock.inbox)
      ensures Step(c, old(Machine()), e) == if over then EndLinger(c, Machine()) else Machine()
    {
      over, deadline := false, until;
      match e.input
      case Interrupted =>
      case TimedOut => over := true;
      case Broken => over := true;
      case Arrives(from, datagram) =>
        if from == sender.value {
          match Parse(datagram) {
            case Some(Message(FinAck, _, _)) => over := true;
            case Some(Message(Done, _, _)) =>
              TrySendFin(from);
              deadline := e.done + c.lingerTimeout;
              phase := Lingering(deadline);
            case _ =>
          }
        }
    }

    // One event of the receive loop.
    method ReceiveOne(e: Event) returns (failure: Option<Failure>, complete: bool)
      requires Valid() && phase.Active? && sock.budget == e.env.sends
      modifies this, sock, disk, state
      ensures Valid() && (state == null || state == old(state) || fresh(state)) && sock.inbox == old(sock.inbox)
      ensures Machine() == Step(c, old(Machine()), e)
      ensures if failure.Some? then phase == Exited(failure)
              else if complete then phase == Lingering(e.done + c.lingerTimeout) else phase.Active?
    {
      failure, complete := None, false;
      match e.input {
        case Interrupted =>
        case Broken =>
          OnBroken();
          failure := Some(SocketFailed);
        case TimedOut => failure := OnTimeout(e);
        case Arrives(from, datagram) => failure, complete := OnDatagram(from, datagram, e);
      }
    }

    // Linger, then listen again or return. None means listening again.
    method AfterSave(until: nat) returns (end: Option<LoopEnd>)
      requires Valid() && phase == Lingering(until)
      modifies this, sock
      ensures Valid() && state == null && |sock.inbox| <= |old(sock.inbox)|
      ensures end == None ==>
        phase.Active? && Run(c, old(Machine()), old(sock.inbox)) == Run(c, Machine(), sock.inbox)
      ensures end != None ==> Machine() == Run(c, old(Machine()), old(sock.inbox))
      ensures end != None ==> match phase
                              case Exited(None) => end == Some(Finished)
                              case Lingering(_) => end == Some(Waiting) && sock.inbox == []
                              case _ => false
    {
      var over := Linger(until);
      if !over {
        return Some(Waiting);
      }
      ResetListening();
      if c.serve {
        return None;
      }
      ExitedStays(c, Machine(), sock.inbox);
      end := Some(Finished);
    }

    // One event of the loop and, if it completes a transfer, all that follows until
    // the receiver listens again. None means the loop goes on.
    method ReceiveNext() returns (end: Option<LoopEnd>)
      requires Valid() && phase.Active? && sock.inbox != []
      modifies this, sock, disk, state
      ensures Valid() && (state == null || state == old(state) || fresh(state))
      ensures |sock.inbox| < |old(sock.inbox)|
      ensures end == None ==>
        phase.Active? && Run(c, old(Machine()), old(sock.inbox)) == Run(c, Machine(), sock.inbox)
      ensures end != None ==> Machine() == Run(c, old(Machine()), old(sock.inbox))
      ensures end != None ==> match phase
                              case Exited(None) => end == Some(Finished)
                              case Exited(Some(why)) => end == Some(FailedWith(why))
                              case _ => end == Some(Waiting) && sock.inbox == []
    {
      ghost var r, events := Machine(), sock.inbox;
      var e := Receive();
      RunOne(c, r, events);
      var failure, complete := ReceiveOne(e);
      if failure.Some? {
        ExitedStays(c, Machine(), sock.inbox);
        return Some(FailedWith(failure.value));
      }
      end := None;
      if complete {
        end := AfterSave(e.done + c.lingerTimeout);
      }
    }

    // The whole receiver: it runs the state machine over everything that
    // arrives, and what is on the wire and on disk is what the machine says.
    method ReceiveLoop() returns (end: LoopEnd)
      requires Valid() && phase.Active? && sock.sent == []
      modifies this, sock, disk, state
      ensures Valid() && Machine() == Run(c, old(Machine()), old(sock.inbox))
      ensures match phase
              case Exited(None) => end == Finished
              case Exited(Some(why)) => end == FailedWith(why)
              case _ => end == Waiting && sock.inbox == []
    {
      while sock.inbox != []
        invariant Valid() && phase.Active? && (state == null || state == old(state) || fresh(state))
        invariant Run(c, old(Machine()), old(sock.inbox)) == Run(c, Machine(), sock.inbox)
        decreases |sock.inbox|
      {
        var over := ReceiveNext();
        if over.Some? {
          return over.value;
        }
      }
      end := Waiting;
    }
  }

  lemma {:induction false} ExitedStays(c: Config, r: Receiver, events: seq<Event>)
    requires r.Valid() && r.phase.Exited?
    ensures Run(c, r, events) == r
    decreases |events|
  {
    if events != [] {
      ExitedStays(c, r, events[1..]);
    }
  }

  lemma RunOne(c: Config, r: Receiver, events: seq<Event>)
    requires r.Valid() && events != []
    ensures Run(c, r, events) == Run(c, Step(c, r, events[0]), events[1..])
  {}

  // Past the deadline the event belongs to the next session's loop, if any.
  lemma WindowOver(c: Config, r: Receiver, events: seq<Event>)
    requires r.Valid() && r.phase.Lingering? && events != [] && events[0].before >= r.phase.deadline
    ensures Run(c, r, events) == Run(c, EndLinger(c, r), events)
  {
    assert Step(c, r, events[0]) == Step(c, EndLinger(c, r), events[0]);
  }

  lemma StoredOrSame(
    c: Config, r: Receiver, chunk: u32, payload: Bytes, e: Event, s: Session, s': Session, files: Files)
    requires r.Valid() && r.phase.Active? && r.session == Some(s) && s' == Accept(c.sha, s, chunk, payload, e.done)
    requires s' == s || e.env.writes == None
    requires if s' == s then files == r.files else files == r.files[s.tmp := s'.data]
    ensures r.(session := Some(s'), files := files) == ReceiverMachine.OnData(c, r, chunk, payload, e)
  {}

  lemma WriteFails(c: Config, r: Receiver, chunk: u32, payload: Bytes, e: Event, s: Session)
    requires r.Valid() && r.phase.Active? && r.session == Some(s)
    requires Accept(c.sha, s, chunk, payload, e.done) != s && e.env.writes.Some?
    ensures ReceiverMachine.OnData(c, r, chunk, payload, e) == Abandon(c, r, WriteFailed)
  {}

  lemma Abandoned(c: Config, r: Receiver, r': Receiver, s: Session, why: Failure)
    requires r.Valid() && r.phase.Active? && r.session == Some(s)
    requires r' == Receiver(if c.serve then Active else Exited(Some(why)), None, None, r.lastDataAt, None,
                            r.files - {s.tmp}, r.sent, r.log + [Dropped(why)])
    ensures r' == Abandon(c, r, why)
  {}

  lemma StoredFiles(r: Receiver, s: Session, s': Session, files: Files)
    requires r.Valid() && r.session == Some(s) && s'.init == s.init
    requires s.tmp in files && files[s.tmp] == s'.data
    requires files == r.files[s.tmp := files[s.tmp]]
    ensures s' == s ==> files == r.files
    ensures files == r.files[s.tmp := s'.data]
  {}
}
