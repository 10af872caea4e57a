/**
 When the receiver gives up on a silent sender, told from the events alone: once
 the sender's last datagram is the idle timeout back.
 */
module IdleClock {
  import opened Options
  import opened Wire
  import opened ReceiverMachine
  import opened ReceiverHistory

  // A datagram from this host, whatever it says and whether it can be parsed.
  predicate From(e: Event, peer: Addr) {
    e.input.Arrives? && e.input.from == peer
  }

  // Event `j` is the last of the first `n` to bring a datagram from this host.
  ghost predicate LastFrom(events: seq<Event>, n: nat, peer: Addr, j: nat)
    requires n <= |events|
  {
    j < n && From(events[j], peer) && forall i | j < i < n :: !From(events[i], peer)
  }

  // While a session is open every datagram of its host starts the clock anew, and
  // nothing else does.
  lemma StepClock(c: Config, r: Receiver, e: Event)
    requires r.Valid() && Step(c, r, e).session.Some?
    ensures var r' := Step(c, r, e);
            r'.sender.Some? && r'.lastDataAt == if From(e, r'.sender.value) then e.at else r.lastDataAt
    ensures r.session.None? ==> From(e, Step(c, r, e).sender.value)
  {
    StepSession(c, r, e);
    if r.phase.Active? {
      ReceiveClock(c, r, e);
    } else if r.phase.Lingering? && e.before >= r.phase.deadline && c.serve {
      ReceiveClock(c, EndLinger(c, r), e);
    }
  }

  lemma DoneClock(c: Config, r: Receiver, e: Event)
    requires r.Valid() && r.phase.Active?
    ensures OnDone(c, r, e).session.Some? ==> OnDone(c, r, e).lastDataAt == r.lastDataAt
  {}

  lemma InitClock(c: Config, r: Receiver, from: Addr, payload: Bytes, e: Event)
    requires r.Valid() && r.phase.Active?
    ensures OnInit(c, r, from, payload, e).session.Some? ==> OnInit(c, r, from, payload, e).lastDataAt == r.lastDataAt
  {}

  lemma MessageClock(c: Config, r: Receiver, from: Addr, m: Message, e: Event)
    requires r.Valid() && r.phase.Active?
    ensures OnMessage(c, r, from, m, e).session.Some? ==> OnMessage(c, r, from, m, e).lastDataAt == r.lastDataAt
  {
    match m
    case Message(Init, _, payload) => InitClock(c, r, from, payload, e);
    case Message(Data, _, _) =>
    case Message(Done, _, _) => DoneClock(c, r, e);
    case _ =>
  }

  lemma ReceiveClock(c: Config, r: Receiver, e: Event)
    requires r.Valid() && r.phase.Active? && Receive(c, r, e).session.Some?
    requires r.session.Some? ==> Receive(c, r, e).sender == r.sender
    requires r.session.None? ==> e.input.Arrives? && Receive(c, r, e).sender == Some(e.input.from)
    ensures var r' := Receive(c, r, e);
            r'.sender.Some? ==> r'.lastDataAt == if From(e, r'.sender.value) then e.at else r.lastDataAt
  {
    if e.input.Arrives? && Parse(e.input.datagram).Some? {
      MessageClock(c, r.(lastDataAt := e.at), e.input.from, Parse(e.input.datagram).value, e);
    }
  }

  // The session's host was heard, and the clock shows when it was heard last.
  ghost predicate ClockShows(c: Config, r: Receiver, events: seq<Event>, n: nat, j: nat)
    requires r.Valid() && n <= |events|
  {
    var now := StateAt(c, r, events, n);
    now.sender.Some? && LastFrom(events, n, now.sender.value, j) && now.lastDataAt == events[j].at
  }

  // In every run, while a session is open, the idle clock shows when the last
  // datagram came from its host, of whatever kind.
  lemma {:induction false} LastHeard(c: Config, r: Receiver, events: seq<Event>, n: nat) returns (j: nat)
    requires r.Valid() && r.session.None? && n <= |events| && StateAt(c, r, events, n).session.Some?
    ensures ClockShows(c, r, events, n, j)
  {
    assert StateAt(c, r, events, 0) == r;
    var before := StateAt(c, r, events, n - 1);
    StateAtNext(c, r, events, n - 1);
    StepClock(c, before, events[n - 1]);
    if From(events[n - 1], StateAt(c, r, events, n).sender.value) {
      j := n - 1;
    } else {
      NextTransfer(c, r, events, n - 1, before, StateAt(c, r, events, n));
      j := LastHeard(c, r, events, n - 1);
    }
  }

  // ---------- Giving up ----------

  // The session was dropped because its host went silent: the temp file goes, a
  // serving receiver listens again and a one-shot receiver returns the error.
  ghost predicate GivesUp(c: Config, r: Receiver, r': Receiver)
    requires r.Valid() && r.session.Some?
  {
    r'.log == r.log + [Dropped(IdleTimeout)] && r'.session.None? && r'.sender == None &&
    r'.files == r.files - {r.session.value.tmp} && r'.sent == r.sent &&
    r'.phase == if c.serve then Active else Exited(Some(IdleTimeout))
  }

  ghost predicate LogsIdle(r: Receiver, r': Receiver) {
    r'.log == r.log + [Dropped(IdleTimeout)]
  }

  lemma LogsOther(r: Receiver, r': Receiver, a: Action)
    requires r'.log == r.log + [a] && a != Dropped(IdleTimeout)
    ensures !LogsIdle(r, r')
  {
    assert r'.log[|r.log|] == a;
  }

  lemma RoundNotIdle(c: Config, r: Receiver, upto: u32, byTimer: bool, at: nat, e: Event)
    requires r.Valid() && r.phase.Active? && r.session.Some?
    ensures !LogsIdle(r, NackRound(c, r, upto, byTimer, at, e))
  {
    var r' := NackRound(c, r, upto, byTimer, at, e);
    LogsOther(r, r', r'.log[|r.log|]);
  }

  lemma DoneNotIdle(c: Config, r: Receiver, e: Event)
    requires r.Valid() && r.phase.Active? && r.session.Some?
    ensures !LogsIdle(r, OnDone(c, r, e))
  {
    var s := r.session.value;
    if !s.Full() {
      RoundNotIdle(c, r, s.init.total, false, e.done, e);
    } else if FinalizeError(c.sha, s, e.env).Some? {
      LogsOther(r, OnDone(c, r, e), Dropped(FinalizeError(c.sha, s, e.env).value));
    } else {
      LogsOther(r, OnDone(c, r, e), Committed(r.sender.value, s.init, s.data));
    }
  }

  lemma AbandonNotIdle(c: Config, r: Receiver, why: Failure)
    requires !r.phase.Exited? && why != IdleTimeout
    ensures !LogsIdle(r, Abandon(c, r, why))
  {
    LogsOther(r, Abandon(c, r, why), Dropped(why));
  }

  lemma MessageNotIdle(c: Config, r: Receiver, from: Addr, m: Message, e: Event)
    requires r.Valid() && r.phase.Active? && r.session.Some?
    ensures !LogsIdle(r, OnMessage(c, r, from, m, e))
  {
    match m
    case Message(Init, _, _) => AbandonNotIdle(c, r, SendFailed);
    case Message(Data, _, _) => AbandonNotIdle(c, r, WriteFailed);
    case Message(Done, _, _) => DoneNotIdle(c, r, e);
    case _ =>
  }

  lemma TickGivesUp(c: Config, r: Receiver, e: Event)
    requires r.Valid() && r.phase.Active? && r.session.Some?
    ensures if e.at >= r.lastDataAt + c.idleTimeout then GivesUp(c, r, OnTick(c, r, e))
            else !LogsIdle(r, OnTick(c, r, e))
  {
    if e.at < r.lastDataAt + c.idleTimeout && NackDue(c, r, e.at) {
      RoundNotIdle(c, r, r.session.value.Edge(), true, e.at, e);
    }
  }

  lemma StepGivesUp(c: Config, r: Receiver, e: Event)
    requires r.Valid() && r.session.Some?
    ensures if e.input.TimedOut? && e.at >= r.lastDataAt + c.idleTimeout then GivesUp(c, r, Step(c, r, e))
            else !LogsIdle(r, Step(c, r, e))
  {
    match e.input
    case Interrupted =>
    case Broken => LogsOther(r, Step(c, r, e), Dropped(SocketFailed));
    case TimedOut => TickGivesUp(c, r, e);
    case Arrives(from, d) =>
      if r.sender == Some(from) && Parse(d).Some? {
        MessageNotIdle(c, r.(lastDataAt := e.at), from, Parse(d).value, e);
      }
  }

  // In every run a session is dropped for idleness if and only if a read times out
  // at least the idle timeout after the last datagram from its host.
  lemma GivesUpExactly(c: Config, r: Receiver, events: seq<Event>, n: nat, j: nat)
    requires r.Valid() && r.session.None? && n < |events| && StateAt(c, r, events, n).session.Some?
    requires LastFrom(events, n, StateAt(c, r, events, n).sender.value, j)
    ensures var before, after := StateAt(c, r, events, n), StateAt(c, r, events, n + 1);
            if events[n].input.TimedOut? && events[n].at >= events[j].at + c.idleTimeout
            then GivesUp(c, before, after) else !LogsIdle(before, after)
  {
    var k := LastHeard(c, r, events, n);
    OneLast(events, n, StateAt(c, r, events, n).sender.value, j, k);
    StateAtNext(c, r, events, n);
    StepGivesUp(c, StateAt(c, r, events, n), events[n]);
  }

  lemma OneLast(events: seq<Event>, n: nat, peer: Addr, j: nat, k: nat)
    requires n <= |events| && LastFrom(events, n, peer, j) && LastFrom(events, n, peer, k)
    ensures j == k
  {}

  // With a clock that runs: if and only if none of the host's datagrams is less
  // than the idle timeout back.
  lemma SilentSince(c: Config, events: seq<Event>, n: nat, peer: Addr, j: nat)
    requires n < |events| && ClockRuns(events) && LastFrom(events, n, peer, j)
    ensures events[n].at >= events[j].at + c.idleTimeout
      <==> forall i | 0 <= i < n && From(events[i], peer) :: events[n].at >= events[i].at + c.idleTimeout
  {
    forall i | 0 <= i < n && From(events[i], peer) ensures events[i].at <= events[j].at {
      if i < j {
        assert events[i].at <= events[i].done <= events[j].before <= events[j].at;
      }
    }
  }

  lemma SilenceExactly(c: Config, r: Receiver, events: seq<Event>, n: nat)
    requires r.Valid() && r.session.None? && ClockRuns(events) && n < |events|
    requires StateAt(c, r, events, n).session.Some?
    ensures var before, after := StateAt(c, r, events, n), StateAt(c, r, events, n + 1);
            if events[n].input.TimedOut? &&
               forall i | 0 <= i < n && From(events[i], before.sender.value) ::
                 events[n].at >= events[i].at + c.idleTimeout
            then GivesUp(c, before, after) else !LogsIdle(before, after)
  {
    var j := LastHeard(c, r, events, n);
    GivesUpExactly(c, r, events, n, j);
    SilentSince(c, events, n, StateAt(c, r, events, n).sender.value, j);
  }
}
