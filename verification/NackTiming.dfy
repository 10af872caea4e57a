/**
 When the receiver asks for retransmission, over whole runs: the gap clock tells
 exactly when the current gapped period began, and rounds driven by the timer
 keep their distance from that moment and from every earlier round.
 */
module NackTiming {
  import opened Options
  import opened Wire
  import opened InitPacket
  import opened ChunkSets
  import Nacks
  import Sessions
  import opened ReceiverMachine
  import opened IdleClock

  // ---------- The gap clock ----------

  ghost predicate Gapped(r: Receiver) {
    r.session.Some? && GapOpen(r.session.value.got)
  }

  lemma StepGapClock(c: Config, r: Receiver, e: Event)
    requires r.Valid() && Gapped(Step(c, r, e))
    ensures Step(c, r, e).session.value.gapSince
      == if Gapped(r) then r.session.value.gapSince else Some(e.done)
  {
    StepSession(c, r, e);
  }

  lemma NextGapClock(c: Config, r: Receiver, events: seq<Event>, n: nat)
    requires r.Valid() && n < |events| && Gapped(StateAt(c, r, events, n + 1))
    ensures var before := StateAt(c, r, events, n);
            StateAt(c, r, events, n + 1).session.value.gapSince
              == if Gapped(before) then before.session.value.gapSince else Some(events[n].done)
  {
    StateAtNext(c, r, events, n);
    StepGapClock(c, StateAt(c, r, events, n), events[n]);
  }

  // Event `k` opened a gap, and some gap has been open in every state since.
  ghost predicate GapBeganAt(c: Config, r: Receiver, events: seq<Event>, n: nat, k: nat)
    requires r.Valid() && n <= |events|
  {
    k < n && !Gapped(StateAt(c, r, events, k)) &&
    forall j | k < j <= n :: Gapped(StateAt(c, r, events, j))
  }

  ghost predicate ClockRight(c: Config, r: Receiver, events: seq<Event>, n: nat)
    requires r.Valid() && n <= |events|
  {
    var r' := StateAt(c, r, events, n);
    (r'.session.Some? ==> (r'.session.value.gapSince.Some? <==> Gapped(r'))) &&
    (Gapped(r') ==> exists k: nat ::
      GapBeganAt(c, r, events, n, k) && r'.session.value.gapSince == Some(events[k].done))
  }

  lemma GapContinues(c: Config, r: Receiver, events: seq<Event>, n: nat, k: nat)
    requires r.Valid() && n < |events| && GapBeganAt(c, r, events, n, k) && Gapped(StateAt(c, r, events, n + 1))
    ensures GapBeganAt(c, r, events, n + 1, k)
  {}

  lemma GapClockNext(c: Config, r: Receiver, events: seq<Event>, n: nat, before: Receiver, after: Receiver)
    requires r.Valid() && n < |events| && ClockRight(c, r, events, n)
    requires before == StateAt(c, r, events, n) && after == StateAt(c, r, events, n + 1) && Gapped(after)
    requires after.session.value.gapSince
      == if Gapped(before) then before.session.value.gapSince else Some(events[n].done)
    ensures ClockRight(c, r, events, n + 1)
  {
    if Gapped(before) {
      var k: nat :| GapBeganAt(c, r, events, n, k) && before.session.value.gapSince == Some(events[k].done);
      GapContinues(c, r, events, n, k);
    } else {
      assert GapBeganAt(c, r, events, n + 1, n);
    }
  }

  // In every reachable state the clock is set exactly while a gap is open, and
  // it shows when the current uninterrupted gapped period began.
  lemma {:induction false} GapClockExact(c: Config, r: Receiver, events: seq<Event>, n: nat)
    requires r.Valid() && !Gapped(r) && n <= |events|
    ensures ClockRight(c, r, events, n)
  {
    if n == 0 {
      assert StateAt(c, r, events, 0) == r;
    } else {
      var before, after := StateAt(c, r, events, n - 1), StateAt(c, r, events, n);
      GapClockExact(c, r, events, n - 1);
      if Gapped(after) {
        NextGapClock(c, r, events, n - 1);
        GapClockNext(c, r, events, n - 1, before, after);
      }
    }
  }

  // ---------- NACK rounds ----------

  predicate IsMark(a: Action) {
    a.Nacked? || a.Opened?
  }

  // The rounds, session by session: each Opened starts a new one.
  ghost function Marks(log: seq<Action>): (marks: seq<Action>)
    ensures forall a | a in marks :: IsMark(a)
  {
    if log == [] then []
    else Marks(log[..|log| - 1]) + if IsMark(log[|log| - 1]) then [log[|log| - 1]] else []
  }

  lemma MarksSnoc(log: seq<Action>, a: Action)
    ensures Marks(log + [a]) == Marks(log) + if IsMark(a) then [a] else []
  {
    assert (log + [a])[..|log|] == log;
  }

  ghost function RoundOf(r: Receiver, e: Event, byTimer: bool): Action
    requires r.Valid() && r.session.Some?
  {
    var s := r.session.value;
    if byTimer then Nacked(e.at, true, MissingBelow(s.got, s.Edge()))
    else Nacked(e.done, false, MissingBelow(s.got, s.init.total))
  }

  // A step that completes a NACK round.
  ghost predicate DoesRound(c: Config, r: Receiver, e: Event, r': Receiver, byTimer: bool)
    requires r.Valid()
  {
    r.phase.Active? && r.session.Some? && r'.session == r.session &&
    r'.log == r.log + [RoundOf(r, e, byTimer)] && r'.lastNackAt == Some(RoundOf(r, e, byTimer).at) &&
    (byTimer ==> NackDue(c, r, e.at))
  }

  // A step without one: the session's round clock stays, or starts empty.
  ghost predicate SkipsRound(r: Receiver, r': Receiver) {
    (Marks(r'.log) == Marks(r.log) &&
     (r'.session.Some? ==> r.session.Some? && r'.lastNackAt == r.lastNackAt)) ||
    (|Marks(r'.log)| == |Marks(r.log)| + 1 && Marks(r'.log)[..|Marks(r.log)|] == Marks(r.log) &&
     Marks(r'.log)[|Marks(r.log)|].Opened? && (r'.session.Some? ==> r'.lastNackAt == None))
  }

  ghost predicate Either(c: Config, r: Receiver, e: Event, r': Receiver)
    requires r.Valid()
  {
    DoesRound(c, r, e, r', true) || DoesRound(c, r, e, r', false) || SkipsRound(r, r')
  }

  lemma AbandonSkips(c: Config, r: Receiver, why: Failure)
    requires !r.phase.Exited?
    ensures SkipsRound(r, Abandon(c, r, why))
  {
    MarksSnoc(r.log, Dropped(why));
  }

  lemma NackRoundEither(c: Config, r: Receiver, upto: u32, at: nat, e: Event, byTimer: bool)
    requires r.Valid() && r.phase.Active? && r.session.Some? && (byTimer ==> NackDue(c, r, e.at))
    requires Nacked(at, byTimer, MissingBelow(r.session.value.got, upto)) == RoundOf(r, e, byTimer)
    ensures Either(c, r, e, NackRound(c, r, upto, byTimer, at, e))
  {
    var packets := Nacks.NackPackets(MissingBelow(r.session.value.got, upto));
    AbandonSkips(c, r.(sent := r.sent + Sends(r.sender.value, FirstOf(packets, e.env.sends))), SendFailed);
  }

  lemma AcknowledgeSkips(c: Config, r: Receiver, from: Addr, e: Event)
    requires r.Valid() && r.phase.Active? && r.session.Some?
    ensures SkipsRound(r, Acknowledge(c, r, from, e))
  {
    AbandonSkips(c, r, SendFailed);
  }

  lemma InitSkips(c: Config, r: Receiver, from: Addr, payload: Bytes, e: Event)
    requires r.Valid() && r.phase.Active?
    ensures SkipsRound(r, OnInit(c, r, from, payload, e))
  {
    if r.session.Some? {
      AcknowledgeSkips(c, r, from, e);
    } else if ParseInit(payload, c.out).Ok? && e.env.creates && e.env.sizes {
      OpenSkips(c, r, from, ParseInit(payload, c.out).value, e);
    }
  }

  lemma OpeningMarks(log: seq<Action>, opening: Action, after: seq<Action>)
    requires opening.Opened? && (after == log + [opening] || after == log + [opening] + [Dropped(SendFailed)])
    ensures Marks(after) == Marks(log) + [opening]
  {
    MarksSnoc(log, opening);
    MarksSnoc(log + [opening], Dropped(SendFailed));
    assert Marks(log) + [opening] + [] == Marks(log) + [opening];
  }

  lemma OpenSkips(c: Config, r: Receiver, from: Addr, init: InitInfo, e: Event)
    requires r.phase.Active? && init.Valid()
    ensures SkipsRound(r, Acknowledge(c, Open(r, from, init), from, e))
  {
    var r' := Acknowledge(c, Open(r, from, init), from, e);
    OpeningMarks(r.log, Opened(from, init), r'.log);
  }

  lemma DoneEither(c: Config, r: Receiver, e: Event)
    requires r.Valid() && r.phase.Active?
    ensures Either(c, r, e, OnDone(c, r, e))
  {
    if r.session.Some? {
      var s := r.session.value;
      if !s.Full() {
        NackRoundEither(c, r, s.init.total, e.done, e, false);
      } else if FinalizeError(c.sha, s, e.env).Some? {
        AbandonSkips(c, r, FinalizeError(c.sha, s, e.env).value);
      } else {
        MarksSnoc(r.log, Committed(r.sender.value, s.init, s.data));
      }
    }
  }

  lemma TickEither(c: Config, r: Receiver, e: Event)
    requires r.Valid() && r.phase.Active?
    ensures Either(c, r, e, OnTick(c, r, e))
  {
    if r.session.Some? {
      if e.at >= r.lastDataAt + c.idleTimeout {
        AbandonSkips(c, r, IdleTimeout);
      } else if NackDue(c, r, e.at) {
        NackRoundEither(c, r, r.session.value.Edge(), e.at, e, true);
      }
    }
  }

  lemma DataEither(c: Config, r: Receiver, chunk: u32, payload: Bytes, e: Event)
    requires r.Valid() && r.phase.Active?
    ensures SkipsRound(r, OnData(c, r, chunk, payload, e))
  {
    AbandonSkips(c, r, WriteFailed);
  }

  // When the last datagram came makes no difference to the rounds.
  lemma EitherIgnoresData(c: Config, r: Receiver, e: Event, at: nat, r': Receiver)
    requires r.Valid() && r.(lastDataAt := at).Valid() && Either(c, r.(lastDataAt := at), e, r')
    ensures Either(c, r, e, r')
  {}

  lemma MessageEither(c: Config, r: Receiver, from: Addr, m: Message, e: Event)
    requires r.Valid() && r.phase.Active?
    ensures Either(c, r, e, OnMessage(c, r, from, m, e))
  {
    match m
    case Message(Init, _, payload) => InitSkips(c, r, from, payload, e);
    case Message(Data, chunk, payload) => DataEither(c, r, chunk, payload, e);
    case Message(Done, _, _) => DoneEither(c, r, e);
    case _ =>
  }

  lemma DatagramEither(c: Config, r: Receiver, from: Addr, datagram: Bytes, e: Event)
    requires r.Valid() && r.phase.Active?
    ensures Either(c, r, e, OnDatagram(c, r, from, datagram, e))
  {
    if Parse(datagram).Some? && !(r.sender.Some? && from != r.sender.value) {
      MessageEither(c, r.(lastDataAt := e.at), from, Parse(datagram).value, e);
      EitherIgnoresData(c, r, e, e.at, OnDatagram(c, r, from, datagram, e));
    }
  }

  lemma ReceiveEither(c: Config, r: Receiver, e: Event)
    requires r.Valid() && r.phase.Active?
    ensures Either(c, r, e, Receive(c, r, e))
  {
    match e.input
    case Interrupted =>
    case Broken => MarksSnoc(r.log, Dropped(SocketFailed));
    case TimedOut => TickEither(c, r, e);
    case Arrives(from, datagram) => DatagramEither(c, r, from, datagram, e);
  }

  lemma StepEither(c: Config, r: Receiver, e: Event)
    requires r.Valid()
    ensures Either(c, r, e, Step(c, r, e))
  {
    if r.phase.Active? {
      ReceiveEither(c, r, e);
    } else if r.phase.Lingering? && e.before >= r.phase.deadline && c.serve {
      ReceiveEither(c, EndLinger(c, r), e);
    }
  }

  // The time of the last round of the session begun last.
  ghost function LastRound(marks: seq<Action>): Option<nat> {
    if marks != [] && marks[|marks| - 1].Nacked? then Some(marks[|marks| - 1].at) else None
  }

  // A timer round keeps the reissue interval from the session's previous one,
  // and rounds are recorded in the order they happened.
  ghost predicate Spaced(marks: seq<Action>, now: nat) {
    (forall i | 0 < i < |marks| && marks[i].Nacked? && marks[i].byTimer && marks[i - 1].Nacked? ::
      marks[i].at >= marks[i - 1].at + NACK_REISSUE_INTERVAL) &&
    (forall i, j | 0 <= i < j < |marks| && marks[i].Nacked? && marks[j].Nacked? :: marks[i].at <= marks[j].at) &&
    (forall i | 0 <= i < |marks| && marks[i].Nacked? :: marks[i].at <= now)
  }

  ghost predicate Timed(r: Receiver, now: nat) {
    r.Valid() && (r.session.Some? ==> r.lastNackAt == LastRound(Marks(r.log))) && Spaced(Marks(r.log), now)
  }

  lemma SpacedSnoc(marks: seq<Action>, a: Action, now: nat, later: nat)
    requires Spaced(marks, now) && now <= later && (a.Nacked? ==> now <= a.at <= later)
    requires a.Nacked? && a.byTimer && LastRound(marks).Some? ==> a.at >= LastRound(marks).value + NACK_REISSUE_INTERVAL
    ensures Spaced(marks + [a], later)
  {}

  lemma RoundTimed(c: Config, r: Receiver, e: Event, now: nat, r': Receiver, byTimer: bool)
    requires Timed(r, now) && now <= e.before <= e.at <= e.done
    requires r'.Valid() && DoesRound(c, r, e, r', byTimer)
    ensures Timed(r', e.done)
  {
    MarksSnoc(r.log, RoundOf(r, e, byTimer));
    SpacedSnoc(Marks(r.log), RoundOf(r, e, byTimer), now, e.done);
  }

  lemma SkipTimed(r: Receiver, now: nat, later: nat, r': Receiver)
    requires Timed(r, now) && now <= later
    requires r'.Valid() && SkipsRound(r, r')
    ensures Timed(r', later)
  {
    var marks, marks' := Marks(r.log), Marks(r'.log);
    if marks' != marks {
      assert marks' == marks + [marks'[|marks|]];
      SpacedSnoc(marks, marks'[|marks|], now, later);
    }
  }

  lemma StepTimed(c: Config, r: Receiver, e: Event, now: nat)
    requires Timed(r, now) && now <= e.before <= e.at <= e.done
    ensures Timed(Step(c, r, e), e.done)
  {
    StepEither(c, r, e);
    if DoesRound(c, r, e, Step(c, r, e), true) {
      RoundTimed(c, r, e, now, Step(c, r, e), true);
    } else if DoesRound(c, r, e, Step(c, r, e), false) {
      RoundTimed(c, r, e, now, Step(c, r, e), false);
    } else {
      SkipTimed(r, now, e.done, Step(c, r, e));
    }
  }

  lemma {:induction false} RunTimed(c: Config, r: Receiver, events: seq<Event>, now: nat)
    requires Timed(r, now) && ClockRuns(events) && (events != [] ==> now <= events[0].before)
    ensures Timed(Run(c, r, events), if events == [] then now else events[|events| - 1].done)
    decreases |events|
  {
    if events != [] {
      StepTimed(c, r, events[0], now);
      ClockRunsOn(events);
      RunTimed(c, Step(c, r, events[0]), events[1..], events[0].done);
    }
  }

  lemma ClockRunsOn(events: seq<Event>)
    requires ClockRuns(events) && events != []
    ensures ClockRuns(events[1..]) && events[0].before <= events[0].at <= events[0].done
    ensures |events| > 1 ==> events[0].done <= events[1..][0].before
    ensures |events| > 1 ==> events[1..][|events| - 2] == events[|events| - 1]
  {}

  // Over whole runs: two rounds of one session, the later one driven by the
  // timer, are at least the reissue interval apart, whatever started the earlier.
  lemma RoundsApart(marks: seq<Action>, now: nat, i: nat, j: nat)
    requires Spaced(marks, now) && i < j < |marks| && marks[i].Nacked? && marks[j].Nacked? && marks[j].byTimer
    requires forall k | i < k < j :: marks[k].Nacked?
    ensures marks[j].at >= marks[i].at + NACK_REISSUE_INTERVAL
  {
    assert marks[j - 1].at >= marks[i].at;
  }

  // The round that `Step(c, r, e)` completes, if the timer drove one.
  ghost predicate TimerRound(c: Config, r: Receiver, e: Event, round: Action)
    requires r.Valid()
  {
    round.Nacked? && round.byTimer && Step(c, r, e).log == r.log + [round]
  }

  // A timer round is never empty: it lists exactly the `frontier - count`
  // chunks missing below the frontier, and was due.
  lemma TimerRoundExact(c: Config, r: Receiver, e: Event, round: Action)
    requires r.Valid() && TimerRound(c, r, e, round)
    ensures r.session.Some? && Gapped(r) && NackDue(c, r, round.at)
    ensures var s := r.session.value;
            round.missing != [] && StrictlyIncreasing(round.missing) &&
            |round.missing| == s.Edge() - |s.got| && Elements(round.missing) == Below(s.Edge()) - s.got
  {
    StepEither(c, r, e);
    MarksSnoc(r.log, round);
    assert (r.log + [round])[|r.log|] == round;
    var s := r.session.value;
    MissingExact(s.got, s.Edge());
    MissingBelowFrontier(s.got, s.Edge());
  }

  // Over whole runs: when a timer round goes out, some gap has been open
  // without interruption for at least the holdoff, and the session's previous
  // round, timed or asked for by a DONE, is at least the reissue interval back.
  lemma TimerRoundJustified(c: Config, r0: Receiver, events: seq<Event>, n: nat, round: Action) returns (k: nat)
    requires r0.Valid() && !Gapped(r0) && n < |events|
    requires TimerRound(c, StateAt(c, r0, events, n), events[n], round)
    ensures GapBeganAt(c, r0, events, n, k) && round.at >= events[k].done + c.nackHoldoff
    ensures var last := StateAt(c, r0, events, n).lastNackAt;
            last.Some? ==> round.at >= last.value + NACK_REISSUE_INTERVAL
  {
    var r := StateAt(c, r0, events, n);
    TimerRoundExact(c, r, events[n], round);
    GapClockExact(c, r0, events, n);
    k :| GapBeganAt(c, r0, events, n, k) && r.session.value.gapSince == Some(events[k].done);
  }

  // ---------- Exactly when the timer drives a round ----------

  // The round clock is the record of the session's last round, timed or not.
  ghost predicate RoundClockRight(r: Receiver) {
    r.session.Some? ==> r.lastNackAt == LastRound(Marks(r.log))
  }

  lemma StepRoundClock(c: Config, r: Receiver, e: Event)
    requires r.Valid() && RoundClockRight(r)
    ensures RoundClockRight(Step(c, r, e))
  {
    StepEither(c, r, e);
    var r' := Step(c, r, e);
    if DoesRound(c, r, e, r', true) {
      RoundKeepsClock(r, r', RoundOf(r, e, true));
    } else if DoesRound(c, r, e, r', false) {
      RoundKeepsClock(r, r', RoundOf(r, e, false));
    } else {
      SkipKeepsClock(r, r');
    }
  }

  lemma RoundKeepsClock(r: Receiver, r': Receiver, round: Action)
    requires round.Nacked? && r'.log == r.log + [round] && r'.lastNackAt == Some(round.at)
    ensures RoundClockRight(r')
  {
    MarksSnoc(r.log, round);
  }

  lemma SkipKeepsClock(r: Receiver, r': Receiver)
    requires SkipsRound(r, r') && RoundClockRight(r)
    ensures RoundClockRight(r')
  {}

  lemma {:induction false} RoundClockExact(c: Config, r: Receiver, events: seq<Event>, n: nat)
    requires r.Valid() && r.session.None? && n <= |events|
    ensures RoundClockRight(StateAt(c, r, events, n))
  {
    if n == 0 {
      assert StateAt(c, r, events, 0) == r;
    } else {
      RoundClockExact(c, r, events, n - 1);
      StateAtNext(c, r, events, n - 1);
      StepRoundClock(c, StateAt(c, r, events, n - 1), events[n - 1]);
    }
  }

  // A round is due by the record: some gap has been open for the holdoff, and the
  // session's previous round, if there was one, is three seconds back.
  ghost predicate RoundDue(c: Config, r: Receiver, events: seq<Event>, n: nat)
    requires r.Valid() && n < |events|
  {
    (exists k: nat :: GapBeganAt(c, r, events, n, k) && events[n].at >= events[k].done + c.nackHoldoff) &&
    var last := LastRound(Marks(StateAt(c, r, events, n).log));
    (last.Some? ==> events[n].at >= last.value + 3000)
  }

  // The receiver reports every chunk missing below the last one stored, and
  // remembers when.
  ghost predicate Reports(r: Receiver, e: Event, r': Receiver)
    requires r.Valid() && r.session.Some? && r.sender.Some?
  {
    var missing := MissingBelow(r.session.value.got, r.session.value.Edge());
    r' == r.(lastNackAt := Some(e.at), log := r.log + [Nacked(e.at, true, missing)],
             sent := r.sent + Sends(r.sender.value, Nacks.NackPackets(missing)))
  }

  // And every datagram of the report can be sent.
  ghost predicate CanReport(r: Receiver, e: Event)
    requires r.Valid() && r.session.Some?
  {
    e.env.sends >= |Nacks.NackPackets(MissingBelow(r.session.value.got, r.session.value.Edge()))|
  }

  lemma TickReports(c: Config, r: Receiver, e: Event)
    requires r.Valid() && r.session.Some? && CanReport(r, e)
    requires e.input.TimedOut? && e.at < r.lastDataAt + c.idleTimeout
    ensures if NackDue(c, r, e.at) then Reports(r, e, Step(c, r, e)) else Step(c, r, e) == r
  {
    assert Step(c, r, e) == OnTick(c, r, e);
  }

  lemma GapBeganOnce(c: Config, r: Receiver, events: seq<Event>, n: nat, j: nat, k: nat)
    requires r.Valid() && n <= |events| && GapBeganAt(c, r, events, n, j) && GapBeganAt(c, r, events, n, k)
    ensures j == k
  {}

  lemma DueExactly(c: Config, r: Receiver, events: seq<Event>, n: nat)
    requires r.Valid() && r.session.None? && n < |events| && StateAt(c, r, events, n).session.Some?
    ensures NackDue(c, StateAt(c, r, events, n), events[n].at) <==> RoundDue(c, r, events, n)
  {
    var now := StateAt(c, r, events, n);
    GapClockExact(c, r, events, n);
    RoundClockExact(c, r, events, n);
    if Gapped(now) {
      var k: nat :| GapBeganAt(c, r, events, n, k) && now.session.value.gapSince == Some(events[k].done);
      forall j: nat | GapBeganAt(c, r, events, n, j) ensures j == k {
        GapBeganOnce(c, r, events, n, j, k);
      }
    }
  }

  // In every run: a read that times out while the sender is not silent for too long
  // makes a round if and only if one is due, and otherwise changes nothing.
  lemma TimerRoundExactly(c: Config, r: Receiver, events: seq<Event>, n: nat, j: nat)
    requires r.Valid() && r.session.None? && n < |events| && StateAt(c, r, events, n).session.Some?
    requires LastFrom(events, n, StateAt(c, r, events, n).sender.value, j)
    requires events[n].input.TimedOut? && events[n].at < events[j].at + c.idleTimeout
    requires CanReport(StateAt(c, r, events, n), events[n])
    ensures var before, after := StateAt(c, r, events, n), StateAt(c, r, events, n + 1);
            if RoundDue(c, r, events, n) then Reports(before, events[n], after) else after == before
  {
    var k := LastHeard(c, r, events, n);
    OneLast(events, n, StateAt(c, r, events, n).sender.value, j, k);
    DueExactly(c, r, events, n);
    StateAtNext(c, r, events, n);
    TickReports(c, StateAt(c, r, events, n), events[n]);
  }

  // ---------- Read timeouts ----------

  // `read_timeout`: how long the receiver blocks, measured at `now`.
  ghost function ReadTimeout(c: Config, r: Receiver, now: nat): nat
    requires r.session.Some?
  {
    var idle := r.lastDataAt + c.idleTimeout;
    var nack := Sessions.NackDeadline(r.session.value.gapSince, c.nackHoldoff, r.lastNackAt);
    var deadline := if nack.Some? && nack.value < idle then nack.value else idle;
    if deadline > now + 1 then deadline - now else 1
  }

  // The tick gives up on a silent sender, or a round is due: a gap has been open
  // for the holdoff and the last round is three seconds back.
  ghost predicate Productive(c: Config, r: Receiver, at: nat)
    requires r.session.Some?
  {
    var since, last := r.session.value.gapSince, r.lastNackAt;
    at >= r.lastDataAt + c.idleTimeout ||
    (since.Some? && at >= since.value + c.nackHoldoff && (last.Some? ==> at >= last.value + 3000))
  }

  // A read that times out is never wasted and never late: the timeout the loop asks
  // for ends at the first moment at which the tick has something to do, or after
  // the shortest time a socket can wait.
  lemma TimeoutIsProductive(c: Config, r: Receiver, now: nat, at: nat)
    requires r.Valid() && r.phase.Active? && r.session.Some?
    ensures at >= now + ReadTimeout(c, r, now) ==> Productive(c, r, at)
    ensures at < now + ReadTimeout(c, r, now) && ReadTimeout(c, r, now) != 1 ==> !Productive(c, r, at)
    ensures ReadTimeout(c, r, now) == 1 ==> Productive(c, r, now + 1)
  {}

  // What the tick then does depends on nothing else.
  lemma TickIsProductive(c: Config, r: Receiver, e: Event)
    requires r.Valid() && r.session.Some? && e.input.TimedOut?
    ensures Step(c, r, e) != r <==> Productive(c, r, e.at)
  {
    assert Step(c, r, e) == OnTick(c, r, e);
    var s := r.session.value;
    if NackDue(c, r, e.at) && e.at < r.lastDataAt + c.idleTimeout {
      var r' := NackRound(c, r, s.Edge(), true, e.at, e);
      assert |r'.log| == |r.log| + 1;
    }
  }
}
