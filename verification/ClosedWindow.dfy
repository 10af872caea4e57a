/**
 Why completion after the save needs the window to be open: a one-shot receiver that
 has closed it sends nothing more. Every file has a run in which it was saved and
 the sender, whose FIN was lost, can no longer complete.
 */
module ClosedWindow {
  import opened Options
  import opened Wire
  import opened ReceiverMachine
  import opened SenderMachine
  import opened SenderQueue
  import opened Network
  import EndToEnd
  import opened Recovery
  import opened Blasting
  import opened Completion

  // Some turns from this time on complete the sender.
  ghost predicate CanComplete(u: Setup, ch: Channel, w: World, later: nat)
    requires Sane(u, w)
  {
    exists more, w', end ::
      Reached(u, ch, w, more, w') && w'.s.stage.Completed? && Elapses(later, Events(more), end)
  }

  // Something the receiver has sent can still arrive as a FIN.
  ghost predicate FinDue(u: Setup, ch: Channel, r: Receiver) {
    exists d :: ReadsAsFin(d) && Carries(ch, r.sent, u.from, d)
  }

  // ---------- Once the window has closed ----------

  ghost predicate Shut(r: Receiver, later: nat) {
    r.phase.Exited? || (r.phase.Lingering? && r.phase.deadline <= later)
  }

  lemma StepShut(c: Config, r: Receiver, e: Event, later: nat)
    requires r.Valid() && !c.serve && Shut(r, later) && later <= e.before
    ensures Shut(Step(c, r, e), later) && Step(c, r, e).sent == r.sent
  {}

  // The sender follows its target and has not completed.
  ghost predicate Waiting(u: Setup, s: Sender) {
    s.Valid(u.job) && !s.stage.Greeting? && !s.stage.Completed? && s.peer == u.job.target
  }

  lemma NextWaiting(u: Setup, ch: Channel, w: World, m: Move)
    requires Sane(u, w) && Waiting(u, w.s) && Possible(u, ch, w, SenderTurn(m)) && !FinDue(u, ch, w.r)
    ensures Waiting(u, Next(u.job, w.s, m))
  {
    assert m.Some? && m.value.Heard? && m.value.from == u.job.target ==>
      Carries(ch, w.r.sent, u.from, m.value.datagram);
    if Next(u.job, w.s, m).stage.Completed? {
      EndToEnd.CompletesOnFin(u.job, w.s, m);
    }
  }

  lemma {:induction false} PlayWaiting(
    u: Setup, ch: Channel, w: World, more: seq<Turn>, w': World, later: nat, end: nat)
    requires Sane(u, w) && Reached(u, ch, w, more, w') && Elapses(later, Events(more), end)
    requires !u.c.serve && Shut(w.r, later) && Waiting(u, w.s) && !FinDue(u, ch, w.r)
    ensures Shut(w'.r, later) && w'.r.sent == w.r.sent && Waiting(u, w'.s)
    decreases |more|
  {
    if more != [] {
      var front, t := more[..|more| - 1], more[|more| - 1];
      var mid := Play(u, w, front);
      ReachedLast(u, ch, w, more, front, t);
      SplitSnoc(front, t);
      assert more == front + [t];
      ElapsedBefore(later, Events(front), Events(more), end);
      PlayWaiting(u, ch, w, front, mid, later, end);
      match t
      case SenderTurn(m) =>
        NextWaiting(u, ch, mid, m);
      case ReceiverTurn(e) =>
        assert Events(more)[|Events(front)|] == e;
        StepShut(u.c, mid.r, e, later);
    }
  }

  lemma ElapsedBefore(now: nat, front: seq<Event>, events: seq<Event>, later: nat)
    requires Elapses(now, events, later) && front <= events
    ensures Elapses(now, front, later)
  {}

  // ---------- The exact condition ----------

  lemma DueFinCompletes(
    u: Setup, ch: Channel, budget: nat, now: nat, files: Files, turns: seq<Turn>, w: World, later: nat)
    requires u.Valid() && Reached(u, ch, Begin(u, budget, now, files), turns, w)
    requires GoesOn(u, w.s) && FinDue(u, ch, w.r)
    ensures CanComplete(u, ch, w, later)
  {
    ReachedStanding(u, ch, budget, now, files, turns, w);
    var d :| ReadsAsFin(d) && Carries(ch, w.r.sent, u.from, d);
    var ts, v := ToFeedback(u, ch, w, [], w);
    var more, w' := FinHeard(u, ch, w, ts, v, d);
    assert Elapses(later, Events(more), later);
  }

  // A one-shot receiver has saved the file and lingers. At any later time the sender
  // can still complete if and only if the window is open or a FIN is still due.
  lemma CompletionAfterSaveExactly(
    u: Setup, ch: Channel, budget: nat, now: nat, files: Files, turns: seq<Turn>, w: World, later: nat)
    requires u.Valid() && !u.c.serve && PassesOn(ch) && Reached(u, ch, Begin(u, budget, now, files), turns, w)
    requires Elapses(now, Events(turns), later) && GoesOn(u, w.s)
    requires w.r.phase.Lingering? && w.r.sender == Some(u.from)
    ensures CanComplete(u, ch, w, later) <==> later < w.r.phase.deadline || FinDue(u, ch, w.r)
  {
    if FinDue(u, ch, w.r) {
      DueFinCompletes(u, ch, budget, now, files, turns, w, later);
    } else if later < w.r.phase.deadline {
      var more, w' := CompletionAfterSave(u, ch, budget, now, files, turns, w, later);
    } else if CanComplete(u, ch, w, later) {
      var more, w', end :|
        Reached(u, ch, w, more, w') && w'.s.stage.Completed? && Elapses(later, Events(more), end);
      PlayWaiting(u, ch, w, more, w', later, end);
    }
  }

  // ---------- A run in which it closes ----------

  // The save succeeds, and the send of its FIN fails.
  function Unreported(u: Setup, now: nat): Event
    requires u.Valid()
  {
    At(now, u.from, u.job.DoneDatagram()).(env := SMOOTH.(sends := 0))
  }

  lemma DoneUnreported(u: Setup, r: Receiver, now: nat)
    requires Receiving(u, r) && r.session.value.Full()
    ensures var r' := Step(u.c, r, Unreported(u, now));
            Saved(u, r', r.session.value.init.path) && r'.phase == Lingering(now + u.c.lingerTimeout) &&
            r'.sender == Some(u.from) && r'.sent == r.sent
  {
    DoneCommits(u, r, Unreported(u, now));
    assert Sends(u.from, FirstOf([Control(Fin, 0)], 0)) == [];
  }

  lemma SavedUnreported(u: Setup, ch: Channel, budget: nat, now: nat, files: Files)
    returns (turns: seq<Turn>, w: World)
    requires u.Valid() && Understood(u) && u.job.attempts > 0 && budget >= u.job.Total() + 2 && PassesOn(ch)
    ensures Reached(u, ch, Begin(u, budget, now, files), turns, w) && Elapses(now, Events(turns), now)
    ensures w.s.stage.Feedback? && w.s.peer == u.job.target && w.r.sent == [Outgoing(u.from, Control(Ack, 0))]
    ensures Saved(u, w.r, TheInit(u).path) && w.r.sender == Some(u.from)
    ensures w.r.phase == Lingering(now + u.c.lingerTimeout)
  {
    var start := Begin(u, budget, now, files);
    StartGreets(u, budget, now, files);
    turns, w := InitHeard(u, ch, start, now);
    Unharmed(ch, w.r.sent, u.from, Control(Ack, 0));
    turns, w := AckHeard(u, ch, start, turns, w, u.job.target);
    turns, w := ToFeedback(u, ch, start, turns, w);
    turns, w := Fill(u, ch, start, turns, w, now, now);
    DoneUnreported(u, w.r, now);
    turns, w := HearNow(u, ch, start, turns, w, now, now, Unreported(u, now));
  }

  lemma NoFinDue(u: Setup, ch: Channel, r: Receiver)
    requires KindKept(ch, Fin) && r.sent == [Outgoing(u.from, Control(Ack, 0))]
    ensures !FinDue(u, ch, r)
  {
    KindOfPacket(Ack, 0, []);
    forall d | ReadsAsFin(d) ensures !Carries(ch, r.sent, u.from, d) {
      ParsedKind(d);
    }
  }

  // Every file both ends accept has a run after which it is saved at a one-shot
  // receiver and the sender follows it with sends left, and yet can never complete.
  lemma WindowCanClose(u: Setup, ch: Channel, budget: nat, now: nat, files: Files, later: nat)
    returns (turns: seq<Turn>, w: World)
    requires u.Valid() && Understood(u) && u.job.attempts > 0 && budget >= u.job.Total() + 2
    requires !u.c.serve && PassesOn(ch) && KindKept(ch, Fin) && now + u.c.lingerTimeout <= later
    ensures Reached(u, ch, Begin(u, budget, now, files), turns, w) && Elapses(now, Events(turns), later)
    ensures GoesOn(u, w.s) && Saved(u, w.r, TheInit(u).path) && !CanComplete(u, ch, w, later)
  {
    turns, w := SavedUnreported(u, ch, budget, now, files);
    NoFinDue(u, ch, w.r);
    CompletionAfterSaveExactly(u, ch, budget, now, files, turns, w, later);
  }
}
