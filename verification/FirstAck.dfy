/**
 Which host the sender follows: the one whose ACK it hears first, whoever that is.
 Completion speaks for the receiver exactly when that host is the target.
 */
module FirstAck {
  import opened Options
  import opened Wire
  import opened ReceiverMachine
  import ReceiverSafety
  import opened SenderMachine
  import opened SenderQueue
  import opened Network
  import EndToEnd
  import Blasting

  predicate IsAck(m: Move) {
    m.Some? && m.value.Heard? && KindOf(m.value.datagram) == Some(Ack)
  }

  ghost predicate NoAckBefore(moves: seq<Move>, n: nat)
    requires n <= |moves|
  {
    forall j | 0 <= j < n :: !IsAck(moves[j])
  }

  // Move `i` is the first ACK the sender hears, and it comes from `p`.
  ghost predicate FirstAckFrom(moves: seq<Move>, i: nat, p: Addr) {
    i < |moves| && IsAck(moves[i]) && moves[i].value.from == p && NoAckBefore(moves, i)
  }

  lemma HandshakeStep(job: Job, s: Sender, m: Move)
    requires s.Valid(job) && s.stage.Greeting?
    ensures var s' := Next(job, s, m);
            if s'.stage.Greeting? then !IsAck(m) else s'.stage.Stopped? || (IsAck(m) && s'.peer == m.value.from)
  {}

  lemma LaterStep(job: Job, s: Sender, m: Move)
    requires s.Valid(job) && !s.stage.Greeting?
    ensures var s' := Next(job, s, m);
            !s'.stage.Greeting? && s'.peer == s.peer && (s.stage.Stopped? ==> s'.stage.Stopped?)
  {}

  // Until it hears one, the sender is in its handshake or has given up.
  lemma {:induction false} StillGreeting(job: Job, s: Sender, moves: seq<Move>)
    requires s.Valid(job) && s.stage.Greeting? && Walk(job, s, moves).stage.Greeting?
    ensures NoAckBefore(moves, |moves|)
    decreases |moves|
  {
    if moves != [] {
      var front, m := moves[..|moves| - 1], moves[|moves| - 1];
      var mid := Walk(job, s, front);
      if !mid.stage.Greeting? {
        LaterStep(job, mid, m);
      }
      HandshakeStep(job, mid, m);
      StillGreeting(job, s, front);
      assert forall j | 0 <= j < |front| :: moves[j] == front[j];
    }
  }

  // A sender past its handshake follows the host whose ACK it heard first.
  lemma {:induction false} PeerSentFirstAck(job: Job, s: Sender, moves: seq<Move>) returns (i: nat)
    requires s.Valid(job) && s.stage.Greeting?
    requires !Walk(job, s, moves).stage.Greeting? && !Walk(job, s, moves).stage.Stopped?
    ensures FirstAckFrom(moves, i, Walk(job, s, moves).peer)
    decreases |moves|
  {
    var front, m := moves[..|moves| - 1], moves[|moves| - 1];
    var mid := Walk(job, s, front);
    if mid.stage.Greeting? {
      HandshakeStep(job, mid, m);
      StillGreeting(job, s, front);
      i := |moves| - 1;
    } else {
      LaterStep(job, mid, m);
      i := PeerSentFirstAck(job, s, front);
    }
    assert forall j | 0 <= j < |front| :: moves[j] == front[j];
  }

  lemma OneFirstAck(moves: seq<Move>, i: nat, j: nat, p: Addr, q: Addr)
    requires FirstAckFrom(moves, i, p) && FirstAckFrom(moves, j, q)
    ensures p == q
  {}

  // ---------- Any other host can complete the sender ----------

  // For every job and every host but the target: one ACK and one FIN from that
  // host, and the sender is complete while the receiver never heard of it.
  lemma StrangerCompletes(u: Setup, ch: Channel, p: Addr, budget: nat, now: nat, files: Files)
    returns (turns: seq<Turn>, w: World)
    requires u.Valid() && p != u.job.target && u.job.attempts > 0 && budget >= u.job.Total() + 2
    ensures Reached(u, ch, Begin(u, budget, now, files), turns, w) && FirstAckFrom(Moves(turns), 0, p)
    ensures w.s.stage.Completed? && w.s.peer == p && w.r == ReceiverMachine.Start(now, files) && Events(turns) == []
  {
    var start := Begin(u, budget, now, files);
    var first, w1 := Blasting.AckHeard(u, ch, start, [], start, p);
    var more, w2 := Blasting.ToFeedback(u, ch, w1, [], w1);
    ParsePacketOf(Fin, 0, []);
    more, w := Blasting.FinHeard(u, ch, w1, more, w2, Control(Fin, 0));
    turns := first + more;
    ReachedFurther(u, ch, start, first, w1, more, w);
    EventsAppend(first, more);
    SplitSnoc([], SenderTurn(Some(Heard(p, Control(Ack, 0)))));
    MovesPrefix(first, turns);
    KindOfPacket(Ack, 0, []);
  }

  lemma {:induction false} MovesPrefix(a: seq<Turn>, b: seq<Turn>)
    requires a <= b
    ensures Moves(a) <= Moves(b)
    decreases |b|
  {
    if |a| < |b| {
      MovesPrefix(a, b[..|b| - 1]);
      assert b == b[..|b| - 1] + [b[|b| - 1]];
      SplitSnoc(b[..|b| - 1], b[|b| - 1]);
    } else {
      assert a == b;
    }
  }

  // ---------- The exact condition ----------

  // In every completed run whose first ACK came from `p`, a file was saved.
  ghost predicate CompletionCounts(u: Setup, ch: Channel, budget: nat, now: nat, files: Files, p: Addr)
    requires u.Valid()
  {
    forall turns, w |
      Reached(u, ch, Begin(u, budget, now, files), turns, w) && w.s.stage.Completed? &&
      (exists i: nat :: FirstAckFrom(Moves(turns), i, p)) ::
      ReceiverSafety.CommittedTo(w.r.log, u.from)
  }

  lemma TargetCounts(u: Setup, ch: Channel, budget: nat, now: nat, files: Files, turns: seq<Turn>, w: World, i: nat)
    requires u.Valid() && KindKept(ch, Fin) && Reached(u, ch, Begin(u, budget, now, files), turns, w)
    requires w.s.stage.Completed? && FirstAckFrom(Moves(turns), i, u.job.target)
    ensures ReceiverSafety.CommittedTo(w.r.log, u.from)
  {
    var start := Begin(u, budget, now, files);
    PlayIsRuns(u, start, turns);
    EndToEnd.PlayDoneIsSaved(u, ch, start, turns);
    if start.s.stage.Greeting? {
      var j := PeerSentFirstAck(u.job, start.s, Moves(turns));
      OneFirstAck(Moves(turns), i, j, u.job.target, w.s.peer);
    } else {
      OverForGood(u.job, start.s, Moves(turns));
    }
  }

  lemma {:induction false} OverForGood(job: Job, s: Sender, moves: seq<Move>)
    requires s.Valid(job) && s.Over()
    ensures Walk(job, s, moves) == s
    decreases |moves|
  {
    if moves != [] {
      OverForGood(job, s, moves[..|moves| - 1]);
    }
  }

  // Over a network that forges no FIN, completion means that a file was saved
  // exactly when the first ACK the sender heard was the target's.
  lemma CompletionCountsExactly(u: Setup, ch: Channel, budget: nat, now: nat, files: Files, p: Addr)
    requires u.Valid() && KindKept(ch, Fin) && u.job.attempts > 0 && budget >= u.job.Total() + 2
    ensures CompletionCounts(u, ch, budget, now, files, p) <==> p == u.job.target
  {
    if p == u.job.target {
      forall turns, w |
        Reached(u, ch, Begin(u, budget, now, files), turns, w) && w.s.stage.Completed? &&
        (exists i: nat :: FirstAckFrom(Moves(turns), i, p))
        ensures ReceiverSafety.CommittedTo(w.r.log, u.from)
      {
        var i: nat :| FirstAckFrom(Moves(turns), i, p);
        TargetCounts(u, ch, budget, now, files, turns, w, i);
      }
    } else {
      var turns, w := StrangerCompletes(u, ch, p, budget, now, files);
      assert !ReceiverSafety.CommittedTo(w.r.log, u.from);
    }
  }
}
