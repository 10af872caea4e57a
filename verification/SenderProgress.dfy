/**
 The sender's pace and its end, over whole runs: how far it says it has got, when it
 looks at the socket in mid-blast, and on what it completes or stops.
 */
module SenderProgress {
  import opened Options
  import opened Wire
  import opened SenderMachine
  import opened SenderQueue

  // ---------- Looking at the socket ----------

  // How many DATA have gone out since `start`.
  function Since(start: Sender, s: Sender): int {
    |s.blasted| - |start.blasted|
  }

  // In the pass that began at `start` the sender knows how many DATA it has sent
  // since it last drained the socket, and it drains after whole sixteens only.
  ghost predicate OnBeat(start: Sender, s: Sender) {
    Since(start, s) >= 0 && s.pass >= start.pass && !s.stage.Greeting? &&
    (s.pass == start.pass && s.stage.Blasting? ==> s.stage.sinceDrain == Since(start, s) % 16) &&
    (s.pass == start.pass && s.stage.Draining? ==> Since(start, s) > 0 && Since(start, s) % 16 == 0)
  }

  lemma NextOnBeat(job: Job, start: Sender, s: Sender, m: Move)
    requires s.Valid(job) && OnBeat(start, s)
    ensures OnBeat(start, Next(job, s, m))
  {}

  lemma {:induction false} WalkOnBeat(job: Job, start: Sender, moves: seq<Move>)
    requires start.Valid(job) && start.stage == Blasting(0)
    ensures OnBeat(start, Walk(job, start, moves))
    decreases |moves|
  {
    if moves != [] {
      WalkOnBeat(job, start, moves[..|moves| - 1]);
      NextOnBeat(job, start, Walk(job, start, moves[..|moves| - 1]), moves[|moves| - 1]);
    }
  }

  // Within a pass the sender drains the socket after every sixteenth DATA, and after
  // no other.
  lemma DrainsEverySixteenth(job: Job, start: Sender, moves: seq<Move>)
    requires start.Valid(job) && start.stage == Blasting(0)
    ensures var s := Walk(job, start, moves);
            var s' := Next(job, s, None);
            s.pass == start.pass && |s'.blasted| > |s.blasted| ==> (s'.stage.Draining? <==> Since(start, s') % 16 == 0)
  {
    var s := Walk(job, start, moves);
    WalkOnBeat(job, start, moves);
    NextOnBeat(job, start, s, None);
  }

  // ---------- Progress ----------

  // The state counts: some DATA has gone out and the sender has not failed.
  predicate Counts(s: Sender) {
    s.blasted != [] && !s.stage.Stopped?
  }

  ghost predicate Bounded(job: Job, s: Sender) {
    Inv(job, s) && (Counts(s) ==> job.Total() - |s.pending| <= s.progress) && (s.blasted == [] ==> s.progress == 0)
  }

  lemma ActBounded(job: Job, s: Sender)
    requires Bounded(job, s) && s.stage.Blasting?
    ensures Bounded(job, Act(job, s))
    ensures var s' := Act(job, s);
            s'.progress == s.progress || (Counts(s') && s'.progress == job.Total() - |s'.pending|)
  {
    ActInv(job, s);
  }

  lemma OnBounded(job: Job, s: Sender, reply: Reply)
    requires Bounded(job, s) && !s.Over() && !s.stage.Blasting?
    ensures Bounded(job, On(job, s, reply)) && On(job, s, reply).progress == s.progress
  {
    OnInv(job, s, reply);
    var s' := On(job, s, reply);
    QueueGrows(job, s, reply);
  }

  lemma QueueGrows(job: Job, s: Sender, reply: Reply)
    requires s.Valid(job) && !s.Over() && !s.stage.Blasting?
    ensures var s' := On(job, s, reply);
            s'.blasted == s.blasted && s'.progress == s.progress && (s.stage.Greeting? || s.pending <= s'.pending)
  {
    if s.stage.Draining? && reply.Heard? {
      match Parse(reply.datagram) {
        case Some(Message(Nack, count, payload)) =>
          PushAllDistinct(s.pending, job.Total(), DecodeNacks(count, payload));
        case _ =>
      }
    } else if s.stage.Feedback? && reply.Quiet? {
      PushAllDistinct(s.pending, job.Total(), FirstOccurrences(s.stage.missing));
    }
  }

  // After `i` of the moves the sender had this many chunks behind it.
  ghost predicate ShownAt(job: Job, s: Sender, moves: seq<Move>, i: nat, done: nat)
    requires s.Valid(job) && i <= |moves|
  {
    var at := Walk(job, s, moves[..i]);
    Counts(at) && done == job.Total() - |at.pending|
  }

  lemma {:induction false} WalkBounded(job: Job, s: Sender, moves: seq<Move>)
    requires Bounded(job, s)
    ensures Bounded(job, Walk(job, s, moves)) && s.progress <= Walk(job, s, moves).progress
    decreases |moves|
  {
    WalkInv(job, s, moves);
    if moves != [] {
      var front, m := moves[..|moves| - 1], moves[|moves| - 1];
      var mid := Walk(job, s, front);
      WalkBounded(job, s, front);
      if !mid.Over() && mid.stage.Blasting? && m.None? {
        ActBounded(job, mid);
      } else if !mid.Over() && !mid.stage.Blasting? && m.Some? {
        OnBounded(job, mid, m.value);
      }
    }
  }

  // The progress reported is the furthest the run has got: no state along it had
  // more chunks behind it, and some state had as many.
  lemma {:induction false} ProgressReached(job: Job, s: Sender, moves: seq<Move>) returns (i: nat)
    requires Bounded(job, s) && s.blasted == []
    ensures var progress := Walk(job, s, moves).progress;
            i <= |moves| && (progress > 0 ==> ShownAt(job, s, moves, i, progress))
    decreases |moves|
  {
    if moves == [] {
      return 0;
    }
    var front, m := moves[..|moves| - 1], moves[|moves| - 1];
    var mid := Walk(job, s, front);
    WalkBounded(job, s, front);
    i := ProgressReached(job, s, front);
    assert front[..i] == moves[..i];
    if !mid.Over() && mid.stage.Blasting? && m.None? {
      ActBounded(job, mid);
      if Act(job, mid).progress != mid.progress {
        i := |moves|;
        assert moves[..i] == moves;
      }
    } else if !mid.Over() && !mid.stage.Blasting? && m.Some? {
      OnBounded(job, mid, m.value);
    }
  }

  lemma ProgressIsMost(job: Job, s: Sender, moves: seq<Move>, i: nat, done: nat)
    requires Bounded(job, s) && i <= |moves| && ShownAt(job, s, moves, i, done)
    ensures done <= Walk(job, s, moves).progress
  {
    WalkBounded(job, s, moves[..i]);
    WalkAppend(job, s, moves[..i], moves[i..]);
    assert moves == moves[..i] + moves[i..];
    WalkBounded(job, Walk(job, s, moves[..i]), moves[i..]);
  }

  lemma StartBounded(job: Job, budget: nat)
    requires job.Valid()
    ensures Bounded(job, Start(job, budget)) && Start(job, budget).blasted == []
  {
    StartInv(job, budget);
  }

  lemma ProgressExactly(job: Job, budget: nat, moves: seq<Move>) returns (i: nat)
    requires job.Valid()
    ensures var start := Start(job, budget);
            var progress := Walk(job, start, moves).progress;
            i <= |moves| && (progress > 0 ==> ShownAt(job, start, moves, i, progress)) &&
            forall k: nat, done: nat | k <= |moves| && ShownAt(job, start, moves, k, done) :: done <= progress
  {
    StartBounded(job, budget);
    i := ProgressReached(job, Start(job, budget), moves);
    forall k: nat, done: nat | k <= |moves| && ShownAt(job, Start(job, budget), moves, k, done)
      ensures done <= Walk(job, Start(job, budget), moves).progress
    {
      ProgressIsMost(job, Start(job, budget), moves, k, done);
    }
  }

  // ---------- The end ----------

  // Past the handshake the sender completes exactly on a FIN from its peer while it
  // listens, and then says so if the socket lets it. It fails exactly when a send or
  // a read does, or when the socket falls quiet after the last pass.
  lemma EndsExactly(job: Job, s: Sender, m: Move)
    requires s.Valid(job) && !s.Over() && !s.stage.Greeting?
    ensures var s', listens := Next(job, s, m), s.stage.Draining? || s.stage.Feedback?;
            (s'.stage.Completed? <==> listens && m.Some? && HearsFin(s, m.value)) &&
            (s'.stage.Completed? ==>
              s'.sent == s.sent + if s.budget > 0 then [Outgoing(s.peer, Control(FinAck, 0))] else []) &&
            (s'.stage == Stopped(SocketError) <==>
              (s.stage.Blasting? && m.None? && s.budget == 0) ||
              (listens && m.Some? && (m.value.Cut? || m.value.Dead?))) &&
            (s'.stage == Stopped(GaveUp) <==> s.stage.Feedback? && m == Some(Quiet) && s.pass >= job.passes) &&
            s'.stage != Stopped(HandshakeTimeout)
  {}

  predicate HearsFin(s: Sender, reply: Reply) {
    reply.Heard? && reply.from == s.peer && Parse(reply.datagram).Some? && Parse(reply.datagram).value.kind == Fin
  }
}
