/**
 How a sender gets on by itself: past the handshake every chunk is queued or has
 gone out, so with a working socket and no replies it always reaches the end of
 its pass, with the whole file and a DONE on the wire.
 */
module Blasting {
  import opened Options
  import opened Wire
  import opened ReceiverMachine
  import opened SenderMachine
  import opened SenderQueue
  import opened Network

  // ---------- What the sender has put on the wire ----------

  ghost predicate ChunkOut(job: Job, s: Sender, chunk: u32)
    requires job.Valid() && chunk < job.Total()
  {
    Outgoing(job.target, job.DataDatagram(chunk)) in s.sent
  }

  ghost predicate Owing(job: Job, s: Sender) {
    s.Valid(job) && !s.stage.Greeting? &&
    (forall c: u32 | c < job.Total() :: c in s.pending || ChunkOut(job, s, c)) &&
    (s.stage.Feedback? ==> s.pending == [] && Outgoing(job.target, job.DoneDatagram()) in s.sent)
  }

  // Every reachable state is one of these.
  ghost predicate Standing(job: Job, s: Sender) {
    s.Valid(job) && (s.stage.Greeting? || s.stage.Stopped? || Owing(job, s))
  }

  lemma ActOwing(job: Job, s: Sender)
    requires Owing(job, s) && s.stage.Blasting?
    ensures Act(job, s).stage.Stopped? || Owing(job, Act(job, s))
  {
    var s' := Act(job, s);
    if s.budget > 0 {
      if s.pending == [] {
        assert s'.sent[|s.sent|] == Outgoing(job.target, job.DoneDatagram());
      } else {
        FrontSent(job, s, s', s.pending[0]);
      }
    }
  }

  lemma FrontSent(job: Job, s: Sender, s': Sender, chunk: u32)
    requires Owing(job, s) && chunk < job.Total() && s.pending == [chunk] + s'.pending && s'.Valid(job)
    requires s'.sent == s.sent + [Outgoing(job.target, job.DataDatagram(chunk))]
    ensures forall c: u32 | c < job.Total() :: c in s'.pending || ChunkOut(job, s', c)
  {
    forall c: u32 | c < job.Total() ensures c in s'.pending || ChunkOut(job, s', c) {
      assert c in s.pending || ChunkOut(job, s, c);
      assert s'.sent[|s.sent|] == Outgoing(job.target, job.DataDatagram(chunk));
    }
  }

  lemma QueueKept(job: Job, s: Sender, s': Sender)
    requires Owing(job, s) && s'.Valid(job) && (s'.stage.Blasting? || s'.stage.Draining?)
    requires s.pending <= s'.pending && s'.sent == s.sent
    ensures Owing(job, s')
  {
    forall c: u32 | c < job.Total() ensures c in s'.pending || ChunkOut(job, s', c) {
      assert c in s.pending || ChunkOut(job, s, c);
    }
  }

  lemma OnOwing(job: Job, s: Sender, reply: Reply)
    requires Owing(job, s) && (s.stage.Draining? || s.stage.Feedback?)
    ensures On(job, s, reply).stage.Stopped? || Owing(job, On(job, s, reply))
  {
    var s' := On(job, s, reply);
    if s.stage.Draining? && reply.Heard? && Parse(reply.datagram).Some? {
      var m := Parse(reply.datagram).value;
      PushAllDistinct(s.pending, job.Total(), DecodeNacks(m.seqNo, m.payload));
    }
    if s'.stage.Blasting? || s'.stage.Draining? {
      QueueKept(job, s, s');
    }
  }

  lemma AckOwing(job: Job, s: Sender, reply: Reply)
    requires s.Valid(job) && s.stage.Greeting?
    ensures Standing(job, OnGreeting(job, s, reply))
  {
    var s' := OnGreeting(job, s, reply);
    if s'.stage.Blasting? {
      forall c: u32 | c < job.Total() ensures c in s'.pending {
        assert s'.pending[c] == c;
      }
    }
  }

  lemma NextStanding(job: Job, s: Sender, m: Move)
    requires Standing(job, s)
    ensures Standing(job, Next(job, s, m))
  {
    if !s.Over() && s.stage.Blasting? && m.None? {
      ActOwing(job, s);
    } else if s.stage.Greeting? && m.Some? {
      AckOwing(job, s, m.value);
    } else if (s.stage.Draining? || s.stage.Feedback?) && m.Some? {
      OnOwing(job, s, m.value);
    }
  }

  lemma {:induction false} WalkStanding(job: Job, s: Sender, moves: seq<Move>)
    requires Standing(job, s)
    ensures Standing(job, Walk(job, s, moves))
    decreases |moves|
  {
    if moves != [] {
      WalkStanding(job, s, moves[..|moves| - 1]);
      NextStanding(job, Walk(job, s, moves[..|moves| - 1]), moves[|moves| - 1]);
    }
  }

  // ---------- Blasting to the end ----------

  // Moves that need no one else.
  ghost predicate Unprompted(moves: seq<Move>) {
    forall i | 0 <= i < |moves| :: moves[i] == None || moves[i] == Some(Quiet)
  }

  ghost predicate Sending(job: Job, s: Sender) {
    Owing(job, s) && (s.stage.Blasting? || s.stage.Draining?) && s.budget > |s.pending|
  }

  lemma StillSending(job: Job, s: Sender) returns (m: Move)
    requires Sending(job, s) && !(s.stage.Blasting? && s.pending == [])
    ensures m == None || m == Some(Quiet)
    ensures var s' := Next(job, s, m);
            Sending(job, s') && WorkLeft(s') < WorkLeft(s) && s'.peer == s.peer && s'.pass == s.pass
  {
    if s.stage.Blasting? {
      m := None;
      ActOwing(job, s);
    } else {
      m := Some(Quiet);
      OnOwing(job, s, Quiet);
    }
  }

  lemma WalkCons(job: Job, s: Sender, m: Move, rest: seq<Move>)
    requires s.Valid(job)
    ensures Walk(job, s, [m] + rest) == Walk(job, Next(job, s, m), rest)
  {
    WalkAppend(job, s, [m], rest);
    assert [m][..0] == [];
  }

  // Left alone, the sender empties its queue: everything is out.
  lemma {:induction false} BlastOut(job: Job, s: Sender) returns (moves: seq<Move>)
    requires Sending(job, s)
    ensures Unprompted(moves)
    ensures var s' := Walk(job, s, moves);
            Sending(job, s') && s'.stage.Blasting? && s'.pending == [] && s'.peer == s.peer && s'.pass == s.pass
    decreases WorkLeft(s)
  {
    if s.stage.Blasting? && s.pending == [] {
      return [];
    }
    var m := StillSending(job, s);
    var rest := BlastOut(job, Next(job, s, m));
    WalkCons(job, s, m, rest);
    moves := [m] + rest;
  }

  // ---------- The same among the turns of a run ----------

  // The network can pass any datagram on unharmed.
  ghost predicate PassesOn(ch: Channel) {
    forall d: Bytes | |d| >= HEADER_SIZE :: ch(d, d)
  }

  lemma Unharmed(ch: Channel, sent: seq<Outgoing>, to: Addr, d: Bytes)
    requires PassesOn(ch) && Outgoing(to, d) in sent && |d| >= HEADER_SIZE
    ensures Carries(ch, sent, to, d)
  {
    assert ch(d, d);
  }

  function TurnsOf(moves: seq<Move>): (turns: seq<Turn>)
    ensures |turns| == |moves|
  {
    if moves == [] then [] else TurnsOf(moves[..|moves| - 1]) + [SenderTurn(moves[|moves| - 1])]
  }

  lemma {:induction false} SenderGoes(
    u: Setup, ch: Channel, start: World, turns: seq<Turn>, w: World, moves: seq<Move>)
    requires Sane(u, start) && Sane(u, w) && Reached(u, ch, start, turns, w) && Unprompted(moves)
    ensures Reached(u, ch, start, turns + TurnsOf(moves), w.(s := Walk(u.job, w.s, moves)))
    ensures Events(turns + TurnsOf(moves)) == Events(turns)
    decreases |moves|
  {
    if moves == [] {
      assert turns + TurnsOf(moves) == turns;
    } else {
      var front, m := moves[..|moves| - 1], moves[|moves| - 1];
      SenderGoes(u, ch, start, turns, w, front);
      Extend(u, ch, start, turns + TurnsOf(front), w.(s := Walk(u.job, w.s, front)), SenderTurn(m));
      assert turns + TurnsOf(moves) == turns + TurnsOf(front) + [SenderTurn(m)];
      SplitSnoc(turns + TurnsOf(front), SenderTurn(m));
    }
  }

  // What the receiver lives through next, by itself.
  ghost function TurnsOn(events: seq<Event>): (turns: seq<Turn>)
    ensures |turns| == |events|
  {
    if events == [] then [] else TurnsOn(events[..|events| - 1]) + [ReceiverTurn(events[|events| - 1])]
  }

  ghost predicate AllCarried(u: Setup, ch: Channel, s: Sender, events: seq<Event>)
    requires u.Valid()
  {
    forall i | 0 <= i < |events| && events[i].input.Arrives? ::
      Carries(ch, s.sent, u.job.target, events[i].input.datagram)
  }

  lemma {:induction false} ReceiverGoes(
    u: Setup, ch: Channel, start: World, turns: seq<Turn>, w: World, events: seq<Event>)
    requires Sane(u, start) && Sane(u, w) && Reached(u, ch, start, turns, w) && AllCarried(u, ch, w.s, events)
    ensures Reached(u, ch, start, turns + TurnsOn(events), World(w.s, ReceiverMachine.Run(u.c, w.r, events)))
    ensures Events(turns + TurnsOn(events)) == Events(turns) + events
    decreases |events|
  {
    if events == [] {
      assert turns + TurnsOn(events) == turns;
    } else {
      var front, e := events[..|events| - 1], events[|events| - 1];
      assert events == front + [e];
      AllCarriedSplit(u, ch, w.s, front, e);
      ReceiverGoes(u, ch, start, turns, w, front);
      RunSnoc(u.c, w.r, front, e);
      TurnsOnSnoc(turns, events, front, e);
      ReceiverGoesOn(u, ch, start, turns + TurnsOn(front), World(w.s, ReceiverMachine.Run(u.c, w.r, front)), e);
    }
  }

  lemma ReceiverGoesOn(u: Setup, ch: Channel, start: World, turns: seq<Turn>, w: World, e: Event)
    requires Sane(u, start) && Sane(u, w) && Reached(u, ch, start, turns, w) && AllCarried(u, ch, w.s, [e])
    ensures Reached(u, ch, start, turns + [ReceiverTurn(e)], World(w.s, Step(u.c, w.r, e)))
  {
    assert e.input.Arrives? ==> Carries(ch, w.s.sent, u.job.target, [e][0].input.datagram);
    Extend(u, ch, start, turns, w, ReceiverTurn(e));
    TakeReceiver(u, w, e);
  }

  lemma AllCarriedSplit(u: Setup, ch: Channel, s: Sender, front: seq<Event>, e: Event)
    requires u.Valid() && AllCarried(u, ch, s, front + [e])
    ensures AllCarried(u, ch, s, front) && AllCarried(u, ch, s, [e])
  {
    assert (front + [e])[|front|] == e;
    assert forall i | 0 <= i < |front| :: (front + [e])[i] == front[i];
  }

  lemma TurnsOnSnoc(turns: seq<Turn>, events: seq<Event>, front: seq<Event>, e: Event)
    requires events == front + [e]
    ensures turns + TurnsOn(events) == turns + TurnsOn(front) + [ReceiverTurn(e)]
    ensures Events(turns + TurnsOn(events)) == Events(turns + TurnsOn(front)) + [e]
  {
    assert events[..|events| - 1] == front;
    assert turns + TurnsOn(events) == turns + TurnsOn(front) + [ReceiverTurn(e)];
    SplitSnoc(turns + TurnsOn(front), ReceiverTurn(e));
  }

  // From anywhere past the handshake to the end of the pass, the DONE out.
  lemma ToFeedback(u: Setup, ch: Channel, start: World, turns: seq<Turn>, w: World)
    returns (turns': seq<Turn>, w': World)
    requires Sane(u, start) && Reached(u, ch, start, turns, w)
    requires w.s.stage.Feedback? || Sending(u.job, w.s)
    requires Owing(u.job, w.s)
    ensures Reached(u, ch, start, turns', w') && w'.r == w.r
    ensures w'.s.stage.Feedback? && Owing(u.job, w'.s) && w'.s.peer == w.s.peer
    ensures Events(turns') == Events(turns)
  {
    if w.s.stage.Feedback? {
      return turns, w;
    }
    var moves := BlastOut(u.job, w.s);
    SenderGoes(u, ch, start, turns, w, moves);
    var v := w.(s := Walk(u.job, w.s, moves));
    ActOwing(u.job, v.s);
    Extend(u, ch, start, turns + TurnsOf(moves), v, SenderTurn(None));
    SplitSnoc(turns + TurnsOf(moves), SenderTurn(None));
    turns', w' := turns + TurnsOf(moves) + [SenderTurn(None)], Take(u, v, SenderTurn(None));
  }

  lemma AckHeard(u: Setup, ch: Channel, start: World, turns: seq<Turn>, w: World, p: Addr)
    returns (turns': seq<Turn>, w': World)
    requires Sane(u, start) && Reached(u, ch, start, turns, w) && w.s.stage.Greeting? && w.s.budget > u.job.Total()
    requires p == u.job.target ==> Carries(ch, w.r.sent, u.from, Control(Ack, 0))
    ensures turns' == turns + [SenderTurn(Some(Heard(p, Control(Ack, 0))))]
    ensures Reached(u, ch, start, turns', w') && w'.r == w.r && Sending(u.job, w'.s) && w'.s.peer == p
    ensures Events(turns') == Events(turns)
  {
    var t := SenderTurn(Some(Heard(p, Control(Ack, 0))));
    Extend(u, ch, start, turns, w, t);
    SplitSnoc(turns, t);
    KindOfPacket(Ack, 0, []);
    AckOwing(u.job, w.s, Heard(p, Control(Ack, 0)));
    turns', w' := turns + [t], Take(u, w, t);
  }

  lemma FinCompletes(job: Job, s: Sender, d: Bytes)
    requires s.Valid(job) && s.stage.Feedback? && ReadsAsFin(d)
    ensures var s' := Next(job, s, Some(Heard(s.peer, d)));
            s'.stage.Completed? && s'.peer == s.peer
  {}

  lemma FinHeard(u: Setup, ch: Channel, start: World, turns: seq<Turn>, w: World, d: Bytes)
    returns (turns': seq<Turn>, w': World)
    requires Sane(u, start) && Reached(u, ch, start, turns, w) && w.s.stage.Feedback? && ReadsAsFin(d)
    requires w.s.peer == u.job.target ==> Carries(ch, w.r.sent, u.from, d)
    ensures Reached(u, ch, start, turns', w') && w'.r == w.r && w'.s.stage.Completed? && w'.s.peer == w.s.peer
    ensures Events(turns') == Events(turns)
  {
    var t := SenderTurn(Some(Heard(w.s.peer, d)));
    Extend(u, ch, start, turns, w, t);
    SplitSnoc(turns, t);
    FinCompletes(u.job, w.s, d);
    turns', w' := turns + [t], Take(u, w, t);
  }
}
