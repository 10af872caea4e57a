/**
 What the receiver lingers for: the FIN that reports a save may be lost. Until the
 window closes, every DONE of the sender is answered by another FIN and renews the
 window, and a sender that hears one of them completes.
 */
module Lingering {
  import opened Options
  import opened Wire
  import opened ReceiverMachine
  import opened SenderMachine
  import opened SenderQueue
  import Recovery

  ghost predicate FromPeer(r: Receiver, e: Event, kind: PacketType) {
    e.input.Arrives? && r.sender == Some(e.input.from) && Parse(e.input.datagram).Some? &&
    Parse(e.input.datagram).value.kind == kind
  }

  // The window closes: it is over, a read times out or fails, or the peer confirms.
  ghost predicate Closes(r: Receiver, e: Event)
    requires r.phase.Lingering?
  {
    e.before >= r.phase.deadline || e.input.TimedOut? || e.input.Broken? || FromPeer(r, e, FinAck)
  }

  // The receiver lingers on exactly until then, and touches nothing meanwhile.
  lemma LingersExactly(c: Config, r: Receiver, e: Event)
    requires r.Valid() && r.phase.Lingering?
    ensures Step(c, r, e).phase.Lingering? <==> !Closes(r, e)
    ensures !Closes(r, e) ==>
      var r' := Step(c, r, e);
      r'.sender == r.sender && r'.session == None && r'.files == r.files && r'.log == r.log
  {}

  // While it does, a DONE of the peer is answered by a FIN and renews the window;
  // anything else changes nothing at all.
  lemma DoneRenews(c: Config, r: Receiver, e: Event)
    requires r.Valid() && r.phase.Lingering? && !Closes(r, e)
    ensures var r' := Step(c, r, e);
            if FromPeer(r, e, Done)
            then r'.phase == Lingering(e.done + c.lingerTimeout) &&
                 r'.sent == r.sent + if e.env.sends > 0 then [Outgoing(r.sender.value, Control(Fin, 0))] else []
            else r' == r
  {
    assert Sends(r.sender.value, [Control(Fin, 0)]) == [Outgoing(r.sender.value, Control(Fin, 0))];
    assert Sends(r.sender.value, []) == [];
  }

  ghost predicate StaysLingering(c: Config, r: Receiver, events: seq<Event>)
    requires r.Valid()
    decreases |events|
  {
    r.phase.Lingering? &&
    (events == [] || (!Closes(r, events[0]) && StaysLingering(c, Step(c, r, events[0]), events[1..])))
  }

  // However long it lasts, the saved file stays as it is.
  lemma {:induction false} LingerKeeps(c: Config, r: Receiver, events: seq<Event>)
    requires r.Valid() && StaysLingering(c, r, events)
    ensures var r' := ReceiverMachine.Run(c, r, events);
            r'.phase.Lingering? && r'.sender == r.sender && r'.files == r.files && r'.log == r.log
    decreases |events|
  {
    if events != [] {
      LingersExactly(c, r, events[0]);
      LingerKeeps(c, Step(c, r, events[0]), events[1..]);
    }
  }

  // The FIN was lost, so the sender made another pass and says DONE again. If that
  // DONE comes within the window and the FIN it gets is heard, the sender completes,
  // whatever both heard before.
  lemma LostFinRecovers(
    job: Job, s: Sender, fb: seq<Move>, c: Config, r: Receiver, events: seq<Event>, before: Receiver, e: Event,
    from: Addr)
    requires s.Valid(job) && s.stage.Blasting? && s.pending == [] && s.budget > 0
    requires Recovery.HearsOnly(fb) && Walk(job, Act(job, s), fb).stage.Feedback?
    requires r.Valid() && StaysLingering(c, r, events) && r.sender == Some(from)
    requires before == ReceiverMachine.Run(c, r, events) && before.phase.Lingering?
    requires e.input == Arrives(from, job.DoneDatagram()) && e.env.sends > 0 && e.before < before.phase.deadline
    ensures Outgoing(job.target, job.DoneDatagram()) in Act(job, s).sent
    ensures Step(c, before, e).sent == before.sent + [Outgoing(from, Control(Fin, 0))]
    ensures Step(c, before, e).files == r.files
    ensures Next(job, Walk(job, Act(job, s), fb), Some(Heard(s.peer, Control(Fin, 0)))).stage.Completed?
  {
    LingerKeeps(c, r, events);
    Recovery.FeedbackCollects(job, Act(job, s), fb);
    ParsePacketOf(Done, job.Total(), []);
    LingersExactly(c, before, e);
    DoneRenews(c, before, e);
    assert Act(job, s).sent[|s.sent|] == Outgoing(job.target, job.DoneDatagram());
    Recovery.FinCompletes(job, Walk(job, Act(job, s), fb), 0);
  }
}
