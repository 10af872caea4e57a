/**
 How genuine FINs must be for completion to mean a saved file: over a network that
 keeps INITs, exactly so that no ACK and no NACK the receiver can send for the file
 arrives as a FIN. Otherwise every file has a run that completes with nothing saved.
 */
module ForgedFin {
  import opened Options
  import opened Wire
  import opened ChunkSets
  import opened Nacks
  import opened Sessions
  import opened ReceiverMachine
  import ReceiverSafety
  import opened SenderMachine
  import opened Network
  import EndToEnd
  import Fidelity
  import opened Recovery
  import opened Blasting
  import opened Completion

  // A list of the file's chunks, as a NACK round may report it.
  ghost predicate IsReport(job: Job, missing: seq<u32>)
    requires job.Valid()
  {
    StrictlyIncreasing(missing) && forall x | x in missing :: x < job.Total()
  }

  // What the receiver can say to the sender before it has saved anything.
  ghost predicate Answer(job: Job, d: Bytes)
    requires job.Valid()
  {
    d == Control(Ack, 0) || exists missing: seq<u32> :: IsReport(job, missing) && d in NackPackets(missing)
  }

  // None of it arrives as a FIN.
  ghost predicate FinsGenuine(job: Job, ch: Channel)
    requires job.Valid()
  {
    forall o, d | Answer(job, o) && ch(o, d) :: !ReadsAsFin(d)
  }

  // ---------- Genuine FINs are enough ----------

  ghost predicate SaysOnlyThat(u: Setup, r: Receiver)
    requires u.Valid()
  {
    forall o | o in r.sent && o.to == u.from :: ReceiverSafety.IsFin(o) || Answer(u.job, o.datagram)
  }

  ghost predicate Keeps(u: Setup, w: World) {
    EndToEnd.DoneIsSaved(u, w) && Fidelity.OnJob(u, w) && SaysOnlyThat(u, w.r)
  }

  lemma ReportIsReport(job: Job, s: Session, upto: u32)
    requires job.Valid() && s.Valid() && Fidelity.FromJob(job, s.init) && upto <= s.init.total
    ensures IsReport(job, MissingBelow(s.got, upto))
  {
    MissingExact(s.got, upto);
  }

  lemma MeantIsThat(u: Setup, w: World, r': Receiver, o: Outgoing)
    requires Fidelity.OnJob(u, w) && ReceiverSafety.Meant(w.r, r', o) && o.to == u.from
    ensures ReceiverSafety.IsFin(o) || Answer(u.job, o.datagram)
  {
    KindOfPacket(Fin, 0, []);
    if w.r.session.Some? && w.r.sender == Some(o.to) && ReceiverSafety.AsksFor(w.r.session.value, o.datagram) {
      var s := w.r.session.value;
      var upto: u32 :| upto <= s.init.total && o.datagram in NackPackets(MissingBelow(s.got, upto));
      ReportIsReport(u.job, s, upto);
    }
  }

  lemma ReceiverSaysOnlyThat(u: Setup, w: World, e: Event)
    requires Keeps(u, w)
    ensures SaysOnlyThat(u, Step(u.c, w.r, e))
  {
    var r' := Step(u.c, w.r, e);
    ReceiverSafety.StepMeant(u.c, w.r, e);
    assert r'.sent == w.r.sent + r'.sent[|w.r.sent|..];
    forall o | o in r'.sent[|w.r.sent|..] && o.to == u.from
      ensures ReceiverSafety.IsFin(o) || Answer(u.job, o.datagram)
    {
      MeantIsThat(u, w, r', o);
    }
  }

  lemma TakeKeeps(u: Setup, ch: Channel, w: World, t: Turn)
    requires Keeps(u, w) && FinsGenuine(u.job, ch) && KindKept(ch, Init) && InitsIntact(ch) && Possible(u, ch, w, t)
    ensures Keeps(u, Take(u, w, t))
  {
    Fidelity.TakeOnJob(u, ch, w, t);
    match t
    case SenderTurn(m) =>
      EndToEnd.SenderDoneIsSaved(u, ch, w, m);
    case ReceiverTurn(e) =>
      EndToEnd.ReceiverDoneIsSaved(u, w, e);
      ReceiverSaysOnlyThat(u, w, e);
  }

  lemma {:induction false} PlayKeeps(u: Setup, ch: Channel, w: World, turns: seq<Turn>)
    requires Keeps(u, w) && FinsGenuine(u.job, ch) && KindKept(ch, Init) && InitsIntact(ch) && Legal(u, ch, w, turns)
    ensures Keeps(u, Play(u, w, turns))
    decreases |turns|
  {
    if turns != [] {
      var front := turns[..|turns| - 1];
      PlayKeeps(u, ch, w, front);
      TakeKeeps(u, ch, Play(u, w, front), turns[|turns| - 1]);
    }
  }

  // ---------- And needed ----------

  // Lists in order with the same elements are equal: each report has its session.
  lemma {:induction false} ReportUnique(xs: seq<u32>, got: set<nat>, upto: u32)
    requires StrictlyIncreasing(xs) && forall x: nat :: x in xs <==> x < upto && x !in got
    ensures xs == MissingBelow(got, upto)
    decreases upto
  {
    assert xs != [] ==> xs[0] in xs;
    if upto == 0 {
    } else if upto - 1 in got {
      ReportUnique(xs, got, upto - 1);
    } else {
      LastIsGreatest(xs, upto - 1);
      var front := xs[..|xs| - 1];
      forall x: nat ensures x in front <==> x < upto - 1 && x !in got {
        assert x in xs <==> x in front || x == upto - 1;
      }
      ReportUnique(front, got, upto - 1);
    }
  }

  lemma LastIsGreatest(xs: seq<u32>, top: u32)
    requires StrictlyIncreasing(xs) && top in xs && forall x | x in xs :: x <= top
    ensures xs[|xs| - 1] == top && xs == xs[..|xs| - 1] + [top] && top !in xs[..|xs| - 1]
  {
    assert xs[|xs| - 1] in xs;
  }

  // What to deliver so that the receiver misses just these chunks.
  function Others(job: Job, missing: seq<u32>): seq<u32>
    requires job.Valid()
  {
    MissingBelow(Elements(missing), job.Total())
  }

  lemma OthersLeave(job: Job, missing: seq<u32>)
    requires job.Valid() && IsReport(job, missing)
    ensures MissingBelow(Elements(Others(job, missing)), job.Total()) == missing
  {
    MissingExact(Elements(missing), job.Total());
    ReportUnique(missing, Elements(Others(job, missing)), job.Total());
  }

  ghost predicate NothingSaved(log: seq<Action>) {
    forall a | a in log :: !a.Committed?
  }

  // The sender waits for feedback from its target, and this datagram is on its way
  // to it though nothing was saved.
  ghost predicate Answered(u: Setup, w: World, o: Bytes) {
    w.s.stage.Feedback? && w.s.peer == u.job.target && Outgoing(u.from, o) in w.r.sent && NothingSaved(w.r.log)
  }

  lemma FirstPass(u: Setup, ch: Channel, budget: nat, now: nat, files: Files) returns (turns: seq<Turn>, w: World)
    requires u.Valid() && Understood(u) && u.job.attempts > 0 && budget >= u.job.Total() + 2 && PassesOn(ch)
    ensures Reached(u, ch, Begin(u, budget, now, files), turns, w) && Elapses(now, Events(turns), now)
    ensures Answered(u, w, Control(Ack, 0)) && Owing(u.job, w.s) && FreshlyOpen(u, w.r)
  {
    var start := Begin(u, budget, now, files);
    StartGreets(u, budget, now, files);
    turns, w := InitHeard(u, ch, start, now);
    Unharmed(ch, w.r.sent, u.from, Control(Ack, 0));
    turns, w := AckHeard(u, ch, start, turns, w, u.job.target);
    turns, w := ToFeedback(u, ch, start, turns, w);
  }

  lemma FullMissesNothing(s: Session)
    requires s.Valid() && s.Full()
    ensures MissingBelow(s.got, s.init.total) == []
  {
    var missing := MissingBelow(s.got, s.init.total);
    assert missing != [] ==> missing[0] in missing;
    forall x: nat ensures x in missing <==> x < s.init.total && x !in s.got {
      MissingMember(s.got, s.init.total, x);
    }
  }

  lemma ReportOut(u: Setup, r: Receiver, e: Event, missing: seq<u32>, o: Bytes)
    requires Receiving(u, r) && missing == MissingBelow(r.session.value.got, u.job.Total()) && o in NackPackets(missing)
    requires e == At(e.at, u.from, u.job.DoneDatagram()).(env := SMOOTH.(sends := |NackPackets(missing)|))
    requires NothingSaved(r.log)
    ensures Outgoing(u.from, o) in Step(u.c, r, e).sent && NothingSaved(Step(u.c, r, e).log)
  {
    if r.session.value.Full() {
      FullMissesNothing(r.session.value);
    }
    DoneAsks(u, r, e);
    NewlySent(r, Step(u.c, r, e), u.from, NackPackets(missing));
  }

  lemma MissesJustThese(u: Setup, w: World, v: World, missing: seq<u32>)
    requires u.Valid() && FreshlyOpen(u, w.r) && IsReport(u.job, missing)
    requires Delivered(u, w, v, Others(u.job, missing))
    ensures missing == MissingBelow(v.r.session.value.got, u.job.Total())
  {
    OthersLeave(u.job, missing);
    assert v.r.session.value.got == Elements(Others(u.job, missing));
  }

  lemma AllOthersOut(u: Setup, s: Sender, missing: seq<u32>)
    requires u.Valid() && Owing(u.job, s) && s.stage.Feedback?
    ensures AllOut(u.job, s, Others(u.job, missing))
  {}

  lemma ThenReport(
    u: Setup, ch: Channel, start: World, turns: seq<Turn>, w: World, now: nat, missing: seq<u32>, o: Bytes)
    returns (turns': seq<Turn>, w': World)
    requires Sane(u, start) && Reached(u, ch, start, turns, w) && PassesOn(ch) && Elapses(now, Events(turns), now)
    requires Answered(u, w, Control(Ack, 0)) && Owing(u.job, w.s) && FreshlyOpen(u, w.r)
    requires IsReport(u.job, missing) && o in NackPackets(missing)
    ensures Reached(u, ch, start, turns', w') && Elapses(now, Events(turns'), now) && Answered(u, w', o)
  {
    AllOthersOut(u, w.s, missing);
    var ts, v := DeliverAll(u, ch, start, turns, w, now, now, Others(u.job, missing));
    MissesJustThese(u, w, v, missing);
    var e := At(now, u.from, u.job.DoneDatagram()).(env := SMOOTH.(sends := |NackPackets(missing)|));
    ReportOut(u, v.r, e, missing, o);
    turns', w' := HearNow(u, ch, start, ts, v, now, now, e);
  }

  // Each of these datagrams can be sent to a sender that then takes it for a FIN.
  lemma ForgedFinCompletes(u: Setup, ch: Channel, o: Bytes, d: Bytes, budget: nat, now: nat, files: Files)
    returns (turns: seq<Turn>, w: World)
    requires u.Valid() && Understood(u) && u.job.attempts > 0 && budget >= u.job.Total() + 2 && PassesOn(ch)
    requires Answer(u.job, o) && ch(o, d) && ReadsAsFin(d)
    ensures Reached(u, ch, Begin(u, budget, now, files), turns, w) && Elapses(now, Events(turns), now)
    ensures w.s.stage.Completed? && w.s.peer == u.job.target && NothingSaved(w.r.log)
  {
    var start := Begin(u, budget, now, files);
    turns, w := FirstPass(u, ch, budget, now, files);
    if o != Control(Ack, 0) {
      var missing: seq<u32> :| IsReport(u.job, missing) && o in NackPackets(missing);
      turns, w := ThenReport(u, ch, start, turns, w, now, missing, o);
    }
    assert Carries(ch, w.r.sent, u.from, d);
    turns, w := FinHeard(u, ch, start, turns, w, d);
  }

  // ---------- The exact condition ----------

  // In every run a sender that follows its target completes only after a save for it.
  ghost predicate CompletionSaves(u: Setup, ch: Channel, budget: nat, now: nat, files: Files)
    requires u.Valid()
  {
    forall turns, w |
      Reached(u, ch, Begin(u, budget, now, files), turns, w) && w.s.stage.Completed? && w.s.peer == u.job.target ::
      ReceiverSafety.CommittedTo(w.r.log, u.from)
  }

  lemma GenuineFinsSave(u: Setup, ch: Channel, budget: nat, now: nat, files: Files)
    requires u.Valid() && KindKept(ch, Init) && InitsIntact(ch) && FinsGenuine(u.job, ch)
    ensures CompletionSaves(u, ch, budget, now, files)
  {
    forall turns, w |
      Reached(u, ch, Begin(u, budget, now, files), turns, w) && w.s.stage.Completed? && w.s.peer == u.job.target
      ensures ReceiverSafety.CommittedTo(w.r.log, u.from)
    {
      Fidelity.BeginOnJob(u, budget, now, files);
      PlayKeeps(u, ch, Begin(u, budget, now, files), turns);
    }
  }

  lemma CompletionNeedsGenuineFins(u: Setup, ch: Channel, budget: nat, now: nat, files: Files)
    requires u.Valid() && Understood(u) && u.job.attempts > 0 && budget >= u.job.Total() + 2
    requires PassesOn(ch) && KindKept(ch, Init) && InitsIntact(ch)
    ensures CompletionSaves(u, ch, budget, now, files) <==> FinsGenuine(u.job, ch)
  {
    if FinsGenuine(u.job, ch) {
      GenuineFinsSave(u, ch, budget, now, files);
    } else {
      var o, d :| Answer(u.job, o) && ch(o, d) && ReadsAsFin(d);
      var turns, w := ForgedFinCompletes(u, ch, o, d, budget, now, files);
      assert !ReceiverSafety.CommittedTo(w.r.log, u.from);
    }
  }
}
