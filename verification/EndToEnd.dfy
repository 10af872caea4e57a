/**
 End-to-end safety: what a sender that completes may conclude, over a network
 that loses, repeats, reorders and damages datagrams, but lets nothing pass for a
 FIN or an INIT that was not sent as one.
 */
module EndToEnd {
  import opened Options
  import opened Wire
  import opened InitPacket
  import opened ReceiverMachine
  import ReceiverSafety
  import opened ReceiverFiles
  import ReceiverHistory
  import opened SenderMachine
  import SenderQueue
  import SenderHonesty
  import opened Network

  // The sender is done only after the receiver has saved a file for it.
  ghost predicate DoneIsSaved(u: Setup, w: World) {
    Sane(u, w) && ReceiverSafety.Sound(u.c, w.r) &&
    (w.s.stage.Completed? && w.s.peer == u.job.target ==> ReceiverSafety.CommittedTo(w.r.log, u.from))
  }

  // A sender completes on a FIN from its peer, and on nothing else.
  lemma CompletesOnFin(job: Job, s: Sender, m: SenderQueue.Move)
    requires s.Valid(job) && !s.stage.Completed? && SenderQueue.Next(job, s, m).stage.Completed?
    ensures m.Some? && m.value.Heard? && m.value.from == s.peer && SenderQueue.Next(job, s, m).peer == s.peer
    ensures ReadsAsFin(m.value.datagram) && KindOf(m.value.datagram) == Some(Fin)
  {
    if m.Some? && m.value.Heard? && Parse(m.value.datagram).Some? {
      ParsedKind(m.value.datagram);
    }
  }

  // What completes the sender was a FIN when the receiver sent it.
  lemma SenderDoneIsSaved(u: Setup, ch: Channel, w: World, m: SenderQueue.Move)
    requires DoneIsSaved(u, w) && Possible(u, ch, w, SenderTurn(m))
    requires forall o, d | o in w.r.sent && o.to == u.from && ch(o.datagram, d) && ReadsAsFin(d) ::
      ReceiverSafety.IsFin(o)
    ensures DoneIsSaved(u, Take(u, w, SenderTurn(m)))
  {
    if !w.s.stage.Completed? && SenderQueue.Next(u.job, w.s, m).stage.Completed? && w.s.peer == u.job.target {
      CompletesOnFin(u.job, w.s, m);
      var d := m.value.datagram;
      var o :| o in w.r.sent && o.to == u.from && ch(o.datagram, d);
      assert ReceiverSafety.IsFin(o);
    }
  }

  lemma ReceiverDoneIsSaved(u: Setup, w: World, e: Event)
    requires DoneIsSaved(u, w)
    ensures DoneIsSaved(u, Take(u, w, ReceiverTurn(e)))
  {
    ReceiverSafety.StepSound(u.c, w.r, e);
    if w.s.stage.Completed? && w.s.peer == u.job.target {
      var a :| a in w.r.log && a.Committed? && a.peer == u.from;
      ReceiverHistory.StepKeepsCommits(u.c, w.r, e, a);
    }
  }

  lemma TakeDoneIsSaved(u: Setup, ch: Channel, w: World, t: Turn)
    requires KindKept(ch, Fin) && DoneIsSaved(u, w) && Possible(u, ch, w, t)
    ensures DoneIsSaved(u, Take(u, w, t))
  {
    match t
    case SenderTurn(m) =>
      forall o, d | o in w.r.sent && o.to == u.from && ch(o.datagram, d) && ReadsAsFin(d)
        ensures ReceiverSafety.IsFin(o)
      {
        ParsedKind(d);
      }
      SenderDoneIsSaved(u, ch, w, m);
    case ReceiverTurn(e) =>
      ReceiverDoneIsSaved(u, w, e);
  }

  lemma {:induction false} PlayDoneIsSaved(u: Setup, ch: Channel, w: World, turns: seq<Turn>)
    requires KindKept(ch, Fin) && DoneIsSaved(u, w) && Legal(u, ch, w, turns)
    ensures DoneIsSaved(u, Play(u, w, turns))
    decreases |turns|
  {
    if turns != [] {
      var front := turns[..|turns| - 1];
      PlayDoneIsSaved(u, ch, w, front);
      TakeDoneIsSaved(u, ch, Play(u, w, front), turns[|turns| - 1]);
    }
  }

  // ---------- Which INIT a saved file goes back to ----------

  // The hash field of an INIT datagram, as the receiver reads it.
  function DeclaredHash(d: Bytes): Bytes {
    if Parse(d).Some? && |Parse(d).value.payload| >= NAME_OFFSET
    then Parse(d).value.payload[HASH_OFFSET..NAME_OFFSET]
    else []
  }

  lemma OpensReadsHash(c: Config, e: Event, init: InitInfo, sender: Option<Addr>)
    requires Opens(c, e, init, sender)
    ensures DeclaredHash(e.input.datagram) == init.hash
  {}

  lemma SenderHonest(u: Setup, budget: nat, now: nat, files: Files, turns: seq<Turn>)
    requires u.Valid()
    ensures SenderHonesty.AllHonest(u.job, Play(u, Begin(u, budget, now, files), turns).s.sent)
  {
    SenderHonesty.StartHonest(u.job, budget);
    PlayIsRuns(u, Begin(u, budget, now, files), turns);
    SenderHonesty.WalkHonest(u.job, SenderMachine.Start(u.job, budget), Moves(turns));
  }

  // An INIT that opens a session for this sender is what the network made of the
  // sender's own.
  lemma OpenedBySender(
    u: Setup, ch: Channel, budget: nat, now: nat, files: Files, turns: seq<Turn>, k: nat, init: InitInfo)
    requires u.Valid() && KindKept(ch, Init) && Legal(u, ch, Begin(u, budget, now, files), turns)
    requires k < |Events(turns)| && Opens(u.c, Events(turns)[k], init, Some(u.from))
    ensures ch(u.job.InitDatagram(), Events(turns)[k].input.datagram)
  {
    var d := Events(turns)[k].input.datagram;
    var t := EventTurn(u, ch, Begin(u, budget, now, files), turns, k);
    var sent := Play(u, Begin(u, budget, now, files), turns[..t]).s.sent;
    SenderHonest(u, budget, now, files, turns[..t]);
    assert Carries(ch, sent, u.job.target, d);
    var o :| o in sent && o.to == u.job.target && ch(o.datagram, d);
    ParsedKind(d);
    assert SenderHonesty.Honest(u.job, o.datagram);
  }

  // A file saved for the sender, with the INIT that opened its session (event `k`
  // at the receiver) and the DONE that saved it (event `n`).
  ghost predicate SavedFromInit(u: Setup, ch: Channel, r: Receiver, events: seq<Event>, k: nat, n: nat, a: Action)
    requires u.Valid() && r.Valid()
  {
    ReceiverHistory.SavedFrom(u.c, r, events, k, n, a) && events[k].input.Arrives? && events[k].input.from == u.from &&
    ch(u.job.InitDatagram(), events[k].input.datagram) &&
    u.c.sha(a.file) == DeclaredHash(events[k].input.datagram)
  }

  // Every file saved for the sender goes back to an INIT that arrived: its hash is
  // the one in that datagram's hash field. Short of a collision, the file is the
  // source if and only if the field arrived with the source's hash.
  lemma SaveGoesBack(
    u: Setup, ch: Channel, budget: nat, now: nat, files: Files, turns: seq<Turn>, w: World, a: Action)
    returns (k: nat, n: nat)
    requires u.Valid() && KindKept(ch, Init) && Reached(u, ch, Begin(u, budget, now, files), turns, w)
    requires a in w.r.log && a.Committed? && a.peer == u.from
    ensures SavedFromInit(u, ch, ReceiverMachine.Start(now, files), Events(turns), k, n, a)
    ensures !Collide(u.c.sha, a.file, u.job.file) ==>
      (a.file == u.job.file <==> DeclaredHash(Events(turns)[k].input.datagram) == u.c.sha(u.job.file))
  {
    var r := ReceiverMachine.Start(now, files);
    PlayIsRuns(u, Begin(u, budget, now, files), turns);
    k, n := ReceiverHistory.SaveExplained(u.c, r, Events(turns), a);
    OpensReadsHash(u.c, Events(turns)[k], a.init, Some(a.peer));
    OpenedBySender(u, ch, budget, now, files, turns, k, a.init);
  }

  // End-to-end safety, for every run over a network that forges no FIN and no INIT: once a
  // sender that follows its target completes, the receiver has put in place a file
  // for it, and that file goes back to an INIT of the sender's as said above.
  lemma CompletionMeansSaved(
    u: Setup, ch: Channel, budget: nat, now: nat, files: Files, turns: seq<Turn>, w: World)
    returns (saved: Action, k: nat, n: nat)
    requires u.Valid() && KindKept(ch, Fin) && KindKept(ch, Init)
    requires Reached(u, ch, Begin(u, budget, now, files), turns, w)
    requires w.s.stage.Completed? && w.s.peer == u.job.target
    ensures saved in w.r.log && saved.Committed? && saved.peer == u.from
    ensures SavedFromInit(u, ch, ReceiverMachine.Start(now, files), Events(turns), k, n, saved)
    ensures !Collide(u.c.sha, saved.file, u.job.file) ==>
      (saved.file == u.job.file <==> DeclaredHash(Events(turns)[k].input.datagram) == u.c.sha(u.job.file))
  {
    PlayDoneIsSaved(u, ch, Begin(u, budget, now, files), turns);
    saved :| saved in w.r.log && saved.Committed? && saved.peer == u.from;
    k, n := SaveGoesBack(u, ch, budget, now, files, turns, w, saved);
  }

  // Between two hosts, completion alone is enough.
  lemma TwoHostsCompletionMeansSaved(
    u: Setup, ch: Channel, budget: nat, now: nat, files: Files, turns: seq<Turn>, w: World)
    returns (saved: Action, k: nat, n: nat)
    requires u.Valid() && KindKept(ch, Fin) && KindKept(ch, Init)
    requires Reached(u, ch, Begin(u, budget, now, files), turns, w)
    requires NoOtherHosts(u, turns) && w.s.stage.Completed?
    ensures saved in w.r.log && SavedFromInit(u, ch, ReceiverMachine.Start(now, files), Events(turns), k, n, saved)
  {
    PlayLocksOn(u, Begin(u, budget, now, files), turns);
    saved, k, n := CompletionMeansSaved(u, ch, budget, now, files, turns, w);
  }

  // ---------- What is on disk afterwards ----------

  // At any time each path of the receiver's disk holds the file last saved there,
  // or what it held at the start, unless an INIT asked for it as its temp file.
  lemma PlayFilesAsLogged(u: Setup, budget: nat, now: nat, files: Files, turns: seq<Turn>, p: Path)
    requires u.Valid() && forall i | 0 <= i < |Events(turns)| :: !Asks(u.c, Events(turns)[i], p)
    ensures FilesAsLogged(files, Play(u, Begin(u, budget, now, files), turns).r, p)
  {
    PlayIsRuns(u, Begin(u, budget, now, files), turns);
    RunFilesAsLogged(u.c, files, ReceiverMachine.Start(now, files), Events(turns), p);
  }

  // Of a one-shot receiver it can be said that the file is still there.
  lemma CompletedFileInPlace(
    u: Setup, ch: Channel, budget: nat, now: nat, files: Files, turns: seq<Turn>, w: World)
    returns (saved: Action, k: nat, n: nat)
    requires u.Valid() && KindKept(ch, Fin) && KindKept(ch, Init)
    requires Reached(u, ch, Begin(u, budget, now, files), turns, w)
    requires !u.c.serve && w.s.stage.Completed? && w.s.peer == u.job.target
    ensures SavedFromInit(u, ch, ReceiverMachine.Start(now, files), Events(turns), k, n, saved)
    ensures Content(w.r.files, saved.init.path) == Some(saved.file)
  {
    saved, k, n := CompletionMeansSaved(u, ch, budget, now, files, turns, w);
    PlayIsRuns(u, Begin(u, budget, now, files), turns);
    RunOneShot(u.c, ReceiverMachine.Start(now, files), Events(turns));
    OneShotContent(w.r, saved);
  }

  lemma OneShotContent(r: Receiver, a: Action)
    requires OneShot(r) && a in r.log && a.Committed?
    ensures Content(r.files, a.init.path) == Some(a.file)
  {
    ReceiverHistory.SavesMembers(r.log, a);
  }
}
