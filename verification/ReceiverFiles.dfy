/**
 What the receiver does to the disk, over whole runs: a path changes only by a
 file saved there or by an INIT that claims it for its temp file, temp files live
 as long as their session, and a one-shot receiver never touches the file it saved
 again.
 */
module ReceiverFiles {
  import opened Options
  import opened Wire
  import opened InitPacket
  import opened Paths
  import ChunkSets
  import Nacks
  import opened Sessions
  import opened ReceiverMachine
  import opened ReceiverSessions

  function Content(files: Files, p: Path): Option<Bytes> {
    if p in files then Some(files[p]) else None
  }

  // The saves among the actions.
  ghost function Saves(log: seq<Action>): (saves: seq<Action>)
    ensures forall a | a in saves :: a.Committed? && a in log
  {
    if log == [] then []
    else Saves(log[..|log| - 1]) + if log[|log| - 1].Committed? then [log[|log| - 1]] else []
  }

  lemma SavesSnoc(log: seq<Action>, a: Action)
    ensures Saves(log + [a]) == Saves(log) + if a.Committed? then [a] else []
  {
    assert (log + [a])[..|log|] == log;
  }

  // The file most recently saved at `p`.
  ghost function LastSaved(saves: seq<Action>, p: Path): Option<Bytes>
    requires forall a | a in saves :: a.Committed?
  {
    if saves == [] then None
    else if saves[|saves| - 1].init.path == p then Some(saves[|saves| - 1].file)
    else LastSaved(saves[..|saves| - 1], p)
  }

  // No open session writes to `p` as its temp file.
  ghost predicate Spares(r: Receiver, p: Path) {
    r.session.Some? ==> r.session.value.tmp != p
  }

  // The payload is an INIT's that would be accepted, and its temp file is `p`.
  ghost predicate Names(c: Config, payload: Bytes, p: Path) {
    ParseInit(payload, c.out).Ok? && TmpPath(ParseInit(payload, c.out).value.path) == p
  }

  // Nothing was saved, and the content at `p` did not change.
  ghost predicate LeavesAlone(r: Receiver, r': Receiver, p: Path) {
    Saves(r'.log) == Saves(r.log) && Content(r'.files, p) == Content(r.files, p)
  }

  lemma AbandonLeavesAlone(c: Config, r: Receiver, why: Failure, p: Path)
    requires r.Valid() && !r.phase.Exited? && Spares(r, p)
    ensures LeavesAlone(r, Abandon(c, r, why), p)
  {
    SavesSnoc(r.log, Dropped(why));
  }

  lemma NackRoundLeavesAlone(c: Config, r: Receiver, upto: u32, byTimer: bool, at: nat, e: Event, p: Path)
    requires r.Valid() && r.phase.Active? && r.session.Some? && Spares(r, p)
    ensures LeavesAlone(r, NackRound(c, r, upto, byTimer, at, e), p)
  {
    var missing := ChunkSets.MissingBelow(r.session.value.got, upto);
    SavesSnoc(r.log, Nacked(at, byTimer, missing));
    var shown := Sends(r.sender.value, FirstOf(Nacks.NackPackets(missing), e.env.sends));
    AbandonLeavesAlone(c, r.(sent := r.sent + shown), SendFailed, p);
  }

  lemma AcknowledgeLeavesAlone(c: Config, r: Receiver, from: Addr, e: Event, p: Path)
    requires r.Valid() && r.phase.Active? && Spares(r, p)
    ensures LeavesAlone(r, Acknowledge(c, r, from, e), p)
  {
    AbandonLeavesAlone(c, r, SendFailed, p);
  }

  lemma InitLeavesAlone(c: Config, r: Receiver, from: Addr, payload: Bytes, e: Event, p: Path)
    requires r.Valid() && r.phase.Active? && Spares(r, p)
    requires r.session.None? && e.env.creates ==> !Names(c, payload, p)
    ensures LeavesAlone(r, OnInit(c, r, from, payload, e), p)
  {
    if r.session.Some? {
      AcknowledgeLeavesAlone(c, r, from, e, p);
    } else if ParseInit(payload, c.out).Ok? && e.env.creates {
      var init := ParseInit(payload, c.out).value;
      SavesSnoc(r.log, Opened(from, init));
      AcknowledgeLeavesAlone(c, Open(r, from, init), from, e, p);
    }
  }

  lemma DataLeavesAlone(c: Config, r: Receiver, chunk: u32, payload: Bytes, e: Event, p: Path)
    requires r.Valid() && r.phase.Active? && Spares(r, p)
    ensures LeavesAlone(r, OnData(c, r, chunk, payload, e), p)
  {
    AbandonLeavesAlone(c, r, WriteFailed, p);
  }

  lemma DoneLeavesAlone(c: Config, r: Receiver, e: Event, p: Path)
    requires r.Valid() && r.phase.Active? && Spares(r, p)
    ensures LeavesAlone(r, OnDone(c, r, e), p) || (r.session.Some? && EndsSaved(c, r, OnDone(c, r, e)))
  {
    if r.session.Some? {
      var s := r.session.value;
      if !s.Full() {
        NackRoundLeavesAlone(c, r, s.init.total, false, e.done, e, p);
      } else if FinalizeError(c.sha, s, e.env).Some? {
        AbandonLeavesAlone(c, r, FinalizeError(c.sha, s, e.env).value, p);
      }
    }
  }

  lemma TickLeavesAlone(c: Config, r: Receiver, e: Event, p: Path)
    requires r.Valid() && r.phase.Active? && Spares(r, p)
    ensures LeavesAlone(r, OnTick(c, r, e), p)
  {
    if r.session.Some? {
      AbandonLeavesAlone(c, r, IdleTimeout, p);
      NackRoundLeavesAlone(c, r, r.session.value.Edge(), true, e.at, e, p);
    }
  }

  lemma BrokenLeavesAlone(c: Config, r: Receiver, e: Event, p: Path)
    requires r.Valid() && r.phase.Active? && e.input.Broken? && Spares(r, p)
    ensures LeavesAlone(r, Receive(c, r, e), p)
  {
    SavesSnoc(r.log, Dropped(SocketFailed));
  }

  // The event is an INIT, accepted by a listening receiver that can create its
  // temp file, and that file is `p`.
  ghost predicate Asks(c: Config, e: Event, p: Path) {
    e.env.creates && e.input.Arrives? && Parse(e.input.datagram).Some? &&
    Parse(e.input.datagram).value.kind == Init && Names(c, Parse(e.input.datagram).value.payload, p)
  }

  ghost predicate Claims(c: Config, r: Receiver, e: Event, p: Path)
    requires r.Valid()
  {
    Woken(c, r, e).phase.Active? && Woken(c, r, e).session.None? && Asks(c, e, p)
  }

  // The state in which the event is handled, once an expired linger is over.
  ghost function Woken(c: Config, r: Receiver, e: Event): (r': Receiver)
    requires r.Valid()
    ensures r'.Valid() && r'.session == r.session && r'.files == r.files && r'.log == r.log
  {
    if r.phase.Lingering? && e.before >= r.phase.deadline then EndLinger(c, r) else r
  }

  lemma MessageLeavesAlone(c: Config, r: Receiver, from: Addr, m: Message, e: Event, p: Path)
    requires r.Valid() && r.phase.Active? && Spares(r, p)
    requires m.kind == Init && r.session.None? && e.env.creates ==> !Names(c, m.payload, p)
    ensures var r' := OnMessage(c, r, from, m, e);
            LeavesAlone(r, r', p) || (r.session.Some? && EndsSaved(c, r, r'))
  {
    match m
    case Message(Init, _, payload) => InitLeavesAlone(c, r, from, payload, e, p);
    case Message(Data, chunk, payload) => DataLeavesAlone(c, r, chunk, payload, e, p);
    case Message(Done, _, _) => DoneLeavesAlone(c, r, e, p);
    case _ =>
  }

  lemma ReceiveLeavesAlone(c: Config, r: Receiver, e: Event, p: Path)
    requires r.Valid() && r.phase.Active? && Spares(r, p) && (r.session.None? ==> !Asks(c, e, p))
    ensures LeavesAlone(r, Receive(c, r, e), p) || (r.session.Some? && EndsSaved(c, r, Receive(c, r, e)))
  {
    match e.input
    case Interrupted =>
    case Broken => BrokenLeavesAlone(c, r, e, p);
    case TimedOut => TickLeavesAlone(c, r, e, p);
    case Arrives(from, datagram) =>
      if Parse(datagram).Some? {
        MessageLeavesAlone(c, r.(lastDataAt := e.at), from, Parse(datagram).value, e, p);
      }
  }

  lemma StepLeavesAlone(c: Config, r: Receiver, e: Event, p: Path)
    requires r.Valid() && Spares(r, p) && !Claims(c, r, e, p)
    ensures LeavesAlone(r, Step(c, r, e), p) || (r.session.Some? && EndsSaved(c, r, Step(c, r, e)))
  {
    if r.phase.Active? {
      ReceiveLeavesAlone(c, r, e, p);
    } else if r.phase.Lingering? {
      if e.before >= r.phase.deadline && c.serve {
        ReceiveLeavesAlone(c, EndLinger(c, r), e, p);
      }
    }
  }

  // What should be at `p`: the file last saved there, or what was there before the
  // receiver started.
  ghost function Expected(initial: Files, r: Receiver, p: Path): Option<Bytes> {
    var last := LastSaved(Saves(r.log), p);
    if last.Some? then last else Content(initial, p)
  }

  ghost predicate FilesAsLogged(initial: Files, r: Receiver, p: Path) {
    Content(r.files, p) == Expected(initial, r, p)
  }

  // What an INIT makes of the path it claims: nothing but an empty file is left if
  // sizing fails, a file of zeros while the session is open, and no file at all if
  // the ACK cannot be sent.
  ghost function Claimed(c: Config, e: Event): Option<Bytes>
    requires e.input.Arrives? && Parse(e.input.datagram).Some?
    requires ParseInit(Parse(e.input.datagram).value.payload, c.out).Ok?
  {
    if !e.env.sizes then Some([])
    else if e.env.sends == 0 then None
    else Some(Fresh(ParseInit(Parse(e.input.datagram).value.payload, c.out).value).data)
  }

  lemma ClaimedInit(c: Config, r: Receiver, from: Addr, payload: Bytes, e: Event)
    requires r.Valid() && r.phase.Active? && r.session.None? && ParseInit(payload, c.out).Ok? && e.env.creates
    ensures var init, r' := ParseInit(payload, c.out).value, OnInit(c, r, from, payload, e);
            Saves(r'.log) == Saves(r.log) &&
            Content(r'.files, TmpPath(init.path)) ==
              if !e.env.sizes then Some([]) else if e.env.sends == 0 then None else Some(Fresh(init).data)
  {
    var init := ParseInit(payload, c.out).value;
    var opening := Opened(from, init);
    if e.env.sizes {
      SavesSnoc(r.log, opening);
      SavesSnoc(r.log + [opening], Dropped(SendFailed));
      assert Saves(r.log) + [] == Saves(r.log);
      assert Fresh(init).tmp == TmpPath(init.path);
    }
  }

  lemma StepClaims(c: Config, r: Receiver, e: Event, p: Path)
    requires r.Valid() && Claims(c, r, e, p)
    ensures Saves(Step(c, r, e).log) == Saves(r.log) && Content(Step(c, r, e).files, p) == Claimed(c, e)
  {
    var m := Parse(e.input.datagram).value;
    var listening := Woken(c, r, e).(lastDataAt := e.at);
    ClaimedInit(c, listening, e.input.from, m.payload, e);
    assert Step(c, r, e) == OnInit(c, listening, e.input.from, m.payload, e);
  }

  // A step leaves the path as it should be unless an INIT claims it for its temp
  // file. Then it does so only if what that makes of the path happens to be what
  // was there.
  lemma StepFilesAsLogged(c: Config, initial: Files, r: Receiver, e: Event, p: Path)
    requires r.Valid() && FilesAsLogged(initial, r, p) && Spares(r, p)
    ensures FilesAsLogged(initial, Step(c, r, e), p)
      <==> (Claims(c, r, e, p) ==> Claimed(c, e) == Expected(initial, r, p))
    ensures !Claims(c, r, e, p) ==> Spares(Step(c, r, e), p)
  {
    if Claims(c, r, e, p) {
      StepClaims(c, r, e, p);
    } else {
      StepLeavesAlone(c, r, e, p);
      if !LeavesAlone(r, Step(c, r, e), p) {
        SaveAsLogged(c, initial, r, Step(c, r, e), p);
      }
      StepSpares(c, r, e, p);
    }
  }

  lemma StepSpares(c: Config, r: Receiver, e: Event, p: Path)
    requires r.Valid() && Spares(r, p) && !Claims(c, r, e, p)
    ensures Spares(Step(c, r, e), p)
  {
    StepSession(c, r, e);
    if r.session.None? && Step(c, r, e).session.Some? {
      OpeningCreates(c, r, e);
    }
  }

  // A session is opened only where its temp file could be created.
  lemma OpeningCreates(c: Config, r: Receiver, e: Event)
    requires r.Valid() && r.session.None? && Step(c, r, e).session.Some?
    ensures Woken(c, r, e).phase.Active? && e.env.creates
  {}

  lemma LastSavedSnoc(saves: seq<Action>, a: Action, p: Path)
    requires a.Committed? && forall b | b in saves :: b.Committed?
    ensures LastSaved(saves + [a], p) == if a.init.path == p then Some(a.file) else LastSaved(saves, p)
  {
    assert (saves + [a])[..|saves|] == saves;
  }

  lemma SavedContent(files: Files, tmp: Path, path: Path, data: Bytes, p: Path)
    requires p != tmp
    ensures Content((files - {tmp})[path := data], p) == if p == path then Some(data) else Content(files, p)
  {}

  lemma SaveAsLogged(c: Config, initial: Files, r: Receiver, r': Receiver, p: Path)
    requires r.Valid() && Spares(r, p) && FilesAsLogged(initial, r, p) && r.session.Some? && EndsSaved(c, r, r')
    ensures FilesAsLogged(initial, r', p)
  {
    var s := r.session.value;
    var a := Committed(r.sender.value, s.init, s.data);
    SavedContent(r.files, s.tmp, s.init.path, s.data, p);
    SavesSnoc(r.log, a);
    LastSavedSnoc(Saves(r.log), a, p);
  }

  // Over whole runs and for every path, temp names included: as long as no INIT
  // that arrives asks for it as a temp file, it holds what was last saved there.
  lemma {:induction false} RunFilesAsLogged(c: Config, initial: Files, r: Receiver, events: seq<Event>, p: Path)
    requires r.Valid() && FilesAsLogged(initial, r, p) && Spares(r, p)
    requires forall i | 0 <= i < |events| :: !Asks(c, events[i], p)
    ensures FilesAsLogged(initial, Run(c, r, events), p)
    decreases |events|
  {
    if events != [] {
      assert !Asks(c, events[0], p);
      StepFilesAsLogged(c, initial, r, events[0], p);
      assert forall i | 0 <= i < |events[1..]| :: events[1..][i] == events[i + 1];
      RunFilesAsLogged(c, initial, Step(c, r, events[0]), events[1..], p);
    }
  }

  // No INIT can ask for a path that is not a temp name.
  lemma NeverAsked(c: Config, e: Event, p: Path)
    requires !IsTmp(p)
    ensures !Asks(c, e, p)
  {
    if e.input.Arrives? && Parse(e.input.datagram).Some? {
      var parsed := ParseInit(Parse(e.input.datagram).value.payload, c.out);
      if parsed.Ok? {
        TmpPathIsTmp(parsed.value.path);
      }
    }
  }

  // ---------- Temp files ----------

  // A temp file exists exactly while the session that writes it is open.
  ghost predicate TempsExact(r: Receiver) {
    forall p | IsTmp(p) :: p in r.files <==> (r.session.Some? && p == r.session.value.tmp)
  }

  // An acceptable INIT whose temp file is created but cannot be sized: the
  // constructor returns early, before there is a value whose drop would clean up.
  ghost predicate SizingFails(c: Config, r: Receiver, e: Event)
    requires r.Valid()
  {
    Woken(c, r, e).phase.Active? && Woken(c, r, e).session.None? && e.env.creates && !e.env.sizes &&
    e.input.Arrives? && Parse(e.input.datagram).Some? && Parse(e.input.datagram).value.kind == Init &&
    ParseInit(Parse(e.input.datagram).value.payload, c.out).Ok?
  }

  // The session is saved, and its file's own name is that of a temp file.
  ghost predicate SavesUnderTempName(c: Config, r: Receiver, e: Event)
    requires r.Valid()
  {
    r.session.Some? && DoneSaves(c, r, e) && IsTmp(r.session.value.init.path)
  }

  // A step that ends the session takes its temp file along, and leaves another
  // only by saving under such a name.
  lemma ClosingTemps(c: Config, r: Receiver, r': Receiver)
    requires r.Valid() && r'.session.None? && r.session.Some? && TempsExact(r)
    requires EndsSaved(c, r, r') != EndsEmptyHanded(c, r, r')
    ensures TempsExact(r') <==> !(EndsSaved(c, r, r') && IsTmp(r.session.value.init.path))
  {
    var s := r.session.value;
    if EndsSaved(c, r, r') {
      assert s.init.path in r'.files;
    }
  }

  lemma OpenTemps(c: Config, r: Receiver, e: Event)
    requires r.Valid() && r.session.Some? && TempsExact(r)
    ensures TempsExact(Step(c, r, e)) <==> !SavesUnderTempName(c, r, e)
  {
    var r' := Step(c, r, e);
    SavesExactly(c, r, e);
    if r'.session.None? {
      SessionEnds(c, r, e);
      ClosingTemps(c, r, r');
    } else {
      StepSession(c, r, e);
    }
  }

  lemma ListeningTemps(c: Config, r: Receiver, e: Event)
    requires r.Valid() && r.phase.Active? && r.session.None? && TempsExact(r)
    ensures TempsExact(Receive(c, r, e)) <==> !SizingFails(c, r, e)
  {
    if e.input.Arrives? && Parse(e.input.datagram).Some? && Parse(e.input.datagram).value.kind == Init {
      InitTemps(c, r.(lastDataAt := e.at), e.input.from, Parse(e.input.datagram).value.payload, e);
    }
  }

  lemma InitTemps(c: Config, r: Receiver, from: Addr, payload: Bytes, e: Event)
    requires r.Valid() && r.phase.Active? && r.session.None? && TempsExact(r)
    ensures TempsExact(OnInit(c, r, from, payload, e))
      <==> !(ParseInit(payload, c.out).Ok? && e.env.creates && !e.env.sizes)
  {
    var r' := OnInit(c, r, from, payload, e);
    if ParseInit(payload, c.out).Ok? && e.env.creates {
      var init := ParseInit(payload, c.out).value;
      TmpPathIsTmp(init.path);
      if !e.env.sizes {
        assert TmpPath(init.path) in r'.files && r'.session.None?;
      }
    }
  }

  // A step keeps temp files and sessions in step with each other exactly when
  // it neither fails to size a new temp file nor saves under a temp name.
  lemma StepTempsExact(c: Config, r: Receiver, e: Event)
    requires r.Valid() && TempsExact(r)
    ensures TempsExact(Step(c, r, e)) <==> !SizingFails(c, r, e) && !SavesUnderTempName(c, r, e)
  {
    if r.session.Some? {
      OpenTemps(c, r, e);
    } else if Woken(c, r, e).phase.Active? {
      ListeningTemps(c, Woken(c, r, e), e);
    }
  }

  // No INIT among the events asks for a file named `*.tmp`.
  ghost predicate PlainInit(c: Config, e: Event) {
    e.input.Arrives? && Parse(e.input.datagram).Some? && Parse(e.input.datagram).value.kind == Init ==>
      var parsed := ParseInit(Parse(e.input.datagram).value.payload, c.out);
      parsed.Ok? ==> !IsTmp(parsed.value.path)
  }

  lemma StepKeepsPlainPath(c: Config, r: Receiver, e: Event)
    requires r.Valid() && PlainInit(c, e) && Step(c, r, e).session.Some?
    requires r.session.Some? ==> !IsTmp(r.session.value.init.path)
    ensures !IsTmp(Step(c, r, e).session.value.init.path)
  {
    StepSession(c, r, e);
  }

  // Over whole runs: with sizing in working order and no file named `*.tmp`
  // asked for, no temp file outlives its session.
  lemma {:induction false} RunTempsExact(c: Config, r: Receiver, events: seq<Event>)
    requires r.Valid() && TempsExact(r)
    requires forall e | e in events :: e.env.sizes && PlainInit(c, e)
    requires r.session.Some? ==> !IsTmp(r.session.value.init.path)
    ensures TempsExact(Run(c, r, events))
    decreases |events|
  {
    if events != [] {
      var r1 := Step(c, r, events[0]);
      StepTempsExact(c, r, events[0]);
      if r1.session.Some? {
        StepKeepsPlainPath(c, r, events[0]);
      }
      RunTempsExact(c, r1, events[1..]);
    }
  }

  // ---------- One-shot receivers ----------

  // Without `serve`: at most one file is ever saved, the receiver never opens
  // another session after it, and the file stays as saved.
  ghost predicate OneShot(r: Receiver) {
    |Saves(r.log)| <= 1 &&
    (Saves(r.log) != [] ==>
      !r.phase.Active? && Content(r.files, Saves(r.log)[0].init.path) == Some(Saves(r.log)[0].file))
  }

  lemma StepSaves(c: Config, r: Receiver, e: Event)
    requires r.Valid()
    ensures Saves(Step(c, r, e).log) == Saves(r.log) || (r.session.Some? && EndsSaved(c, r, Step(c, r, e)))
  {
    NeverAsked(c, e, []);
    StepLeavesAlone(c, r, e, []);
  }

  lemma FirstSave(c: Config, r: Receiver, r': Receiver)
    requires r.Valid() && r.session.Some? && EndsSaved(c, r, r') && Saves(r.log) == []
    ensures OneShot(r')
  {
    SavesSnoc(r.log, Committed(r.sender.value, r.session.value.init, r.session.value.data));
  }

  lemma StepOneShot(c: Config, r: Receiver, e: Event)
    requires r.Valid() && !c.serve && OneShot(r)
    ensures OneShot(Step(c, r, e))
  {
    StepSaves(c, r, e);
    if r.phase.Active? && Saves(Step(c, r, e).log) != Saves(r.log) {
      FirstSave(c, r, Step(c, r, e));
    }
  }

  lemma {:induction false} RunOneShot(c: Config, r: Receiver, events: seq<Event>)
    requires r.Valid() && !c.serve && OneShot(r)
    ensures OneShot(Run(c, r, events))
    decreases |events|
  {
    if events != [] {
      StepOneShot(c, r, events[0]);
      RunOneShot(c, Step(c, r, events[0]), events[1..]);
    }
  }
}
