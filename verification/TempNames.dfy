/**
 Two short runs that show why the claims about temp files are conditional: a temp
 file left behind, and a saved file lost to another transfer's temp file.
 */
module TempNames {
  import opened Options
  import opened Wire
  import opened Paths
  import opened InitPacket
  import opened Chunks
  import ChunkSets
  import opened Sessions
  import opened ReceiverMachine
  import opened ReceiverSessions
  import opened ReceiverFiles

  const SENDER: Addr := 2
  const SMOOTH: Env := Env(1, true, true, None, true, true, true)

  // A first INIT that is acceptable, with a temp file that can be created but not
  // sized, leaves that file behind with no session open.
  lemma FailedSizingLeavesTemp(c: Config, e: Event)
    requires SizingFails(c, ReceiverMachine.Start(0, map[]), e)
    ensures !TempsExact(Step(c, ReceiverMachine.Start(0, map[]), e))
    ensures Step(c, ReceiverMachine.Start(0, map[]), e).session == None
  {
    StepTempsExact(c, ReceiverMachine.Start(0, map[]), e);
    assert Step(c, ReceiverMachine.Start(0, map[]), e).session == None;
  }

  // ---------- A saved file lost ----------

  function Serving(sha: Sha): Config {
    Config(sha, true, 0, 30000, 20, None)
  }

  function Payload(sha: Sha, name: Bytes, size: u64): Bytes {
    InitPayload(V1, size, 1, sha([]), name)
  }

  function Info(sha: Sha, name: Bytes, size: nat): InitInfo
    requires size < 2
  {
    InitInfo(V1, size, 1, size, sha([]), name)
  }

  function Hears(d: Bytes): Event {
    Event(0, 0, 0, Arrives(SENDER, d), SMOOTH)
  }

  function Announces(sha: Sha, name: Bytes, size: u64): Event {
    Hears(Packet(Init, 0, Payload(sha, name, size)))
  }

  // Two names that a pair of files can have: "f" and "f.tmp", say.
  ghost predicate Pair(name: Bytes, tmp: Bytes) {
    PlainName(name) && PlainName(tmp) && tmp == name + TMP_SUFFIX && |tmp| <= 255
  }

  lemma PairPaths(name: Bytes, tmp: Bytes)
    requires Pair(name, tmp)
    ensures TmpPath(name) == tmp && TmpPath(tmp) != tmp
  {
    PlainTmpPath(name);
    PlainTmpPath(tmp);
  }

  lemma OneByteChunks(size: nat)
    requires size < 2
    ensures ChunkCount(size, 1) == size
  {}

  lemma AnnouncementParses(sha: Sha, name: Bytes, size: nat, payload: Bytes)
    requires PlainName(name) && |name| <= 255 && size < 2 && payload == Payload(sha, name, size)
    ensures Parse(Packet(Init, 0, payload)) == Some(Message(Init, 0, payload))
    ensures ParseInit(payload, None) == Ok(Info(sha, name, size)) && |payload| <= MAX_CHUNK_SIZE
  {
    OneByteChunks(size);
    InitFields(V1, size, 1, sha([]), name);
    InitRoundTrip(V1, size, 1, sha([]), name);
    ParsePacketOf(Init, 0, payload);
  }

  ghost predicate Holds(sha: Sha, tmp: Bytes, r: Receiver) {
    PlainName(tmp) && r.Valid() && r.phase.Active? && r.session == Some(Fresh(Info(sha, tmp, 0))) &&
    r.sender == Some(SENDER) && Spares(r, tmp)
  }

  lemma FirstOpens(sha: Sha, tmp: Bytes, e: Event) returns (r: Receiver)
    requires PlainName(tmp) && |tmp| <= 255 && TmpPath(tmp) != tmp && e == Announces(sha, tmp, 0)
    ensures r == Step(Serving(sha), ReceiverMachine.Start(0, map[]), e) && Holds(sha, tmp, r)
  {
    var start, payload := ReceiverMachine.Start(0, map[]), Payload(sha, tmp, 0);
    AnnouncementParses(sha, tmp, 0, payload);
    InitOpens(Serving(sha), start, e, SENDER, Packet(Init, 0, payload), 0, payload, Info(sha, tmp, 0));
    r := Step(Serving(sha), start, e);
  }

  lemma SecondSaves(sha: Sha, tmp: Bytes, r: Receiver, e: Event)
    requires Holds(sha, tmp, r) && e == Hears(Control(Done, 0))
    ensures DoneSaves(Serving(sha), r, e)
  {
    ParsePacketOf(Done, 0, []);
    assert r.session.value.got == ChunkSets.Below(0);
    assert r.session.value.data == [];
  }

  lemma ThenSaves(sha: Sha, tmp: Bytes, r: Receiver, e: Event) returns (r': Receiver)
    requires Holds(sha, tmp, r) && e == Hears(Control(Done, 0))
    ensures r' == Step(Serving(sha), r, e)
    ensures r'.Valid() && r'.phase == Lingering(0) && r'.session == None && Content(r'.files, tmp) == Some([])
  {
    SecondSaves(sha, tmp, r, e);
    SavesExactly(Serving(sha), r, e);
    r' := Step(Serving(sha), r, e);
    SessionEnds(Serving(sha), r, e);
  }

  lemma ThirdClaims(sha: Sha, name: Bytes, tmp: Bytes, saved: Receiver, e: Event)
    requires saved.Valid() && saved.phase == Lingering(0) && saved.session == None
    requires PlainName(name) && |name| <= 255 && TmpPath(name) == tmp && e == Announces(sha, name, 1)
    ensures Claims(Serving(sha), saved, e, tmp)
  {
    AnnouncementParses(sha, name, 1, Payload(sha, name, 1));
  }

  lemma OneZero(sha: Sha, name: Bytes)
    ensures Fresh(Info(sha, name, 1)).data == [0]
  {}

  lemma ThirdLeaves(sha: Sha, name: Bytes, e: Event)
    requires PlainName(name) && |name| <= 255 && e == Announces(sha, name, 1)
    ensures Parse(e.input.datagram).Some? && ParseInit(Parse(e.input.datagram).value.payload, None).Ok?
    ensures Claimed(Serving(sha), e) == Some([0])
  {
    AnnouncementParses(sha, name, 1, Payload(sha, name, 1));
    OneZero(sha, name);
  }

  // Serving, the receiver saves an empty file under the name "f.tmp". Then it hears
  // an INIT for a file "f": what it had saved is gone, though nothing was saved since.
  lemma SavedTempNameIsLost(sha: Sha, name: Bytes, tmp: Bytes) returns (saved: Receiver, r: Receiver)
    requires Pair(name, tmp)
    ensures var first := Step(Serving(sha), ReceiverMachine.Start(0, map[]), Announces(sha, tmp, 0));
            saved == Step(Serving(sha), first, Hears(Control(Done, 0)))
    ensures r == Step(Serving(sha), saved, Announces(sha, name, 1)) && Saves(r.log) == Saves(saved.log)
    ensures Content(saved.files, tmp) == Some([]) && Content(r.files, tmp) == Some([0])
  {
    PairPaths(name, tmp);
    var first := FirstOpens(sha, tmp, Announces(sha, tmp, 0));
    saved := ThenSaves(sha, tmp, first, Hears(Control(Done, 0)));
    ThirdClaims(sha, name, tmp, saved, Announces(sha, name, 1));
    ThirdLeaves(sha, name, Announces(sha, name, 1));
    StepClaims(Serving(sha), saved, Announces(sha, name, 1), tmp);
    r := Step(Serving(sha), saved, Announces(sha, name, 1));
  }
}
