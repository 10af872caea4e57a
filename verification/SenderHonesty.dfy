/**
 What the sender puts on the wire, in every run: every INIT is the job's own, and
 every DATA is one of its chunks.
 */
module SenderHonesty {
  import opened Options
  import opened Wire
  import Chunks
  import InitPacket
  import opened SenderMachine
  import opened SenderQueue

  ghost predicate Honest(job: Job, datagram: Bytes)
    requires job.Valid()
  {
    (KindOf(datagram) == Some(Init) ==> datagram == job.InitDatagram()) &&
    (KindOf(datagram) == Some(Data) ==> exists chunk: u32 :: chunk < job.Total() && datagram == job.DataDatagram(chunk))
  }

  ghost predicate AllHonest(job: Job, sent: seq<Outgoing>)
    requires job.Valid()
  {
    forall o | o in sent :: Honest(job, o.datagram)
  }

  lemma ControlsHonest(job: Job, chunk: u32)
    requires job.Valid()
    ensures Honest(job, job.InitDatagram()) && Honest(job, job.DoneDatagram()) && Honest(job, Control(FinAck, 0))
    ensures chunk < job.Total() ==> Honest(job, job.DataDatagram(chunk))
  {
    KindOfPacket(Init, 0, InitPacket.InitPayload(job.version, |job.file|, job.chunkSize, job.sha(job.file), job.name));
    KindOfPacket(Done, job.Total(), []);
    KindOfPacket(FinAck, 0, []);
    if chunk < job.Total() {
      var body := Chunks.ChunkOf(job.file, job.chunkSize, chunk);
      KindOfPacket(Data, chunk, Chunks.DataPayload(job.sha, job.version, body));
    }
  }

  // A DONE tells the number of chunks.
  lemma DoneSays(job: Job)
    requires job.Valid()
    ensures var m := Parse(job.DoneDatagram());
            m.Some? && m.value.kind == Done && m.value.seqNo == Chunks.DivCeil(|job.file|, job.chunkSize)
  {
    Chunks.ChunkCountIsDivCeil(|job.file|, job.chunkSize);
    ParsePacketOf(Done, job.Total(), []);
  }

  lemma ChunkRange(file: Bytes, chunkSize: nat, chunk: nat, from: nat, to: nat)
    requires chunkSize > 0 && chunk < Chunks.ChunkCount(|file|, chunkSize) && from == chunk * chunkSize
    requires to == if |file| < from + chunkSize then |file| else from + chunkSize
    ensures from <= to <= |file| && Chunks.ChunkOf(file, chunkSize, chunk) == file[from..to]
  {
    Chunks.ChunkStartsInside(|file|, chunkSize, chunk);
    Chunks.ChunkStartIsProduct(chunkSize, chunk);
  }

  // A DATA tells the chunk's number, and brings the bytes at that place of the file,
  // under V2 with their digest in front.
  lemma DataSays(job: Job, chunk: u32, from: nat, to: nat)
    requires job.Valid() && chunk < job.Total() && from == chunk * job.chunkSize
    requires to == if |job.file| < from + job.chunkSize then |job.file| else from + job.chunkSize
    ensures from <= to <= |job.file|
    ensures var body := job.file[from..to];
            Parse(job.DataDatagram(chunk))
              == Some(Message(Data, chunk, if job.version == V1 then body else job.sha(body) + body))
  {
    ChunkRange(job.file, job.chunkSize, chunk, from, to);
    var body := Chunks.ChunkOf(job.file, job.chunkSize, chunk);
    Chunks.DataPayloadRoundTrip(job.sha, job.version, job.chunkSize, body);
    ParsePacketOf(Data, chunk, Chunks.DataPayload(job.sha, job.version, body));
  }

  // What one move sends, if anything.
  lemma NextSends(job: Job, s: Sender, m: Move)
    requires s.Valid(job)
    ensures var sent := Next(job, s, m).sent;
            sent == s.sent ||
            sent == s.sent + [Outgoing(job.target, job.InitDatagram())] ||
            sent == s.sent + [Outgoing(job.target, job.DoneDatagram())] ||
            sent == s.sent + [Outgoing(s.peer, Control(FinAck, 0))] ||
            (s.pending != [] && sent == s.sent + [Outgoing(job.target, job.DataDatagram(s.pending[0]))])
  {}

  lemma NextHonest(job: Job, s: Sender, m: Move)
    requires s.Valid(job) && AllHonest(job, s.sent)
    ensures AllHonest(job, Next(job, s, m).sent)
  {
    NextSends(job, s, m);
    ControlsHonest(job, if s.pending != [] then s.pending[0] else 0);
  }

  lemma StartHonest(job: Job, budget: nat)
    requires job.Valid()
    ensures AllHonest(job, Start(job, budget).sent)
  {
    ControlsHonest(job, 0);
  }

  lemma {:induction false} WalkHonest(job: Job, s: Sender, moves: seq<Move>)
    requires s.Valid(job) && AllHonest(job, s.sent)
    ensures AllHonest(job, Walk(job, s, moves).sent)
    decreases |moves|
  {
    if moves != [] {
      WalkHonest(job, s, moves[..|moves| - 1]);
      NextHonest(job, Walk(job, s, moves[..|moves| - 1]), moves[|moves| - 1]);
    }
  }
}
