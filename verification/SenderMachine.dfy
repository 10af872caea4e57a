/**
 `run_send` of src/lib/send.rs as a state machine: the handshake, the blast with
 its feedback drains, and the passes. `Act` is a step the sender takes by itself,
 `On` a step it takes on what the socket gives it.
 */
module SenderMachine {
  import opened Options
  import opened Wire
  import Chunks
  import InitPacket

  // One call of run_send that got past its checks.
  datatype Job = Job(
    sha: Sha, file: Bytes, name: Bytes, chunkSize: u32, version: Version, target: Addr, attempts: nat, passes: nat)
  {
    predicate Valid() {
      |file| < 0x1_0000_0000_0000_0000 && InitPacket.Transferable(|file|, chunkSize, version)
    }

    function Total(): u32
      requires Valid()
    {
      Chunks.ChunkCount(|file|, chunkSize)
    }

    function InitDatagram(): Bytes
      requires Valid()
    {
      Packet(Init, 0, InitPacket.InitPayload(version, |file|, chunkSize, sha(file), name))
    }

    function DataDatagram(chunk: u32): Bytes
      requires Valid() && chunk < Total()
    {
      Packet(Data, chunk, Chunks.DataPayload(sha, version, Chunks.ChunkOf(file, chunkSize, chunk)))
    }

    function DoneDatagram(): Bytes
      requires Valid()
    {
      Control(Done, Total())
    }
  }

  // What a read from the socket gives: a datagram, nothing in time (or nothing
  // yet, while draining), or an error.
  datatype Reply = Heard(from: Addr, datagram: Bytes) | Quiet | Cut | Dead

  datatype SendError = HandshakeTimeout | SocketError | GaveUp

  datatype Stage =
    | Greeting(attempt: nat)
    | Blasting(sinceDrain: nat)
    | Draining
    | Feedback(missing: seq<u32>)
    | Completed
    | Stopped(why: SendError)

  // `budget` is how many more sends the socket lets through before one fails;
  // `blasted` lists the chunks sent so far.
  datatype Sender = Sender(
    stage: Stage, peer: Addr, pending: seq<u32>, pass: nat, progress: nat,
    budget: nat, sent: seq<Outgoing>, blasted: seq<u32>)
  {
    predicate Over() {
      stage.Completed? || stage.Stopped?
    }

    ghost predicate Valid(job: Job) {
      job.Valid() && forall i | 0 <= i < |pending| :: pending[i] < job.Total()
    }
  }

  // ---------- The queue ----------

  // `enqueue`, one chunk at a time: a chunk that exists and is not queued yet
  // goes to the back.
  function Push(pending: seq<u32>, total: nat, chunk: u32): seq<u32> {
    if chunk < total && chunk !in pending then pending + [chunk] else pending
  }

  function PushAll(pending: seq<u32>, total: nat, missing: seq<u32>): (r: seq<u32>)
    ensures (forall i | 0 <= i < |pending| :: pending[i] < total) ==> forall i | 0 <= i < |r| :: r[i] < total
    decreases |missing|
  {
    if missing == [] then pending else PushAll(Push(pending, total, missing[0]), total, missing[1..])
  }

  // `dedup`: first occurrences, in order.
  function FirstOccurrences(xs: seq<u32>): seq<u32> {
    if xs == [] then []
    else
      var front, last := FirstOccurrences(xs[..|xs| - 1]), xs[|xs| - 1];
      if last in xs[..|xs| - 1] then front else front + [last]
  }

  // The whole file, in order.
  function Everything(total: u32): (all: seq<u32>)
    ensures |all| == total && forall i | 0 <= i < total :: all[i] == i
  {
    if total == 0 then [] else Everything(total - 1) + [total - 1]
  }

  // ---------- Steps ----------

  function Transmit(s: Sender, to: Addr, datagram: Bytes, next: Stage): Sender {
    if s.budget == 0 then s.(stage := Stopped(SocketError))
    else s.(stage := next, budget := s.budget - 1, sent := s.sent + [Outgoing(to, datagram)])
  }

  function Start(job: Job, budget: nat): (s: Sender)
    requires job.Valid()
    ensures s.Valid(job)
  {
    Greet(job, Sender(Greeting(0), 0, [], 1, 0, budget, [], []), 0)
  }

  // Attempt `done` is over: make the next one, if there is one.
  function Greet(job: Job, s: Sender, done: nat): (s': Sender)
    requires s.Valid(job)
    ensures s'.Valid(job)
  {
    if done >= job.attempts then s.(stage := Stopped(HandshakeTimeout))
    else Transmit(s, job.target, job.InitDatagram(), Greeting(done + 1))
  }

  // A best-effort FIN-ACK ends the run.
  function Complete(s: Sender): Sender {
    if s.budget == 0 then s.(stage := Completed)
    else s.(stage := Completed, budget := s.budget - 1, sent := s.sent + [Outgoing(s.peer, Control(FinAck, 0))])
  }

  function Act(job: Job, s: Sender): (s': Sender)
    requires s.Valid(job) && s.stage.Blasting?
    ensures s'.Valid(job)
  {
    if s.pending == [] then Transmit(s, job.target, job.DoneDatagram(), Feedback([]))
    else
      var chunk, rest := s.pending[0], s.pending[1..];
      if s.budget == 0 then s.(stage := Stopped(SocketError), pending := rest)
      else
        var done := job.Total() - |rest|;
        s.(stage := if s.stage.sinceDrain + 1 >= FEEDBACK_DRAIN_INTERVAL then Draining
                    else Blasting(s.stage.sinceDrain + 1),
           pending := rest,
           progress := if done > s.progress then done else s.progress,
           budget := s.budget - 1,
           sent := s.sent + [Outgoing(job.target, job.DataDatagram(chunk))],
           blasted := s.blasted + [chunk])
  }

  function OnGreeting(job: Job, s: Sender, reply: Reply): (s': Sender)
    requires s.Valid(job) && s.stage.Greeting?
    ensures s'.Valid(job)
  {
    match reply
    case Heard(from, datagram) =>
      if KindOf(datagram) == Some(Ack) then s.(stage := Blasting(0), peer := from, pending := Everything(job.Total()))
      else s
    case Quiet => Greet(job, s, s.stage.attempt)
    case Cut => s
    case Dead => s.(stage := Stopped(SocketError))
  }

  function OnDraining(job: Job, s: Sender, reply: Reply): (s': Sender)
    requires s.Valid(job) && s.stage.Draining?
    ensures s'.Valid(job)
  {
    match reply
    case Quiet => s.(stage := Blasting(0))
    case Cut => s.(stage := Stopped(SocketError))
    case Dead => s.(stage := Stopped(SocketError))
    case Heard(from, datagram) =>
      if from != s.peer then s
      else match Parse(datagram)
        case Some(Message(Fin, _, _)) => Complete(s)
        case Some(Message(Nack, count, payload)) =>
          s.(pending := PushAll(s.pending, job.Total(), DecodeNacks(count, payload)))
        case _ => s
  }

  function OnFeedback(job: Job, s: Sender, reply: Reply): (s': Sender)
    requires s.Valid(job) && s.stage.Feedback?
    ensures s'.Valid(job)
  {
    match reply
    case Quiet =>
      if s.pass + 1 > job.passes then s.(stage := Stopped(GaveUp), pass := s.pass + 1)
      else
        var missing := FirstOccurrences(s.stage.missing);
        s.(stage := Blasting(0), pass := s.pass + 1, pending := PushAll(s.pending, job.Total(), missing))
    case Cut => s.(stage := Stopped(SocketError))
    case Dead => s.(stage := Stopped(SocketError))
    case Heard(from, datagram) =>
      if from != s.peer then s
      else match Parse(datagram)
        case Some(Message(Fin, _, _)) => Complete(s)
        case Some(Message(Nack, count, payload)) =>
          s.(stage := Feedback(s.stage.missing + DecodeNacks(count, payload)))
        case _ => s
  }

  function On(job: Job, s: Sender, reply: Reply): (s': Sender)
    requires s.Valid(job) && !s.Over() && !s.stage.Blasting?
    ensures s'.Valid(job)
  {
    match s.stage
    case Greeting(_) => OnGreeting(job, s, reply)
    case Draining => OnDraining(job, s, reply)
    case Feedback(_) => OnFeedback(job, s, reply)
  }

  // ---------- Runs ----------

  // How far a sender is from being over once the socket stays quiet.
  function AttemptsLeft(job: Job, s: Sender): nat {
    if s.stage.Greeting? then (if s.stage.attempt < job.attempts then job.attempts - s.stage.attempt else 0) + 1 else 0
  }

  function PassesLeft(job: Job, s: Sender): nat {
    if s.pass < job.passes then job.passes - s.pass else 0
  }

  function WorkLeft(s: Sender): nat {
    match s.stage
    case Blasting(_) => 2 * |s.pending| + 1
    case Draining => 2 * |s.pending| + 2
    case _ => 0
  }

  // Every run on finitely many replies ends, although NACKs refill the queue:
  // when the replies are used up the socket is quiet for good.
  function Run(job: Job, s: Sender, replies: seq<Reply>): (s': Sender)
    requires s.Valid(job)
    ensures s'.Valid(job) && s'.Over()
    decreases |replies|, AttemptsLeft(job, s), PassesLeft(job, s), if s.Over() then 0 else 1, WorkLeft(s)
  {
    if s.Over() then s
    else if s.stage.Blasting? then Run(job, Act(job, s), replies)
    else if replies == [] then Run(job, On(job, s, Quiet), [])
    else Run(job, On(job, s, replies[0]), replies[1..])
  }
}
