/**
 The sender of src/lib/send.rs as it runs: a queue with its companion set, reused
 buffers, and nested loops over the socket, proved to run the sender's state
 machine. Also `read_chunk` of src/lib/protocol.rs.
 */
module SendSessions {
  import opened Options
  import opened Wire
  import opened Chunks
  import InitPacket
  import opened ChunkSets
  import opened SenderMachine
  import opened SenderQueue
  import opened Sockets

  // The next reply. Once they are used up the socket stays quiet.
  method Receive(sock: Socket<Reply>) returns (reply: Reply)
    modifies sock`inbox
    ensures if old(sock.inbox) == [] then reply == Quiet && sock.inbox == []
            else reply == old(sock.inbox)[0] && sock.inbox == old(sock.inbox)[1..]
  {
    if sock.inbox == [] {
      reply := Quiet;
    } else {
      reply := sock.Take();
    }
  }

  // The open source file. A read may return fewer bytes than asked for; the
  // hints say how many, never fewer than one before the end.
  class SourceFile {
    const content: Bytes
    var pos: nat
    var hints: seq<nat>

    constructor (content: Bytes, hints: seq<nat>)
      ensures this.content == content
    {
      this.content, pos, this.hints := content, 0, hints;
    }

    method Read(buf: array<byte>, from: nat) returns (n: nat)
      requires from <= buf.Length
      modifies this, buf
      ensures n <= buf.Length - from && pos == old(pos) + n && (n > 0 ==> pos <= |content|)
      ensures n == 0 <==> from == buf.Length || old(pos) >= |content|
      ensures buf[..from] == old(buf[..from])
      ensures n > 0 ==> buf[from..from + n] == content[old(pos)..old(pos) + n]
    {
      var space := buf.Length - from;
      if space == 0 || pos >= |content| {
        return 0;
      }
      n := if space < |content| - pos then space else |content| - pos;
      if hints != [] {
        n := if 0 < hints[0] < n then hints[0] else n;
        hints := hints[1..];
      }
      forall i | 0 <= i < n {
        buf[from + i] := content[pos + i];
      }
      pos := pos + n;
    }
  }

  // Loops on short reads; fewer bytes than the buffer holds means end of file.
  method ReadChunk(f: SourceFile, buf: array<byte>) returns (n: nat)
    requires f.pos <= |f.content|
    modifies f, buf
    ensures n == if buf.Length < |f.content| - old(f.pos) then buf.Length else |f.content| - old(f.pos)
    ensures buf[..n] == f.content[old(f.pos)..old(f.pos) + n]
  {
    n := 0;
    var start := f.pos;
    while n < buf.Length
      invariant n <= buf.Length && f.pos == start + n <= |f.content|
      invariant buf[..n] == f.content[start..start + n]
      decreases buf.Length - n
    {
      var k := f.Read(buf, n);
      if k == 0 {
        break;
      }
      assert buf[..n + k] == buf[..n] + buf[n..n + k];
      assert f.content[start..start + (n + k)] == f.content[start..start + n] + f.content[start + n..start + n + k];
      n := n + k;
    }
  }

  // `dedup`: a set of what was seen decides what to keep.
  method Dedup(seqs: seq<u32>) returns (kept: seq<u32>)
    ensures kept == FirstOccurrences(seqs)
  {
    var seen: set<u32> := {};
    kept := [];
    for i := 0 to |seqs|
      invariant kept == FirstOccurrences(seqs[..i])
      invariant seen == set x | x in seqs[..i]
    {
      assert seqs[..i + 1] == seqs[..i] + [seqs[i]];
      assert seqs[..i + 1][..i] == seqs[..i];
      if seqs[i] !in seen {
        kept := kept + [seqs[i]];
      }
      seen := seen + {seqs[i]};
    }
    assert seqs[..|seqs|] == seqs;
  }

  class Blast {
    const total: u32
    const chunkBuf: array<byte>
    const verifyBuf: array<byte>
    var pending: seq<u32>
    var queued: set<nat>
    var progressDone: nat
    ghost var blasted: seq<u32>

    // The set and the queue hold the same chunks, each once and all in range.
    ghost predicate Valid()
      reads this
    {
      queued == Elements(pending) && Distinct(pending) && forall i | 0 <= i < |pending| :: pending[i] < total
    }

    constructor (chunkSize: u32, version: Version, total: u32)
      ensures Valid() && this.total == total && pending == Everything(total) && progressDone == 0 && blasted == []
      ensures fresh(chunkBuf) && fresh(verifyBuf) && chunkBuf != verifyBuf && chunkBuf.Length == chunkSize
      ensures version.Verifies() ==> verifyBuf.Length == DIGEST_SIZE + chunkSize
    {
      this.total := total;
      pending := Everything(total);
      queued := set x | x in Everything(total);
      chunkBuf := new byte[chunkSize](_ => 0);
      verifyBuf := new byte[if version.Verifies() then DIGEST_SIZE + chunkSize else 0](_ => 0);
      progressDone, blasted := 0, [];
      EverythingDistinct(total);
    }

    predicate ChunkExists(chunk: u32) {
      chunk < total
    }

    method Enqueue(missing: seq<u32>)
      requires Valid()
      modifies this`pending, this`queued
      ensures Valid() && pending == PushAll(old(pending), total, missing) && old(pending) <= pending
    {
      PushAllDistinct(pending, total, missing);
      for i := 0 to |missing|
        invariant Valid()
        invariant PushAll(old(pending), total, missing) == PushAll(pending, total, missing[i..])
      {
        PushNext(pending, total, missing[i..], missing[i + 1..]);
        EnqueueOne(missing[i]);
      }
    }

    method EnqueueOne(chunk: u32)
      requires Valid()
      modifies this`pending, this`queued
      ensures Valid() && pending == Push(old(pending), total, chunk)
    {
      ElementsPush(pending, total, chunk);
      if ChunkExists(chunk) && chunk !in queued {
        queued := queued + {chunk};
        pending := pending + [chunk];
      }
    }
  }

  // Reading one reply is one step of the machine, and so is acting alone.
  lemma HearStep(job: Job, s: Sender, inbox: seq<Reply>)
    requires s.Valid(job) && !s.Over() && !s.stage.Blasting?
    ensures Run(job, s, inbox)
      == if inbox == [] then Run(job, On(job, s, Quiet), []) else Run(job, On(job, s, inbox[0]), inbox[1..])
  {}

  lemma ActStep(job: Job, s: Sender, inbox: seq<Reply>)
    requires s.Valid(job) && s.stage.Blasting?
    ensures Run(job, s, inbox) == Run(job, Act(job, s), inbox)
  {}

  lemma OverStep(job: Job, s: Sender, inbox: seq<Reply>)
    requires s.Valid(job) && s.Over()
    ensures Run(job, s, inbox) == s
  {}

  datatype DrainEnd = Drained | SawFin | Broke

  datatype Feedback = Complete | Retransmit(missing: seq<u32>) | Failed

  datatype SendEnd = Rejected | Delivered | Gave(why: SendError)

  class SendSession {
    const job: Job
    const sock: Socket<Reply>
    const file: SourceFile

    constructor (job: Job, sock: Socket<Reply>, file: SourceFile)
      requires job.Valid() && file.content == job.file
      ensures this.job == job && this.sock == sock && this.file == file
    {
      this.job, this.sock, this.file := job, sock, file;
    }

    ghost predicate Ready(blast: Blast)
      reads blast
    {
      job.Valid() && blast.Valid() && blast.total == job.Total() && file.content == job.file &&
      blast.chunkBuf != blast.verifyBuf && blast.chunkBuf.Length == job.chunkSize &&
      (job.version.Verifies() ==> blast.verifyBuf.Length == DIGEST_SIZE + job.chunkSize)
    }

    // The machine state these objects stand for.
    ghost function State(stage: Stage, peer: Addr, pass: nat, blast: Blast): Sender
      reads sock, blast
    {
      Sender(stage, peer, blast.pending, pass, blast.progressDone, sock.budget, sock.sent, blast.blasted)
    }

    // For every chunk of the file: exactly its bytes, wrapped for the version.
    method SendOne(chunk: u32, buf: array<byte>, verifyBuf: array<byte>) returns (ok: bool)
      requires job.Valid() && chunk < job.Total() && file.content == job.file
      requires buf != verifyBuf && buf.Length == job.chunkSize
      requires job.version.Verifies() ==> verifyBuf.Length == DIGEST_SIZE + job.chunkSize
      modifies file, buf, verifyBuf, sock`sent, sock`budget
      ensures ok == (old(sock.budget) > 0)
      ensures if ok then sock.sent == old(sock.sent) + [Outgoing(job.target, job.DataDatagram(chunk))] &&
                         sock.budget == old(sock.budget) - 1
              else sock.sent == old(sock.sent) && sock.budget == old(sock.budget)
    {
      ChunkStartIsProduct(job.chunkSize, chunk);
      ghost var len := ChunkLen(|job.file|, job.chunkSize, chunk);
      file.pos := chunk * job.chunkSize;
      var n := ReadChunk(file, buf);
      assert n == len;
      ghost var body := ChunkOf(job.file, job.chunkSize, chunk);
      assert buf[..n] == body;
      var payload: Bytes;
      if job.version.Verifies() {
        var hash := job.sha(buf[..n]);
        forall i | 0 <= i < DIGEST_SIZE {
          verifyBuf[i] := hash[i];
        }
        forall i | 0 <= i < n {
          verifyBuf[DIGEST_SIZE + i] := buf[i];
        }
        payload := verifyBuf[..DIGEST_SIZE + n];
        assert payload == hash + body;
      } else {
        payload := buf[..n];
      }
      ok := sock.SendPacket(job.target, Data, chunk, payload);
    }

    // One look at the socket.
    method DrainOne(blast: Blast, peer: Addr, ghost pass: nat) returns (end: Option<DrainEnd>)
      requires Ready(blast)
      modifies blast`pending, blast`queued, sock`inbox
      ensures Ready(blast) && |sock.inbox| <= |old(sock.inbox)| && old(blast.pending) <= blast.pending
      ensures end.Some? ==> blast.pending == old(blast.pending)
      ensures end.None? ==> |sock.inbox| < |old(sock.inbox)|
      ensures Run(job, old(State(Draining, peer, pass, blast)), old(sock.inbox)) ==
        match end
        case None => Run(job, State(Draining, peer, pass, blast), sock.inbox)
        case Some(Drained) => Run(job, State(Blasting(0), peer, pass, blast), sock.inbox)
        case Some(SawFin) => SenderMachine.Complete(State(Draining, peer, pass, blast))
        case Some(Broke) => State(Stopped(SocketError), peer, pass, blast)
    {
      ghost var s := State(Draining, peer, pass, blast);
      HearStep(job, s, sock.inbox);
      var reply := Receive(sock);
      match reply {
        case Quiet => return Some(Drained);
        case Cut => OverStep(job, s.(stage := Stopped(SocketError)), sock.inbox); return Some(Broke);
        case Dead => OverStep(job, s.(stage := Stopped(SocketError)), sock.inbox); return Some(Broke);
        case Heard(from, datagram) =>
          if from == peer {
            match Parse(datagram) {
              case Some(Message(Fin, _, _)) =>
                OverStep(job, SenderMachine.Complete(s), sock.inbox);
                return Some(SawFin);
              case Some(Message(Nack, count, payload)) =>
                blast.Enqueue(DecodeNacks(count, payload));
              case _ =>
            }
          }
          return None;
      }
    }

    method DrainFeedback(blast: Blast, peer: Addr, ghost pass: nat) returns (end: DrainEnd)
      requires Ready(blast)
      modifies blast`pending, blast`queued, sock`inbox
      ensures Ready(blast) && |sock.inbox| <= |old(sock.inbox)|
      ensures |sock.inbox| == |old(sock.inbox)| ==> blast.pending == old(blast.pending)
      ensures old(blast.pending) <= blast.pending
      ensures Run(job, old(State(Draining, peer, pass, blast)), old(sock.inbox)) ==
        match end
        case Drained => Run(job, State(Blasting(0), peer, pass, blast), sock.inbox)
        case SawFin => SenderMachine.Complete(State(Draining, peer, pass, blast))
        case Broke => State(Stopped(SocketError), peer, pass, blast)
    {
      while true
        invariant Ready(blast) && |sock.inbox| <= |old(sock.inbox)|
        invariant |sock.inbox| == |old(sock.inbox)| ==> blast.pending == old(blast.pending)
        invariant old(blast.pending) <= blast.pending
        invariant Run(job, old(State(Draining, peer, pass, blast)), old(sock.inbox))
          == Run(job, State(Draining, peer, pass, blast), sock.inbox)
        decreases |sock.inbox|
      {
        var seen := DrainOne(blast, peer, pass);
        if seen.Some? {
          return seen.value;
        }
      }
    }

    // One pass. If it ends drained, the queue is empty and everything that was
    // queued at entry has been sent, ahead of anything queued meanwhile.
    method SendPending(blast: Blast, peer: Addr, ghost pass: nat) returns (end: DrainEnd, ghost sinceDrained: nat)
      requires Ready(blast)
      modifies blast, blast.chunkBuf, blast.verifyBuf, sock, file
      ensures Ready(blast) && |sock.inbox| <= |old(sock.inbox)|
      ensures end == Drained ==>
        blast.pending == [] && blast.queued == {} && old(blast.blasted + blast.pending) <= blast.blasted
      ensures Run(job, old(State(Blasting(0), peer, pass, blast)), old(sock.inbox)) ==
        match end
        case Drained => Run(job, State(Blasting(sinceDrained), peer, pass, blast), sock.inbox)
        case SawFin => SenderMachine.Complete(State(Draining, peer, pass, blast))
        case Broke => State(Stopped(SocketError), peer, pass, blast)
    {
      var sinceDrain := 0;
      while blast.pending != []
        invariant Ready(blast) && |sock.inbox| <= |old(sock.inbox)|
        invariant old(blast.blasted + blast.pending) <= blast.blasted + blast.pending
        invariant Run(job, old(State(Blasting(0), peer, pass, blast)), old(sock.inbox))
          == Run(job, State(Blasting(sinceDrain), peer, pass, blast), sock.inbox)
        decreases |sock.inbox|, |blast.pending|
      {
        end, sinceDrain := BlastOne(blast, peer, pass, sinceDrain);
        if end != Drained {
          return end, 0;
        }
      }
      assert Elements([]) == {};
      return Drained, sinceDrain;
    }

    // One chunk, and a look at the socket after every sixteenth.
    method BlastOne(blast: Blast, peer: Addr, ghost pass: nat, sinceDrain: nat) returns (end: DrainEnd, next: nat)
      requires Ready(blast) && blast.pending != []
      modifies blast, blast.chunkBuf, blast.verifyBuf, sock, file
      ensures Ready(blast) && |sock.inbox| <= |old(sock.inbox)|
      ensures |sock.inbox| == |old(sock.inbox)| ==> |blast.pending| < |old(blast.pending)|
      ensures end == Drained ==> old(blast.blasted + blast.pending) <= blast.blasted + blast.pending
      ensures Run(job, old(State(Blasting(sinceDrain), peer, pass, blast)), old(sock.inbox)) ==
        match end
        case Drained => Run(job, State(Blasting(next), peer, pass, blast), sock.inbox)
        case SawFin => SenderMachine.Complete(State(Draining, peer, pass, blast))
        case Broke => State(Stopped(SocketError), peer, pass, blast)
    {
      ghost var s := State(Blasting(sinceDrain), peer, pass, blast);
      ActStep(job, s, sock.inbox);
      var sent := SendNext(blast, s);
      if !sent {
        OverStep(job, Act(job, s), sock.inbox);
        return Broke, 0;
      }
      if sinceDrain + 1 < FEEDBACK_DRAIN_INTERVAL {
        return Drained, sinceDrain + 1;
      }
      end := DrainFeedback(blast, peer, pass);
      next := 0;
    }

    // Take the front of the queue and send it.
    method SendNext(blast: Blast, ghost s: Sender) returns (ok: bool)
      requires Ready(blast) && blast.pending != []
      requires s.stage.Blasting? && s == State(s.stage, s.peer, s.pass, blast)
      modifies blast, blast.chunkBuf, blast.verifyBuf, sock`sent, sock`budget, file
      ensures Ready(blast) && |blast.pending| < |old(blast.pending)|
      ensures ok ==> old(blast.blasted + blast.pending) == blast.blasted + blast.pending
      ensures Act(job, s) == State(
        if !ok then Stopped(SocketError)
        else if s.stage.sinceDrain + 1 >= FEEDBACK_DRAIN_INTERVAL then Draining
        else Blasting(s.stage.sinceDrain + 1), s.peer, s.pass, blast)
    {
      var chunk := blast.pending[0];
      PopFront(blast.pending);
      QueueFits(blast.pending, blast.total);
      blast.pending := blast.pending[1..];
      blast.queued := blast.queued - {chunk as nat};
      ok := SendOne(chunk, blast.chunkBuf, blast.verifyBuf);
      if ok {
        blast.blasted := blast.blasted + [chunk];
        var done := job.Total() - |blast.pending|;
        if done > blast.progressDone {
          blast.progressDone := done;
        }
      }
    }

    // After a DONE: gather NACKs until the socket falls quiet.
    method CollectFeedback(peer: Addr, ghost s: Sender) returns (feedback: Feedback, ghost raw: seq<u32>)
      requires s.Valid(job) && s.stage == SenderMachine.Feedback([]) && s.peer == peer
      modifies sock`inbox
      ensures Run(job, s, old(sock.inbox)) ==
        match feedback
        case Complete => SenderMachine.Complete(s.(stage := SenderMachine.Feedback(raw)))
        case Retransmit(_) => Run(job, On(job, s.(stage := SenderMachine.Feedback(raw)), Quiet), sock.inbox)
        case Failed => s.(stage := Stopped(SocketError))
      ensures feedback.Retransmit? ==> feedback.missing == FirstOccurrences(raw)
      ensures |sock.inbox| <= |old(sock.inbox)|
    {
      var missing: seq<u32> := [];
      raw := [];
      while true
        invariant missing == raw && |sock.inbox| <= |old(sock.inbox)|
        invariant Run(job, s, old(sock.inbox)) == Run(job, s.(stage := SenderMachine.Feedback(raw)), sock.inbox)
        decreases |sock.inbox|
      {
        ghost var now := s.(stage := SenderMachine.Feedback(raw));
        HearStep(job, now, sock.inbox);
        var reply := Receive(sock);
        match reply {
          case Quiet =>
            var kept := Dedup(missing);
            return Retransmit(kept), raw;
          case Cut => OverStep(job, now.(stage := Stopped(SocketError)), sock.inbox); return Failed, raw;
          case Dead => OverStep(job, now.(stage := Stopped(SocketError)), sock.inbox); return Failed, raw;
          case Heard(from, datagram) =>
            if from == peer {
              match Parse(datagram) {
                case Some(Message(Fin, _, _)) =>
                  OverStep(job, SenderMachine.Complete(now), sock.inbox);
                  return Feedback.Complete, raw;
                case Some(Message(Nack, count, payload)) =>
                  missing := missing + DecodeNacks(count, payload);
                  raw := missing;
                case _ =>
              }
            }
        }
      }
    }

    // Waiting for an answer to that attempt.
    ghost function Hailing(attempt: nat): Sender
      reads sock
    {
      Sender(Greeting(attempt), 0, [], 1, 0, sock.budget, sock.sent, [])
    }

    // One more INIT.
    method Hail(attempt: nat) returns (ok: bool)
      requires job.Valid() && attempt < job.attempts
      modifies sock`sent, sock`budget
      ensures Greet(job, old(Hailing(attempt)), attempt)
        == if ok then Hailing(attempt + 1) else Hailing(attempt).(stage := Stopped(SocketError))
    {
      var hash := job.sha(job.file);
      var payload := InitPacket.LayOutInit(job.version, |job.file|, job.chunkSize, hash, job.name);
      ok := sock.SendPacket(job.target, Init, 0, payload);
    }

    // Announce the file until some host acknowledges it.
    method Handshake() returns (peer: Result<Addr, SendError>)
      requires job.Valid() && sock.sent == []
      modifies sock
      ensures Run(job, Start(job, old(sock.budget)), old(sock.inbox)) ==
        match peer
        case Ok(from) =>
          Run(job, Sender(Blasting(0), from, Everything(job.Total()), 1, 0, sock.budget, sock.sent, []), sock.inbox)
        case Err(why) => Sender(Stopped(why), 0, [], 1, 0, sock.budget, sock.sent, [])
      ensures |sock.inbox| <= |old(sock.inbox)|
    {
      var attempt := 0;
      ghost var start, all := Start(job, sock.budget), sock.inbox;
      while attempt < job.attempts
        invariant attempt <= job.attempts && |sock.inbox| <= |old(sock.inbox)|
        invariant Run(job, start, all)
          == Run(job, Greet(job, Hailing(attempt), attempt), sock.inbox)
        decreases job.attempts - attempt
      {
        var ok := Hail(attempt);
        if !ok {
          return Err(SocketError);
        }
        attempt := attempt + 1;
        var answer := AwaitAck(attempt, Hailing(attempt));
        if answer.Some? {
          return answer.value;
        }
      }
      return Err(HandshakeTimeout);
    }

    // One attempt: None when it timed out.
    method AwaitAck(attempt: nat, ghost s: Sender) returns (answer: Option<Result<Addr, SendError>>)
      requires job.Valid()
      modifies sock`inbox
      requires s == Hailing(attempt)
      ensures Run(job, s, old(sock.inbox)) ==
        match answer
        case None => Run(job, Greet(job, s, attempt), sock.inbox)
        case Some(Ok(from)) =>
          Run(job, s.(stage := Blasting(0), peer := from, pending := Everything(job.Total())), sock.inbox)
        case Some(Err(why)) => s.(stage := Stopped(why))
      ensures |sock.inbox| <= |old(sock.inbox)|
    {
      while true
        invariant Run(job, s, old(sock.inbox)) == Run(job, s, sock.inbox) && |sock.inbox| <= |old(sock.inbox)|
        decreases |sock.inbox|
      {
        HearStep(job, s, sock.inbox);
        var reply := Receive(sock);
        match reply {
          case Quiet => return None;
          case Cut =>
          case Dead => return Some(Err(SocketError));
          case Heard(from, datagram) =>
            if KindOf(datagram) == Some(Ack) {
              return Some(Ok(from));
            }
        }
      }
    }

    // The end of a pass: say DONE, and queue what comes back missing. None means
    // another pass.
    method EndPass(blast: Blast, peer: Addr, pass: nat, ghost sinceDrain: nat) returns (end: Option<SendEnd>)
      requires Ready(blast) && blast.pending == []
      modifies blast`pending, blast`queued, sock
      ensures Ready(blast)
      ensures end == None ==> pass + 1 <= job.passes
      ensures Outcome(old(State(Blasting(sinceDrain), peer, pass, blast)), old(sock.inbox),
                      State(Blasting(0), peer, pass + 1, blast), end)
    {
      ghost var s := State(Blasting(sinceDrain), peer, pass, blast);
      ActStep(job, s, sock.inbox);
      var ok := sock.SendControl(job.target, Done, job.Total());
      if !ok {
        OverStep(job, Act(job, s), sock.inbox);
        return Some(Gave(SocketError));
      }
      end := Settle(blast, peer, pass, State(SenderMachine.Feedback([]), peer, pass, blast));
    }

    // What comes back decides.
    method Settle(blast: Blast, peer: Addr, pass: nat, ghost waiting: Sender) returns (end: Option<SendEnd>)
      requires Ready(blast) && waiting == State(SenderMachine.Feedback([]), peer, pass, blast)
      modifies blast`pending, blast`queued, sock
      ensures Ready(blast)
      ensures end == None ==> pass + 1 <= job.passes
      ensures Outcome(waiting, old(sock.inbox), State(Blasting(0), peer, pass + 1, blast), end)
    {
      var feedback, raw := CollectFeedback(peer, waiting);
      match feedback {
        case Failed => end := Some(Gave(SocketError));
        case Complete =>
          var acked := sock.SendControl(peer, FinAck, 0);
          end := Some(Delivered);
        case Retransmit(missing) =>
          end := QueueMissing(blast, peer, pass, missing, waiting.(stage := SenderMachine.Feedback(raw)));
      }
    }

    method QueueMissing(blast: Blast, peer: Addr, pass: nat, missing: seq<u32>, ghost s: Sender)
      returns (end: Option<SendEnd>)
      requires Ready(blast) && s.stage.Feedback? && s == State(s.stage, peer, pass, blast)
      requires missing == FirstOccurrences(s.stage.missing)
      modifies blast`pending, blast`queued
      ensures Ready(blast)
      ensures end == None ==>
        pass + 1 <= job.passes && On(job, s, Quiet) == State(Blasting(0), peer, pass + 1, blast)
      ensures end != None ==>
        end == Some(Gave(GaveUp)) && Reported(Run(job, On(job, s, Quiet), sock.inbox), Gave(GaveUp))
    {
      if pass + 1 > job.passes {
        OverStep(job, On(job, s, Quiet), sock.inbox);
        return Some(Gave(GaveUp));
      }
      blast.Enqueue(missing);
      end := None;
    }

    // Either the machine goes on in `later`, or its run is over as `end` says.
    ghost predicate Outcome(s: Sender, inbox: seq<Reply>, later: Sender, end: Option<SendEnd>)
      requires s.Valid(job) && later.Valid(job)
      reads sock
    {
      var final := Run(job, s, inbox);
      match end
      case None => final == Run(job, later, sock.inbox)
      case Some(e) => Reported(final, e)
    }

    ghost predicate Reported(final: Sender, end: SendEnd)
      reads sock
    {
      sock.sent == final.sent && sock.budget == final.budget &&
      match final.stage
      case Completed => end == Delivered
      case Stopped(why) => end == Gave(why)
      case _ => false
    }

    // The whole sender: its outcome and everything it puts on the wire are the
    // machine's.
    method RunPasses() returns (end: SendEnd)
      requires job.Valid() && file.content == job.file && sock.sent == []
      modifies sock, file
      ensures Reported(Run(job, Start(job, old(sock.budget)), old(sock.inbox)), end)
    {
      var answer := Handshake();
      if answer.Err? {
        return Gave(answer.error);
      }
      var peer := answer.value;
      var blast := new Blast(job.chunkSize, job.version, job.Total());
      end := Passes(blast, peer);
    }

    method Passes(blast: Blast, peer: Addr) returns (end: SendEnd)
      requires Ready(blast)
      modifies blast, blast.chunkBuf, blast.verifyBuf, sock, file
      ensures Reported(Run(job, old(State(Blasting(0), peer, 1, blast)), old(sock.inbox)), end)
    {
      var pass := 1;
      ghost var final := Run(job, State(Blasting(0), peer, 1, blast), sock.inbox);
      while true
        invariant Ready(blast) && pass >= 1
        invariant final == Run(job, State(Blasting(0), peer, pass, blast), sock.inbox)
        decreases if pass < job.passes then job.passes - pass else 0
      {
        var drained, sinceDrain := SendPending(blast, peer, pass);
        if drained == Broke {
          return Gave(SocketError);
        }
        if drained == SawFin {
          var acked := sock.SendControl(peer, FinAck, 0);
          return Delivered;
        }
        var over := EndPass(blast, peer, pass, sinceDrain);
        if over.Some? {
          return over.value;
        }
        pass := pass + 1;
      }
    }
  }

  lemma PushNext(pending: seq<u32>, total: nat, rest: seq<u32>, next: seq<u32>)
    requires rest != [] && next == rest[1..]
    ensures PushAll(pending, total, rest) == PushAll(Push(pending, total, rest[0]), total, next)
  {}

  lemma PopFront(pending: seq<u32>)
    requires pending != [] && Distinct(pending)
    ensures Elements(pending[1..]) == Elements(pending) - {pending[0] as nat} && Distinct(pending[1..])
  {
    ElementsCons(pending);
  }

  lemma QueueFits(pending: seq<u32>, total: u32)
    requires Distinct(pending) && forall i | 0 <= i < |pending| :: pending[i] < total
    ensures |pending| <= total
  {
    DistinctSize(pending);
    SubsetSize(Elements(pending), Below(total));
  }

  // `run_send` from its checks on: refused, before anything is sent, are exactly the
  // chunk sizes of which some chunk does not fit a datagram, and the files that
  // 2^24 chunks do not hold.
  method RunSend(job: Job, sock: Socket<Reply>, file: SourceFile) returns (end: SendEnd)
    requires |job.file| < 0x1_0000_0000_0000_0000 && file.content == job.file && sock.sent == []
    modifies sock, file
    ensures end == Rejected
      <==> !(FramesFit(job.sha, job.version, job.chunkSize) && |job.file| <= 0x100_0000 * job.chunkSize)
    ensures end == Rejected ==> sock.sent == []
    ensures end != Rejected ==> job.Valid()
    ensures end != Rejected ==>
      var s := Run(job, Start(job, old(sock.budget)), old(sock.inbox));
        sock.sent == s.sent && (s.stage.Completed? <==> end == Delivered) &&
        (s.stage.Stopped? ==> end == Gave(s.stage.why))
  {
    InitPacket.TransferableExactly(job.sha, |job.file|, job.chunkSize, job.version);
    if !ValidChunkSize(job.chunkSize, job.version) {
      return Rejected;
    }
    ChunkCountIsDivCeil(|job.file|, job.chunkSize);
    if DivCeil(|job.file|, job.chunkSize) > MAX_TOTAL_CHUNKS {
      return Rejected;
    }
    var session := new SendSession(job, sock, file);
    end := session.RunPasses();
  }
}
