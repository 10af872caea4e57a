/**
 What a pass of the sender achieves: everything owed is sent, in the order it was
 asked for, and the number of passes and attempts is bounded.
 */
module SenderPasses {
  import opened Options
  import opened Wire
  import Chunks
  import InitPacket
  import ChunkSets
  import opened Nacks
  import opened SenderMachine
  import opened SenderQueue

  // ---------- Everything owed is sent ----------

  // Chunks already sent, then those still queued: the whole history of the queue.
  function History(s: Sender): seq<u32> {
    s.blasted + s.pending
  }

  // The DATA among what was sent.
  function DataOf(sent: seq<Outgoing>): (data: seq<Outgoing>)
    ensures forall o | o in sent && KindOf(o.datagram) == Some(Data) :: o in data
  {
    if sent == [] then []
    else
      var last := sent[|sent| - 1];
      DataOf(sent[..|sent| - 1]) + if KindOf(last.datagram) == Some(Data) then [last] else []
  }

  // One DATA for each chunk, in order.
  function Blasts(job: Job, chunks: seq<u32>): seq<Outgoing>
    requires job.Valid() && forall i | 0 <= i < |chunks| :: chunks[i] < job.Total()
  {
    seq(|chunks|, i requires 0 <= i < |chunks| => Outgoing(job.target, job.DataDatagram(chunks[i])))
  }

  lemma {:induction false} DataOfAppend(a: seq<Outgoing>, b: seq<Outgoing>)
    ensures DataOf(a + b) == DataOf(a) + DataOf(b)
    decreases |b|
  {
    if b == [] {
      assert a + b == a;
    } else {
      assert (a + b)[..|a + b| - 1] == a + b[..|b| - 1];
      DataOfAppend(a, b[..|b| - 1]);
    }
  }

  lemma DataOfOne(o: Outgoing)
    ensures DataOf([o]) == if KindOf(o.datagram) == Some(Data) then [o] else []
  {
    assert [o][..0] == [];
  }

  // What was sent is one DATA for each of these chunks, in order, and no other DATA.
  ghost predicate SendsExactly(job: Job, chunks: seq<u32>, out: seq<Outgoing>)
    requires job.Valid()
  {
    (forall i | 0 <= i < |chunks| :: chunks[i] < job.Total()) && DataOf(out) == Blasts(job, chunks)
  }

  lemma SendsNone(job: Job, out: seq<Outgoing>)
    requires job.Valid() && forall o | o in out :: KindOf(o.datagram) != Some(Data)
    ensures SendsExactly(job, [], out)
    decreases |out|
  {
    if out != [] {
      SendsNone(job, out[..|out| - 1]);
      assert Blasts(job, []) == [];
    }
  }

  lemma SendsAppend(job: Job, a: seq<u32>, b: seq<u32>, outA: seq<Outgoing>, outB: seq<Outgoing>)
    requires job.Valid() && SendsExactly(job, a, outA) && SendsExactly(job, b, outB)
    ensures SendsExactly(job, a + b, outA + outB)
  {
    DataOfAppend(outA, outB);
    assert Blasts(job, a + b) == Blasts(job, a) + Blasts(job, b);
  }

  lemma SendsMember(job: Job, chunks: seq<u32>, out: seq<Outgoing>, c: u32)
    requires job.Valid() && SendsExactly(job, chunks, out) && c in chunks
    ensures c < job.Total() && Outgoing(job.target, job.DataDatagram(c)) in out
  {
    var i :| 0 <= i < |chunks| && chunks[i] == c;
    assert Blasts(job, chunks)[i] == Outgoing(job.target, job.DataDatagram(c));
    DataOfSubset(out, Outgoing(job.target, job.DataDatagram(c)));
  }

  lemma {:induction false} DataOfSubset(out: seq<Outgoing>, o: Outgoing)
    requires o in DataOf(out)
    ensures o in out
    decreases |out|
  {
    if o in DataOf(out[..|out| - 1]) {
      DataOfSubset(out[..|out| - 1], o);
    }
  }

  // From one state to a later one: the queue's history and the wire only grow
  // at the end, and the DATA that went out are exactly the chunks taken from the
  // queue, in order.
  ghost predicate Advances(job: Job, s: Sender, s': Sender)
    requires job.Valid()
  {
    s.blasted <= s'.blasted && s.sent <= s'.sent &&
    SendsExactly(job, s'.blasted[|s.blasted|..], s'.sent[|s.sent|..]) &&
    (!s'.stage.Stopped? ==> History(s) <= History(s'))
  }

  lemma ControlAdvances(job: Job, s: Sender, s': Sender, more: seq<Outgoing>)
    requires job.Valid() && s'.blasted == s.blasted && s'.sent == s.sent + more && s.pending <= s'.pending
    requires forall o | o in more :: KindOf(o.datagram) != Some(Data)
    ensures Advances(job, s, s')
  {
    assert s'.blasted[|s.blasted|..] == [] && s'.sent[|s.sent|..] == more;
    SendsNone(job, more);
    PrefixAppend(s.blasted, s.pending, s'.pending);
  }

  lemma SendsOne(job: Job, chunk: u32)
    requires job.Valid() && chunk < job.Total()
    ensures SendsExactly(job, [chunk], [Outgoing(job.target, job.DataDatagram(chunk))])
  {
    KindOfPacket(Data, chunk, Chunks.DataPayload(job.sha, job.version, Chunks.ChunkOf(job.file, job.chunkSize, chunk)));
    DataOfOne(Outgoing(job.target, job.DataDatagram(chunk)));
  }

  lemma DataAdvances(job: Job, s: Sender, s': Sender, chunk: u32, o: Outgoing)
    requires job.Valid() && s.pending == [chunk] + s'.pending && SendsExactly(job, [chunk], [o])
    requires s'.blasted == s.blasted + [chunk] && s'.sent == s.sent + [o]
    ensures Advances(job, s, s')
  {
    assert s'.blasted[|s.blasted|..] == [chunk] && s'.sent[|s.sent|..] == [o];
    assert History(s') == History(s);
  }

  lemma ActAdvances(job: Job, s: Sender)
    requires s.Valid(job) && s.stage.Blasting?
    ensures Advances(job, s, Act(job, s))
  {
    var s' := Act(job, s);
    if s.pending != [] && s.budget > 0 {
      SendsOne(job, s.pending[0]);
      DataAdvances(job, s, s', s.pending[0], Outgoing(job.target, job.DataDatagram(s.pending[0])));
    } else if s.pending != [] {
      assert s'.blasted[|s.blasted|..] == [] && s'.sent[|s.sent|..] == [];
      SendsNone(job, []);
    } else {
      KindOfPacket(Done, job.Total(), []);
      ControlAdvances(job, s, s', if s.budget > 0 then [Outgoing(job.target, job.DoneDatagram())] else []);
    }
  }

  // Every reply leaves the queue's order alone and answers with control packets only.
  lemma OnSends(job: Job, s: Sender, reply: Reply) returns (more: seq<Outgoing>)
    requires s.Valid(job) && !s.Over() && !s.stage.Blasting?
    ensures On(job, s, reply).sent == s.sent + more && forall o | o in more :: KindOf(o.datagram) != Some(Data)
    ensures On(job, s, reply).blasted == s.blasted
  {
    KindOfPacket(Init, 0, InitPacket.InitPayload(job.version, |job.file|, job.chunkSize, job.sha(job.file), job.name));
    KindOfPacket(FinAck, 0, []);
    var s' := On(job, s, reply);
    more := if s'.sent == s.sent then []
            else if s.stage.Greeting? then [Outgoing(job.target, job.InitDatagram())]
            else [Outgoing(s.peer, Control(FinAck, 0))];
  }

  lemma OnQueues(job: Job, s: Sender, reply: Reply)
    requires Inv(job, s) && !s.Over() && !s.stage.Blasting?
    ensures s.pending <= On(job, s, reply).pending
  {
    match s.stage
    case Greeting(_) =>
    case Draining =>
      if reply.Heard? {
        match Parse(reply.datagram) {
          case Some(Message(Nack, count, payload)) =>
            PushAllDistinct(s.pending, job.Total(), DecodeNacks(count, payload));
          case _ =>
        }
      }
    case Feedback(missing) => PushAllDistinct(s.pending, job.Total(), FirstOccurrences(missing));
  }

  lemma OnAdvances(job: Job, s: Sender, reply: Reply)
    requires Inv(job, s) && !s.Over() && !s.stage.Blasting?
    ensures Advances(job, s, On(job, s, reply))
  {
    var more := OnSends(job, s, reply);
    OnQueues(job, s, reply);
    ControlAdvances(job, s, On(job, s, reply), more);
  }

  lemma PrefixAppend(a: seq<u32>, b: seq<u32>, c: seq<u32>)
    requires b <= c
    ensures a + b <= a + c
  {}

  lemma AdvancesTwice(job: Job, a: Sender, b: Sender, s: Sender)
    requires job.Valid() && Advances(job, a, b) && Advances(job, b, s) && !b.stage.Stopped?
    ensures Advances(job, a, s)
  {
    SendsAppend(job, b.blasted[|a.blasted|..], s.blasted[|b.blasted|..], b.sent[|a.sent|..], s.sent[|b.sent|..]);
    assert s.blasted[|a.blasted|..] == b.blasted[|a.blasted|..] + s.blasted[|b.blasted|..];
    assert s.sent[|a.sent|..] == b.sent[|a.sent|..] + s.sent[|b.sent|..];
  }

  lemma {:induction false} WalkAdvances(job: Job, s: Sender, moves: seq<Move>)
    requires Inv(job, s)
    ensures Advances(job, s, Walk(job, s, moves))
    decreases |moves|
  {
    if moves == [] {
      SendsNone(job, []);
      assert s.blasted[|s.blasted|..] == [] && s.sent[|s.sent|..] == [];
    } else {
      var front, m := moves[..|moves| - 1], moves[|moves| - 1];
      var mid := Walk(job, s, front);
      WalkAdvances(job, s, front);
      WalkInv(job, s, front);
      if !mid.Over() && mid.stage.Blasting? && m.None? {
        ActAdvances(job, mid);
        AdvancesTwice(job, s, mid, Act(job, mid));
      } else if !mid.Over() && !mid.stage.Blasting? && m.Some? {
        OnAdvances(job, mid, m.value);
        AdvancesTwice(job, s, mid, On(job, mid, m.value));
      }
    }
  }

  ghost predicate Covers(job: Job, chunks: seq<u32>, out: seq<Outgoing>)
    requires job.Valid()
  {
    forall c | c in chunks :: c < job.Total() && Outgoing(job.target, job.DataDatagram(c)) in out
  }

  // Whenever the queue has run empty, everything queued at any earlier moment
  // has gone out since, in queue order, before anything queued later; and the
  // DATA sent since are those chunks' and no others.
  lemma EverythingOwedIsSent(job: Job, s: Sender, moves: seq<Move>)
    requires Inv(job, s)
    ensures var s' := Walk(job, s, moves);
            !s'.stage.Stopped? && s'.pending == [] ==>
              History(s) <= s'.blasted && s.sent <= s'.sent && Covers(job, s.pending, s'.sent[|s.sent|..]) &&
              SendsExactly(job, s'.blasted[|s.blasted|..], s'.sent[|s.sent|..])
  {
    WalkAdvances(job, s, moves);
    var s' := Walk(job, s, moves);
    if !s'.stage.Stopped? && s'.pending == [] {
      assert History(s') == s'.blasted;
      assert s'.blasted[|s.blasted|..][..|s.pending|] == s.pending;
      forall c | c in s.pending
        ensures c < job.Total() && Outgoing(job.target, job.DataDatagram(c)) in s'.sent[|s.sent|..]
      {
        assert c in s'.blasted[|s.blasted|..];
        SendsMember(job, s'.blasted[|s.blasted|..], s'.sent[|s.sent|..], c);
      }
    }
  }

  // ---------- Nothing is queued unasked ----------

  // Some NACK from the peer among these moves asked for the chunk, or the
  // feedback collected before them did.
  ghost predicate Wanted(s: Sender, moves: seq<Move>, chunk: u32) {
    (s.stage.Feedback? && chunk in s.stage.missing) ||
    exists d: Bytes :: Some(Heard(s.peer, d)) in moves && chunk in Requested(d)
  }

  lemma WantedLonger(s: Sender, moves: seq<Move>, m: Move, chunk: u32)
    requires Wanted(s, moves, chunk)
    ensures Wanted(s, moves + [m], chunk)
  {
    if exists d: Bytes :: Some(Heard(s.peer, d)) in moves && chunk in Requested(d) {
      var d: Bytes :| Some(Heard(s.peer, d)) in moves && chunk in Requested(d);
      assert Some(Heard(s.peer, d)) in moves + [m];
    }
  }

  lemma WantedNow(s: Sender, moves: seq<Move>, d: Bytes, chunk: u32)
    requires chunk in Requested(d)
    ensures Wanted(s, moves + [Some(Heard(s.peer, d))], chunk)
  {
    assert (moves + [Some(Heard(s.peer, d))])[|moves|] == Some(Heard(s.peer, d));
  }

  // The history since `s` is what it was, then chunks that were asked for.
  ghost predicate Conserved(s: Sender, moves: seq<Move>, s': Sender, added: seq<u32>) {
    !s'.stage.Greeting? && s'.peer == s.peer &&
    (!s'.stage.Stopped? ==> History(s') == History(s) + added) &&
    (forall x | x in added :: Wanted(s, moves, x)) &&
    (s'.stage.Feedback? ==> forall x | x in s'.stage.missing :: Wanted(s, moves, x))
  }

  // The NACK that was heard asked for the chunk, or the feedback so far did.
  ghost predicate AskedBy(s: Sender, m: Move, chunk: u32) {
    (s.stage.Feedback? && chunk in s.stage.missing) ||
    (m.Some? && m.value.Heard? && m.value.from == s.peer && chunk in Requested(m.value.datagram))
  }

  ghost predicate Adds(s: Sender, m: Move, s': Sender, more: seq<u32>) {
    !s'.stage.Greeting? && s'.peer == s.peer &&
    (!s'.stage.Stopped? ==> History(s') == History(s) + more) &&
    (forall x | x in more :: AskedBy(s, m, x)) &&
    (s'.stage.Feedback? ==> forall x | x in s'.stage.missing :: AskedBy(s, m, x))
  }

  lemma HistoryGrows(s: Sender, s': Sender, more: seq<u32>)
    requires s'.blasted == s.blasted && s'.pending == s.pending + more
    ensures History(s') == History(s) + more
  {}

  lemma ActAdds(job: Job, s: Sender)
    requires s.Valid(job) && s.stage.Blasting?
    ensures Adds(s, None, Act(job, s), [])
  {
    if s.pending != [] {
      assert [s.pending[0]] + s.pending[1..] == s.pending;
    }
  }

  lemma DrainingAdds(job: Job, s: Sender, reply: Reply) returns (more: seq<u32>)
    requires s.Valid(job) && s.stage.Draining?
    ensures Adds(s, Some(reply), OnDraining(job, s, reply), more)
  {
    more := [];
    if reply.Heard? && reply.from == s.peer && IsNack(reply.datagram) {
      more := PushAllAdds(s.pending, job.Total(), Requested(reply.datagram));
    }
    HistoryGrows(s, OnDraining(job, s, reply), more);
  }

  lemma FeedbackAdds(job: Job, s: Sender, reply: Reply) returns (more: seq<u32>)
    requires s.Valid(job) && s.stage.Feedback?
    ensures Adds(s, Some(reply), OnFeedback(job, s, reply), more)
  {
    more := [];
    if reply.Quiet? && s.pass + 1 <= job.passes {
      FirstOccurrencesExact(s.stage.missing);
      more := PushAllAdds(s.pending, job.Total(), FirstOccurrences(s.stage.missing));
    }
    HistoryGrows(s, OnFeedback(job, s, reply), more);
  }

  // What one move adds to the queue was asked for by the NACK it heard or by the
  // feedback it closes.
  lemma MoveAdds(job: Job, s: Sender, m: Move) returns (more: seq<u32>)
    requires s.Valid(job) && !s.stage.Greeting?
    ensures Adds(s, m, Next(job, s, m), more)
  {
    if s.Over() || (s.stage.Blasting? && m.Some?) || (!s.stage.Blasting? && m.None?) {
      more := [];
      assert History(s) + more == History(s);
    } else if s.stage.Blasting? {
      more := [];
      ActAdds(job, s);
    } else if s.stage.Draining? {
      more := DrainingAdds(job, s, m.value);
    } else {
      more := FeedbackAdds(job, s, m.value);
    }
  }

  lemma PushAllAdds(pending: seq<u32>, total: nat, asked: seq<u32>) returns (more: seq<u32>)
    ensures PushAll(pending, total, asked) == pending + more && forall x | x in more :: x in asked
    decreases |asked|
  {
    more := [];
    if asked != [] {
      var after := Push(pending, total, asked[0]);
      var rest := PushAllAdds(after, total, asked[1..]);
      more := after[|pending|..] + rest;
      assert after == pending + after[|pending|..];
    }
  }

  // Conservation, from any state after the handshake: chunks sent and chunks
  // queued are together what they were before, then what was added; and each
  // addition was asked for by a NACK of the peer.
  lemma {:induction false} QueueConserved(job: Job, s: Sender, moves: seq<Move>) returns (added: seq<u32>)
    requires s.Valid(job) && !s.stage.Greeting?
    ensures Conserved(s, moves, Walk(job, s, moves), added)
    decreases |moves|
  {
    if moves == [] {
      added := [];
      assert History(s) + [] == History(s);
    } else {
      var front, m := moves[..|moves| - 1], moves[|moves| - 1];
      var mid := Walk(job, s, front);
      var before := QueueConserved(job, s, front);
      var more := MoveAdds(job, mid, m);
      assert moves == front + [m];
      ConservedNext(s, front, m, mid, Next(job, mid, m), before, more);
      added := before + more;
    }
  }

  lemma ConservedNext(
    s: Sender, front: seq<Move>, m: Move, mid: Sender, s': Sender, before: seq<u32>, more: seq<u32>)
    requires Conserved(s, front, mid, before) && Adds(mid, m, s', more) && (mid.stage.Stopped? ==> s' == mid)
    ensures Conserved(s, front + [m], s', before + more)
  {
    forall x | AskedBy(mid, m, x) || Wanted(s, front, x) ensures Wanted(s, front + [m], x) {
      if Wanted(s, front, x) {
        WantedLonger(s, front, m, x);
      } else {
        WantedNow(s, front, m.value.datagram, x);
      }
    }
    assert History(s) + before + more == History(s) + (before + more);
  }

  // A chunk that exists and is asked for by a NACK of the peer, drained in the
  // middle of a blast, goes out after that drain, queued already or not.
  lemma DrainedNackIsAnswered(job: Job, s: Sender, datagram: Bytes, moves: seq<Move>, chunk: u32)
    requires Inv(job, s) && s.stage.Draining? && chunk in Requested(datagram) && chunk < job.Total()
    ensures var s1 := On(job, s, Heard(s.peer, datagram));
            var s2 := Walk(job, s1, moves);
            !s2.stage.Stopped? && s2.pending == [] ==>
              s1.sent <= s2.sent && Outgoing(job.target, job.DataDatagram(chunk)) in s2.sent[|s1.sent|..]
  {
    var s1 := On(job, s, Heard(s.peer, datagram));
    OnInv(job, s, Heard(s.peer, datagram));
    PushAllExact(s.pending, job.Total(), Requested(datagram));
    assert chunk in ChunkSets.Elements(Requested(datagram));
    assert chunk in ChunkSets.Elements(s1.pending);
    EverythingOwedIsSent(job, s1, moves);
  }

  // ---------- Bounds ----------

  function CountKind(sent: seq<Outgoing>, kind: PacketType): nat {
    if sent == [] then 0
    else CountKind(sent[..|sent| - 1], kind) + if KindOf(sent[|sent| - 1].datagram) == Some(kind) then 1 else 0
  }

  lemma CountSnoc(sent: seq<Outgoing>, to: Addr, kind: PacketType, seqNo: u32, payload: Bytes, counted: PacketType)
    ensures CountKind(sent + [Outgoing(to, Packet(kind, seqNo, payload))], counted)
      == CountKind(sent, counted) + if kind == counted then 1 else 0
  {
    KindOfPacket(kind, seqNo, payload);
    assert (sent + [Outgoing(to, Packet(kind, seqNo, payload))])[..|sent|] == sent;
  }

  function MaxPasses(job: Job): nat {
    if job.passes > 1 then job.passes else 1
  }

  // One INIT per attempt, one DONE per pass.
  ghost predicate Counted(job: Job, s: Sender) {
    Inv(job, s) &&
    var inits, dones := CountKind(s.sent, Init), CountKind(s.sent, Done);
    inits <= job.attempts && dones <= MaxPasses(job) &&
    (s.stage.Greeting? ==> inits == s.stage.attempt && dones == 0 && s.pass == 1) &&
    (s.stage.Blasting? || s.stage.Draining? ==> dones == s.pass - 1) &&
    (s.stage.Feedback? ==> dones == s.pass) &&
    (s.stage == Stopped(GaveUp) ==> dones == MaxPasses(job))
  }

  // What sending one control datagram more does to the two counts.
  ghost predicate Tallies(sent: seq<Outgoing>, o: Outgoing, inits: nat, dones: nat) {
    CountKind(sent + [o], Init) == CountKind(sent, Init) + inits &&
    CountKind(sent + [o], Done) == CountKind(sent, Done) + dones
  }

  lemma TallyControl(job: Job, sent: seq<Outgoing>, peer: Addr)
    requires job.Valid()
    ensures Tallies(sent, Outgoing(job.target, job.InitDatagram()), 1, 0)
    ensures Tallies(sent, Outgoing(job.target, job.DoneDatagram()), 0, 1)
    ensures Tallies(sent, Outgoing(peer, Control(FinAck, 0)), 0, 0)
  {
    var payload := InitPacket.InitPayload(job.version, |job.file|, job.chunkSize, job.sha(job.file), job.name);
    CountSnoc(sent, job.target, Init, 0, payload, Init);
    CountSnoc(sent, job.target, Init, 0, payload, Done);
    CountSnoc(sent, job.target, Done, job.Total(), [], Init);
    CountSnoc(sent, job.target, Done, job.Total(), [], Done);
    CountSnoc(sent, peer, FinAck, 0, [], Init);
    CountSnoc(sent, peer, FinAck, 0, [], Done);
  }

  lemma TallyData(job: Job, sent: seq<Outgoing>, chunk: u32)
    requires job.Valid() && chunk < job.Total()
    ensures Tallies(sent, Outgoing(job.target, job.DataDatagram(chunk)), 0, 0)
  {
    var payload := Chunks.DataPayload(job.sha, job.version, Chunks.ChunkOf(job.file, job.chunkSize, chunk));
    CountSnoc(sent, job.target, Data, chunk, payload, Init);
    CountSnoc(sent, job.target, Data, chunk, payload, Done);
  }

  lemma StartCounted(job: Job, budget: nat)
    requires job.Valid()
    ensures Counted(job, Start(job, budget))
  {
    TallyControl(job, [], 0);
  }

  lemma DataCounted(job: Job, s: Sender)
    requires Counted(job, s) && s.stage.Blasting? && s.pending != []
    ensures Counted(job, Act(job, s))
  {
    ActInv(job, s);
    TallyData(job, s.sent, s.pending[0]);
  }

  lemma DoneCounted(job: Job, s: Sender)
    requires Counted(job, s) && s.stage.Blasting? && s.pending == []
    ensures Counted(job, Act(job, s))
  {
    ActInv(job, s);
    TallyControl(job, s.sent, s.peer);
  }

  lemma ActCounted(job: Job, s: Sender)
    requires Counted(job, s) && s.stage.Blasting?
    ensures Counted(job, Act(job, s))
  {
    if s.pending == [] {
      DoneCounted(job, s);
    } else {
      DataCounted(job, s);
    }
  }

  lemma GreetingCounted(job: Job, s: Sender, reply: Reply)
    requires Counted(job, s) && s.stage.Greeting?
    ensures Counted(job, OnGreeting(job, s, reply))
  {
    GreetingInv(job, s, reply);
    TallyControl(job, s.sent, s.peer);
  }

  // Draining and collecting feedback send nothing but the final FIN-ACK.
  lemma ListeningSends(job: Job, s: Sender, reply: Reply)
    requires s.Valid(job) && (s.stage.Draining? || s.stage.Feedback?)
    ensures var s' := On(job, s, reply);
            s'.sent == s.sent || (s'.stage.Completed? && s'.sent == s.sent + [Outgoing(s.peer, Control(FinAck, 0))])
    ensures var s' := On(job, s, reply);
            s'.pass == s.pass ||
            (s.stage.Feedback? && s'.pass == s.pass + 1 && (s'.stage.Blasting? || s'.stage.Stopped?))
    ensures var s' := On(job, s, reply);
            !s'.stage.Greeting? && (s'.stage.Feedback? ==> s.stage.Feedback? && s'.pass == s.pass) &&
            (s'.stage.Draining? ==> s.stage.Draining?) &&
            (s'.stage.Blasting? && s.stage.Feedback? ==> s'.pass == s.pass + 1)
    ensures On(job, s, reply).stage == Stopped(GaveUp) ==> s.stage.Feedback? && s.pass + 1 > job.passes
  {}

  lemma OnCounted(job: Job, s: Sender, reply: Reply)
    requires Counted(job, s) && !s.Over() && !s.stage.Blasting?
    ensures Counted(job, On(job, s, reply))
  {
    if s.stage.Greeting? {
      GreetingCounted(job, s, reply);
    } else {
      OnInv(job, s, reply);
      ListeningSends(job, s, reply);
      TallyControl(job, s.sent, s.peer);
    }
  }

  lemma {:induction false} WalkCounted(job: Job, s: Sender, moves: seq<Move>)
    requires Counted(job, s)
    ensures Counted(job, Walk(job, s, moves))
    decreases |moves|
  {
    if moves != [] {
      var front, m := moves[..|moves| - 1], moves[|moves| - 1];
      var mid := Walk(job, s, front);
      WalkCounted(job, s, front);
      if !mid.Over() && mid.stage.Blasting? && m.None? {
        ActCounted(job, mid);
      } else if !mid.Over() && !mid.stage.Blasting? && m.Some? {
        OnCounted(job, mid, m.value);
      }
    }
  }

  // Every run ends, after at most `attempts` INITs and max(1, passes) DONEs,
  // whatever the replies; and it gives up only after all of these DONEs.
  lemma RunsAreBounded(job: Job, budget: nat, replies: seq<Reply>)
    requires job.Valid()
    ensures var s := Run(job, Start(job, budget), replies);
            s.Over() && CountKind(s.sent, Init) <= job.attempts && CountKind(s.sent, Done) <= MaxPasses(job) &&
            (s.stage == Stopped(GaveUp) ==> CountKind(s.sent, Done) == MaxPasses(job))
  {
    StartInv(job, budget);
    StartCounted(job, budget);
    var moves := RunIsWalk(job, Start(job, budget), replies);
    WalkCounted(job, Start(job, budget), moves);
  }
}
