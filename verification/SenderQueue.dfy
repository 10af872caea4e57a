/**
 What every run of the sender keeps: the queue of chunks to send, the passes, and
 what it has put on the wire.
 */
module SenderQueue {
  import opened Options
  import opened Wire
  import opened ChunkSets
  import opened SenderMachine

  // ---------- The queue as a list ----------

  ghost predicate Distinct(xs: seq<u32>) {
    forall i, j | 0 <= i < j < |xs| :: xs[i] != xs[j]
  }

  lemma ElementsPush(pending: seq<u32>, total: nat, chunk: u32)
    ensures Elements(Push(pending, total, chunk))
      == if chunk < total then Elements(pending) + {chunk} else Elements(pending)
    ensures Distinct(pending) ==> Distinct(Push(pending, total, chunk))
    ensures pending <= Push(pending, total, chunk)
  {
    ElementsSnoc(pending, chunk);
  }

  // However often a chunk is asked for, the queue keeps its order and never holds
  // a chunk twice.
  lemma {:induction false} PushAllDistinct(pending: seq<u32>, total: nat, missing: seq<u32>)
    ensures pending <= PushAll(pending, total, missing)
    ensures Distinct(pending) ==> Distinct(PushAll(pending, total, missing))
    decreases |missing|
  {
    if missing != [] {
      ElementsPush(pending, total, missing[0]);
      PushAllDistinct(Push(pending, total, missing[0]), total, missing[1..]);
    }
  }

  // It gains exactly the chunks that exist.
  lemma {:induction false} PushAllExact(pending: seq<u32>, total: nat, missing: seq<u32>)
    ensures var after := Elements(PushAll(pending, total, missing));
            forall x: nat :: x in after <==> x in Elements(pending) || (x < total && x in Elements(missing))
    decreases |missing|
  {
    if missing != [] {
      ElementsPush(pending, total, missing[0]);
      PushAllExact(Push(pending, total, missing[0]), total, missing[1..]);
      ElementsCons(missing);
    }
  }

  lemma ElementsCons(xs: seq<u32>)
    requires xs != []
    ensures Elements(xs) == {xs[0]} + Elements(xs[1..])
  {
    assert xs == [xs[0]] + xs[1..];
  }

  // A list of distinct existing chunks enters an empty queue unchanged.
  lemma {:induction false} PushAllDrained(pending: seq<u32>, total: nat, missing: seq<u32>)
    requires Distinct(pending + missing) && forall x | x in missing :: x < total
    ensures PushAll(pending, total, missing) == pending + missing
    decreases |missing|
  {
    if missing == [] {
      assert pending + missing == pending;
    } else {
      var first, rest := missing[0], missing[1..];
      var all := pending + missing;
      assert all[|pending|] == first;
      assert forall k | 0 <= k < |pending| :: all[k] == pending[k];
      assert first in missing && forall x | x in rest :: x in missing;
      assert (pending + [first]) + rest == all;
      PushAllDrained(pending + [first], total, rest);
    }
  }

  // ---------- The two feedback paths ----------

  // Queueing NACK by NACK, as the drain does, is queueing them all at once, as
  // the feedback phase does.
  lemma {:induction false} PushAllAppend(pending: seq<u32>, total: nat, a: seq<u32>, b: seq<u32>)
    ensures PushAll(pending, total, a + b) == PushAll(PushAll(pending, total, a), total, b)
    decreases |a|
  {
    if a == [] {
      assert a + b == b;
    } else {
      assert (a + b)[0] == a[0] && (a + b)[1..] == a[1..] + b;
      PushAllAppend(Push(pending, total, a[0]), total, a[1..], b);
    }
  }

  lemma {:induction false} FirstOccurrencesExact(xs: seq<u32>)
    ensures Distinct(FirstOccurrences(xs))
    ensures forall x: u32 :: x in FirstOccurrences(xs) <==> x in xs
  {
    if xs != [] {
      var front := xs[..|xs| - 1];
      FirstOccurrencesExact(front);
      assert xs == front + [xs[|xs| - 1]];
    }
  }

  lemma PushSnoc(pending: seq<u32>, total: nat, xs: seq<u32>, x: u32)
    ensures PushAll(pending, total, xs + [x]) == Push(PushAll(pending, total, xs), total, x)
  {
    PushAllAppend(pending, total, xs, [x]);
    assert [x][1..] == [];
  }

  lemma PushAgain(pending: seq<u32>, total: nat, xs: seq<u32>, x: u32)
    requires x in xs
    ensures Push(PushAll(pending, total, xs), total, x) == PushAll(pending, total, xs)
  {
    PushAllExact(pending, total, xs);
    assert x in Elements(xs);
    assert x < total ==> x in Elements(PushAll(pending, total, xs));
  }

  // Removing repetitions first changes nothing about the queue.
  lemma {:induction false} DedupAgrees(pending: seq<u32>, total: nat, xs: seq<u32>)
    ensures PushAll(pending, total, FirstOccurrences(xs)) == PushAll(pending, total, xs)
    decreases |xs|
  {
    if xs != [] {
      var front, x := xs[..|xs| - 1], xs[|xs| - 1];
      DedupAgrees(pending, total, front);
      assert xs == front + [x];
      PushSnoc(pending, total, front, x);
      if x in front {
        PushAgain(pending, total, front, x);
      } else {
        PushSnoc(pending, total, FirstOccurrences(front), x);
      }
    }
  }

  // ---------- Every reachable state ----------

  // The queue holds each chunk at most once, so `total - pending` cannot
  // underflow; progress never exceeds the total, and once everything queued has
  // been sent it has reached it.
  ghost predicate Inv(job: Job, s: Sender) {
    s.Valid(job) && Distinct(s.pending) && s.progress <= job.Total() &&
    (s.blasted != [] && s.pending == [] && !s.stage.Stopped? ==> s.progress == job.Total()) &&
    (s.stage.Greeting? ==> s.pending == [] && s.blasted == [] && s.stage.attempt <= job.attempts) &&
    1 <= s.pass && (s.pass <= job.passes || s.pass == 1 || s.stage == Stopped(GaveUp))
  }

  // Pigeonhole: distinct chunk numbers below the total are at most that many.
  lemma PendingFits(job: Job, s: Sender)
    requires s.Valid(job) && Distinct(s.pending)
    ensures |s.pending| <= job.Total()
  {
    DistinctSize(s.pending);
    SubsetSize(Elements(s.pending), Below(job.Total()));
  }

  lemma EverythingDistinct(total: u32)
    ensures Distinct(Everything(total)) && Elements(Everything(total)) == Below(total)
  {
    forall x: nat ensures x in Elements(Everything(total)) <==> x in Below(total) {
      if x < total {
        assert Everything(total)[x] == x;
      }
    }
  }

  lemma StartInv(job: Job, budget: nat)
    requires job.Valid()
    ensures Inv(job, Start(job, budget))
  {}

  lemma ActInv(job: Job, s: Sender)
    requires Inv(job, s) && s.stage.Blasting?
    ensures Inv(job, Act(job, s)) && s.progress <= Act(job, s).progress
  {
    PendingFits(job, s);
  }

  lemma GreetingInv(job: Job, s: Sender, reply: Reply)
    requires Inv(job, s) && s.stage.Greeting?
    ensures Inv(job, OnGreeting(job, s, reply))
  {
    EverythingDistinct(job.Total());
  }

  lemma DrainingInv(job: Job, s: Sender, reply: Reply)
    requires Inv(job, s) && s.stage.Draining?
    ensures Inv(job, OnDraining(job, s, reply))
  {
    if reply.Heard? {
      match Parse(reply.datagram) {
        case Some(Message(Nack, count, payload)) =>
          PushAllDistinct(s.pending, job.Total(), DecodeNacks(count, payload));
        case _ =>
      }
    }
  }

  lemma FeedbackInv(job: Job, s: Sender, reply: Reply)
    requires Inv(job, s) && s.stage.Feedback?
    ensures Inv(job, OnFeedback(job, s, reply))
  {
    if reply.Quiet? && s.pass + 1 <= job.passes {
      RequeueInv(job, s, OnFeedback(job, s, reply), FirstOccurrences(s.stage.missing));
    }
  }

  lemma RequeueInv(job: Job, s: Sender, s': Sender, missing: seq<u32>)
    requires Inv(job, s) && s.stage.Feedback? && s.pass + 1 <= job.passes
    requires s' == s.(stage := Blasting(0), pass := s.pass + 1, pending := PushAll(s.pending, job.Total(), missing))
    ensures Inv(job, s')
  {
    PushAllDistinct(s.pending, job.Total(), missing);
  }

  lemma OnInv(job: Job, s: Sender, reply: Reply)
    requires Inv(job, s) && !s.Over() && !s.stage.Blasting?
    ensures Inv(job, On(job, s, reply)) && s.progress <= On(job, s, reply).progress
  {
    match s.stage
    case Greeting(_) => GreetingInv(job, s, reply);
    case Draining => DrainingInv(job, s, reply);
    case Feedback(_) => FeedbackInv(job, s, reply);
  }

  // ---------- Walks ----------

  // A move of the sender: by itself, or on a reply.
  type Move = Option<Reply>

  function Next(job: Job, s: Sender, m: Move): (s': Sender)
    requires s.Valid(job)
    ensures s'.Valid(job)
  {
    if s.Over() then s
    else if s.stage.Blasting? then if m.None? then Act(job, s) else s
    else if m.Some? then On(job, s, m.value) else s
  }

  function Walk(job: Job, s: Sender, moves: seq<Move>): (s': Sender)
    requires s.Valid(job)
    ensures s'.Valid(job)
    decreases |moves|
  {
    if moves == [] then s else Next(job, Walk(job, s, moves[..|moves| - 1]), moves[|moves| - 1])
  }

  lemma WalkSnoc(job: Job, s: Sender, moves: seq<Move>, m: Move)
    requires s.Valid(job)
    ensures Walk(job, s, moves + [m]) == Next(job, Walk(job, s, moves), m)
  {
    assert (moves + [m])[..|moves|] == moves;
  }

  lemma {:induction false} WalkInv(job: Job, s: Sender, moves: seq<Move>)
    requires Inv(job, s)
    ensures Inv(job, Walk(job, s, moves)) && s.progress <= Walk(job, s, moves).progress
    decreases |moves|
  {
    if moves != [] {
      var m, mid := moves[|moves| - 1], Walk(job, s, moves[..|moves| - 1]);
      WalkInv(job, s, moves[..|moves| - 1]);
      if !mid.Over() && mid.stage.Blasting? && m.None? {
        ActInv(job, mid);
      } else if !mid.Over() && !mid.stage.Blasting? && m.Some? {
        OnInv(job, mid, m.value);
      }
    }
  }

  lemma {:induction false} WalkAppend(job: Job, s: Sender, a: seq<Move>, b: seq<Move>)
    requires s.Valid(job)
    ensures Walk(job, s, a + b) == Walk(job, Walk(job, s, a), b)
    decreases |b|
  {
    if b == [] {
      assert a + b == a;
    } else {
      assert (a + b)[..|a + b| - 1] == a + b[..|b| - 1];
      WalkAppend(job, s, a, b[..|b| - 1]);
    }
  }

  // A whole run is a walk, so what every walk keeps, every run keeps.
  lemma {:induction false} RunIsWalk(job: Job, s: Sender, replies: seq<Reply>) returns (moves: seq<Move>)
    requires s.Valid(job)
    ensures Walk(job, s, moves) == Run(job, s, replies)
    decreases |replies|, AttemptsLeft(job, s), PassesLeft(job, s), if s.Over() then 0 else 1, WorkLeft(s)
  {
    if s.Over() {
      return [];
    }
    var m, rest: seq<Move>;
    if s.stage.Blasting? {
      m := None;
      rest := RunIsWalk(job, Act(job, s), replies);
    } else if replies == [] {
      m := Some(Quiet);
      rest := RunIsWalk(job, On(job, s, Quiet), []);
    } else {
      m := Some(replies[0]);
      rest := RunIsWalk(job, On(job, s, replies[0]), replies[1..]);
    }
    assert Walk(job, s, [m]) == Next(job, s, m) by { assert [m][..0] == []; }
    WalkAppend(job, s, [m], rest);
    moves := [m] + rest;
  }
}
