/**
 What the handshake achieves, told from what the socket gives: an INIT at the start
 and one more after each silence, until some host acknowledges, the socket fails or
 the attempts are used up.
 */
module Handshake {
  import opened Options
  import opened Wire
  import opened SenderMachine

  predicate Acks(reply: Reply) {
    reply.Heard? && KindOf(reply.datagram) == Some(Ack)
  }

  // The reply ends the handshake, one way or the other.
  predicate Decides(reply: Reply) {
    Acks(reply) || reply.Dead?
  }

  // How often the socket fell silent. Whatever else was heard does not count.
  function Silences(replies: seq<Reply>): (n: nat)
    ensures n <= |replies|
  {
    if replies == [] then 0
    else (if replies[0].Quiet? then 1 else 0) + Silences(replies[1..])
  }

  function Inits(job: Job, n: nat): (sent: seq<Outgoing>)
    requires job.Valid()
    ensures |sent| == n && forall i | 0 <= i < n :: sent[i] == Outgoing(job.target, job.InitDatagram())
  {
    seq(n, _ => Outgoing(job.target, job.InitDatagram()))
  }

  // The sender after so many INITs, waiting for an answer.
  function Hailing(job: Job, budget: nat, n: nat): Sender
    requires job.Valid() && n <= budget
  {
    Sender(Greeting(n), 0, [], 1, 0, budget - n, Inits(job, n), [])
  }

  // The sender when a host acknowledges the last of them.
  function Answered(job: Job, budget: nat, n: nat, from: Addr): Sender
    requires job.Valid() && n <= budget
  {
    Hailing(job, budget, n).(stage := Blasting(0), peer := from, pending := Everything(job.Total()))
  }

  lemma HailAgain(job: Job, budget: nat, n: nat)
    requires job.Valid() && n < budget && n < job.attempts
    ensures Greet(job, Hailing(job, budget, n), n) == Hailing(job, budget, n + 1)
    ensures n == 0 ==> Start(job, budget) == Hailing(job, budget, 1)
  {
    assert Inits(job, n) + [Outgoing(job.target, job.InitDatagram())] == Inits(job, n + 1);
    assert Inits(job, 0) == [];
  }

  // ---------- An answer ----------

  // The first deciding reply is at `i`.
  ghost predicate FirstDeciding(replies: seq<Reply>, i: nat) {
    i < |replies| && Decides(replies[i]) && forall j | 0 <= j < i :: !Decides(replies[j])
  }

  // Hearing the first `i` replies one by one takes the sender from `s` to `s'`.
  ghost predicate Hears(job: Job, s: Sender, replies: seq<Reply>, i: nat, s': Sender)
    decreases i
  {
    s.Valid(job) &&
    if i == 0 then s' == s
    else replies != [] && !s.Over() && !s.stage.Blasting? && Hears(job, On(job, s, replies[0]), replies[1..], i - 1, s')
  }

  lemma {:induction false} HearsRun(job: Job, s: Sender, replies: seq<Reply>, i: nat, s': Sender)
    requires Hears(job, s, replies, i, s')
    ensures i <= |replies| && s'.Valid(job) && Run(job, s, replies) == Run(job, s', replies[i..])
    decreases i
  {
    if i > 0 {
      HearsRun(job, On(job, s, replies[0]), replies[1..], i - 1, s');
      assert replies[1..][i - 1..] == replies[i..];
    } else {
      assert replies[0..] == replies;
    }
  }

  lemma WaitOne(job: Job, budget: nat, n: nat, reply: Reply, quiet: nat)
    requires job.Valid() && 0 < n && !Decides(reply) && quiet == if reply.Quiet? then 1 else 0
    requires n + quiet <= job.attempts && n + quiet <= budget
    ensures On(job, Hailing(job, budget, n), reply) == Hailing(job, budget, n + quiet)
  {
    if quiet == 1 {
      HailAgain(job, budget, n);
    }
  }

  // None of the first `i` replies decides, and `k` of them are silences.
  ghost predicate Undecided(replies: seq<Reply>, i: nat, k: nat) {
    i <= |replies| && (forall j | 0 <= j < i :: !Decides(replies[j])) && Silences(replies[..i]) == k
  }

  lemma UndecidedNext(replies: seq<Reply>, i: nat, k: nat, quiet: nat)
    requires Undecided(replies, i, k) && i > 0 && quiet == if replies[0].Quiet? then 1 else 0
    ensures quiet <= k && Undecided(replies[1..], i - 1, k - quiet) && replies[1..][i - 1..] == replies[i..]
  {
    assert replies[..i][1..] == replies[1..][..i - 1];
  }

  // Up to the first deciding reply each silence costs one attempt, and nothing else
  // has any effect.
  lemma {:induction false} Waits(job: Job, budget: nat, n: nat, replies: seq<Reply>, i: nat, k: nat)
    requires job.Valid() && 0 < n && Undecided(replies, i, k) && n + k <= job.attempts && n + k <= budget
    ensures Hears(job, Hailing(job, budget, n), replies, i, Hailing(job, budget, n + k))
    decreases i
  {
    if i == 0 {
      assert replies[..0] == [];
    } else {
      var quiet := if replies[0].Quiet? then 1 else 0;
      UndecidedNext(replies, i, k, quiet);
      WaitOne(job, budget, n, replies[0], quiet);
      Waits(job, budget, n + quiet, replies[1..], i - 1, k - quiet);
    }
  }

  lemma UpToAck(job: Job, budget: nat, replies: seq<Reply>, i: nat, k: nat)
    requires job.Valid() && Undecided(replies, i, k) && k < job.attempts && k < budget
    ensures Run(job, Start(job, budget), replies) == Run(job, Hailing(job, budget, k + 1), replies[i..])
  {
    HailAgain(job, budget, 0);
    Waits(job, budget, 1, replies, i, k);
    HearsRun(job, Start(job, budget), replies, i, Hailing(job, budget, k + 1));
  }

  // An ACK heard after `k` silences, fewer than there are attempts, starts the blast
  // with `k + 1` INITs out, if the socket let them go.
  lemma AckStartsBlast(job: Job, budget: nat, replies: seq<Reply>, i: nat, k: nat)
    requires job.Valid() && FirstDeciding(replies, i) && Acks(replies[i]) && k == Silences(replies[..i])
    requires k < job.attempts && k < budget
    ensures Run(job, Start(job, budget), replies)
      == Run(job, Answered(job, budget, k + 1, replies[i].from), replies[i + 1..])
  {
    var rest := replies[i..];
    assert rest[0] == replies[i] && rest[1..] == replies[i + 1..];
    UpToAck(job, budget, replies, i, k);
    AckHeard(job, budget, k + 1, rest);
  }

  lemma AckHeard(job: Job, budget: nat, n: nat, replies: seq<Reply>)
    requires job.Valid() && n <= budget && replies != [] && Acks(replies[0])
    ensures Run(job, Hailing(job, budget, n), replies)
      == Run(job, Answered(job, budget, n, replies[0].from), replies[1..])
  {}

  // ---------- No answer ----------

  // Some reply decides before that many silences.
  ghost predicate Decided(replies: seq<Reply>, silences: nat) {
    exists i :: 0 <= i < |replies| && Decides(replies[i]) && Silences(replies[..i]) < silences
  }

  lemma DecidedLater(replies: seq<Reply>, silences: nat)
    requires replies != [] && !Decides(replies[0])
    requires replies[0].Quiet? ==> silences > 0
    ensures Decided(replies, silences)
      <==> Decided(replies[1..], if replies[0].Quiet? then silences - 1 else silences)
  {
    var rest, less := replies[1..], if replies[0].Quiet? then silences - 1 else silences;
    forall i | 0 < i < |replies|
      ensures rest[i - 1] == replies[i] && (Silences(replies[..i]) < silences <==> Silences(rest[..i - 1]) < less)
    {
      assert replies[..i][1..] == rest[..i - 1];
    }
    if Decided(replies, silences) {
      var i :| 0 <= i < |replies| && Decides(replies[i]) && Silences(replies[..i]) < silences;
      assert Decides(rest[i - 1]) && Silences(rest[..i - 1]) < less;
    }
    if Decided(rest, less) {
      var i :| 0 <= i < |rest| && Decides(rest[i]) && Silences(rest[..i]) < less;
      assert Decides(replies[i + 1]) && Silences(replies[..i + 1]) < silences;
    }
  }

  lemma DecidedNow(replies: seq<Reply>, silences: nat)
    requires replies != [] && Decides(replies[0]) && silences > 0
    ensures Decided(replies, silences)
  {
    assert Silences(replies[..0]) == 0;
  }

  // Past the handshake the sender never reports that it timed out.
  lemma {:induction false} NoTimeoutLater(job: Job, s: Sender, replies: seq<Reply>)
    requires s.Valid(job) && !s.stage.Greeting? && s.stage != Stopped(HandshakeTimeout)
    ensures Run(job, s, replies).stage != Stopped(HandshakeTimeout)
    decreases |replies|, AttemptsLeft(job, s), PassesLeft(job, s), if s.Over() then 0 else 1, WorkLeft(s)
  {
    if s.Over() {
    } else if s.stage.Blasting? {
      NoTimeoutLater(job, Act(job, s), replies);
    } else if replies == [] {
      NoTimeoutLater(job, On(job, s, Quiet), []);
    } else {
      NoTimeoutLater(job, On(job, s, replies[0]), replies[1..]);
    }
  }

  // The handshake times out, with every attempt made.
  ghost predicate TimesOut(job: Job, s: Sender)
    requires job.Valid()
  {
    s.stage == Stopped(HandshakeTimeout) && s.sent == Inits(job, job.attempts)
  }

  lemma HandshakeOver(job: Job, s: Sender, replies: seq<Reply>)
    requires s.Valid(job) && s.Over()
    ensures Run(job, s, replies) == s
  {}

  // One more silence.
  lemma {:induction false} QuietNext(job: Job, budget: nat, n: nat, replies: seq<Reply>)
    requires job.Valid() && 0 < n <= budget && n <= job.attempts && (replies == [] || replies[0].Quiet?)
    ensures var rest := if replies == [] then [] else replies[1..];
            Run(job, Hailing(job, budget, n), replies) ==
              if n == job.attempts then Hailing(job, budget, n).(stage := Stopped(HandshakeTimeout))
              else if n == budget then Hailing(job, budget, n).(stage := Stopped(SocketError))
              else Run(job, Hailing(job, budget, n + 1), rest)
  {
    var rest := if replies == [] then [] else replies[1..];
    var s := Hailing(job, budget, n);
    var s' := Greet(job, s, n);
    assert Run(job, s, replies) == Run(job, s', rest);
    if n == job.attempts || n == budget {
      HandshakeOver(job, s', rest);
    } else {
      HailAgain(job, budget, n);
    }
  }

  ghost predicate EndsRight(job: Job, budget: nat, undecided: bool, final: Sender)
    requires job.Valid()
  {
    if budget >= job.attempts && undecided then TimesOut(job, final)
    else final.stage != Stopped(HandshakeTimeout)
  }

  lemma {:induction false} HailingEnds(job: Job, budget: nat, n: nat, replies: seq<Reply>)
    requires job.Valid() && 0 < n <= job.attempts && n <= budget
    ensures EndsRight(job, budget, !Decided(replies, job.attempts - n + 1), Run(job, Hailing(job, budget, n), replies))
    decreases |replies|, job.attempts - n
  {
    if replies == [] || replies[0].Quiet? {
      QuietNext(job, budget, n, replies);
      if replies != [] {
        DecidedLater(replies, job.attempts - n + 1);
      }
      if n < job.attempts && n < budget {
        HailingEnds(job, budget, n + 1, if replies == [] then [] else replies[1..]);
      }
    } else if Acks(replies[0]) {
      DecidedNow(replies, job.attempts - n + 1);
      AckHeard(job, budget, n, replies);
      NoTimeoutLater(job, Answered(job, budget, n, replies[0].from), replies[1..]);
    } else if replies[0].Dead? {
      DecidedNow(replies, job.attempts - n + 1);
      HandshakeOver(job, Hailing(job, budget, n).(stage := Stopped(SocketError)), replies[1..]);
    } else {
      DecidedLater(replies, job.attempts - n + 1);
      HailingEnds(job, budget, n, replies[1..]);
    }
  }

  // A run ends with a handshake timeout if and only if every attempt could be sent
  // and neither an ACK nor a socket error came before as many silences as there are
  // attempts. Exactly one INIT per attempt is then on the wire, and nothing else.
  lemma TimesOutExactly(job: Job, budget: nat, replies: seq<Reply>)
    requires job.Valid()
    ensures var s := Run(job, Start(job, budget), replies);
            s.stage == Stopped(HandshakeTimeout) <==> budget >= job.attempts && !Decided(replies, job.attempts)
    ensures var s := Run(job, Start(job, budget), replies);
            s.stage == Stopped(HandshakeTimeout) ==> s.sent == Inits(job, job.attempts)
  {
    if job.attempts == 0 || budget == 0 {
      HandshakeOver(job, Start(job, budget), replies);
      assert Inits(job, 0) == [];
    } else {
      HailAgain(job, budget, 0);
      HailingEnds(job, budget, 1, replies);
    }
  }
}
