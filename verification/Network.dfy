/**
 Sender and receiver joined by a network that loses, duplicates, reorders and
 delays datagrams, and may damage them. Either end takes a turn at any time; what
 it hears from the other end is some datagram the other end sent at some time
 before. Other hosts may send either end anything.
 */
module Network {
  import opened Options
  import opened Wire
  import opened ReceiverMachine
  import opened SenderMachine
  import opened SenderQueue

  // One transfer: the sender's job, the receiver's settings, the sender's
  // address. The receiver is at the job's target.
  datatype Setup = Setup(job: Job, c: Config, from: Addr) {
    ghost predicate Valid() {
      job.Valid() && c.sha == job.sha
    }
  }

  // What the network may make of a datagram.
  type Channel = (Bytes, Bytes) -> bool

  ghost predicate HeadersIntact(ch: Channel) {
    forall o, d | ch(o, d) :: |o| >= HEADER_SIZE && |d| >= HEADER_SIZE && o[..HEADER_SIZE] == d[..HEADER_SIZE]
  }

  // Whatever arrives as a packet of this kind was sent as one.
  ghost predicate KindKept(ch: Channel, kind: PacketType) {
    forall o, d | ch(o, d) && KindOf(d) == Some(kind) :: KindOf(o) == Some(kind)
  }

  // The sender would take this for a FIN.
  predicate ReadsAsFin(d: Bytes) {
    Parse(d).Some? && Parse(d).value.kind == Fin
  }

  lemma HeadersKeepKinds(ch: Channel, kind: PacketType)
    requires HeadersIntact(ch)
    ensures KindKept(ch, kind)
  {
    forall o, d | ch(o, d) && KindOf(d) == Some(kind) ensures KindOf(o) == Some(kind) {
      SameHeaderSameKind(o, d);
    }
  }

  ghost predicate InitsIntact(ch: Channel) {
    forall o, d | ch(o, d) :: KindOf(o) == Some(Init) ==> d == o
  }

  datatype World = World(s: Sender, r: Receiver)

  datatype Turn = SenderTurn(m: Move) | ReceiverTurn(e: Event)

  ghost predicate Carries(ch: Channel, sent: seq<Outgoing>, to: Addr, datagram: Bytes) {
    exists o :: o in sent && o.to == to && ch(o.datagram, datagram)
  }

  ghost predicate Possible(u: Setup, ch: Channel, w: World, t: Turn) {
    match t
    case SenderTurn(Some(Heard(from, d))) => from == u.job.target ==> Carries(ch, w.r.sent, u.from, d)
    case SenderTurn(_) => true
    case ReceiverTurn(e) =>
      e.input.Arrives? && e.input.from == u.from ==> Carries(ch, w.s.sent, u.job.target, e.input.datagram)
  }

  ghost predicate Sane(u: Setup, w: World) {
    u.Valid() && w.s.Valid(u.job) && w.r.Valid()
  }

  ghost function Take(u: Setup, w: World, t: Turn): (w': World)
    requires Sane(u, w)
    ensures Sane(u, w')
  {
    match t
    case SenderTurn(m) => w.(s := Next(u.job, w.s, m))
    case ReceiverTurn(e) => w.(r := Step(u.c, w.r, e))
  }

  ghost function Begin(u: Setup, budget: nat, now: nat, files: Files): (w: World)
    requires u.Valid()
    ensures Sane(u, w)
  {
    World(SenderMachine.Start(u.job, budget), ReceiverMachine.Start(now, files))
  }

  ghost function Play(u: Setup, w: World, turns: seq<Turn>): (w': World)
    requires Sane(u, w)
    ensures Sane(u, w')
    decreases |turns|
  {
    if turns == [] then w else Take(u, Play(u, w, turns[..|turns| - 1]), turns[|turns| - 1])
  }

  ghost predicate Legal(u: Setup, ch: Channel, w: World, turns: seq<Turn>)
    requires Sane(u, w)
    decreases |turns|
  {
    turns == [] ||
    (Legal(u, ch, w, turns[..|turns| - 1]) &&
     Possible(u, ch, Play(u, w, turns[..|turns| - 1]), turns[|turns| - 1]))
  }

  // Legal turns lead from `start` to `w`.
  ghost predicate Reached(u: Setup, ch: Channel, start: World, turns: seq<Turn>, w: World)
    requires Sane(u, start)
  {
    Legal(u, ch, start, turns) && w == Play(u, start, turns)
  }

  lemma Extend(u: Setup, ch: Channel, start: World, turns: seq<Turn>, w: World, t: Turn)
    requires Sane(u, start) && Reached(u, ch, start, turns, w) && Possible(u, ch, w, t)
    ensures Sane(u, w) && Reached(u, ch, start, turns + [t], Take(u, w, t))
  {
    assert (turns + [t])[..|turns|] == turns;
  }

  lemma ReachedLast(u: Setup, ch: Channel, w: World, more: seq<Turn>, front: seq<Turn>, t: Turn)
    requires Sane(u, w) && more == front + [t] && Legal(u, ch, w, more)
    ensures Reached(u, ch, w, front, Play(u, w, front)) && Possible(u, ch, Play(u, w, front), t)
    ensures Play(u, w, more) == Take(u, Play(u, w, front), t)
  {
    assert more[..|more| - 1] == front;
  }

  // What can be reached from somewhere reached can be reached.
  lemma {:induction false} ReachedFurther(
    u: Setup, ch: Channel, start: World, turns: seq<Turn>, w: World, more: seq<Turn>, w': World)
    requires Sane(u, start) && Sane(u, w) && Reached(u, ch, start, turns, w) && Reached(u, ch, w, more, w')
    ensures Reached(u, ch, start, turns + more, w')
    decreases |more|
  {
    if more == [] {
      assert turns + more == turns;
    } else {
      var front, t := more[..|more| - 1], more[|more| - 1];
      var mid := Play(u, w, front);
      ReachedLast(u, ch, w, more, front, t);
      ReachedFurther(u, ch, start, turns, w, front, mid);
      Extend(u, ch, start, turns + front, mid, t);
      assert turns + more == turns + front + [t];
    }
  }

  // ---------- The two ends by themselves ----------

  // What the receiver lives through in these turns, and what the sender does.
  function Events(turns: seq<Turn>): (events: seq<Event>)
    ensures |events| <= |turns|
  {
    if turns == [] then []
    else
      var last := turns[|turns| - 1];
      Events(turns[..|turns| - 1]) + if last.ReceiverTurn? then [last.e] else []
  }

  function Moves(turns: seq<Turn>): seq<Move> {
    if turns == [] then []
    else
      var last := turns[|turns| - 1];
      Moves(turns[..|turns| - 1]) + if last.SenderTurn? then [last.m] else []
  }

  lemma TakeReceiver(u: Setup, w: World, e: Event)
    requires Sane(u, w)
    ensures Take(u, w, ReceiverTurn(e)) == World(w.s, Step(u.c, w.r, e))
  {}

  lemma TakeSender(u: Setup, w: World, m: Move)
    requires Sane(u, w)
    ensures Take(u, w, SenderTurn(m)) == World(Next(u.job, w.s, m), w.r)
  {}

  lemma EventsAppendSnoc(a: seq<Turn>, front: seq<Turn>, t: Turn)
    requires Events(a + front) == Events(a) + Events(front)
    ensures Events(a + (front + [t])) == Events(a) + Events(front + [t])
  {
    assert a + (front + [t]) == a + front + [t];
    SplitSnoc(front, t);
    SplitSnoc(a + front, t);
    if t.ReceiverTurn? {
      Regroup(Events(a), Events(front), t.e);
    }
  }

  lemma Regroup(a: seq<Event>, b: seq<Event>, e: Event)
    ensures a + b + [e] == a + (b + [e])
  {}

  lemma {:induction false} EventsAppend(a: seq<Turn>, b: seq<Turn>)
    ensures Events(a + b) == Events(a) + Events(b)
    decreases |b|
  {
    if b == [] {
      assert a + b == a;
    } else {
      var front, t := b[..|b| - 1], b[|b| - 1];
      EventsAppend(a, front);
      assert b == front + [t];
      EventsAppendSnoc(a, front, t);
    }
  }

  // The receiver has run on its events, and the sender walked by its moves.
  ghost predicate Apart(u: Setup, w: World, turns: seq<Turn>, w': World)
    requires Sane(u, w)
  {
    w'.r == ReceiverMachine.Run(u.c, w.r, Events(turns)) && w'.s == Walk(u.job, w.s, Moves(turns))
  }

  lemma SplitSnoc(front: seq<Turn>, t: Turn)
    ensures Events(front + [t]) == if t.ReceiverTurn? then Events(front) + [t.e] else Events(front)
    ensures Moves(front + [t]) == if t.SenderTurn? then Moves(front) + [t.m] else Moves(front)
  {
    assert (front + [t])[..|front|] == front;
  }

  lemma ApartNext(u: Setup, w: World, front: seq<Turn>, t: Turn, mid: World)
    requires Sane(u, w) && Sane(u, mid) && Apart(u, w, front, mid)
    ensures Apart(u, w, front + [t], Take(u, mid, t))
  {
    SplitSnoc(front, t);
    match t
    case SenderTurn(m) =>
      TakeSender(u, mid, m);
      WalkSnoc(u.job, w.s, Moves(front), m);
    case ReceiverTurn(e) =>
      TakeReceiver(u, mid, e);
      RunSnoc(u.c, w.r, Events(front), e);
  }

  lemma ApartStart(u: Setup, w: World)
    requires Sane(u, w)
    ensures Apart(u, w, [], w) && Play(u, w, []) == w
  {}

  lemma ApartLonger(u: Setup, w: World, turns: seq<Turn>, front: seq<Turn>, mid: World, w': World)
    requires Sane(u, w) && turns != [] && front == turns[..|turns| - 1]
    requires mid == Play(u, w, front) && w' == Play(u, w, turns) && Apart(u, w, front, mid)
    ensures Apart(u, w, turns, w')
  {
    var last := turns[|turns| - 1];
    assert turns == front + [last] && w' == Take(u, mid, last);
    ApartNext(u, w, front, last, mid);
  }

  // So what holds of every run of one end holds of it in every play of both.
  lemma {:induction false} PlayIsRuns(u: Setup, w: World, turns: seq<Turn>)
    requires Sane(u, w)
    ensures Apart(u, w, turns, Play(u, w, turns))
    decreases |turns|
  {
    if turns == [] {
      ApartStart(u, w);
    } else {
      var front := turns[..|turns| - 1];
      PlayIsRuns(u, w, front);
      ApartLonger(u, w, turns, front, Play(u, w, front), Play(u, w, turns));
    }
  }

  // Each of the receiver's events is some turn, and was possible then.
  lemma {:induction false} EventTurn(u: Setup, ch: Channel, w: World, turns: seq<Turn>, k: nat) returns (t: nat)
    requires Sane(u, w) && Legal(u, ch, w, turns) && k < |Events(turns)|
    ensures t < |turns| && turns[t] == ReceiverTurn(Events(turns)[k])
    ensures Possible(u, ch, Play(u, w, turns[..t]), turns[t])
    decreases |turns|
  {
    var n := |turns| - 1;
    var front := turns[..n];
    if k < |Events(front)| {
      t := EventTurn(u, ch, w, front, k);
      assert turns[..t] == front[..t];
    } else {
      t := n;
    }
  }

  // ---------- Which host the sender follows ----------

  // The sender takes the first ACK it hears, from whatever host. If only the
  // receiver talks to it, that is the receiver.
  ghost predicate NoOtherHosts(u: Setup, turns: seq<Turn>) {
    forall t | t in turns && t.SenderTurn? && t.m.Some? && t.m.value.Heard? :: t.m.value.from == u.job.target
  }

  ghost predicate LockedOn(u: Setup, s: Sender) {
    s.stage.Greeting? || s.stage.Stopped? || s.peer == u.job.target
  }

  lemma {:induction false} PlayLocksOn(u: Setup, w: World, turns: seq<Turn>)
    requires Sane(u, w) && LockedOn(u, w.s) && NoOtherHosts(u, turns)
    ensures LockedOn(u, Play(u, w, turns).s)
    decreases |turns|
  {
    if turns != [] {
      var front, t := turns[..|turns| - 1], turns[|turns| - 1];
      assert t in turns && NoOtherHosts(u, front);
      PlayLocksOn(u, w, front);
    }
  }

  lemma SameHeaderSameKind(o: Bytes, d: Bytes)
    requires |o| >= HEADER_SIZE && |d| >= HEADER_SIZE && o[..HEADER_SIZE] == d[..HEADER_SIZE]
    ensures KindOf(o) == KindOf(d)
  {
    assert o[0] == o[..HEADER_SIZE][0] && d[0] == d[..HEADER_SIZE][0];
  }

  lemma ParsedKind(d: Bytes)
    requires Parse(d).Some?
    ensures KindOf(d) == Some(Parse(d).value.kind)
  {
    KindOfIsDecoded(d);
    assert d[..|d|] == d;
  }
}
