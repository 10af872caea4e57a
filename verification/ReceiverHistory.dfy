/**
 How every saved file came about, over whole runs of the receiver: which event
 opened the session, that it stayed open, and which DONE saved it and where.
 */
module ReceiverHistory {
  import opened Options
  import opened ReceiverMachine
  import ReceiverSessions
  import ReceiverFiles

  // ---------- Where a session comes from ----------

  ghost predicate SameTransfer(a: Receiver, b: Receiver) {
    a.session.Some? && b.session.Some? && a.session.value.init == b.session.value.init && a.sender == b.sender
  }

  // Event `k` opened the session that is open after `n` events, and it has been
  // the same session ever since.
  ghost predicate OpenSince(c: Config, r: Receiver, events: seq<Event>, k: nat, n: nat)
    requires r.Valid() && n <= |events|
  {
    var now := StateAt(c, r, events, n);
    k < n && StateAt(c, r, events, k).session.None? && now.session.Some? &&
    Opens(c, events[k], now.session.value.init, now.sender) &&
    forall j | k < j <= n :: SameTransfer(StateAt(c, r, events, j), now)
  }

  lemma NextTransfer(c: Config, r: Receiver, events: seq<Event>, n: nat, before: Receiver, after: Receiver)
    requires r.Valid() && n < |events| && before == StateAt(c, r, events, n) && after == StateAt(c, r, events, n + 1)
    requires after.session.Some?
    ensures if before.session.None? then Opens(c, events[n], after.session.value.init, after.sender)
            else SameTransfer(before, after)
  {
    StateAtNext(c, r, events, n);
    StepSession(c, before, events[n]);
  }

  lemma OpenLonger(c: Config, r: Receiver, events: seq<Event>, k: nat, n: nat)
    requires r.Valid() && n < |events| && OpenSince(c, r, events, k, n)
    requires SameTransfer(StateAt(c, r, events, n), StateAt(c, r, events, n + 1))
    ensures OpenSince(c, r, events, k, n + 1)
  {}

  // In every run, an open session was opened by an acceptable INIT from the host
  // it is locked to, and has been open since.
  lemma {:induction false} SessionBegan(c: Config, r: Receiver, events: seq<Event>, n: nat) returns (k: nat)
    requires r.Valid() && r.session.None? && n <= |events| && StateAt(c, r, events, n).session.Some?
    ensures OpenSince(c, r, events, k, n)
  {
    assert StateAt(c, r, events, 0) == r;
    var before := StateAt(c, r, events, n - 1);
    NextTransfer(c, r, events, n - 1, before, StateAt(c, r, events, n));
    if before.session.None? {
      k := n - 1;
    } else {
      k := SessionBegan(c, r, events, n - 1);
      OpenLonger(c, r, events, k, n - 1);
    }
  }

  // ---------- Where a save comes from ----------

  lemma SavesMembers(log: seq<Action>, a: Action)
    ensures a in ReceiverFiles.Saves(log) <==> a in log && a.Committed?
    decreases |log|
  {
    if log != [] {
      SavesMembers(log[..|log| - 1], a);
      assert log == log[..|log| - 1] + [log[|log| - 1]];
    }
  }

  lemma StepKeepsCommits(c: Config, r: Receiver, e: Event, a: Action)
    requires r.Valid() && a in r.log && a.Committed?
    ensures a in Step(c, r, e).log
  {
    ReceiverFiles.StepSaves(c, r, e);
    SavesMembers(r.log, a);
    SavesMembers(Step(c, r, e).log, a);
  }

  lemma NewCommit(c: Config, r: Receiver, e: Event, a: Action)
    requires r.Valid() && a in Step(c, r, e).log && a.Committed?
    ensures a in r.log ||
      (r.session.Some? && ReceiverSessions.EndsSaved(c, r, Step(c, r, e)) &&
       a == Committed(r.sender.value, r.session.value.init, r.session.value.data))
  {
    ReceiverFiles.StepSaves(c, r, e);
    SavesMembers(r.log, a);
    SavesMembers(Step(c, r, e).log, a);
  }

  // Event `n` ended the session with this save: all chunks there, the declared
  // hash, and the file put in place.
  ghost predicate SavedAt(c: Config, r: Receiver, events: seq<Event>, n: nat, a: Action)
    requires r.Valid() && n < |events|
  {
    var before := StateAt(c, r, events, n);
    before.session.Some? && ReceiverSessions.EndsSaved(c, before, StateAt(c, r, events, n + 1)) &&
    a == Committed(before.sender.value, before.session.value.init, before.session.value.data)
  }

  lemma {:induction false} SaveHappened(c: Config, r: Receiver, events: seq<Event>, m: nat, a: Action) returns (n: nat)
    requires r.Valid() && m <= |events| && a.Committed? && a !in r.log && a in StateAt(c, r, events, m).log
    ensures n < m && SavedAt(c, r, events, n, a)
  {
    assert StateAt(c, r, events, 0) == r;
    StateAtNext(c, r, events, m - 1);
    NewCommit(c, StateAt(c, r, events, m - 1), events[m - 1], a);
    if a in StateAt(c, r, events, m - 1).log {
      n := SaveHappened(c, r, events, m - 1, a);
    } else {
      n := m - 1;
    }
  }

  // Event `k` opened the session and event `n` saved its file.
  ghost predicate SavedFrom(c: Config, r: Receiver, events: seq<Event>, k: nat, n: nat, a: Action)
    requires r.Valid()
  {
    n < |events| && SavedAt(c, r, events, n, a) && OpenSince(c, r, events, k, n)
  }

  // The whole story of a saved file: an INIT from its host that arrived, a session
  // open without a break, and a DONE that found it full and hashing to what that
  // INIT declared.
  lemma SaveExplained(c: Config, r: Receiver, events: seq<Event>, a: Action) returns (k: nat, n: nat)
    requires r.Valid() && r.session.None? && a.Committed? && a !in r.log && a in Run(c, r, events).log
    ensures SavedFrom(c, r, events, k, n, a)
    ensures Opens(c, events[k], a.init, Some(a.peer)) && c.sha(a.file) == a.init.hash
  {
    assert events[..|events|] == events;
    n := SaveHappened(c, r, events, |events|, a);
    k := SessionBegan(c, r, events, n);
  }
}
