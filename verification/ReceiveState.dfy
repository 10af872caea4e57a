/**
 `ReceiveState` of src/lib/recv.rs with the fields it has there: a bitmap of
 64-bit words, a redundant count, a redundant frontier and the gap clock, beside
 a temp file on disk. Every method is proved against the plain `Session`.
 */
module ReceiveStates {
  import opened Options
  import opened Wire
  import opened Chunks
  import opened InitPacket
  import opened Paths
  import opened ChunkSets
  import opened Nacks
  import opened Sessions
  import opened ReceiverMachine
  import opened Sockets

  // The file system: a map from path to content. Each call is told whether it
  // succeeds.
  class Disk {
    var files: Files

    constructor (initial: Files)
      ensures files == initial
    {
      files := initial;
    }

    method Create(path: Path, ok: bool)
      modifies this
      ensures files == if ok then old(files)[path := []] else old(files)
    {
      if ok {
        files := files[path := []];
      }
    }

    method SetLen(path: Path, size: nat, ok: bool)
      requires path in files && files[path] == []
      modifies this
      ensures files == if ok then old(files)[path := seq(size, _ => 0)] else old(files)
    {
      if ok {
        files := files[path := seq(size, _ => 0)];
      }
    }

    // A failing write may have stored a prefix.
    method WriteAt(path: Path, data: Bytes, offset: nat, fails: Option<nat>)
      requires path in files && offset + |data| <= |files[path]|
      modifies this
      ensures fails == None ==> files == old(files)[path := Splice(old(files)[path], offset, data)]
      ensures fails != None ==>
        path in files && |files[path]| == |old(files)[path]| && files == old(files)[path := files[path]]
    {
      var n := if fails.Some? && fails.value < |data| then fails.value else |data|;
      files := files[path := Splice(files[path], offset, data[..n])];
      assert data[..|data|] == data;
    }

    method Remove(path: Path)
      modifies this
      ensures files == old(files) - {path}
    {
      files := files - {path};
    }

    method Rename(from: Path, to: Path, ok: bool)
      requires from in files
      modifies this
      ensures files == if ok then (old(files) - {from})[to := old(files)[from]] else old(files)
    {
      if ok {
        files := (files - {from})[to := files[from]];
      }
    }
  }

  class ReceiveState {
    const disk: Disk
    const sha: Sha
    const init: InitInfo
    const tmp: Path
    var received: seq<bv64>
    var count: nat
    var frontier: u32
    var oldestGapAt: Option<nat>

    ghost var got: set<nat>  // what the bitmap stands for

    // The redundant fields agree with the bitmap, and no stray bit is set.
    ghost predicate Valid()
      reads this, disk
    {
      init.Valid() && IsTmp(tmp) && tmp != init.path && tmp in disk.files && |disk.files[tmp]| == init.size &&
      |received| == Words(init.total) && Represents(received, got) && got <= Below(init.total) &&
      count == |got| && IsFrontier(got, frontier) && (oldestGapAt.Some? <==> GapOpen(got))
    }

    ghost function View(): (s: Session)
      requires Valid()
      reads this, disk
      ensures s.Valid()
    {
      Session(init, tmp, got, disk.files[tmp], oldestGapAt)
    }

    constructor (disk: Disk, sha: Sha, init: InitInfo, tmp: Path)
      requires init.Valid() && tmp == Fresh(init).tmp && tmp in disk.files
      requires disk.files[tmp] == Fresh(init).data
      ensures Valid() && View() == Fresh(init)
      ensures this.disk == disk && this.sha == sha
    {
      this.disk, this.sha, this.init, this.tmp := disk, sha, init, tmp;
      received := seq(DivCeil(init.total, WORD_BITS), _ => 0);
      count, frontier, oldestGapAt, got := 0, 0, None, {};
      new;
      ZeroBitmapEmpty(received);
      ChunkCountIsDivCeil(init.total, WORD_BITS);
    }

    // `new`: null stands for the error return. A temp file that was created but
    // could not be sized stays behind, empty.
    static method New(payload: Bytes, out: Option<Path>, disk: Disk, sha: Sha, env: Env) returns (state: ReceiveState?)
      modifies disk
      ensures var parsed := ParseInit(payload, out);
              if parsed.Err? || !env.creates then state == null && disk.files == old(disk.files)
              else if !env.sizes then state == null && disk.files == old(disk.files)[TmpPath(parsed.value.path) := []]
              else
                state != null && fresh(state) && state.disk == disk && state.sha == sha && state.Valid() &&
                state.View() == Fresh(parsed.value) &&
                disk.files == old(disk.files)[TmpPath(parsed.value.path) := Fresh(parsed.value).data]
    {
      var parsed := ParseInit(payload, out);
      if parsed.Err? {
        return null;
      }
      state := Create(parsed.value, TmpPath(parsed.value.path), disk, sha, env);
    }

    // The temp file, and the state that writes to it.
    static method Create(init: InitInfo, tmp: Path, disk: Disk, sha: Sha, env: Env) returns (state: ReceiveState?)
      requires init.Valid() && tmp == Fresh(init).tmp
      modifies disk
      ensures if !env.creates then state == null && disk.files == old(disk.files)
              else if !env.sizes then state == null && disk.files == old(disk.files)[tmp := []]
              else
                state != null && fresh(state) && state.disk == disk && state.sha == sha && state.Valid() &&
                state.View() == Fresh(init) && disk.files == old(disk.files)[tmp := Fresh(init).data]
    {
      disk.Create(tmp, env.creates);
      if !env.creates {
        return null;
      }
      disk.SetLen(tmp, init.size, env.sizes);
      if !env.sizes {
        return null;
      }
      assert seq(init.size, _ => 0) == Fresh(init).data;
      state := new ReceiveState(disk, sha, init, tmp);
    }

    method IsReceived(chunk: nat) returns (r: bool)
      requires chunk < |received| * WORD_BITS && Represents(received, got)
      ensures r <==> chunk in got
    {
      r := IsSet(received, chunk);
    }

    method MarkReceived(chunk: nat)
      requires chunk < |received| * WORD_BITS && Represents(received, got)
      modifies this`received, this`got
      ensures |received| == |old(received)| && got == old(got) + {chunk} && Represents(received, got)
    {
      SetBitExact(received, got, chunk);
      received := SetBit(received, chunk);
      got := got + {chunk};
    }

    predicate Full()
      requires Valid()
      reads this, disk
      ensures Full() <==> View().Full()
    {
      CountIsTotal(got, init.total);
      count == init.total
    }

    predicate HasOpenGap()
      requires IsFrontier(got, frontier) && count == |got|
      reads this
      ensures HasOpenGap() <==> GapOpen(got)
    {
      FrontierUnique(got, frontier);
      CountBelowFrontier(got);
      count < frontier
    }

    method RefreshGapClock(now: nat)
      requires IsFrontier(got, frontier) && count == |got|
      modifies this`oldestGapAt
      ensures oldestGapAt == if !GapOpen(got) then None
                             else if old(oldestGapAt).Some? then old(oldestGapAt) else Some(now)
    {
      if HasOpenGap() {
        oldestGapAt := if oldestGapAt.Some? then oldestGapAt else Some(now);
      } else {
        oldestGapAt := None;
      }
    }

    // The bookkeeping after a write: bitmap, count, frontier, gap clock.
    method Record(chunk: nat, now: nat)
      requires chunk < init.total <= |received| * WORD_BITS && init.total <= MAX_TOTAL_CHUNKS
      requires Represents(received, got)
      requires chunk !in got && got <= Below(init.total)
      requires count == |got| && IsFrontier(got, frontier)
      modifies this
      ensures |received| == |old(received)| && got == old(got) + {chunk} && Represents(received, got)
      ensures count == |got| && IsFrontier(got, frontier)
      ensures oldestGapAt == if !GapOpen(got) then None
                             else if old(oldestGapAt).Some? then old(oldestGapAt) else Some(now)
    {
      AddChunk(got, frontier, chunk);
      MarkReceived(chunk);
      count := count + 1;
      frontier := if frontier > chunk + 1 then frontier else chunk + 1;
      RefreshGapClock(now);
    }

    // One chunk goes to its offset in the temp file.
    method WriteChunk(chunk: u32, data: Bytes, fails: Option<nat>) returns (ok: bool)
      requires init.Valid() && tmp in disk.files && |disk.files[tmp]| == init.size
      requires chunk < init.total && |data| == ChunkLen(init.size, init.chunkSize, chunk)
      modifies disk
      ensures ok <==> fails == None
      ensures tmp in disk.files && |disk.files[tmp]| == init.size
      ensures disk.files == old(disk.files)[tmp := disk.files[tmp]]
      ensures ok ==>
        disk.files[tmp]
          == Splice(old(disk.files[tmp]), ChunkStart(init.chunkSize, chunk), data)
    {
      ChunkStartIsProduct(init.chunkSize, chunk);
      disk.WriteAt(tmp, data, chunk * init.chunkSize, fails);
      ok := fails == None;
    }

    method StoreNew(chunk: u32, data: Bytes, now: nat, fails: Option<nat>) returns (ok: bool)
      requires Valid() && View().Storable(chunk, data) && chunk !in got
      modifies this, disk
      ensures Valid() && disk.files == old(disk.files)[tmp := disk.files[tmp]]
      ensures ok ==> View() == Sessions.Store(old(View()), chunk, data, now)
      ensures ok <==> fails == None
    {
      ok := WriteChunk(chunk, data, fails);
      if ok {
        Record(chunk, now);
      }
    }

    method Store(chunk: u32, data: Bytes, now: nat, fails: Option<nat>) returns (ok: bool)
      requires Valid()
      modifies this, disk
      ensures Valid() && disk.files == old(disk.files)[tmp := disk.files[tmp]]
      ensures ok ==> View() == Sessions.Store(old(View()), chunk, data, now)
      ensures ok <==> Sessions.Store(old(View()), chunk, data, now) == old(View()) || fails == None
    {
      if chunk >= init.total {
        return true;
      }
      var duplicate := IsReceived(chunk);
      if duplicate {
        return true;
      }
      var expected := ChunkLen(init.size, init.chunkSize, chunk);
      if |data| != expected {
        return true;
      }
      StoreChanges(View(), chunk, data, now);
      ok := StoreNew(chunk, data, now, fails);
    }

    method AcceptData(chunk: u32, payload: Bytes, now: nat, fails: Option<nat>) returns (ok: bool)
      requires Valid()
      modifies this, disk
      ensures Valid() && disk.files == old(disk.files)[tmp := disk.files[tmp]]
      ensures ok ==> View() == Accept(sha, old(View()), chunk, payload, now)
      ensures ok <==> Accept(sha, old(View()), chunk, payload, now) == old(View()) || fails == None
    {
      match VerifiedBody(sha, init.version, payload)
      case Some(body) => ok := Store(chunk, body, now, fails);
      case None => ok := true;
    }

    method CollectMissing(upto: u32) returns (missing: seq<u32>)
      requires Valid()
      ensures missing == MissingBelow(got, if upto < init.total then upto else init.total)
    {
      var bound := if upto < init.total then upto else init.total;
      missing := [];
      for chunk := 0 to bound
        invariant missing == MissingBelow(got, chunk)
      {
        var present := IsReceived(chunk);
        if !present {
          missing := missing + [chunk];
        }
      }
    }

    method EmitNacks(sock: Socket<Event>, to: Addr, missing: seq<u32>) returns (ok: bool)
      modifies sock`sent, sock`budget
      ensures ok <==> old(sock.budget) >= |NackPackets(missing)|
      ensures sock.sent == old(sock.sent) + Sends(to, FirstOf(NackPackets(missing), old(sock.budget)))
    {
      var rest := missing;
      ghost var all, done := NackPackets(missing), [];
      while rest != []
        invariant all == done + NackPackets(rest)
        invariant sock.budget == old(sock.budget) - |done|
        invariant sock.sent == old(sock.sent) + Sends(to, done)
        decreases |rest|
      {
        var n := BatchSize(rest);
        ghost var packet := NackPacket(rest[..n]);
        NextOfAll(all, done, rest);
        var sent := sock.SendPacket(to, Nack, n, EncodeNacks(rest[..n]));
        if !sent {
          PrefixIsFirst(all, done, NackPackets(rest));
          return false;
        }
        SendsSnoc(to, done, packet);
        done := done + [packet];
        rest := rest[n..];
      }
      assert done == all;
      ok := true;
    }

    method SendNacks(sock: Socket<Event>, to: Addr) returns (ok: bool)
      requires Valid()
      modifies sock`sent, sock`budget
      ensures var packets := NackPackets(MissingBelow(got, init.total));
              ok == (old(sock.budget) >= |packets|) &&
              sock.sent == old(sock.sent) + Sends(to, FirstOf(packets, old(sock.budget)))
    {
      var missing := CollectMissing(init.total);
      ok := EmitNacks(sock, to, missing);
    }

    method NackGaps(sock: Socket<Event>, to: Addr) returns (ok: bool)
      requires Valid()
      modifies sock`sent, sock`budget
      ensures var packets := NackPackets(MissingBelow(got, frontier));
              ok == (old(sock.budget) >= |packets|) &&
              sock.sent == old(sock.sent) + Sends(to, FirstOf(packets, old(sock.budget)))
    {
      FrontierBounded(got, frontier, init.total);
      var missing := CollectMissing(frontier);
      if missing == [] {
        return true;
      }
      ok := EmitNacks(sock, to, missing);
    }

    // `flush` around `finalize`: on any failure the temp file goes.
    method Flush(env: Env) returns (failure: Option<Failure>)
      requires Valid()
      modifies disk
      ensures failure == FinalizeError(sha, old(View()), env)
      ensures failure.Some? ==> disk.files == old(disk.files) - {tmp}
      ensures failure.None? ==>
        disk.files == (old(disk.files) - {tmp})[init.path := old(View()).data]
    {
      failure := Finalize(env);
      if failure.Some? {
        disk.Remove(tmp);
      }
    }

    method Finalize(env: Env) returns (failure: Option<Failure>)
      requires Valid()
      modifies disk
      ensures failure == FinalizeError(sha, old(View()), env)
      ensures failure.Some? ==> disk.files == old(disk.files)
      ensures failure.None? ==>
        disk.files == (old(disk.files) - {tmp})[init.path := old(View()).data]
    {
      if !env.syncs {
        return Some(SyncFailed);
      }
      if !env.rereads {
        return Some(ReadFailed);
      }
      if sha(disk.files[tmp]) != init.hash {
        return Some(HashMismatch);
      }
      disk.Rename(tmp, init.path, env.renames);
      failure := if env.renames then None else Some(RenameFailed);
    }
  }

  // The plain session fixes every redundant field: two receivers that hold the
  // same chunks of the same transfer have the same bitmap, count and frontier.
  lemma ViewFixesFields(a: ReceiveState, b: ReceiveState)
    requires a.Valid() && b.Valid() && a.init == b.init && a.View().got == b.View().got
    ensures a.received == b.received && a.count == b.count && a.frontier == b.frontier
  {
    BitmapUnique(a.received, b.received, a.got);
    FrontierUnique(a.got, a.frontier);
    FrontierUnique(b.got, b.frontier);
  }

  // How many words the bitmap has: `total` bits, rounded up.
  function Words(total: nat): (n: nat)
    ensures total <= n * WORD_BITS
  {
    WordsSuffice(total);
    ChunkCount(total, WORD_BITS)
  }

  lemma WordsSuffice(total: nat)
    ensures total <= ChunkCount(total, WORD_BITS) * WORD_BITS
  {
    ChunkCountIsDivCeil(total, WORD_BITS);
  }

  lemma StoreChanges(s: Session, chunk: nat, body: Bytes, now: nat)
    requires s.Valid() && s.Storable(chunk, body) && chunk !in s.got
    ensures Sessions.Store(s, chunk, body, now) != s
  {
    assert chunk in Sessions.Store(s, chunk, body, now).got;
  }

  lemma FrontierBounded(got: set<nat>, f: nat, total: nat)
    requires IsFrontier(got, f) && got <= Below(total)
    ensures f <= total
  {
    if f > 0 {
      assert f - 1 in Below(total);
    }
  }

  lemma AddChunk(got: set<nat>, f: nat, chunk: nat)
    requires IsFrontier(got, f) && chunk !in got
    ensures |got + {chunk}| == |got| + 1
    ensures IsFrontier(got + {chunk}, if f > chunk + 1 then f else chunk + 1)
  {}

  lemma PrefixIsFirst(all: seq<Bytes>, done: seq<Bytes>, rest: seq<Bytes>)
    requires all == done + rest && rest != []
    ensures FirstOf(all, |done|) == done
  {}

  lemma NextOfAll(all: seq<Bytes>, done: seq<Bytes>, rest: seq<u32>)
    requires all == done + NackPackets(rest) && rest != []
    ensures var n := BatchSize(rest);
            all == done + [NackPacket(rest[..n])] + NackPackets(rest[n..])
  {
    NackPacketsStep(rest);
  }

  lemma SendsSnoc(to: Addr, packets: seq<Bytes>, packet: Bytes)
    ensures Sends(to, packets + [packet]) == Sends(to, packets) + [Outgoing(to, packet)]
  {}
}
