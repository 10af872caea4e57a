/**
 The NACK path from the receiver's list of missing chunks to the sender's list of
 chunks to resend: split into datagrams, encode, frame, parse, decode.
 */
module Nacks {
  import opened Options
  import opened Wire
  import ChunkSets

  function NackPacket(batch: seq<u32>): Bytes
    requires |batch| <= MAX_NACKS_PER_PACKET
  {
    Packet(Nack, |batch|, EncodeNacks(batch))
  }

  // The next batch of Rust's `chunks(MAX_NACKS_PER_PACKET)`.
  function BatchSize(missing: seq<u32>): (n: nat)
    ensures n <= |missing| && (missing != [] ==> n > 0)
  {
    if |missing| <= MAX_NACKS_PER_PACKET then |missing| else MAX_NACKS_PER_PACKET
  }

  function NackPackets(missing: seq<u32>): (packets: seq<Bytes>)
    ensures missing == [] <==> packets == []
  {
    if missing == [] then []
    else
      var n := BatchSize(missing);
      [NackPacket(missing[..n])] + NackPackets(missing[n..])
  }

  lemma NackPacketsStep(missing: seq<u32>)
    requires missing != []
    ensures var n := BatchSize(missing);
            NackPackets(missing) == [NackPacket(missing[..n])] + NackPackets(missing[n..])
  {}

  // The chunk numbers a datagram asks for; anything but a NACK asks for none.
  function Requested(datagram: Bytes): seq<u32> {
    match Parse(datagram)
    case Some(Message(Nack, count, payload)) => DecodeNacks(count, payload)
    case _ => []
  }

  function RequestedByAll(datagrams: seq<Bytes>): seq<u32> {
    if datagrams == [] then [] else Requested(datagrams[0]) + RequestedByAll(datagrams[1..])
  }

  // Each datagram fits, and carries its batch unchanged.
  lemma NackPacketExact(batch: seq<u32>)
    requires |batch| <= MAX_NACKS_PER_PACKET
    ensures Requested(NackPacket(batch)) == batch
    ensures |NackPacket(batch)| <= MAX_UDP_PAYLOAD
    ensures Parse(NackPacket(batch)) == Some(Message(Nack, |batch|, EncodeNacks(batch)))
  {
    ParsePacketOf(Nack, |batch|, EncodeNacks(batch));
    NackRoundTrip(batch);
  }

  lemma {:induction false} NackPacketsAreNacks(missing: seq<u32>)
    ensures forall p | p in NackPackets(missing) :: KindOf(p) == Some(Nack) && |p| <= MAX_UDP_PAYLOAD
  {
    if missing != [] {
      var n := BatchSize(missing);
      NackPacketExact(missing[..n]);
      KindOfPacket(Nack, n, EncodeNacks(missing[..n]));
      NackPacketsAreNacks(missing[n..]);
    }
  }

  lemma {:induction false} NackPacketCount(missing: seq<u32>)
    ensures |NackPackets(missing)| == (|missing| + 16374) / 16375
    decreases |missing|
  {
    if missing != [] {
      NackPacketsStep(missing);
      NackPacketCount(missing[BatchSize(missing)..]);
    }
  }

  // The numbers from place `from` on that one datagram takes.
  function Batch(missing: seq<u32>, from: nat): (batch: seq<u32>)
    requires from <= |missing|
    ensures |batch| <= MAX_NACKS_PER_PACKET
  {
    missing[from..if from + 16375 < |missing| then from + 16375 else |missing|]
  }

  lemma FirstBatch(missing: seq<u32>)
    requires missing != []
    ensures missing[..BatchSize(missing)] == Batch(missing, 0)
    ensures |missing| > 16375 ==> BatchSize(missing) == 16375
  {}

  lemma BatchOfRest(missing: seq<u32>, rest: seq<u32>, from: nat)
    requires 16375 <= from <= |missing| && rest == missing[16375..]
    ensures Batch(missing, from) == Batch(rest, from - 16375)
  {
    var to := if from + 16375 < |missing| then from + 16375 else |missing|;
    assert rest[from - 16375..to - 16375] == missing[from..to];
  }

  lemma HeadAndTail(all: seq<Bytes>, head: Bytes, tail: seq<Bytes>, i: nat)
    requires all == [head] + tail && i < |all|
    ensures all[i] == if i == 0 then head else tail[i - 1]
  {}

  // Every datagram but the last is full: 16375 numbers each, in order.
  lemma {:induction false} NackPacketAt(missing: seq<u32>, i: nat, from: nat)
    requires from == 16375 * i && from < |missing|
    ensures i < |NackPackets(missing)| && NackPackets(missing)[i] == NackPacket(Batch(missing, from))
    decreases i
  {
    FirstBatch(missing);
    NackPacketsStep(missing);
    var rest := missing[BatchSize(missing)..];
    if i > 0 {
      NackPacketAt(rest, i - 1, from - 16375);
      BatchOfRest(missing, rest, from);
    }
    HeadAndTail(NackPackets(missing), NackPacket(Batch(missing, 0)), NackPackets(rest), i);
  }

  predicate IsNack(datagram: Bytes) {
    Parse(datagram).Some? && Parse(datagram).value.kind == Nack
  }

  lemma {:induction false} NackPacketsParse(missing: seq<u32>)
    ensures forall p | p in NackPackets(missing) :: IsNack(p)
  {
    if missing != [] {
      var n := BatchSize(missing);
      NackPacketExact(missing[..n]);
      NackPacketsParse(missing[n..]);
    }
  }

  lemma {:induction false} RequestedByAllSnoc(ds: seq<Bytes>, d: Bytes)
    ensures RequestedByAll(ds + [d]) == RequestedByAll(ds) + Requested(d)
  {
    if ds == [] {
      assert ([] + [d])[1..] == [];
    } else {
      assert (ds + [d])[1..] == ds[1..] + [d];
      RequestedByAllSnoc(ds[1..], d);
    }
  }

  lemma RequestedByAllCons(all: seq<Bytes>, d: Bytes, ds: seq<Bytes>, first: seq<u32>, rest: seq<u32>)
    requires all == [d] + ds && Requested(d) == first && RequestedByAll(ds) == rest
    ensures RequestedByAll(all) == first + rest
  {
    assert all[1..] == ds;
  }

  lemma NextPacketRequests(missing: seq<u32>, first: seq<u32>, rest: seq<u32>)
    requires missing == first + rest && |first| <= MAX_NACKS_PER_PACKET
    requires NackPackets(missing) == [NackPacket(first)] + NackPackets(rest)
    requires RequestedByAll(NackPackets(rest)) == rest
    ensures RequestedByAll(NackPackets(missing)) == missing
  {
    NackPacketExact(first);
    RequestedByAllCons(NackPackets(missing), NackPacket(first), NackPackets(rest), first, rest);
  }

  // In order and complete, the datagrams carry exactly the missing list.
  lemma {:induction false} NackPipelineRoundTrip(missing: seq<u32>)
    ensures RequestedByAll(NackPackets(missing)) == missing
  {
    if missing != [] {
      var n := BatchSize(missing);
      var first, rest := missing[..n], missing[n..];
      NackPipelineRoundTrip(rest);
      NackPacketsStep(missing);
      NextPacketRequests(missing, first, rest);
    }
  }

  // Whatever datagrams arrive, in whatever order and however often, they ask
  // for the union of their lists.
  lemma {:induction false} RequestedUnion(datagrams: seq<Bytes>, x: u32)
    ensures x in RequestedByAll(datagrams) <==> exists d :: d in datagrams && x in Requested(d)
  {
    if datagrams != [] {
      RequestedUnion(datagrams[1..], x);
      assert datagrams == [datagrams[0]] + datagrams[1..];
    }
  }

  // Reordered or repeated, a complete set of datagrams still asks for every
  // missing chunk and no other.
  lemma NacksSurviveReordering(missing: seq<u32>, arrived: seq<Bytes>)
    requires forall d :: d in arrived <==> d in NackPackets(missing)
    ensures ChunkSets.Elements(RequestedByAll(arrived)) == ChunkSets.Elements(missing)
  {
    NackPipelineRoundTrip(missing);
    forall x: u32 ensures x in RequestedByAll(arrived) <==> x in missing {
      RequestedUnion(arrived, x);
      RequestedUnion(NackPackets(missing), x);
    }
  }
}
