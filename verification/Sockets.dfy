/**
 A UDP socket as both endpoints use it: what is still to be read from it, and what
 was sent. A budget says how many more sends succeed before one fails.
 */
module Sockets {
  import opened Wire

  class Socket<Input> {
    var inbox: seq<Input>
    var sent: seq<Outgoing>
    var budget: nat

    constructor (inbox: seq<Input>, budget: nat)
      ensures this.inbox == inbox && sent == [] && this.budget == budget
    {
      this.inbox, sent, this.budget := inbox, [], budget;
    }

    method Take() returns (input: Input)
      requires inbox != []
      modifies this`inbox
      ensures input == old(inbox)[0] && inbox == old(inbox)[1..]
    {
      input := inbox[0];
      inbox := inbox[1..];
    }

    method Send(to: Addr, datagram: Bytes) returns (ok: bool)
      modifies this`sent, this`budget
      ensures ok == (old(budget) > 0)
      ensures if ok then sent == old(sent) + [Outgoing(to, datagram)] && budget == old(budget) - 1
              else sent == old(sent) && budget == old(budget)
    {
      ok := budget > 0;
      if ok {
        sent := sent + [Outgoing(to, datagram)];
        budget := budget - 1;
      }
    }

    // `send_packet`: the header and the payload behind it.
    method SendPacket(to: Addr, kind: PacketType, seqNo: u32, payload: Bytes) returns (ok: bool)
      modifies this`sent, this`budget
      ensures ok == (old(budget) > 0)
      ensures if ok then sent == old(sent) + [Outgoing(to, Packet(kind, seqNo, payload))] && budget == old(budget) - 1
              else sent == old(sent) && budget == old(budget)
    {
      var datagram := Frame(Header(kind, seqNo, CastU16(|payload|)), payload);
      ok := Send(to, datagram);
    }

    method SendControl(to: Addr, kind: PacketType, seqNo: u32) returns (ok: bool)
      modifies this`sent, this`budget
      ensures ok == (old(budget) > 0)
      ensures if ok then sent == old(sent) + [Outgoing(to, Control(kind, seqNo))] && budget == old(budget) - 1
              else sent == old(sent) && budget == old(budget)
    {
      ok := SendPacket(to, kind, seqNo, []);
    }
  }
}
